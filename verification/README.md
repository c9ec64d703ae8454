# Travel planner core, modelled in Dafny

This project models the pure core of a client-side trip planner written in
TypeScript and React. The core has three parts.

1. **The activity tag codec** (`src/services/mapService.ts`). A planned
   activity is a plain string. It may carry the inline tags `[at: …]`
   (a location) and `[time: …]` (a time).
   - `parseActivityString` reads such a string into a record
     `{text, location?, time?}`.
   - `formatActivityWithTags` writes a record back out.
   - `addLocationToActivity` and `updateLocationInActivity` overwrite the
     location.
   - `dayPlanToMapActivities` numbers a day's activities for the map and
     guesses missing locations from a landmark gazetteer
     (`extractPossibleLocation`).
2. **The itinerary state transitions** (`src/App.tsx`,
   `src/components/DayPlanner.tsx`). The model lifts the component
   handlers into pure functions over the list of day plans, the selected
   day id and the view mode. They cover:
   - deriving one plan per trip day;
   - replacing a day by id;
   - appending, removing and moving activities;
   - dragging days and activities;
   - adding an activity with a fallback to the first day;
   - selecting the day of a date.
3. **Lookups with fallbacks over constant tables**:
   - suggested activities per destination (`src/data/popularActivities.ts`);
   - language code, language name and mock phrase translations
     (`src/services/translationService.ts`);
   - emergency information per country (`src/services/emergencyInfoService.ts`).

## Representation

- **Tag regular expression.** The expression `/\[at: (.*?)\]/i` is modelled
  exactly:
  - a `[`;
  - the keyword, matched ASCII case-insensitively;
  - a colon and exactly one space;
  - the shortest value that reaches a `]` without crossing a line
    terminator (`\n`, `\r`, U+2028 or U+2029).

  `TagAt` matches the tag at the start of a string. `FirstTag` is
  `String.prototype.match`. `Strip` is the global `replace`, which resumes
  scanning after each removed tag.
- **Other JavaScript string functions.**
  - `Trim` is `String.prototype.trim` over the ECMAScript white-space and
    line-terminator sets.
  - `ToLower` is `toLowerCase` for ASCII, the Latin-1 capitals, Œ, Ÿ,
    the Kelvin sign and İ. Every other character is kept as it is.
  - `IndexOf` and `RemoveFirst` are `indexOf` and the non-global string
    `replace`.
- **Truthiness.** An optional string is truthy only when it is present and
  non-empty (`Wrappers.Truthy`). The source's `if (x)` tests are modelled
  this way.
- **Dates and ids.** Dates are integer day numbers. After `startOfDay`,
  `isSameDay` becomes equality and `differenceInDays` becomes subtraction.
  Ids of new day plans are supplied by the caller. Distinct ids are a
  precondition where a property needs them.
- **Splice moves.** `Array.prototype.splice` is modelled with JavaScript's
  relative (negative) indices (`Splice.RelativeIndex`). A move removes the
  source element and inserts it at the destination index of the shortened
  list.
- **Record lookups.** Table lookups are Dafny maps: exact and
  case-sensitive.

## Model

| member | source | states |
|---|---|---|
| MapService.TagAt | src/services/mapService.ts:6 | a tag found at the start of a string opens with the keyword and one space, and its value is followed by `]` and holds no line terminator or `]` |
| MapService.TagAtNone | src/services/mapService.ts:6 | when a string opens a tag but no tag matches, every `]` after the header is preceded by a line terminator |
| MapService.FirstTag | src/services/mapService.ts:6-11 | a capture that `match` returns is a valid tag value, with no `]` and no line terminator, and its whole match fits in the string |
| MapService.FirstTagNoneIff | src/services/mapService.ts:6-11 | `match` finds nothing exactly when no position of the string starts a tag, so a missing tag gives an absent field, never an error |
| MapService.FirstTagIsLeftmost | src/services/mapService.ts:6-11 | the value `match` returns is the tag at the leftmost position where a tag starts |
| MapService.Parse | src/services/mapService.ts:4-24 | the parsed text has no leading or trailing white space; a parsed location or time is a valid tag value |
| MapService.Strip | src/services/mapService.ts:15-16 | removing tags never lengthens the text |
| MapService.StripRender | src/services/mapService.ts:15-16 | removing every tag of one kind from tagged text leaves the text with exactly those tags dropped and the other kind untouched |
| MapService.FirstTagRender | src/services/mapService.ts:6-11 | on tagged text, `match` returns the value of the first tag of the kind asked for |
| MapService.ParseRender | src/services/mapService.ts:4-24 | a string of plain fragments and tags parses to the trimmed plain text, the first location and the first time; the text then has no `[` |
| MapService.ParseBracketFree | src/services/mapService.ts:4-24 | a string without `[` parses to its trimmed self with no location and no time |
| MapService.ReparseText | src/services/mapService.ts:4-24 | when the parsed text has no `[`, parsing it again gives the same text and no tags |
| MapService.SplicedTagSurvives | src/services/mapService.ts:14-17 | removing tags can join two fragments into a new tag: `[at[at: x]: y]` has location `x` and keeps `[at: y]` in its text |
| MapService.Format | src/services/mapService.ts:125-137 | an activity with neither a non-empty location nor a non-empty time is written as its bare text |
| MapService.FormatRendersPieces | src/services/mapService.ts:125-137 | `format` emits the text, then ` [at: L]` only for a non-empty location, then ` [time: H]` only for a non-empty time |
| MapService.FormatIgnoresEmptyFields | src/services/mapService.ts:128-133 | an empty-string location or time formats as if it were absent |
| MapService.RoundTrip | src/services/mapService.ts:125-137 | parsing what `format` wrote gives the record back when its text is trimmed and has no `[`, and its location and time are each absent or non-empty and free of `[`, `]` and line terminators |
| MapService.AddLocationToActivity | src/services/mapService.ts:140-144 | when the new location is non-empty and free of `[`, `]` and line terminators, and the parsed text and time have no `[`, the result parses to the original text and (non-empty) time with the new location |
| MapService.UpdateLocationInActivity | src/services/mapService.ts:147-151 | gives the same result as adding a location, for every input |
| MapService.SetLocationOnTimedActivity | src/services/mapService.ts:125-144 | setting a location on a timed activity keeps its text and time and records the location |
| MapService.FirstMentioned | src/services/mapService.ts:82-88 | the landmark returned is the first in table order that the text mentions, and no landmark is returned only when none is mentioned |
| MapService.ScanTable | src/services/mapService.ts:80-88 | the nested loop over cities and landmarks returns the first landmark, in city-then-list order, contained in the lowered text |
| MapService.ScanGazetteer | src/services/mapService.ts:53-88 | scanning the fixed landmark table agrees with the first-mention definition, whatever the trip destination |
| MapService.ExtractPossibleLocation | src/services/mapService.ts:80-122 | a gazetteer hit is returned as is; otherwise the answer of the later phrase rules is returned |
| MapService.EiffelTowerIsFound | src/services/mapService.ts:53-88 | any text containing "Eiffel Tower" is located at the Eiffel Tower, the first landmark of the table |
| MapService.ToMapActivity | src/services/mapService.ts:32-49 | the entry is numbered from 1, titled with the parsed text and carries the parsed time; a non-empty tagged location is kept and not auto-detected; otherwise the location is inferred, and the entry is auto-detected exactly when inference found one |
| MapService.DayPlanToMapActivities | src/services/mapService.ts:27-49 | one entry per activity in order, numbered from 1, titled with the parsed text, with the parsed time; an explicit non-empty location is kept and not auto-detected; otherwise the location is inferred, and it counts as auto-detected exactly when inference found one |
| MapService.ExplicitLocationWins | src/services/mapService.ts:36-47 | a tagged location beats inference: it becomes the entry's location and is not marked auto-detected |
| JsString.Trim | src/services/mapService.ts:17 | the result is a contiguous part of the input with no white space at either end |
| JsString.TrimRemovesWhitespace | src/services/mapService.ts:17 | everything that trimming cuts off is white space |
| JsString.TrimTrailingWhitespace | src/services/mapService.ts:17 | trimming a trimmed text followed by white space gives the text back |
| JsString.ToLower | src/services/mapService.ts:84 | lowering never shortens a string and at most doubles it; on ASCII text it keeps the length and lowers each letter in place |
| JsString.ToLowerAppend | src/services/mapService.ts:84 | the model's lowering maps each character on its own, so it distributes over concatenation |
| JsString.IndexOf | src/App.tsx:82 | the index returned is the first occurrence of the needle, and none is returned only when the needle does not occur |
| JsString.RemoveFirst | src/App.tsx:82 | the non-global `replace` cuts out the first occurrence of the pattern and leaves a string without it unchanged |
| Splice.RelativeIndex | src/App.tsx:75-76 | a splice start in range is used as is, a negative one counts back from the end, and one outside `[-len, len]` is clamped to 0 or to len |
| Splice.RemoveAt | src/App.tsx:75 | removing an element keeps the others in order and removes exactly one copy of it |
| Splice.InsertAt | src/App.tsx:76 | inserting places the element at the index and shifts the rest up by one |
| Splice.Move | src/App.tsx:74-77 | a move keeps the length and the elements as a multiset, and puts the element taken from the source index at the destination index |
| Splice.MovePermutes | src/App.tsx:74-77 | a splice move is a permutation that puts the moved element at the destination, with the other elements in their old relative order |
| Splice.MoveUndo | src/components/DayPlanner.tsx:105-113 | moving an element back from its destination to its source restores the list |
| Splice.FilterOutIndex | src/components/DayPlanner.tsx:101 | filtering by an index in range drops exactly one element; any other index keeps the list as it is |
| Splice.FilterOutIndexRemoves | src/components/DayPlanner.tsx:101 | filtering out an index in range removes exactly that element; an index out of range changes nothing |
| Splice.MoveKeepsDistinct | src/App.tsx:74-77 | moving an element of a list without repetitions yields a list without repetitions |
| DayPlanner.AddActivity | src/components/DayPlanner.tsx:91-96 | the activity is appended after the existing ones, and every other field of the day is kept |
| DayPlanner.RemoveActivity | src/components/DayPlanner.tsx:98-103 | an index in range removes exactly that activity; any other index leaves the day unchanged; other fields are kept |
| DayPlanner.MoveActivity | src/components/DayPlanner.tsx:105-113 | the activities are permuted, the moved activity lands at the destination index (negative and out-of-range indices resolved as `splice` does), and other fields are kept |
| DayPlanner.SelectIcon | src/components/DayPlanner.tsx:83-89 | only the icon changes |
| DayPlanner.ChangeNotes | src/components/DayPlanner.tsx:115-120 | only the notes change |
| DayPlanner.RemoveAfterAdd | src/components/DayPlanner.tsx:91-103 | removing the activity just appended restores the day |
| DayPlanner.MoveBack | src/components/DayPlanner.tsx:105-113 | moving an activity back to where it came from restores the day |
| Splice.FindIndex | src/App.tsx:83 | the index returned is the first whose element satisfies the test, and none is returned exactly when no element does |
| App.FindById | src/App.tsx:83 | `find` returns the first plan with the id, and nothing exactly when no plan has it |
| App.FindByDate | src/App.tsx:125-127 | `find` returns the first plan on the date, and nothing exactly when no plan is on it |
| App.NewDayPlans | src/App.tsx:41-47 | one plan per supplied id, in order, on consecutive days from the start, each with no activities, empty notes and the calendar icon |
| App.HandleTripDetailsSubmit | src/App.tsx:35-53 | one plan per day from start to end; none when the end precedes the start; consecutive dates from the start; fresh plans with no activities, empty notes and the calendar icon; the first plan selected when there is one, else the selection kept |
| App.SubmitCoversTrip | src/App.tsx:37-47 | the derived plans cover the trip's dates exactly: each day of the trip has its plan and no other date has one |
| App.SubmitThenSelectDate | src/App.tsx:120-140 | after submitting a trip, picking a date inside it selects that day's id, and picking one outside changes nothing |
| App.ReplaceDay | src/App.tsx:55-59 | every plan with the updated id is replaced, all others stay, and the length and order are kept |
| App.HandleDayPlanUpdate | src/App.tsx:55-59 | only the plans change, and every plan with the updated day's id is replaced by that day |
| App.ReplaceDayFacts | src/App.tsx:55-59 | a day update keeps the ids, changes nothing when no id matches, replaces just the one matching position when ids are distinct, and is idempotent |
| App.HandleUpdateActivities | src/App.tsx:61-65 | only the activities of the days with the id change; id, date, notes and icon are kept |
| App.UpdateActivitiesIsDayUpdate | src/App.tsx:55-65 | with distinct ids, setting a day's activities equals updating that day with a copy holding the new activities |
| App.HandleDragEnd | src/App.tsx:67-94 | a drag with no destination changes nothing; a drag never changes the selection, the view or the number of days |
| App.SourceDayId | src/App.tsx:82 | a list named `activities-<id>` yields `<id>`, and a name without the prefix is used as is |
| App.DayDragPermutes | src/App.tsx:73-78 | a day drag permutes the plans and puts the dragged plan at the destination index |
| App.ActivityDragUnknownDay | src/App.tsx:82-84 | an activity drag from an unknown day changes nothing |
| App.ActivityDragStaysInSourceDay | src/App.tsx:81-93 | an activity drag changes only the source day's activities, which become the splice move from the source index to the destination index (so a permutation); every other day and every other field is kept |
| App.DragIgnoresTargetList | src/App.tsx:81-93 | the list an activity is dropped on plays no part: the result is the same whatever the destination list |
| App.AppendToDay | src/App.tsx:111-117 | the activity is appended to every plan with the day id; every other plan, and every id, is kept |
| App.HandleAddActivity | src/App.tsx:96-118 | adding an activity keeps the number of days and the view |
| App.AddActivityWithoutPlans | src/App.tsx:100-109 | with no days, adding an activity changes nothing |
| App.AddActivityFallsBackToFirstDay | src/App.tsx:96-118 | with no day selected and a first day whose id is non-empty, that day is selected and receives the activity, and the other days stay as they were |
| App.AddActivityFirstDayWithoutId | src/App.tsx:100-109 | with no day selected and a first day whose id is empty, the empty id becomes the selection and, being falsy, takes the error return: no day receives the activity |
| App.AddActivityToSelectedDay | src/App.tsx:111-117 | with a day selected, only days with that id receive the activity, so a stale id changes nothing |
| App.HandleDateSelect | src/App.tsx:120-140 | a date with a plan selects the first such plan and shows the calendar; a date without one changes nothing |
| App.SubmitKeepsDistinctIds | src/App.tsx:41-49 | distinct supplied ids give plans with distinct ids |
| App.UpdatesKeepIds | src/App.tsx:55-140 | day updates, activity updates, adding an activity and selecting a date keep the list of ids |
| App.DragKeepsDistinctIds | src/App.tsx:67-94 | drags keep the ids of the plans distinct |
| PopularActivities.GenerateGenericActivities | src/data/popularActivities.ts:316-370 | eight activities, the first touring the destination's city centre; exactly the first, second and fifth are popular; none has a location |
| PopularActivities.GenericTitlesFixed | src/data/popularActivities.ts:319-364 | apart from the first, the generic titles and the categories do not depend on the destination |
| PopularActivities.FindKey | src/data/popularActivities.ts:374-376 | the key found is the first equal to the destination ignoring case, and none is found exactly when no key is |
| PopularActivities.GetActivitiesForDestination | src/data/popularActivities.ts:373-380 | a destination matching a key ignoring case is served that key's stored list |
| PopularActivities.UnknownDestinationIsGeneric | src/data/popularActivities.ts:382 | a destination matching no key is served the generic list |
| PopularActivities.SuggestionsNeverEmpty | src/data/popularActivities.ts:316-383 | every destination gets at least six suggestions |
| PopularActivities.DestinationsDistinctIgnoringCase | src/data/popularActivities.ts:7-313 | no two database keys are equal ignoring case |
| PopularActivities.LookupIgnoresCase | src/data/popularActivities.ts:373-380 | any spelling of a key that differs only in case is served that key's list |
| Translation.GetLanguageCode | src/services/translationService.ts:99-115 | a listed city gets its country's code; any other destination gets the code of the country it names, if any |
| Translation.LanguageCodeCases | src/services/translationService.ts:99-115 | the three outcomes: city code, country code, or none |
| Translation.TablesConsistent | src/services/translationService.ts:28-82 | every listed city lies in a country with a non-empty code, so every listed city gets a code |
| Translation.LowerCaseDestinationHasNoCode | src/services/translationService.ts:99-115 | lookups are case-sensitive: a destination starting with a lower-case letter gets no code |
| Translation.GetLanguageName | src/services/translationService.ts:195-216 | a listed country gets its language name, and any other input is returned unchanged |
| Translation.LanguageNamesCoverCodes | src/services/translationService.ts:195-216 | the countries with a language name are exactly those with a code |
| Translation.GetMockTranslations | src/services/translationService.ts:220-265 | French, Italian and Spanish get their stored list; any other code gets one placeholder per common phrase, in order |
| Translation.TranslationsFollowPhrases | src/services/translationService.ts:220-265 | ten entries for `fr`, `it` and `es` and twenty otherwise, each entry's English text being the common phrase at its position |
| EmergencyInfo.ResolveCountry | src/services/emergencyInfoService.ts:56 | a listed city resolves to its country, and anything else to itself |
| EmergencyInfo.LanguageFollowsResolvedCountry | src/services/emergencyInfoService.ts:56 | the phrasebook's language code for a destination is the code of the country the emergency page resolves it to |
| EmergencyInfo.GetMockEmergencyInfo | src/services/emergencyInfoService.ts:98-188 | France, Italy and Japan get their stored record, any other country the generic one; the result is never loading and never in error |
| EmergencyInfo.EmergencyInfoFacts | src/services/emergencyInfoService.ts:170-188 | the result names the country asked for; the generic record has four contacts led by General Emergency 112, and its embassy address, search link and advisory embed the country |
| EmergencyInfo.StoredRecordsComplete | src/services/emergencyInfoService.ts:99-158 | every stored record has contacts, an embassy and the normal-precautions advisory for its country |
| EmergencyInfo.EmergencyInfoFor | src/services/emergencyInfoService.ts:38-78 | an empty destination gives a blank record; any other gives the record of its resolved country; loading ends without error |
| EmergencyInfo.CityServedByCountry | src/services/emergencyInfoService.ts:56-72 | a listed city is served the record of its country, not of the city |

## Left out

- Rendering, styling, the theme system and map drawing are left out. They are presentation only.
- Persistence to `localStorage` and the 500 ms save debounce are left out. They are browser I/O and timers.
- The effect hooks and their delays are reduced to their final state (`useTranslationService`, `useEmergencyInfo`). `EmergencyInfo.EmergencyInfoFor` is the emergency page's state once loading ends. The composition of the phrasebook result is not modelled beyond `GetLanguageCode`, `GetLanguageName` and `GetMockTranslations`.
- The `catch` branch of the emergency lookup is left out. The mock lookup it guards cannot throw.
- MapService.ExtractPossibleLocation: the prefix and landmark-type regular-expression steps (`src/services/mapService.ts:90-119`) are a function parameter. Their results depend on JavaScript backtracking and `\w` details. Only the gazetteer step (`src/services/mapService.ts:82-88`) is modelled. When it finds no landmark, the model's answer is whatever the parameter returns for the text.
- App.HandleTripDetailsSubmit: the ids of new plans are a parameter. The source draws them from `Math.random`, so their distinctness is assumed where needed, never proved.
- Splice.Move: the list must be non-empty and the source index must lie before its end. On an empty list, or from an index at or past the end, the first splice removes nothing and the second inserts `undefined`, which the typed model cannot hold. An index before the start is clamped to 0, as `splice` does. The same requirement applies to DayPlanner.MoveActivity and App.HandleDragEnd (`App.ValidDrag`).
- App.HandleAddActivity: its own contract states only what all cases share. The four cases are stated by `App.AddActivityWithoutPlans`, `App.AddActivityFallsBackToFirstDay` (a first day with a non-empty id), `App.AddActivityFirstDayWithoutId` (a first day with an empty id) and `App.AddActivityToSelectedDay`.
- App.HandleDragEnd: its own contract states only what all drags share. Day drags are stated by `App.DayDragPermutes`. Activity drags are stated by `App.ActivityDragUnknownDay`, `App.ActivityDragStaysInSourceDay` and `App.DragIgnoresTargetList`.
- MapService.AddLocationToActivity: its contract covers inputs whose parsed text and time hold no `[`. A `[` there can let removing tags form a new tag (see `MapService.SplicedTagSurvives`).
- MapService.Parse: its contract states the shape of the result. The full meaning is stated by `MapService.ParseRender`, for strings written as plain fragments and tags.
- JsString.ToLower: it lowers ASCII, Latin-1 capitals, Œ, Ÿ, the Kelvin sign and İ, and leaves every other character unchanged. It also leaves out the context rule for Σ, which `toLowerCase` lowers to ς at the end of a word and to σ elsewhere. Because of that rule, `toLowerCase` is not a character-by-character map, but the model's `ToLower` is. The only capital outside ASCII in the landmark table is the Latin-1 É of `Champs-Élysées`. No table contains Σ or any other capital that the model leaves unchanged, so no result of the model depends on the rest of Unicode's case mapping.
- Strings are sequences of Unicode scalar values, not UTF-16 code units. No modelled operation depends on the difference for the characters involved.
- Logging is left out: the `console.error`, `console.warn` and `console.log` calls (`src/App.tsx:107`, `src/App.tsx:121`, `src/App.tsx:129`, `src/App.tsx:138` and the view-mode effect at `src/App.tsx:162-166`) have no effect on the state.
- MapService.Strip: its own contract states only that removing tags never lengthens the text. What it removes is stated by `MapService.StripRender` for strings written as plain fragments and tags, and by `MapService.SplicedTagSurvives` for a tag formed by a removal.
- MapService.FirstTag: its own contract states only that the capture is a valid tag value of a match that fits in the string. `MapService.FirstTagNoneIff` and `MapService.FirstTagIsLeftmost` state which match it is.
- MapService.Format: its own contract states only that an activity with neither a non-empty location nor a non-empty time formats as its bare text. The full layout is stated by `MapService.FormatRendersPieces`.
- Lookups do not model keys inherited from the JavaScript object prototype, such as `constructor` or `toString`.
- The `popular` flag is a boolean. The source leaves it out rather than setting it to `false`, which reads the same everywhere.
