/** The phrasebook's lookups (`src/services/translationService.ts`): which
    language a destination speaks, the language's name, and the canned
    translations. Record lookups are modelled as finite maps keyed by the
    exact, case-sensitive property name. */
module Translation {
  import opened Wrappers

  /** Phrases every language's phrasebook covers, in display order. */
  const CommonTravelPhrases: seq<string> := [
    "Hello", "Goodbye", "Please", "Thank you", "Yes", "No", "Excuse me",
    "Do you speak English?", "I don't understand", "How much?",
    "Where is the bathroom?", "Help", "I need a doctor", "How do I get to...?",
    "One ticket please", "Delicious", "I'm vegetarian", "The bill, please",
    "Good morning", "Good evening"
  ]

  /** Language code per country. */
  const LanguageCodes: map<string, string> := map[
    "France" := "fr", "Italy" := "it", "Spain" := "es", "Japan" := "ja",
    "Germany" := "de", "Thailand" := "th", "China" := "zh", "Portugal" := "pt",
    "Netherlands" := "nl", "Sweden" := "sv", "Greece" := "el", "Russia" := "ru",
    "Korea" := "ko", "Turkey" := "tr", "Poland" := "pl", "Vietnam" := "vi",
    "Indonesia" := "id"
  ]

  /** Country per city; shared with the emergency-information lookup. */
  const CityToCountry: map<string, string> := map[
    "Paris" := "France", "Nice" := "France", "Lyon" := "France",
    "Rome" := "Italy", "Milan" := "Italy", "Venice" := "Italy", "Florence" := "Italy",
    "Barcelona" := "Spain", "Madrid" := "Spain", "Seville" := "Spain",
    "Tokyo" := "Japan", "Kyoto" := "Japan", "Osaka" := "Japan",
    "Berlin" := "Germany", "Munich" := "Germany", "Frankfurt" := "Germany",
    "Bangkok" := "Thailand", "Phuket" := "Thailand", "Chiang Mai" := "Thailand",
    "Beijing" := "China", "Shanghai" := "China",
    "Lisbon" := "Portugal", "Porto" := "Portugal",
    "Amsterdam" := "Netherlands", "Stockholm" := "Sweden", "Athens" := "Greece",
    "Moscow" := "Russia", "Seoul" := "Korea", "Istanbul" := "Turkey",
    "Warsaw" := "Poland", "Hanoi" := "Vietnam", "Bali" := "Indonesia"
  ]

  /** Language name per country, for the countries the name switch lists. */
  const LanguageNames: map<string, string> := map[
    "France" := "French", "Italy" := "Italian", "Spain" := "Spanish",
    "Japan" := "Japanese", "Germany" := "German", "Thailand" := "Thai",
    "China" := "Chinese", "Portugal" := "Portuguese", "Netherlands" := "Dutch",
    "Sweden" := "Swedish", "Greece" := "Greek", "Russia" := "Russian",
    "Korea" := "Korean", "Turkey" := "Turkish", "Poland" := "Polish",
    "Vietnam" := "Vietnamese", "Indonesia" := "Indonesian"
  ]

  /** A property read: the value, or nothing when the key is absent. */
  function Get(m: map<string, string>, key: string): (r: Option<string>)
    ensures r.Some? <==> key in m
    ensures r.Some? ==> r.value == m[key]
  {
    if key in m then Some(m[key]) else None
  }

  /** The language code of a destination: through its country when it is a
      listed city whose country has a code, else its own code when it is a
      listed country, else none. */
  function GetLanguageCode(destination: string): (r: Option<string>)
    ensures destination in CityToCountry && CityToCountry[destination] in LanguageCodes ==>
              r == Some(LanguageCodes[CityToCountry[destination]])
    ensures destination !in CityToCountry ==> r == Get(LanguageCodes, destination)
  {
    var country := Get(CityToCountry, destination);
    if Truthy(country) && Truthy(Get(LanguageCodes, country.value)) then Get(LanguageCodes, country.value)
    else if Truthy(Get(LanguageCodes, destination)) then Get(LanguageCodes, destination)
    else None
  }

  /** Every listed city's country has a language code, and every code is a
      non-empty string. */
  lemma TablesConsistent()
    ensures forall c :: c in CityToCountry ==> CityToCountry[c] in LanguageCodes
    ensures forall c :: c in LanguageCodes ==> LanguageCodes[c] != ""
  {
  }

  /** A listed city always yields its country's code, a listed country its
      own code, and anything else no code at all. */
  lemma LanguageCodeCases(destination: string)
    ensures destination in CityToCountry ==>
              GetLanguageCode(destination) == Some(LanguageCodes[CityToCountry[destination]])
    ensures destination !in CityToCountry && destination in LanguageCodes ==>
              GetLanguageCode(destination) == Some(LanguageCodes[destination])
    ensures destination !in CityToCountry && destination !in LanguageCodes ==>
              GetLanguageCode(destination).None?
  {
    TablesConsistent();
  }

  lemma CityKeysCapitalised()
    ensures forall c :: c in CityToCountry ==> |c| > 0 && 'A' <= c[0] <= 'Z'
  {
  }

  lemma CountryKeysCapitalised()
    ensures forall c :: c in LanguageCodes ==> |c| > 0 && 'A' <= c[0] <= 'Z'
  {
  }

  /** Keys are matched exactly: a destination starting with a lower-case
      letter, such as `paris`, has no language code, since every key starts
      with a capital. */
  lemma LowerCaseDestinationHasNoCode(destination: string)
    requires |destination| > 0 && 'a' <= destination[0] <= 'z'
    ensures GetLanguageCode(destination).None?
  {
    CityKeysCapitalised();
    CountryKeysCapitalised();
    assert destination !in CityToCountry;
    assert destination !in LanguageCodes;
    LanguageCodeCases(destination);
  }

  /** The language name of a listed country, or the input unchanged. */
  function GetLanguageName(country: string): (r: string)
    ensures country in LanguageNames ==> r == LanguageNames[country]
    ensures country !in LanguageNames ==> r == country
  {
    if country in LanguageNames then LanguageNames[country] else country
  }

  /** Every country with a language code has a language name, and no name
      equals its country, so exactly those countries are renamed. */
  lemma LanguageNamesCoverCodes(country: string)
    ensures country in LanguageCodes <==> country in LanguageNames
    ensures GetLanguageName(country) == country <==> country !in LanguageCodes
  {
  }

  datatype PhraseTranslation = PhraseTranslation(english: string, local: string, pronunciation: Option<string>)

  /** Translations stored for French, Italian and Spanish. */
  const MockData: map<string, seq<PhraseTranslation>> := map[
    "fr" := [
      PhraseTranslation("Hello", "Bonjour", Some("bon-zhoor")),
      PhraseTranslation("Goodbye", "Au revoir", Some("oh ruh-vwar")),
      PhraseTranslation("Please", "S'il vous plaît", Some("seel voo pleh")),
      PhraseTranslation("Thank you", "Merci", Some("mehr-see")),
      PhraseTranslation("Yes", "Oui", Some("wee")),
      PhraseTranslation("No", "Non", Some("nohn")),
      PhraseTranslation("Excuse me", "Excusez-moi", Some("ex-koo-zay mwah")),
      PhraseTranslation("Do you speak English?", "Parlez-vous anglais?", Some("par-lay voo ahn-glay")),
      PhraseTranslation("I don't understand", "Je ne comprends pas", Some("zhuh nuh kom-prahn pah")),
      PhraseTranslation("How much?", "Combien?", Some("kom-bee-en"))
    ],
    "it" := [
      PhraseTranslation("Hello", "Ciao", Some("chow")),
      PhraseTranslation("Goodbye", "Arrivederci", Some("ah-ree-veh-dehr-chee")),
      PhraseTranslation("Please", "Per favore", Some("pehr fah-voh-reh")),
      PhraseTranslation("Thank you", "Grazie", Some("grah-tsee-eh")),
      PhraseTranslation("Yes", "Sì", Some("see")),
      PhraseTranslation("No", "No", Some("noh")),
      PhraseTranslation("Excuse me", "Scusi", Some("skoo-zee")),
      PhraseTranslation("Do you speak English?", "Parla inglese?", Some("par-la een-gleh-seh")),
      PhraseTranslation("I don't understand", "Non capisco", Some("nohn kah-pee-skoh")),
      PhraseTranslation("How much?", "Quanto costa?", Some("kwan-toh kos-tah"))
    ],
    "es" := [
      PhraseTranslation("Hello", "Hola", Some("oh-lah")),
      PhraseTranslation("Goodbye", "Adiós", Some("ah-dee-ohs")),
      PhraseTranslation("Please", "Por favor", Some("por fah-vor")),
      PhraseTranslation("Thank you", "Gracias", Some("grah-see-ahs")),
      PhraseTranslation("Yes", "Sí", Some("see")),
      PhraseTranslation("No", "No", Some("noh")),
      PhraseTranslation("Excuse me", "Disculpe", Some("dees-kool-peh")),
      PhraseTranslation("Do you speak English?", "¿Habla inglés?", Some("ah-blah een-glehs")),
      PhraseTranslation("I don't understand", "No entiendo", Some("noh en-tee-en-doh")),
      PhraseTranslation("How much?", "¿Cuánto cuesta?", Some("kwan-toh kweh-stah"))
    ]
  ]

  /** The placeholder entry for a phrase without a stored translation. */
  function Placeholder(phrase: string): PhraseTranslation {
    PhraseTranslation(phrase, "[Translation for \"" + phrase + "\"]",
                      Some("[Pronunciation would be provided by API]"))
  }

  /** The stored translations for the code, or one placeholder per common
      phrase. */
  function GetMockTranslations(languageCode: string): (r: seq<PhraseTranslation>)
    ensures languageCode in MockData ==> r == MockData[languageCode]
    ensures languageCode !in MockData ==> |r| == |CommonTravelPhrases|
    ensures languageCode !in MockData ==>
              forall i :: 0 <= i < |r| ==> r[i] == Placeholder(CommonTravelPhrases[i])
  {
    if languageCode in MockData then MockData[languageCode]
    else seq(|CommonTravelPhrases|, i requires 0 <= i < |CommonTravelPhrases| => Placeholder(CommonTravelPhrases[i]))
  }

  /** Whatever the code, the translations follow the common phrases in
      order: ten of them for French, Italian and Spanish, all twenty
      otherwise. */
  lemma TranslationsFollowPhrases(languageCode: string)
    ensures var r := GetMockTranslations(languageCode);
            && |r| == (if languageCode in {"fr", "it", "es"} then 10 else 20)
            && forall i :: 0 <= i < |r| ==> r[i].english == CommonTravelPhrases[i]
  {
  }
}
