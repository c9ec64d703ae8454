/** The catalogue of suggested activities (`src/data/popularActivities.ts`):
    a fixed list per known destination and a generated list for any other. */
module PopularActivities {
  import opened Wrappers
  import opened JsString
  import opened Types

  /** The stored activities per destination, in the database's key order. */
  const Database: seq<(string, seq<Activity>)> := [
    ("Paris", ParisActivities),
    ("Tokyo", TokyoActivities),
    ("New York", NewYorkActivities),
    ("Rome", RomeActivities),
    ("Barcelona", BarcelonaActivities),
    ("London", LondonActivities),
    ("Bangkok", BangkokActivities)
  ]

  const ParisActivities: seq<Activity> := [
    Activity("Visit the Eiffel Tower",
             "Climb to the top of the iconic Eiffel Tower for panoramic views of the city.",
             Sightseeing, "3 hours", true, None),
    Activity("Louvre Museum Tour",
             "Explore world-famous artworks including the Mona Lisa.",
             Culture, "4 hours", true, None),
    Activity("Seine River Cruise",
             "Take a romantic boat ride along the Seine River.",
             Sightseeing, "1 hour", false, None),
    Activity("French Cooking Class",
             "Learn to make classic French dishes with a professional chef.",
             FoodAndDrink, "3 hours", true, None),
    Activity("Shopping at Champs-Élysées",
             "Explore luxury boutiques and shops on this famous avenue.",
             Shopping, "4 hours", false, None),
    Activity("Visit Montmartre",
             "Explore the artistic neighborhood and visit Sacré-Cœur Basilica.",
             Culture, "3 hours", false, None),
    Activity("Wine Tasting Experience",
             "Sample fine French wines with expert sommeliers.",
             FoodAndDrink, "2 hours", false, None),
    Activity("Palace of Versailles Day Trip",
             "Visit the magnificent royal palace and its gardens.",
             Sightseeing, "Full day", false, None)
  ]

  const TokyoActivities: seq<Activity> := [
    Activity("Explore Shibuya Crossing",
             "Experience the world's busiest pedestrian crossing.",
             Sightseeing, "1 hour", true, None),
    Activity("Sushi Making Class",
             "Learn to make authentic Japanese sushi with local chefs.",
             FoodAndDrink, "2 hours", true, None),
    Activity("Senso-ji Temple Visit",
             "Visit Tokyo's oldest Buddhist temple.",
             Culture, "2 hours", false, None),
    Activity("Anime Shopping in Akihabara",
             "Explore the electronics and anime district.",
             Shopping, "3 hours", false, None),
    Activity("Robot Restaurant Show",
             "Experience the unique high-tech entertainment show.",
             Culture, "2 hours", false, None),
    Activity("Meiji Shrine Visit",
             "Explore the peaceful forested shrine in the heart of Tokyo.",
             Culture, "2 hours", false, None),
    Activity("Harajuku Fashion District",
             "Discover Japan's youth fashion culture and trendy boutiques.",
             Shopping, "3 hours", false, None),
    Activity("Tokyo Skytree",
             "Visit one of the world's tallest towers for breathtaking views.",
             Sightseeing, "2 hours", false, None)
  ]

  const NewYorkActivities: seq<Activity> := [
    Activity("Visit Times Square",
             "Experience the bright lights and energy of this iconic location.",
             Sightseeing, "2 hours", true, None),
    Activity("Empire State Building",
             "Take in panoramic views from this famous skyscraper.",
             Sightseeing, "2 hours", false, None),
    Activity("Central Park Bike Tour",
             "Cycle through Manhattan's urban oasis.",
             Adventure, "3 hours", true, None),
    Activity("Broadway Show",
             "Watch a world-class theatrical performance.",
             Culture, "3 hours", false, None),
    Activity("Food Tour in Brooklyn",
             "Sample diverse cuisines across Brooklyn's neighborhoods.",
             FoodAndDrink, "4 hours", false, None),
    Activity("Shopping in SoHo",
             "Explore trendy boutiques and designer stores.",
             Shopping, "3 hours", false, None),
    Activity("Museum of Modern Art",
             "View famous works of contemporary and modern art.",
             Culture, "3 hours", false, None)
  ]

  const RomeActivities: seq<Activity> := [
    Activity("Colosseum Tour",
             "Explore the ancient Roman amphitheater with a guided tour.",
             Sightseeing, "3 hours", true, None),
    Activity("Vatican Museums & Sistine Chapel",
             "See Michelangelo's masterpiece and incredible art collections.",
             Culture, "4 hours", true, None),
    Activity("Roman Pasta Making Class",
             "Learn to make authentic carbonara, cacio e pepe, and amatriciana.",
             FoodAndDrink, "3 hours", false, None),
    Activity("Trevi Fountain Visit",
             "Toss a coin in the famous baroque fountain.",
             Sightseeing, "1 hour", false, None),
    Activity("Shopping at Via del Corso",
             "Explore Rome's main shopping street.",
             Shopping, "3 hours", false, None),
    Activity("Roman Forum Walk",
             "Stroll through the heart of ancient Rome.",
             Sightseeing, "2 hours", false, None)
  ]

  const BarcelonaActivities: seq<Activity> := [
    Activity("Sagrada Familia Tour",
             "Explore Gaudí's unfinished masterpiece with a guided tour.",
             Sightseeing, "2 hours", false, None),
    Activity("Tapas Hopping",
             "Sample various Spanish tapas at local bars.",
             FoodAndDrink, "3 hours", false, None),
    Activity("Park Güell Visit",
             "Discover Gaudí's whimsical park with mosaic works.",
             Sightseeing, "2 hours", false, None),
    Activity("Gothic Quarter Walking Tour",
             "Explore the historic center of Barcelona.",
             Culture, "2 hours", false, None),
    Activity("Cooking Workshop",
             "Learn to prepare authentic paella and sangria.",
             FoodAndDrink, "3 hours", false, None),
    Activity("La Boqueria Market",
             "Explore Barcelona's famous food market.",
             FoodAndDrink, "1 hour", false, None)
  ]

  const LondonActivities: seq<Activity> := [
    Activity("Tower of London Tour",
             "Discover the historic castle and see the Crown Jewels.",
             Culture, "3 hours", false, None),
    Activity("London Eye Experience",
             "Enjoy panoramic views from the giant observation wheel.",
             Sightseeing, "1 hour", false, None),
    Activity("British Museum Visit",
             "Explore one of the world's most comprehensive museums.",
             Culture, "3 hours", false, None),
    Activity("West End Show",
             "Watch a world-famous theatrical performance.",
             Culture, "3 hours", false, None),
    Activity("Shopping in Covent Garden",
             "Explore shops and watch street performers in this historic area.",
             Shopping, "3 hours", false, None),
    Activity("Afternoon Tea",
             "Experience traditional British afternoon tea at a luxury hotel.",
             FoodAndDrink, "2 hours", false, None)
  ]

  const BangkokActivities: seq<Activity> := [
    Activity("Grand Palace Tour",
             "Explore the former royal residence and Wat Phra Kaew temple.",
             Sightseeing, "3 hours", false, None),
    Activity("Thai Cooking Class",
             "Learn to prepare authentic Thai dishes with local ingredients.",
             FoodAndDrink, "4 hours", false, None),
    Activity("Chatuchak Weekend Market",
             "Shop at one of the world's largest weekend markets.",
             Shopping, "4 hours", false, None),
    Activity("Chao Phraya River Cruise",
             "See Bangkok's landmarks from the water.",
             Sightseeing, "2 hours", false, None),
    Activity("Street Food Tour",
             "Sample delicious Thai street food with a knowledgeable guide.",
             FoodAndDrink, "3 hours", false, None),
    Activity("Wat Arun Visit",
             "Explore the stunning Temple of Dawn along the river.",
             Culture, "2 hours", false, None)
  ]

  /** The eight activities suggested for a destination the database does not
      know; only the first, second and fifth are marked popular. */
  function GenerateGenericActivities(destination: string): (r: seq<Activity>)
    ensures |r| == 8
    ensures r[0].title == "Explore " + destination + " City Center"
    ensures forall i :: 0 <= i < |r| ==> (r[i].popular <==> i == 0 || i == 1 || i == 4)
    ensures forall i :: 0 <= i < |r| ==> r[i].location.None?
  {
    [
      Activity("Explore " + destination + " City Center",
               "Discover the heart of " + destination + " and its main attractions.",
               Sightseeing, "3 hours", true, None),
      Activity("Local Food Tour",
               "Taste the best local cuisine " + destination + " has to offer.",
               FoodAndDrink, "4 hours", true, None),
      Activity("Cultural Experience",
               "Immerse yourself in " + destination + "'s rich cultural heritage.",
               Culture, "2 hours", false, None),
      Activity("Shopping District Tour",
               "Explore the best shopping areas in " + destination + ".",
               Shopping, "3 hours", false, None),
      Activity("Adventure Activity",
               "Experience exciting outdoor activities in " + destination + ".",
               Adventure, "4 hours", true, None),
      Activity("Historical Landmarks Tour",
               "Visit important historical sites in " + destination + ".",
               Culture, "3 hours", false, None),
      Activity("Local Craft Workshop",
               "Learn traditional crafts from local artisans in " + destination + ".",
               Culture, "2 hours", false, None),
      Activity("Scenic Photography Tour",
               "Capture the most photogenic spots in " + destination + ".",
               Sightseeing, "3 hours", false, None)
    ]
  }

  /** Only the first generic title names the destination. */
  lemma GenericTitlesFixed(d1: string, d2: string)
    ensures forall i :: 1 <= i < 8 ==>
              GenerateGenericActivities(d1)[i].title == GenerateGenericActivities(d2)[i].title
    ensures forall i :: 0 <= i < 8 ==>
              GenerateGenericActivities(d1)[i].category == GenerateGenericActivities(d2)[i].category
  {
  }

  /** Index of the first entry whose key equals `destination` ignoring case. */
  function FindKey(entries: seq<(string, seq<Activity>)>, destination: string): (r: Option<nat>)
    ensures r.Some? ==> r.value < |entries| && ToLower(entries[r.value].0) == ToLower(destination)
    ensures r.Some? ==> forall j :: 0 <= j < r.value ==> ToLower(entries[j].0) != ToLower(destination)
    ensures r.None? <==> forall j :: 0 <= j < |entries| ==> ToLower(entries[j].0) != ToLower(destination)
  {
    if entries == [] then None
    else
      var key := ToLower(destination);
      if ToLower(entries[0].0) == key then Some(0)
      else
        var tail := entries[1..];
        assert forall j :: 1 <= j < |entries| ==> entries[j] == tail[j - 1];
        match FindKey(tail, destination)
        case None => None
        case Some(k) => Some(k + 1)
  }

  /** The stored list of the first key matching the destination ignoring
      case, otherwise the generic list for the destination as given. */
  function GetActivitiesForDestination(destination: string): (r: seq<Activity>)
    ensures FindKey(Database, destination).Some? ==>
              r == Database[FindKey(Database, destination).value].1
  {
    match FindKey(Database, destination)
    case Some(k) => Database[k].1
    case None => GenerateGenericActivities(destination)
  }

  /** A destination matching no key ignoring case gets the generic list. */
  lemma UnknownDestinationIsGeneric(destination: string)
    requires FindKey(Database, destination).None?
    ensures GetActivitiesForDestination(destination) == GenerateGenericActivities(destination)
  {
  }

  /** Every stored list holds at least six activities. */
  lemma DatabaseListsNonEmpty()
    ensures forall k :: 0 <= k < |Database| ==> |Database[k].1| >= 6
  {
  }

  /** Every destination gets at least six suggestions. */
  lemma SuggestionsNeverEmpty(destination: string)
    ensures |GetActivitiesForDestination(destination)| >= 6
  {
    if FindKey(Database, destination).None? {
      UnknownDestinationIsGeneric(destination);
    } else {
      DatabaseListsNonEmpty();
    }
  }

  /** The database's keys, in order. */
  const Destinations: seq<string> := ["Paris", "Tokyo", "New York", "Rome", "Barcelona", "London", "Bangkok"]

  lemma DatabaseKeys()
    ensures |Database| == |Destinations|
    ensures forall k :: 0 <= k < |Destinations| ==> Database[k].0 == Destinations[k]
  {
  }

  /** No two keys are equal ignoring case: each pair differs in an ASCII
      letter within its first three characters. */
  lemma DestinationsDistinctIgnoringCase(i: nat, j: nat)
    requires i < j < |Destinations|
    ensures ToLower(Destinations[i]) != ToLower(Destinations[j])
  {
    var n := if i == 4 && j == 6 then 2 else 0;
    LowerDiffersAt(Destinations[i], Destinations[j], n);
  }

  /** A key that no earlier key equals ignoring case is found for every
      destination equal to it ignoring case. */
  lemma FindKeyUnique(entries: seq<(string, seq<Activity>)>, destination: string, k: nat)
    requires k < |entries| && ToLower(destination) == ToLower(entries[k].0)
    requires forall j :: 0 <= j < k ==> ToLower(entries[j].0) != ToLower(entries[k].0)
    ensures FindKey(entries, destination) == Some(k)
  {
  }

  /** A destination equal to a key ignoring case gets that key's stored
      list, so `paris` and `PARIS` are both served the Paris list. */
  lemma LookupIgnoresCase(destination: string, k: nat)
    requires k < |Database| && ToLower(destination) == ToLower(Database[k].0)
    ensures GetActivitiesForDestination(destination) == Database[k].1
  {
    DatabaseKeys();
    forall j | 0 <= j < k ensures ToLower(Database[j].0) != ToLower(Database[k].0) {
      DestinationsDistinctIgnoringCase(j, k);
    }
    FindKeyUnique(Database, destination, k);
  }
}
