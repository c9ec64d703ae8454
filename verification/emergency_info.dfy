/** Emergency numbers, embassies and travel advice per destination
    (`src/services/emergencyInfoService.ts`), with the mock records the
    service serves in place of an external lookup. */
module EmergencyInfo {
  import opened Wrappers
  import Translation

  datatype EmergencyContact = EmergencyContact(service: string, number: string, description: Option<string>)

  datatype EmbassyInfo = EmbassyInfo(
    country: string,
    address: Option<string>,
    phone: Option<string>,
    email: Option<string>,
    website: Option<string>)

  /** A stored record: everything but the request status. */
  datatype CountryRecord = CountryRecord(
    country: string,
    emergencyNumbers: seq<EmergencyContact>,
    embassyInfo: seq<EmbassyInfo>,
    travelAdvisory: string)

  datatype Info = Info(
    country: string,
    emergencyNumbers: seq<EmergencyContact>,
    embassyInfo: seq<EmbassyInfo>,
    travelAdvisory: string,
    loading: bool,
    error: Option<string>)

  function Embassy(country: string, address: string, phone: string, website: string): EmbassyInfo {
    EmbassyInfo(country, Some(address), Some(phone), None, Some(website))
  }

  const EmergencyData: map<string, CountryRecord> := map[
    "France" := CountryRecord("France",
      [ EmergencyContact("General Emergency", "112", Some("European emergency number")),
        EmergencyContact("Police", "17", None),
        EmergencyContact("Ambulance", "15", None),
        EmergencyContact("Fire", "18", None) ],
      [ Embassy("United States", "2 Avenue Gabriel, 75008 Paris, France",
                "+33 1 43 12 22 22", "https://fr.usembassy.gov/embassy-consulates/paris/"),
        Embassy("United Kingdom", "35 Rue du Faubourg Saint-Honoré, 75008 Paris, France",
                "+33 1 44 51 31 00", "https://www.gov.uk/world/organisations/british-embassy-paris") ],
      "Exercise normal precautions in France."),
    "Italy" := CountryRecord("Italy",
      [ EmergencyContact("General Emergency", "112", Some("European emergency number")),
        EmergencyContact("Police", "113", None),
        EmergencyContact("Ambulance", "118", None),
        EmergencyContact("Fire", "115", None) ],
      [ Embassy("United States", "Via Vittorio Veneto 121, 00187 Roma, Italy",
                "+39 06 46741", "https://it.usembassy.gov/") ],
      "Exercise normal precautions in Italy."),
    "Japan" := CountryRecord("Japan",
      [ EmergencyContact("Police", "110", None),
        EmergencyContact("Ambulance/Fire", "119", None) ],
      [ Embassy("United States", "1-10-5 Akasaka, Minato-ku, Tokyo 107-8420, Japan",
                "+81 3-3224-5000", "https://jp.usembassy.gov/") ],
      "Exercise normal precautions in Japan.")
  ]

  /** The country a destination is in: its entry in the city table, or the
      destination itself when it is not a listed city. */
  function ResolveCountry(destination: string): (r: string)
    ensures destination in Translation.CityToCountry ==> r == Translation.CityToCountry[destination]
    ensures destination !in Translation.CityToCountry ==> r == destination
  {
    var country := Translation.Get(Translation.CityToCountry, destination);
    if Truthy(country) then country.value else destination
  }

  /** The phrasebook and the emergency page agree on the country: a
      destination's language code is the code of its resolved country. */
  lemma LanguageFollowsResolvedCountry(destination: string)
    ensures Translation.GetLanguageCode(destination)
            == Translation.Get(Translation.LanguageCodes, ResolveCountry(destination))
  {
    Translation.LanguageCodeCases(destination);
  }

  /** The record served for a country no stored record covers. */
  function Fallback(country: string): CountryRecord {
    CountryRecord(country,
      [ EmergencyContact("General Emergency", "112", Some("International emergency number (many countries)")),
        EmergencyContact("Police", "-- Search online for local police --", None),
        EmergencyContact("Ambulance", "-- Search online for local ambulance --", None),
        EmergencyContact("Fire", "-- Search online for local fire department --", None) ],
      [ EmbassyInfo("Generic Embassy Info",
                    Some("Search for your country's embassy in " + country), None, None,
                    Some("https://www.google.com/search?q=US+embassy+in+" + country)) ],
      "Check your government's travel advisory for " + country + ".")
  }

  /** A record marked as finished without error. */
  function Complete(rec: CountryRecord): (r: Info)
    ensures !r.loading && r.error.None?
  {
    Info(rec.country, rec.emergencyNumbers, rec.embassyInfo, rec.travelAdvisory, false, None)
  }

  /** The stored record of France, Italy or Japan, or the generic record
      for any other country; never loading, never in error. */
  function GetMockEmergencyInfo(country: string): (r: Info)
    ensures !r.loading && r.error.None?
    ensures country in EmergencyData ==> r == Complete(EmergencyData[country])
    ensures country !in EmergencyData ==> r == Complete(Fallback(country))
  {
    if country in EmergencyData then Complete(EmergencyData[country]) else Complete(Fallback(country))
  }

  /** Every result names the country asked for; the generic one has four
      contacts led by the international number 112, and its embassy
      address, search link and advisory all embed the country. */
  lemma EmergencyInfoFacts(country: string)
    ensures GetMockEmergencyInfo(country).country == country
    ensures country !in EmergencyData ==>
              var r := GetMockEmergencyInfo(country);
              && |r.emergencyNumbers| == 4
              && r.emergencyNumbers[0].service == "General Emergency"
              && r.emergencyNumbers[0].number == "112"
              && |r.embassyInfo| == 1
              && r.embassyInfo[0].address == Some("Search for your country's embassy in " + country)
              && r.embassyInfo[0].website == Some("https://www.google.com/search?q=US+embassy+in+" + country)
              && r.travelAdvisory == "Check your government's travel advisory for " + country + "."
  {
  }

  /** Every stored record has contacts, an embassy and the advice to take
      normal precautions. */
  lemma StoredRecordsComplete()
    ensures forall c :: c in EmergencyData ==>
              |EmergencyData[c].emergencyNumbers| >= 2 && |EmergencyData[c].embassyInfo| >= 1
              && EmergencyData[c].travelAdvisory == "Exercise normal precautions in " + c + "."
  {
  }

  /** What the emergency page shows once loading ends: a blank record for
      an empty destination, otherwise the record of its resolved country. */
  function EmergencyInfoFor(destination: string): (r: Info)
    ensures !r.loading && r.error.None?
    ensures destination == "" ==> r.country == "" && r.emergencyNumbers == [] && r.embassyInfo == []
    ensures destination != "" ==> r == GetMockEmergencyInfo(ResolveCountry(destination))
  {
    if destination == "" then Info("", [], [], "", false, None)
    else GetMockEmergencyInfo(ResolveCountry(destination))
  }

  /** A listed city is served the record of its country, not of the city. */
  lemma CityServedByCountry(destination: string)
    requires destination in Translation.CityToCountry
    ensures EmergencyInfoFor(destination).country == Translation.CityToCountry[destination]
  {
    assert destination != "";
    EmergencyInfoFacts(Translation.CityToCountry[destination]);
  }
}
