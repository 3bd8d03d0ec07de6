/**
 * The city location matcher: places a job's city in one of six priority
 * tiers relative to the student's primary city, preferred cities, a fixed
 * table of nearby cities and the "open to other cities" flag.
 */
module LocationMatcher {
  import opened Wrappers
  import Text

  /** A regional entry of the adjacency table. */
  datatype Region = Region(nearby: seq<string>, region: string)

  /** UK anchor cities and the cities within commuting distance of each. */
  const CityRegions: map<string, Region> := map[
    "London" := Region(["Reading", "Oxford", "Brighton", "Cambridge", "Guildford", "Watford", "St Albans"], "South East England"),
    "Manchester" := Region(["Liverpool", "Leeds", "Sheffield", "Bolton", "Salford", "Stockport"], "North West England"),
    "Birmingham" := Region(["Coventry", "Wolverhampton", "Leicester", "Nottingham", "Solihull", "West Bromwich"], "Midlands"),
    "Edinburgh" := Region(["Glasgow", "Dundee", "Aberdeen", "Stirling"], "Scotland"),
    "Bristol" := Region(["Bath", "Cardiff", "Exeter", "Gloucester"], "South West England"),
    "Leeds" := Region(["Manchester", "Sheffield", "York", "Bradford", "Hull"], "Yorkshire"),
    "Newcastle" := Region(["Sunderland", "Durham", "Middlesbrough"], "North East England"),
    "Cardiff" := Region(["Bristol", "Swansea", "Newport"], "Wales")
  ]

  /** The `preferred_locations` entry as stored: comma-separated text, a list, or nothing. */
  datatype PreferredInput = CommaSeparated(text: string) | CityList(cities: seq<string>) | Unset

  /** The preference mapping the matcher is built from. */
  datatype Prefs = Prefs(primaryCity: Option<string>, preferredLocations: PreferredInput, openToOtherCities: bool)

  /** A constructed matcher; an empty primary city stands for "none". */
  datatype Matcher = Matcher(primaryCity: string, preferredCities: seq<string>, openToOther: bool)

  /** Every piece of `pieces`, stripped. */
  function StripAll(pieces: seq<string>): seq<string> {
    seq(|pieces|, k requires 0 <= k < |pieces| => Text.Strip(pieces[k]))
  }

  /** The preferred cities as read from the stored entry, before the primary is added. */
  function PreferredFrom(raw: PreferredInput): (cities: seq<string>)
    ensures raw.CommaSeparated? && raw.text != "" ==> |cities| == |Text.Split(raw.text, ',')|
    ensures raw.CommaSeparated? ==> forall c :: c in cities ==> ',' !in c
    // Empty text and a missing entry give no cities; a list is taken as it is.
    ensures raw == CommaSeparated("") || raw.Unset? ==> cities == []
    ensures raw.CityList? ==> cities == raw.cities
    // Each city is its `split(',')` piece with the surrounding whitespace removed.
    ensures raw.CommaSeparated? && raw.text != ""
            ==> forall k :: 0 <= k < |cities| ==> cities[k] == Text.Strip(Text.Split(raw.text, ',')[k])
  {
    match raw
    case CommaSeparated(t) =>
      if t == "" then []
      else
        var pieces := Text.Split(t, ',');
        var r := StripAll(pieces);
        assert forall k :: 0 <= k < |r| ==> ',' !in r[k] by {
          forall k | 0 <= k < |r| ensures ',' !in r[k] {
            StripStaysInside(pieces[k], ',');
          }
        }
        r
    case CityList(cs) => cs
    case Unset => []
  }

  /** Stripping never introduces a character. */
  lemma StripStaysInside(s: string, c: char)
    requires c !in s
    ensures c !in Text.Strip(s)
  {
    var r := Text.Strip(s);
    var i, j :| 0 <= i <= j <= |s| && r == s[i..j] && Text.AllSpace(s[..i]) && Text.AllSpace(s[j..]);
    assert forall k :: 0 <= k < |r| ==> r[k] == s[i + k];
  }

  /** Construction from a preference mapping, with the primary-city fallback and the membership fix-up. */
  function NewMatcher(p: Prefs): (m: Matcher)
    // Afterwards a (non-empty) primary city is always one of the preferred cities.
    ensures m.primaryCity != "" ==> m.primaryCity in m.preferredCities
    ensures m.openToOther == p.openToOtherCities
    // The stored preferences come first, in order; at most the primary is appended.
    ensures PreferredFrom(p.preferredLocations) <= m.preferredCities
    ensures |m.preferredCities| <= |PreferredFrom(p.preferredLocations)| + 1
    // Nothing is appended when there is no primary or it is already preferred; otherwise the primary is.
    ensures m.primaryCity == "" || m.primaryCity in PreferredFrom(p.preferredLocations)
            ==> m.preferredCities == PreferredFrom(p.preferredLocations)
    ensures |m.preferredCities| > |PreferredFrom(p.preferredLocations)|
            ==> m.preferredCities[|m.preferredCities| - 1] == m.primaryCity
    // A given primary is kept; a missing one is taken from the first preferred city.
    ensures p.primaryCity.GetOr("") != "" ==> m.primaryCity == p.primaryCity.value
    ensures p.primaryCity.GetOr("") == "" && |PreferredFrom(p.preferredLocations)| > 0
            ==> m.primaryCity == PreferredFrom(p.preferredLocations)[0]
    ensures p.primaryCity.GetOr("") == "" && |PreferredFrom(p.preferredLocations)| == 0
            ==> m.primaryCity == "" && m.preferredCities == []
  {
    var given := p.primaryCity.GetOr("");
    var preferred := PreferredFrom(p.preferredLocations);
    var primary := if given == "" && |preferred| > 0 then preferred[0] else given;
    var cities := if primary != "" && primary !in preferred then preferred + [primary] else preferred;
    Matcher(primary, cities, p.openToOtherCities)
  }

  /** The job's city: its location name up to the first comma, stripped; a missing name is empty. */
  function JobCity(locationName: Option<string>): (city: string)
    ensures ',' !in city
    ensures city == "" || (!Text.IsSpace(city[0]) && !Text.IsSpace(city[|city| - 1]))
    ensures locationName.None? ==> city == ""
    // A name without a comma is stripped as a whole; a bare, already trimmed name is kept as it is.
    ensures locationName.Some? && ',' !in locationName.value ==> city == Text.Strip(locationName.value)
    ensures locationName.Some? && ',' !in locationName.value && Text.Strip(locationName.value) == locationName.value
            ==> city == locationName.value
  {
    var head := Text.BeforeFirst(locationName.GetOr(""), ',');
    assert ',' !in locationName.GetOr("") ==> head == locationName.GetOr("");
    StripStaysInside(head, ',');
    Text.Strip(head)
  }

  /** Whatever follows the first comma is ignored: the city is the stripped text before it. */
  lemma JobCityBeforeComma(a: string, b: string)
    requires ',' !in a
    ensures JobCity(Some(a + [','] + b)) == Text.Strip(a)
  {
    Text.BeforeFirstAt(a, ',', b);
  }

  /** Some target, lower-cased, is found in the lower-cased job city. */
  function AnyTargetIn(lowerCity: string, targets: seq<string>): (b: bool)
    ensures b <==> exists k :: 0 <= k < |targets| && targets[k] != ""
                                 && Text.Occurs(Text.Lower(targets[k]), lowerCity)
  {
    if |targets| == 0 then false
    else
      Text.ContainsIffOccurs(Text.Lower(targets[0]), lowerCity);
      assert forall k :: 1 <= k < |targets| ==> targets[k] == targets[1..][k - 1];
      (targets[0] != "" && Text.Contains(Text.Lower(targets[0]), lowerCity))
      || AnyTargetIn(lowerCity, targets[1..])
  }

  /** `_is_city_match`: case-insensitive substring containment of any non-empty target. */
  function IsCityMatch(jobCity: string, targets: seq<string>): (b: bool)
    ensures b <==> exists k :: 0 <= k < |targets| && targets[k] != ""
                                 && Text.Occurs(Text.Lower(targets[k]), Text.Lower(jobCity))
    ensures jobCity == "" || |targets| == 0 ==> !b
  {
    if jobCity == "" || |targets| == 0 then false
    else AnyTargetIn(Text.Lower(jobCity), targets)
  }

  /** `_get_region_info`: an exact-key lookup of the city in the table. */
  function RegionInfo(city: string): (r: Option<Region>)
    ensures r.Some? <==> city in CityRegions
    ensures r.Some? ==> r.value == CityRegions[city]
  {
    if city == "" then None
    else if city in CityRegions then Some(CityRegions[city])
    else None
  }

  /** Why the job was placed where it was (the text of the source's `reason`). */
  datatype Reason =
    | WorkFromAnywhere
    | InYourCity(city: string)
    | InPreferredLocation(city: string)
    | NearPrimary(city: string, primary: string)
    | OutsidePreferredArea(city: string)
    | DifferentRegion(city: string)
    | TooFar(city: string)

  /** The location verdict; `hiddenByDefault` and `excluded` are false where the source omits the key. */
  datatype Placement = Placement(
    score: int, priority: string, tier: int, reason: Reason, badge: string, badgeColor: string,
    hiddenByDefault: bool, excluded: bool)

  /** The job fields the matcher reads. */
  datatype JobPlace = JobPlace(isRemote: bool, locationName: Option<string>)

  /** The score that belongs to each tier. */
  function TierScore(tier: int): int {
    match tier
    case 1 => 100
    case 2 => 95
    case 3 => 70
    case 4 => 40
    case 5 => 30
    case _ => 0
  }

  /** The job city is among the primary city's nearby cities. */
  predicate IsNearby(m: Matcher, city: string) {
    var info := RegionInfo(m.primaryCity);
    info.Some? && IsCityMatch(city, info.value.nearby)
  }

  /** `calculate_location_score`: the decision ladder from remote down to excluded. */
  function LocationScore(m: Matcher, job: JobPlace): (r: Placement)
    ensures 1 <= r.tier <= 6
    ensures r.score == TierScore(r.tier)
    ensures r.hiddenByDefault <==> r.tier >= 4
    ensures r.excluded <==> r.tier == 6
    ensures r.excluded <==> r.score == 0
    ensures job.isRemote ==> r.score == 100 && r.tier == 1 && r.badge == "REMOTE"
    // The badge of every tier.
    ensures r.tier == 1 ==> r.badge == "REMOTE" || r.badge == "YOUR CITY"
    ensures r.tier == 2 ==> r.badge == "PREFERRED"
    ensures r.tier == 3 || r.tier == 4 ==> r.badge == "NEARBY"
    ensures r.tier == 5 ==> r.badge == "OTHER"
    ensures r.tier == 6 ==> r.badge == "TOO FAR"
    // The ladder, rung by rung, in terms of the job city.
    ensures var city := JobCity(job.locationName);
      && (r.badge == "YOUR CITY" <==> !job.isRemote && IsCityMatch(city, m.preferredCities) && IsCityMatch(city, [m.primaryCity]))
      && (r.tier == 2 <==> !job.isRemote && IsCityMatch(city, m.preferredCities) && !IsCityMatch(city, [m.primaryCity]))
      && (r.tier == 3 <==> !job.isRemote && !IsCityMatch(city, m.preferredCities) && IsNearby(m, city) && m.openToOther)
      && (r.tier == 4 <==> !job.isRemote && !IsCityMatch(city, m.preferredCities) && IsNearby(m, city) && !m.openToOther)
      && (r.tier == 5 <==> !job.isRemote && !IsCityMatch(city, m.preferredCities) && !IsNearby(m, city) && m.openToOther)
      && (r.tier == 6 <==> !job.isRemote && !IsCityMatch(city, m.preferredCities) && !IsNearby(m, city) && !m.openToOther)
  {
    var city := JobCity(job.locationName);
    if job.isRemote then
      Placement(100, "highest", 1, WorkFromAnywhere, "REMOTE", "purple", false, false)
    else if IsCityMatch(city, m.preferredCities) then
      if IsCityMatch(city, [m.primaryCity]) then
        Placement(100, "highest", 1, InYourCity(city), "YOUR CITY", "green", false, false)
      else
        Placement(95, "high", 2, InPreferredLocation(city), "PREFERRED", "blue", false, false)
    else if IsNearby(m, city) then
      if m.openToOther then
        Placement(70, "medium", 3, NearPrimary(city, m.primaryCity), "NEARBY", "yellow", false, false)
      else
        Placement(40, "low", 4, OutsidePreferredArea(city), "NEARBY", "gray", true, false)
    else if m.openToOther then
      Placement(30, "very-low", 5, DifferentRegion(city), "OTHER", "gray", true, false)
    else
      Placement(0, "excluded", 6, TooFar(city), "TOO FAR", "gray", true, true)
  }

  /** The tier scores strictly decrease from tier 1 to tier 6. */
  lemma TierScoreDecreasing(t1: int, t2: int)
    requires 1 <= t1 < t2 <= 6
    ensures TierScore(t1) > TierScore(t2)
  {
  }

  /** For a matcher built from preferences, a job in (a city containing) the primary city is tier 1. */
  lemma PrimaryCityIsTierOne(p: Prefs, job: JobPlace)
    requires IsCityMatch(JobCity(job.locationName), [NewMatcher(p).primaryCity])
    ensures LocationScore(NewMatcher(p), job).tier == 1
    ensures LocationScore(NewMatcher(p), job).score == 100
  {
    var m := NewMatcher(p);
    var city := JobCity(job.locationName);
    var k := IndexOf(m.preferredCities, m.primaryCity);
    assert m.preferredCities[k] == [m.primaryCity][0];
  }

  function IndexOf(s: seq<string>, x: string): (k: nat)
    requires x in s
    ensures k < |s| && s[k] == x
  {
    if s[0] == x then 0 else 1 + IndexOf(s[1..], x)
  }

  /** A primary city missing from the table never produces a nearby tier. */
  lemma UnknownPrimaryHasNoNearbyTier(m: Matcher, job: JobPlace)
    requires m.primaryCity !in CityRegions
    ensures LocationScore(m, job).tier != 3 && LocationScore(m, job).tier != 4
  {
  }

  /** Being open to other cities never lowers a job's location score. */
  lemma OpennessNeverLowersScore(m: Matcher, job: JobPlace)
    ensures LocationScore(m.(openToOther := true), job).score >= LocationScore(m.(openToOther := false), job).score
  {
  }
}
