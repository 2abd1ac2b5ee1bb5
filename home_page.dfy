/**
 * The state of the dashboard's home page and the handlers that change it:
 * a search (with its blank-input guard and the recent-searches update), the
 * temperature-unit toggle and the display-option switches. The network calls
 * of a search are abstracted to their outcome, a parameter.
 */
module HomePage {
  import opened Wrappers

  /** A JSON document received from the proxy, kept as is. */
  type Json = string

  const MaxRecentSearches: nat := 5

  datatype TempUnit = C | F

  datatype DisplayOption = ShowAirQuality | ShowExtendedDetails | ShowTrends

  datatype DisplayOptions = DisplayOptions(showAirQuality: bool, showExtendedDetails: bool, showTrends: bool)

  /** How the data requests of one search ended: all four documents, or an error (with a message when it was an `Error`). */
  datatype SearchOutcome =
    | Fetched(weather: Json, forecast: Json, airQuality: Json, extended: Json)
    | Failed(message: Option<string>)

  /** The characters `String.prototype.trim` removes: white space and line terminators. */
  predicate JsWhitespace(c: char)
  {
    c == '\t' || c == '\n' || c == '\U{B}' || c == '\U{C}' || c == '\r' || c == ' ' ||
    c == '\U{A0}' || c == '\U{1680}' || ('\U{2000}' <= c <= '\U{200A}') ||
    c == '\U{2028}' || c == '\U{2029}' || c == '\U{202F}' || c == '\U{205F}' ||
    c == '\U{3000}' || c == '\U{FEFF}'
  }

  /** `trimStart`: the longest suffix that does not start with white space. */
  function TrimStart(s: string): (r: string)
    ensures |r| <= |s| && r == s[|s| - |r|..]
    ensures r == [] || !JsWhitespace(r[0])
    ensures forall k :: 0 <= k < |s| - |r| ==> JsWhitespace(s[k])
  {
    if s != [] && JsWhitespace(s[0]) then TrimStart(s[1..]) else s
  }

  /** `trimEnd`: the longest prefix that does not end with white space. */
  function TrimEnd(s: string): (r: string)
    ensures |r| <= |s| && r == s[..|r|]
    ensures r == [] || !JsWhitespace(r[|r| - 1])
    ensures forall k :: |r| <= k < |s| ==> JsWhitespace(s[k])
  {
    if s != [] && JsWhitespace(s[|s| - 1]) then TrimEnd(s[..|s| - 1]) else s
  }

  /** `trim`: white space removed from both ends. */
  function Trim(s: string): string
  {
    TrimEnd(TrimStart(s))
  }

  /** `!s.trim()`: nothing is left after trimming. */
  predicate Blank(s: string)
  {
    Trim(s) == []
  }

  /** A string is blank exactly when it is empty or made only of white space. */
  lemma BlankIsAllWhitespace(s: string)
    ensures Blank(s) <==> forall k :: 0 <= k < |s| ==> JsWhitespace(s[k])
  {
    var t := TrimStart(s);
    assert t != [] ==> t[0] == s[|s| - |t|];
    assert forall k :: |s| - |t| <= k < |s| ==> s[k] == t[k - (|s| - |t|)];
  }

  /** The unit toggle: C becomes F and F becomes C. */
  function Toggled(u: TempUnit): (r: TempUnit)
    ensures r != u
  {
    if u == C then F else C
  }

  /** Toggling twice restores the unit. */
  lemma ToggleInvolution(u: TempUnit)
    ensures Toggled(Toggled(u)) == u
  {
  }

  function OptionValue(o: DisplayOptions, option: DisplayOption): bool
  {
    match option
    case ShowAirQuality => o.showAirQuality
    case ShowExtendedDetails => o.showExtendedDetails
    case ShowTrends => o.showTrends
  }

  /** `{...prev, [option]: !prev[option]}`: the named option flips, the other two stay. */
  function Flipped(o: DisplayOptions, option: DisplayOption): (r: DisplayOptions)
    ensures OptionValue(r, option) == !OptionValue(o, option)
    ensures forall other :: other != option ==> OptionValue(r, other) == OptionValue(o, other)
  {
    match option
    case ShowAirQuality => o.(showAirQuality := !o.showAirQuality)
    case ShowExtendedDetails => o.(showExtendedDetails := !o.showExtendedDetails)
    case ShowTrends => o.(showTrends := !o.showTrends)
  }

  /** `s.filter(x => x !== city)`: exact, case-sensitive comparison. */
  function Without(s: seq<string>, city: string): (r: seq<string>)
    ensures |r| <= |s|
    ensures forall x :: x in r <==> x in s && x != city
    ensures city !in s ==> r == s
  {
    if s == [] then []
    else if s[0] == city then Without(s[1..], city)
    else [s[0]] + Without(s[1..], city)
  }

  /** Filtering keeps the order: the filter of a concatenation is the concatenation of the filters. */
  lemma {:induction false} WithoutConcat(a: seq<string>, b: seq<string>, city: string)
    ensures Without(a + b, city) == Without(a, city) + Without(b, city)
  {
    if a == [] {
      assert a + b == b;
    } else {
      assert (a + b)[1..] == a[1..] + b;
      WithoutConcat(a[1..], b, city);
    }
  }

  /**
   * `[city, ...recent.filter(s => s !== city)].slice(0, 5)`: the city first
   * and nowhere else, then the other recent searches in their old order,
   * cut to five entries in all.
   */
  function UpdatedSearches(recent: seq<string>, city: string): (r: seq<string>)
    ensures 1 <= |r| <= MaxRecentSearches && r[0] == city
    ensures city !in r[1..]
    ensures |r| - 1 <= |Without(recent, city)| && r[1..] == Without(recent, city)[..|r| - 1]
    ensures |r| == MaxRecentSearches || r[1..] == Without(recent, city)
    ensures forall x :: x in r[1..] ==> x in recent
  {
    var others := Without(recent, city);
    var all := [city] + others;
    var r := if |all| > MaxRecentSearches then all[..MaxRecentSearches] else all;
    assert r[1..] == others[..|r| - 1];
    assert forall x :: x in r[1..] ==> x in others;
    r
  }

  /** An earlier search for the same city moves to the front rather than being repeated. */
  lemma MoveToFront(before: seq<string>, city: string, after: seq<string>)
    requires |before| + |after| < MaxRecentSearches
    requires city !in before && city !in after
    ensures UpdatedSearches(before + [city] + after, city) == [city] + before + after
  {
    WithoutConcat(before + [city], after, city);
    WithoutConcat(before, [city], city);
    assert Without([city], city) == [];
    var others := Without(before + [city] + after, city);
    assert others == before + after;
    var r := UpdatedSearches(before + [city] + after, city);
    assert |r| == |before| + |after| + 1;
    assert r == [city] + r[1..];
  }

  /** The page's component state. */
  class Home {
    var city: string
    var weather: Option<Json>
    var forecast: Option<Json>
    var airQuality: Option<Json>
    var extendedData: Option<Json>
    var error: string
    var tempUnit: TempUnit
    var displayOptions: DisplayOptions
    var recentSearches: seq<string>

    /** The first render, with the unit and recent searches read back from the browser. */
    constructor (storedUnit: TempUnit, storedSearches: seq<string>)
      ensures city == "" && error == "" && tempUnit == storedUnit && recentSearches == storedSearches
      ensures weather == None && forecast == None && airQuality == None && extendedData == None
      ensures displayOptions == DisplayOptions(true, true, true)
    {
      city := "";
      weather, forecast, airQuality, extendedData := None, None, None, None;
      error := "";
      tempUnit := storedUnit;
      displayOptions := DisplayOptions(true, true, true);
      recentSearches := storedSearches;
    }

    /** `handleSearch(searchCity)`, given how its requests ended. */
    method HandleSearch(searchCity: string, outcome: SearchOutcome)
      modifies this
      // a blank search changes nothing
      ensures Blank(searchCity) ==> unchanged(this)
      ensures !Blank(searchCity) && outcome.Fetched? ==>
        weather == Some(outcome.weather) && forecast == Some(outcome.forecast) &&
        airQuality == Some(outcome.airQuality) && extendedData == Some(outcome.extended) &&
        error == "" && city == "" &&
        recentSearches == UpdatedSearches(old(recentSearches), searchCity)
      // a failure clears the data and leaves the recent searches and the input alone
      ensures !Blank(searchCity) && outcome.Failed? ==>
        weather == None && forecast == None && airQuality == None && extendedData == None &&
        error == (if outcome.message.Some? then outcome.message.value else "Failed to fetch weather data") &&
        recentSearches == old(recentSearches) && city == old(city)
      ensures tempUnit == old(tempUnit) && displayOptions == old(displayOptions)
    {
      if Blank(searchCity) {
        return;
      }
      Apply(searchCity, outcome);
    }

    /** What a non-blank search does to the page state once its requests have ended. */
    method Apply(searchCity: string, outcome: SearchOutcome)
      modifies this
      ensures outcome.Fetched? ==>
        weather == Some(outcome.weather) && forecast == Some(outcome.forecast) &&
        airQuality == Some(outcome.airQuality) && extendedData == Some(outcome.extended) &&
        error == "" && city == "" &&
        recentSearches == UpdatedSearches(old(recentSearches), searchCity)
      ensures outcome.Failed? ==>
        weather == None && forecast == None && airQuality == None && extendedData == None &&
        error == (if outcome.message.Some? then outcome.message.value else "Failed to fetch weather data") &&
        recentSearches == old(recentSearches) && city == old(city)
      ensures tempUnit == old(tempUnit) && displayOptions == old(displayOptions)
    {
      match outcome {
        case Fetched(w, f, a, e) =>
          weather := Some(w);
          forecast := Some(f);
          airQuality := Some(a);
          extendedData := Some(e);
          error := "";
          recentSearches := UpdatedSearches(recentSearches, searchCity);
          city := "";
        case Failed(message) =>
          error := if message.Some? then message.value else "Failed to fetch weather data";
          weather := None;
          forecast := None;
          airQuality := None;
          extendedData := None;
      }
    }

    /** The settings panel's unit switch. */
    method ToggleTempUnit()
      modifies this`tempUnit
      ensures tempUnit == Toggled(old(tempUnit))
    {
      tempUnit := Toggled(tempUnit);
    }

    /** `handleDisplayOptionChange(option)`. */
    method HandleDisplayOptionChange(option: DisplayOption)
      modifies this`displayOptions
      ensures displayOptions == Flipped(old(displayOptions), option)
    {
      displayOptions := Flipped(displayOptions, option);
    }
  }
}
