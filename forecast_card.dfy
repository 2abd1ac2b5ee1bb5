/**
 * The daily forecast shown by the forecast card: the three-hourly forecast
 * list reduced to its first entry per calendar date, then `slice(1, 6)`, the
 * next five days after the first. The calendar date of an entry depends on
 * the locale and time zone (`toLocaleDateString`), so it is a parameter.
 */
module ForecastCard {

  /** `acc.find(f => date(f) === d)` finds something. */
  predicate HasDate<T>(kept: seq<T>, dateKey: T -> string, d: string)
  {
    exists k :: 0 <= k < |kept| && dateKey(kept[k]) == d
  }

  /** No two entries share a date. */
  predicate DistinctDates<T>(s: seq<T>, dateKey: T -> string)
  {
    forall a, b :: 0 <= a < b < |s| ==> dateKey(s[a]) != dateKey(s[b])
  }

  lemma HasDateAppend<T>(kept: seq<T>, x: T, dateKey: T -> string)
    ensures forall d :: HasDate(kept + [x], dateKey, d) <==> HasDate(kept, dateKey, d) || dateKey(x) == d
  {
    forall d ensures HasDate(kept + [x], dateKey, d) <==> HasDate(kept, dateKey, d) || dateKey(x) == d {
      if HasDate(kept, dateKey, d) {
        var k :| 0 <= k < |kept| && dateKey(kept[k]) == d;
        assert (kept + [x])[k] == kept[k];
      }
      if dateKey(x) == d {
        assert (kept + [x])[|kept|] == x;
      }
      if HasDate(kept + [x], dateKey, d) {
        var k :| 0 <= k < |kept + [x]| && dateKey((kept + [x])[k]) == d;
        if k < |kept| {
          assert (kept + [x])[k] == kept[k];
        }
      }
    }
  }

  /** One step of the `reduce`: keep `x` unless its date is already there. */
  function KeepIfNewDate<T>(kept: seq<T>, x: T, dateKey: T -> string): (r: seq<T>)
    ensures r == kept || r == kept + [x]
    ensures HasDate(kept, dateKey, dateKey(x)) ==> r == kept
    ensures !HasDate(kept, dateKey, dateKey(x)) ==> r == kept + [x]
    ensures forall d :: HasDate(r, dateKey, d) <==> HasDate(kept, dateKey, d) || dateKey(x) == d
    ensures DistinctDates(kept, dateKey) ==> DistinctDates(r, dateKey)
  {
    HasDateAppend(kept, x, dateKey);
    if HasDate(kept, dateKey, dateKey(x)) then kept
    else
      assert forall k :: 0 <= k < |kept| ==> dateKey(kept[k]) != dateKey(x);
      kept + [x]
  }

  /**
   * The accumulator of the `reduce` over the whole list. Every date of the
   * list is represented, by exactly one entry, and the list's first entry is
   * kept first.
   */
  function FirstPerDate<T>(list: seq<T>, dateKey: T -> string): (r: seq<T>)
    ensures |r| <= |list|
    ensures DistinctDates(r, dateKey)
    ensures forall d :: HasDate(r, dateKey, d) <==> HasDate(list, dateKey, d)
    ensures |list| > 0 ==> |r| > 0 && r[0] == list[0]
    decreases |list|
  {
    if list == [] then []
    else
      var prefix := list[..|list| - 1];
      var last := list[|list| - 1];
      assert list == prefix + [last];
      HasDateAppend(prefix, last, dateKey);
      KeepIfNewDate(FirstPerDate(prefix, dateKey), last, dateKey)
  }

  /**
   * `ix` says where each entry of `kept` came from: positions in `list`,
   * increasing (the kept entries are in list order), each the first position
   * with its date.
   */
  ghost predicate FirstPositions<T>(list: seq<T>, kept: seq<T>, ix: seq<int>, dateKey: T -> string)
  {
    && |ix| == |kept|
    && (forall k :: 0 <= k < |ix| ==> 0 <= ix[k] < |list| && kept[k] == list[ix[k]])
    && (forall a, b :: 0 <= a < b < |ix| ==> ix[a] < ix[b])
    && (forall k, j :: 0 <= k < |ix| && 0 <= j < ix[k] ==> dateKey(list[j]) != dateKey(list[ix[k]]))
  }

  /** Positions stay valid when the list grows, and a new date adds its own. */
  lemma ExtendPositions<T>(list: seq<T>, last: T, kept: seq<T>, ix: seq<int>, dateKey: T -> string)
    requires FirstPositions(list, kept, ix, dateKey)
    ensures FirstPositions(list + [last], kept, ix, dateKey)
    ensures !HasDate(list, dateKey, dateKey(last)) ==>
      FirstPositions(list + [last], kept + [last], ix + [|list|], dateKey)
  {
    var grown := list + [last];
    assert forall j :: 0 <= j < |list| ==> grown[j] == list[j];
    if !HasDate(list, dateKey, dateKey(last)) {
      var ix' := ix + [|list|];
      var kept' := kept + [last];
      forall k, j | 0 <= k < |ix'| && 0 <= j < ix'[k]
        ensures dateKey(grown[j]) != dateKey(grown[ix'[k]])
      {
        if k == |ix| {
          assert grown[ix'[k]] == last;
          assert dateKey(list[j]) != dateKey(last);
        }
      }
    }
  }

  /** The positions of the entries that `FirstPerDate` keeps. */
  ghost function KeptPositions<T>(list: seq<T>, dateKey: T -> string): (ix: seq<int>)
    ensures FirstPositions(list, FirstPerDate(list, dateKey), ix, dateKey)
    decreases |list|
  {
    if list == [] then []
    else
      var prefix := list[..|list| - 1];
      var last := list[|list| - 1];
      var ix := KeptPositions(prefix, dateKey);
      assert list == prefix + [last];
      ExtendPositions(prefix, last, FirstPerDate(prefix, dateKey), ix, dateKey);
      if HasDate(prefix, dateKey, dateKey(last)) then ix else ix + [|prefix|]
  }

  /** `slice(1, 6)`, with JavaScript's clamping to the length. */
  function NextFiveDays<T>(days: seq<T>): (r: seq<T>)
    ensures |r| <= 5
    ensures |days| >= 6 ==> |r| == 5
    ensures |days| < 6 ==> |r| == if |days| == 0 then 0 else |days| - 1
    ensures forall k :: 0 <= k < |r| ==> r[k] == days[k + 1]
  {
    if |days| == 0 then [] else days[1..if |days| < 6 then |days| else 6]
  }

  /**
   * What the card shows: at most five days, with distinct dates, never the
   * first (earliest) entry of the list nor any entry on its date.
   */
  lemma ShownDays<T>(list: seq<T>, dateKey: T -> string)
    ensures var shown := NextFiveDays(FirstPerDate(list, dateKey));
      && |shown| <= 5
      && DistinctDates(shown, dateKey)
      && (|list| > 0 ==> (forall k :: 0 <= k < |shown| ==> dateKey(shown[k]) != dateKey(list[0])) && list[0] !in shown)
  {
    var days := FirstPerDate(list, dateKey);
    var shown := NextFiveDays(days);
    forall a, b | 0 <= a < b < |shown| ensures dateKey(shown[a]) != dateKey(shown[b]) {
      assert shown[a] == days[a + 1] && shown[b] == days[b + 1];
    }
    if |list| > 0 {
      forall k | 0 <= k < |shown| ensures dateKey(shown[k]) != dateKey(list[0]) {
        assert shown[k] == days[k + 1] && days[0] == list[0];
      }
    }
  }

  /** `acc.find(f => date(f) === d)`, as a search from the front. */
  method FindDate<T>(acc: seq<T>, dateKey: T -> string, d: string) returns (found: bool)
    ensures found == HasDate(acc, dateKey, d)
  {
    var j := 0;
    while j < |acc|
      invariant 0 <= j <= |acc|
      invariant forall k :: 0 <= k < j ==> dateKey(acc[k]) != d
    {
      if dateKey(acc[j]) == d {
        return true;
      }
      j := j + 1;
    }
    return false;
  }

  /** The `dailyForecasts` computation of the card. */
  method DailyForecasts<T>(list: seq<T>, dateKey: T -> string) returns (days: seq<T>)
    ensures days == NextFiveDays(FirstPerDate(list, dateKey))
  {
    var acc: seq<T> := [];
    var i := 0;
    while i < |list|
      invariant 0 <= i <= |list|
      invariant acc == FirstPerDate(list[..i], dateKey)
    {
      var found := FindDate(acc, dateKey, dateKey(list[i]));
      assert list[..i + 1][..i] == list[..i];
      if !found {
        acc := acc + [list[i]];
      }
      i := i + 1;
    }
    assert list[..i] == list;
    days := if |acc| == 0 then [] else acc[1..if |acc| < 6 then |acc| else 6];
  }
}
