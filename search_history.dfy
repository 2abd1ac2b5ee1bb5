/**
 * The search history kept by `addToSearchHistory`: most recent first,
 * deduplicated by case-insensitive city and country, capped at
 * `MAX_SEARCH_HISTORY` entries. The browser storage it is read from and written
 * back to is the `items` field of a store object; the clock is a parameter.
 */
module SearchHistory {

  const MaxSearchHistory: nat := 5

  datatype HistoryItem = HistoryItem(city: string, country: string, timestamp: int)

  /** The lower-case form of an ASCII capital; every other character is its own lower-case form. */
  function LowerChar(c: char): (r: char)
    ensures !('A' <= r <= 'Z')
    ensures !('A' <= c <= 'Z') ==> r == c
    ensures 'A' <= c <= 'Z' ==> 'a' <= r <= 'z' && r as int - 'a' as int == c as int - 'A' as int
  {
    if 'A' <= c <= 'Z' then (c as int + 32) as char else c
  }

  /**
   * `toLowerCase`, for the ASCII letters: no capital is left, every other
   * character stays where it was, and each capital becomes the same letter in
   * lower case.
   */
  function Lower(s: string): (r: string)
    ensures |r| == |s|
    ensures forall k :: 0 <= k < |r| ==> !('A' <= r[k] <= 'Z')
    ensures forall k :: 0 <= k < |s| && !('A' <= s[k] <= 'Z') ==> r[k] == s[k]
    ensures forall k :: 0 <= k < |s| && 'A' <= s[k] <= 'Z' ==>
      'a' <= r[k] <= 'z' && r[k] as int - 'a' as int == s[k] as int - 'A' as int
  {
    seq(|s|, k requires 0 <= k < |s| => LowerChar(s[k]))
  }

  /** Lower-casing an already lower-cased string changes nothing. */
  lemma LowerIdempotent(s: string)
    ensures Lower(Lower(s)) == Lower(s)
  {
  }

  /** The `findIndex` predicate: same city and same country, ignoring case. */
  predicate Matches(item: HistoryItem, city: string, country: string)
  {
    Lower(item.city) == Lower(city) && Lower(item.country) == Lower(country)
  }

  /** No two entries of the history match each other. */
  ghost predicate NoDuplicates(h: seq<HistoryItem>)
  {
    forall i, j :: 0 <= i < j < |h| ==> !Matches(h[j], h[i].city, h[i].country)
  }

  /** `history.findIndex(...)`: the first matching position, or -1. */
  function MatchIndex(h: seq<HistoryItem>, city: string, country: string): (r: int)
    ensures -1 <= r < |h|
    ensures r == -1 <==> forall k :: 0 <= k < |h| ==> !Matches(h[k], city, country)
    ensures r >= 0 ==> Matches(h[r], city, country) && forall k :: 0 <= k < r ==> !Matches(h[k], city, country)
  {
    if h == [] then -1
    else if Matches(h[0], city, country) then 0
    else
      var r := MatchIndex(h[1..], city, country);
      if r == -1 then -1 else r + 1
  }

  /** The linear search behind `findIndex`. */
  method FindIndex(h: seq<HistoryItem>, city: string, country: string) returns (index: int)
    ensures index == MatchIndex(h, city, country)
  {
    var k := 0;
    while k < |h|
      invariant 0 <= k <= |h|
      invariant forall j :: 0 <= j < k ==> !Matches(h[j], city, country)
    {
      if Matches(h[k], city, country) {
        return k;
      }
      k := k + 1;
    }
    return -1;
  }

  /** Where entry `k` (k >= 1) of the new history was in the old one: past the match it is the same place. */
  function OldPosition(i: int, k: int): int
  {
    if i == -1 || k - 1 < i then k - 1 else k
  }

  /** `history.splice(i, 1)` when a match was found at `i`. */
  function Spliced(h: seq<HistoryItem>, i: int): (r: seq<HistoryItem>)
    requires -1 <= i < |h|
    ensures |r| == if i == -1 then |h| else |h| - 1
    ensures forall k :: 1 <= k <= |r| ==> r[k - 1] == h[OldPosition(i, k)]
  {
    if i != -1 then h[..i] + h[i + 1..] else h
  }

  /**
   * The history after adding (city, country) at time `now`: the new entry
   * first, the earlier entries after it in their old order without the first
   * match, and the last (oldest) entry dropped when that exceeds the cap.
   */
  function Added(h: seq<HistoryItem>, city: string, country: string, now: int): (r: seq<HistoryItem>)
    ensures |r| >= 1 && r[0] == HistoryItem(city, country, now)
    ensures |h| <= MaxSearchHistory ==> |r| <= MaxSearchHistory
    // one entry longer unless a match was replaced, then one shorter again past the cap
    ensures var n := if MatchIndex(h, city, country) == -1 then |h| + 1 else |h|;
      |r| == if n > MaxSearchHistory then n - 1 else n
    // the other entries, in their old order: those before the match move down one place
    ensures forall k :: 1 <= k < |r| ==> r[k] == h[OldPosition(MatchIndex(h, city, country), k)]
  {
    var i := MatchIndex(h, city, country);
    var others := Spliced(h, i);
    var pushed := [HistoryItem(city, country, now)] + others;
    assert forall k :: 1 <= k < |pushed| ==> pushed[k] == others[k - 1];
    if |pushed| > MaxSearchHistory then pushed[..|pushed| - 1] else pushed
  }

  /** On a history without duplicates the added entry is the only match, and there are still no duplicates. */
  lemma AddedMatchesOnce(h: seq<HistoryItem>, city: string, country: string, now: int)
    requires NoDuplicates(h)
    ensures var r := Added(h, city, country, now);
      Matches(r[0], city, country) && (forall k :: 1 <= k < |r| ==> !Matches(r[k], city, country)) &&
      NoDuplicates(r)
  {
    var r := Added(h, city, country, now);
    var i := MatchIndex(h, city, country);
    forall k | 1 <= k < |r| ensures !Matches(r[k], city, country) {
      var j := OldPosition(i, k);
      if i != -1 && j > i {
        assert !Matches(h[j], h[i].city, h[i].country);
      }
    }
    forall a, b | 0 <= a < b < |r| ensures !Matches(r[b], r[a].city, r[a].country) {
      if a > 0 {
        assert OldPosition(i, a) < OldPosition(i, b);
      }
    }
  }

  /** When the history is full and holds no match, its oldest entry is the one dropped. */
  lemma OldestDropped(h: seq<HistoryItem>, city: string, country: string, now: int)
    requires |h| == MaxSearchHistory && MatchIndex(h, city, country) == -1
    ensures Added(h, city, country, now) == [HistoryItem(city, country, now)] + h[..|h| - 1]
  {
  }

  /** The stored history, rewritten in place by `addToSearchHistory`. */
  class SearchHistoryStore {
    var items: seq<HistoryItem>

    /** What every history written by this store satisfies. */
    ghost predicate Valid()
      reads this
    {
      |items| <= MaxSearchHistory && NoDuplicates(items)
    }

    constructor ()
      ensures Valid() && items == []
    {
      items := [];
    }

    /** `addToSearchHistory(city, country)` at time `now`: splice out the match, unshift, pop on overflow. */
    method Add(city: string, country: string, now: int)
      modifies this
      ensures items == Added(old(items), city, country, now)
      ensures old(Valid()) ==> Valid()
    {
      var index := FindIndex(items, city, country);
      if index != -1 {
        items := items[..index] + items[index + 1..];
      }
      items := [HistoryItem(city, country, now)] + items;
      if |items| > MaxSearchHistory {
        items := items[..|items| - 1];
      }
      if old(Valid()) {
        AddedMatchesOnce(old(items), city, country, now);
      }
    }
  }
}
