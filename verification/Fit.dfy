/**
How many ranked bullets the document shows (cv/src/fit.js), found by measuring as few layouts as possible. Lengths
are in pages; `measure` is the real layout, of which nothing is assumed but that it answers.
*/
module Fit {
  import opened Collections

  const ONE_PAGE := 1.0
  const TWO_PAGES := 2.0
  const TWO_PAGES_FROM := 1.5
  const SAFETY := 0.015
  const SKILL_CAPS: seq<nat> := [6, 5, 4, 3, 2]

  type Measure = (set<string>, nat) -> real

  datatype Ranked = Ranked(id: string, tier: nat)

  datatype Fitted = Fitted(bullets: set<string>, pages: real, layouts: nat, cap: nat)

  function IdOf(ranked: Ranked): string {
    ranked.id
  }

  function RelevantOf(ranked: seq<Ranked>): seq<string> {
    if ranked == [] then []
    else
      var last := ranked[|ranked| - 1];
      RelevantOf(ranked[..|ranked| - 1]) + if last.tier > 0 then [last.id] else []
  }

  function First(ids: seq<string>, k: nat): set<string>
    requires k <= |ids|
  {
    set id | id in ids[..k]
  }

  /** The length of the page with the first `k` of these ids. */
  function LengthOf(measure: Measure, ids: seq<string>, k: nat, cap: nat): real
    requires k <= |ids|
  {
    measure(First(ids, k), cap)
  }

  predicate Fits(measure: Measure, ids: seq<string>, k: nat, cap: nat, limit: real)
    requires k <= |ids|
  {
    LengthOf(measure, ids, k, cap) <= limit
  }

  /** Whatever the layout does: `k` fits (or is nothing at all), and one bullet more does not. */
  ghost predicate CannotGrow(measure: Measure, ids: seq<string>, cap: nat, limit: real, k: nat) {
    && k <= |ids|
    && (k > 0 ==> Fits(measure, ids, k, cap, limit))
    && (k < |ids| ==> !Fits(measure, ids, k + 1, cap, limit))
  }

  /** Adding a bullet never shortens the page. */
  ghost predicate NeverShortens(measure: Measure, ids: seq<string>, cap: nat) {
    forall j, k :: 0 <= j <= k <= |ids| ==> LengthOf(measure, ids, j, cap) <= LengthOf(measure, ids, k, cap)
  }

  /** When adding a bullet never shortens the page, what is shown is the longest part of the ranking that fits. */
  lemma CannotGrowIsLongest(measure: Measure, ids: seq<string>, cap: nat, limit: real, k: nat)
    requires NeverShortens(measure, ids, cap) && CannotGrow(measure, ids, cap, limit, k)
    ensures forall j :: 0 < j <= |ids| ==> (Fits(measure, ids, j, cap, limit) <==> j <= k)
  {
    forall j | 0 < j <= |ids|
      ensures Fits(measure, ids, j, cap, limit) <==> j <= k
    {
      if j <= k {
        assert LengthOf(measure, ids, j, cap) <= LengthOf(measure, ids, k, cap);
      } else {
        assert LengthOf(measure, ids, k + 1, cap) <= LengthOf(measure, ids, j, cap);
      }
    }
  }

  // ---------------------------------------------------------------- how many layouts a search takes

  /** The halvings of `n` down to nothing. */
  function Halvings(n: nat): nat {
    if n == 0 then 0 else 1 + Halvings(n / 2)
  }

  function PowerOfTwo(n: nat): nat {
    if n == 0 then 1 else 2 * PowerOfTwo(n - 1)
  }

  /** That is the least power of two that reaches `n + 1`: its logarithm, rounded up. */
  lemma {:induction false} HalvingsAreTheLogarithm(n: nat)
    ensures n + 1 <= PowerOfTwo(Halvings(n))
    ensures n > 0 ==> PowerOfTwo(Halvings(n) - 1) < n + 1
  {
    if n > 0 {
      HalvingsAreTheLogarithm(n / 2);
    }
  }

  /** `n` halved down to nothing, from the last to the first. */
  ghost predicate HalvesDown(chain: seq<nat>) {
    && |chain| > 0 && chain[0] == 0
    && forall i :: 0 < i < |chain| ==> chain[i] / 2 <= chain[i - 1]
  }

  lemma OneHalving(chain: seq<nat>, left: nat, size: nat, half: nat)
    requires HalvesDown(chain) && left < |chain| && 0 < size <= chain[left] && half <= size / 2
    ensures 0 < left && half <= chain[left - 1]
  {
  }

  function Chain(n: nat): seq<nat> {
    if n == 0 then [0] else Chain(n / 2) + [n]
  }

  lemma {:induction false} ChainHalvesDown(n: nat)
    ensures HalvesDown(Chain(n)) && |Chain(n)| == Halvings(n) + 1 && Chain(n)[Halvings(n)] == n
  {
    if n > 0 {
      ChainHalvesDown(n / 2);
    }
  }

  /** A search in progress: `low` fits, and nothing just above `high` does. */
  ghost predicate Between(measure: Measure, ids: seq<string>, cap: nat, limit: real, low: nat, high: nat) {
    && low <= high <= |ids|
    && (low > 0 ==> Fits(measure, ids, low, cap, limit))
    && (high < |ids| ==> !Fits(measure, ids, high + 1, cap, limit))
  }

  lemma HalfIsBetween(measure: Measure, ids: seq<string>, cap: nat, limit: real, low: nat, middle: nat, high: nat)
    requires low < middle <= high && Between(measure, ids, cap, limit, low, high)
    ensures if LengthOf(measure, ids, middle, cap) <= limit then Between(measure, ids, cap, limit, middle, high)
      else Between(measure, ids, cap, limit, low, middle - 1)
  {
  }

  // ---------------------------------------------------------------- the search

  datatype Key = Key(whole: bool, k: nat, cap: nat)

  /** A cap of the list, the largest under which the page without bullets fits, or the least when none does. */
  ghost predicate ChosenCap(measure: Measure, ids: seq<string>, cap: nat) {
    && 2 <= cap <= 6
    && (cap != 2 ==> Fits(measure, ids, 0, cap, 0.985))
    && (forall larger :: cap < larger <= 6 ==> !Fits(measure, ids, 0, larger, 0.985))
  }

  /** None of the first caps lets the page without bullets fit. */
  ghost predicate NoneFits(measure: Measure, ids: seq<string>, i: nat)
    requires i <= |SKILL_CAPS|
  {
    forall j :: 0 <= j < i ==> !Fits(measure, ids, 0, SKILL_CAPS[j], ONE_PAGE - SAFETY)
  }

  lemma FirstThatFits(measure: Measure, ids: seq<string>, i: nat)
    requires i < |SKILL_CAPS| && NoneFits(measure, ids, i) && Fits(measure, ids, 0, SKILL_CAPS[i], ONE_PAGE - SAFETY)
    ensures ChosenCap(measure, ids, SKILL_CAPS[i])
  {
    forall larger | SKILL_CAPS[i] < larger <= 6
      ensures !Fits(measure, ids, 0, larger, 0.985)
    {
      assert SKILL_CAPS[6 - larger] == larger;
    }
  }

  lemma LeastWhenNoneFits(measure: Measure, ids: seq<string>)
    requires NoneFits(measure, ids, |SKILL_CAPS|)
    ensures ChosenCap(measure, ids, SKILL_CAPS[4])
  {
    forall larger | 2 < larger <= 6
      ensures !Fits(measure, ids, 0, larger, 0.985)
    {
      assert SKILL_CAPS[6 - larger] == larger;
    }
  }

  class Fitter {
    const all: seq<string>
    const relevant: seq<string>
    const measure: Measure
    var cache: map<Key, real>
    var cap: nat
    ghost var measured: nat

    function Ids(whole: bool): seq<string> {
      if whole then all else relevant
    }

    /** Every cached length is the measured one. */
    ghost predicate Valid()
      reads this
    {
      && measured == |cache|
      && forall key :: key in cache ==> key.k <= |Ids(key.whole)| && cache[key] == LengthOf(measure, Ids(key.whole), key.k, key.cap)
    }

    constructor (ranked: seq<Ranked>, measure: Measure)
      ensures Valid() && cache == map[] && cap == SKILL_CAPS[0]
      ensures all == Mapped(ranked, IdOf) && relevant == RelevantOf(ranked) && this.measure == measure
    {
      all, relevant, this.measure := Mapped(ranked, IdOf), RelevantOf(ranked), measure;
      cache, cap, measured := map[], SKILL_CAPS[0], 0;
    }

    /** `lengthOf`: measured once. */
    method Length(whole: bool, k: nat) returns (length: real)
      requires Valid() && k <= |Ids(whole)|
      modifies this`cache, this`measured
      ensures Valid() && length == LengthOf(measure, Ids(whole), k, cap)
      ensures cache == old(cache)[Key(whole, k, cap) := length]
      ensures measured == old(measured) + if Key(whole, k, cap) in old(cache) then 0 else 1
    {
      var key := Key(whole, k, cap);
      if key !in cache {
        cache := cache[key := measure(First(Ids(whole), k), cap)];
        measured := measured + 1;
      }
      length := cache[key];
      assert cache == old(cache)[key := length];
    }

    /** Between two bounds, the lower one measured. */
    ghost predicate Searching(whole: bool, limit: real, low: nat, high: nat)
      reads this
    {
      Valid() && Between(measure, Ids(whole), cap, limit, low, high) && (low > 0 ==> Key(whole, low, cap) in cache)
    }

    /** One measure of a search: what is left is halved. */
    method Probe(whole: bool, limit: real, low: nat, high: nat, ghost kept: Key) returns (newLow: nat, newHigh: nat)
      requires Searching(whole, limit, low, high) && low < high
      modifies this`cache, this`measured
      ensures Searching(whole, limit, newLow, newHigh)
      ensures (kept in old(cache) ==> kept in cache) && measured <= old(measured) + 1
      ensures newLow <= newHigh && newHigh - newLow <= (high - low) / 2
    {
      var middle := (low + high + 1) / 2;
      HalfIsBetween(measure, Ids(whole), cap, limit, low, middle, high);
      var length := Length(whole, middle);
      newLow, newHigh := if length <= limit then middle else low, if length <= limit then high else middle - 1;
    }

    /** `largest`: a binary search, its answer measured on the way unless it is nothing at all. */
    method Largest(whole: bool, limit: real, ghost kept: Key, ghost chain: seq<nat>) returns (low: nat)
      requires Valid() && HalvesDown(chain) && |Ids(whole)| <= chain[|chain| - 1]
      modifies this`cache, this`measured
      ensures Valid() && CannotGrow(measure, Ids(whole), cap, limit, low)
      ensures (kept in old(cache) ==> kept in cache) && (low > 0 ==> Key(whole, low, cap) in cache)
      ensures measured <= old(measured) + |chain| - 1
    {
      low := 0;
      var high: nat := |Ids(whole)|;
      ghost var left := |chain| - 1;
      while low < high
        invariant Searching(whole, limit, low, high)
        invariant kept in old(cache) ==> kept in cache
        invariant 0 <= left < |chain| && high - low <= chain[left] && measured + left <= old(measured) + |chain| - 1
        decreases left
      {
        ghost var size := high - low;
        low, high := Probe(whole, limit, low, high, kept);
        OneHalving(chain, left, size, high - low);
        left := left - 1;
      }
    }

    /** The skills column gives way first, one skill a group at a time. */
    method ChooseCap()
      requires Valid()
      modifies this
      ensures Valid() && ChosenCap(measure, all, cap) && Key(true, 0, cap) in cache
      ensures measured <= old(measured) + |SKILL_CAPS|
    {
      var i := 0;
      while i < |SKILL_CAPS|
        invariant 0 <= i <= |SKILL_CAPS| && Valid()
        invariant i > 0 ==> cap == SKILL_CAPS[i - 1] && Key(true, 0, cap) in cache
        invariant NoneFits(measure, all, i)
        invariant measured <= old(measured) + i
      {
        cap := SKILL_CAPS[i];
        var length := Length(true, 0);
        if length <= ONE_PAGE - SAFETY {
          FirstThatFits(measure, all, i);
          return;
        }
        i := i + 1;
      }
      LeastWhenNoneFits(measure, all);
    }

    /** Two pages: every relevant bullet when they fit, else the search, under the largest cap. */
    method OnTwoPages(pagesOfAll: real) returns (k: nat, pages: real)
      requires Valid() && Key(false, |relevant|, cap) in cache && pagesOfAll == LengthOf(measure, relevant, |relevant|, cap)
      modifies this`cache, this`measured
      ensures Valid() && CannotGrow(measure, relevant, cap, TWO_PAGES - SAFETY, k) && pages == LengthOf(measure, relevant, k, cap)
      ensures measured <= old(measured) + Halvings(|relevant|) + 1
    {
      k := |relevant|;
      if pagesOfAll > TWO_PAGES - SAFETY {
        ChainHalvesDown(|relevant|);
        k := Largest(false, TWO_PAGES - SAFETY, Key(false, 0, cap), Chain(|relevant|));
      }
      pages := Length(false, k);
    }

    /** One page: the skills column gives way first, then the search. */
    method OnOnePage() returns (k: nat, pages: real)
      requires Valid()
      modifies this
      ensures Valid() && ChosenCap(measure, all, cap)
      ensures CannotGrow(measure, all, cap, ONE_PAGE - SAFETY, k) && pages == LengthOf(measure, all, k, cap)
      ensures measured <= old(measured) + |SKILL_CAPS| + Halvings(|all|)
    {
      ChooseCap();
      ChainHalvesDown(|all|);
      k := Largest(true, ONE_PAGE - SAFETY, Key(true, 0, cap), Chain(|all|));
      pages := Length(true, k);
    }

    /**
     `fitToPage`. Two pages only when the relevant bullets alone reach a page and a half; then, or on one page, the
     bullets shown cannot grow, within the layouts a binary search takes.
     */
    method FitToPage() returns (fitted: Fitted)
      requires Valid() && cache == map[] && cap == SKILL_CAPS[0]
      modifies this
      ensures exists k :: Shows(all, relevant, measure, fitted, k)
      ensures !FillsMore(measure, relevant) ==> fitted.layouts <= 6 + Halvings(|all|)
      ensures FillsMore(measure, relevant) ==> fitted.layouts <= 2 + Halvings(|relevant|)
    {
      var relevantPages := Length(false, |relevant|);
      var k: nat, pages: real;
      if relevantPages >= TWO_PAGES_FROM {
        k, pages := OnTwoPages(relevantPages);
        FirstAre(relevant, k);
        fitted := Fitted(First(relevant, k), pages, |cache|, cap);
      } else {
        k, pages := OnOnePage();
        FirstAre(all, k);
        fitted := Fitted(First(all, k), pages, |cache|, cap);
      }
      assert Shows(all, relevant, measure, fitted, k);
    }
  }

  /** The relevant bullets alone fill a page and a half, six skills a group. */
  predicate FillsMore(measure: Measure, relevant: seq<string>) {
    LengthOf(measure, relevant, |relevant|, 6) >= 1.5
  }

  /** The first `k` bullets are shown: on two pages under the largest cap, or on one under the cap chosen. */
  ghost predicate Shows(all: seq<string>, relevant: seq<string>, measure: Measure, fitted: Fitted, k: nat) {
    var ids := if FillsMore(measure, relevant) then relevant else all;
    && k <= |ids|
    && fitted.bullets == (set i | 0 <= i < k :: ids[i])
    && fitted.pages == measure(fitted.bullets, fitted.cap)
    && (if FillsMore(measure, relevant) then fitted.cap == 6 else ChosenCap(measure, all, fitted.cap))
    && CannotGrow(measure, ids, fitted.cap, if FillsMore(measure, relevant) then 1.985 else 0.985, k)
  }

  lemma FirstAre(ids: seq<string>, k: nat)
    requires k <= |ids|
    ensures First(ids, k) == set i | 0 <= i < k :: ids[i]
  {
    forall id | id in First(ids, k)
      ensures id in set i | 0 <= i < k :: ids[i]
    {
      var i :| 0 <= i < k && ids[..k][i] == id;
    }
    forall i | 0 <= i < k
      ensures ids[i] in First(ids, k)
    {
      assert ids[..k][i] == ids[i];
    }
  }

  /** The ids of the bullets of a tier above zero, in the ranking's order. */
  ghost predicate RelevantAt(ranked: seq<Ranked>, places: seq<nat>, ids: seq<string>) {
    && Increasing(places, |ranked|) && |places| == |ids|
    && (forall k :: 0 <= k < |places| ==> ids[k] == ranked[places[k]].id)
    && (forall i :: 0 <= i < |ranked| ==> (i in places <==> ranked[i].tier > 0))
  }

  lemma OneMoreRanked(ranked: seq<Ranked>, last: Ranked, places: seq<nat>, ids: seq<string>)
    requires RelevantAt(ranked, places, ids)
    ensures if last.tier > 0 then RelevantAt(ranked + [last], places + [|ranked|], ids + [last.id]) else RelevantAt(ranked + [last], places, ids)
  {
    assert |ranked| !in places;
  }

  /** The relevant bullets are those of a tier above zero. */
  lemma {:induction false} RelevantAre(ranked: seq<Ranked>) returns (places: seq<nat>)
    ensures RelevantAt(ranked, places, RelevantOf(ranked))
  {
    places := [];
    if ranked != [] {
      var n := |ranked| - 1;
      var before := RelevantAre(ranked[..n]);
      OneMoreRanked(ranked[..n], ranked[n], before, RelevantOf(ranked[..n]));
      assert ranked[..n] + [ranked[n]] == ranked;
      places := if ranked[n].tier > 0 then before + [n] else before;
    }
  }

  /** A page that fits with nothing chosen never overflows its limit with the bullets shown. */
  lemma ShownPagesStayWithin(all: seq<string>, relevant: seq<string>, measure: Measure, fitted: Fitted, k: nat)
    requires Shows(all, relevant, measure, fitted, k)
    ensures var limit := if FillsMore(measure, relevant) then 1.985 else 0.985;
      fitted.pages <= limit <==> k > 0 || measure({}, fitted.cap) <= limit
  {
    var ids := if FillsMore(measure, relevant) then relevant else all;
    FirstAre(ids, k);
    assert k == 0 ==> fitted.bullets == {};
  }
}
