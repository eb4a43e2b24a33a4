/**
One email, several offers (cv/src/split.js): the model names line ranges, the code checks them and cuts, and says
which lines are in no offer. Lines are numbered from 1.
*/
module Split {
  import opened Collections
  import opened Sorting

  const MIN_LINES := 2

  /** A range as the model wrote it, or something that is not two whole numbers. */
  datatype Candidate = Range(first: int, last: int) | NotARange

  /** The model's answer: `offers` that is no list, or its ranges, and the shared range when there is one. */
  datatype Answer = NoList | Offers(offers: seq<Candidate>, shared: Option<Candidate>)

  datatype Checked = Ranges(ranges: seq<Candidate>, shared: Option<Candidate>) | Whole(reason: Reason)

  datatype Reason = NoOffer | Outside | TooShort | SharedOutside | Overlap

  predicate IsRange(r: Candidate, count: nat) {
    r.Range? && 1 <= r.first <= r.last <= count
  }

  /** The lines of a stretch that are not blank. */
  function FilledIn(lines: seq<string>, filled: string -> bool, first: int, last: int): nat
    requires 1 <= first && last <= |lines|
    decreases last - first
  {
    if first > last then 0 else FilledIn(lines, filled, first, last - 1) + if filled(lines[last - 1]) then 1 else 0
  }

  predicate Covers(r: Candidate, n: int) {
    r.Range? && r.first <= n <= r.last
  }

  predicate Apart(a: Candidate, b: Candidate) {
    a.Range? && b.Range? && (a.last < b.first || b.last < a.first)
  }

  /** No two ranges share a line. */
  ghost predicate AllApart(rs: seq<Candidate>) {
    Pairwise(rs, Apart)
  }

  // ---------------------------------------------------------------- sorted ranges need only be compared with the next

  ghost predicate AllRanges(rs: seq<Candidate>) {
    forall r :: r in rs ==> r.Range? && r.first <= r.last
  }

  predicate StartsBefore(a: Candidate, b: Candidate) {
    a.Range? && b.Range? && a.first < b.first
  }

  /** `.sort((a, b) => a[0] - b[0])`. */
  function ByStart(rs: seq<Candidate>): (r: seq<Candidate>) {
    Sorted(rs, StartsBefore)
  }

  ghost predicate ByFirst(rs: seq<Candidate>) {
    AllRanges(rs) && forall i, j :: 0 <= i < j < |rs| ==> rs[i].first <= rs[j].first
  }

  /** Sorting moves no range onto another, nor off. */
  lemma SortedApart(rs: seq<Candidate>)
    ensures AllApart(ByStart(rs)) <==> AllApart(rs)
  {
    SortedPairwise(rs, StartsBefore, Apart);
  }

  lemma SortedByFirst(rs: seq<Candidate>)
    requires AllRanges(rs)
    ensures ByFirst(ByStart(rs))
  {
    SortedInOrder(rs, StartsBefore);
    forall r | r in ByStart(rs)
      ensures r.Range? && r.first <= r.last
    {
      SortedElements(rs, StartsBefore, r);
    }
    forall i, j | 0 <= i < j < |ByStart(rs)|
      ensures ByStart(rs)[i].first <= ByStart(rs)[j].first
    {
      assert !StartsBefore(ByStart(rs)[j], ByStart(rs)[i]);
    }
  }

  predicate NextApart(rs: seq<Candidate>, i: nat)
    requires 0 < i < |rs| && rs[i].Range? && rs[i - 1].Range?
  {
    rs[i].first > rs[i - 1].last
  }

  /** Once sorted, each range need only start after the one before it ends. */
  lemma NeighboursSuffice(rs: seq<Candidate>)
    requires ByFirst(rs)
    ensures AllApart(rs) <==> forall i :: 0 < i < |rs| ==> NextApart(rs, i)
  {
    if AllApart(rs) {
      forall i | 0 < i < |rs|
        ensures NextApart(rs, i)
      {
        assert Apart(rs[i - 1], rs[i]);
      }
    }
    if forall i :: 0 < i < |rs| ==> NextApart(rs, i) {
      forall i, j | 0 <= i < j < |rs|
        ensures Apart(rs[i], rs[j])
      {
        assert NextApart(rs, i + 1) && rs[i + 1].first <= rs[j].first;
      }
    }
  }

  // ---------------------------------------------------------------- the check

  /** An offer's range is inside the text and long enough. */
  predicate GoodOffer(lines: seq<string>, filled: string -> bool, r: Candidate) {
    IsRange(r, |lines|) && FilledIn(lines, filled, r.first, r.last) >= MIN_LINES
  }

  ghost predicate GoodAnswer(lines: seq<string>, filled: string -> bool, answer: Answer) {
    && answer.Offers? && answer.offers != []
    && (forall i :: 0 <= i < |answer.offers| ==> GoodOffer(lines, filled, answer.offers[i]))
    && (answer.shared.Some? ==> IsRange(answer.shared.value, |lines|))
    && AllApart(AllOf(answer.offers, answer.shared))
  }

  function AllOf(offers: seq<Candidate>, shared: Option<Candidate>): seq<Candidate> {
    offers + if shared.Some? then [shared.value] else []
  }

  /** The first offer whose range is not good. */
  ghost predicate FirstBad(lines: seq<string>, filled: string -> bool, offers: seq<Candidate>, i: nat) {
    i < |offers| && !GoodOffer(lines, filled, offers[i]) && forall j :: 0 <= j < i ==> GoodOffer(lines, filled, offers[j])
  }

  /** The one reason the text is kept whole: the first check that fails. */
  ghost predicate IsReason(lines: seq<string>, filled: string -> bool, answer: Answer, reason: Reason) {
    if answer.NoList? || answer.offers == [] then reason == NoOffer
    else if exists i: nat :: FirstBad(lines, filled, answer.offers, i) then
      exists i: nat :: FirstBad(lines, filled, answer.offers, i) && reason == if IsRange(answer.offers[i], |lines|) then TooShort else Outside
    else if answer.shared.Some? && !IsRange(answer.shared.value, |lines|) then reason == SharedOutside
    else reason == Overlap && !AllApart(AllOf(answer.offers, answer.shared))
  }

  /** The first loop: each offer's range in turn. */
  method CheckOffers(lines: seq<string>, filled: string -> bool, offers: seq<Candidate>) returns (reason: Option<Reason>)
    ensures reason.None? <==> forall i :: 0 <= i < |offers| ==> GoodOffer(lines, filled, offers[i])
    ensures reason.Some? ==> exists i: nat ::
      FirstBad(lines, filled, offers, i) && reason.value == if IsRange(offers[i], |lines|) then TooShort else Outside
  {
    var i := 0;
    while i < |offers|
      invariant 0 <= i <= |offers|
      invariant forall j :: 0 <= j < i ==> GoodOffer(lines, filled, offers[j])
    {
      if !IsRange(offers[i], |lines|) {
        assert FirstBad(lines, filled, offers, i);
        return Some(Outside);
      }
      if FilledIn(lines, filled, offers[i].first, offers[i].last) < MIN_LINES {
        assert FirstBad(lines, filled, offers, i);
        return Some(TooShort);
      }
      i := i + 1;
    }
    return None;
  }

  /** The second loop: each sorted range against the one before it. */
  method CheckNeighbours(rs: seq<Candidate>) returns (apart: bool)
    requires AllRanges(rs)
    ensures apart <==> forall i :: 0 < i < |rs| ==> NextApart(rs, i)
  {
    var i := 1;
    while i < |rs|
      invariant 1 <= i
      invariant forall j :: 0 < j < i && j < |rs| ==> NextApart(rs, j)
    {
      if rs[i].first <= rs[i - 1].last {
        assert !NextApart(rs, i);
        return false;
      }
      i := i + 1;
    }
    return true;
  }

  /**
   `check`: the ranges are taken exactly when each is in the text and long enough and no two share a line; else the
   reason is the first check that fails.
   */
  method Check(lines: seq<string>, filled: string -> bool, answer: Answer) returns (checked: Checked)
    ensures checked.Ranges? <==> GoodAnswer(lines, filled, answer)
    ensures checked.Ranges? ==> checked.ranges == answer.offers && checked.shared == answer.shared
    ensures checked.Whole? ==> IsReason(lines, filled, answer, checked.reason)
  {
    if answer.NoList? || answer.offers == [] {
      return Whole(NoOffer);
    }
    var reason := CheckOffers(lines, filled, answer.offers);
    if reason.Some? {
      return Whole(reason.value);
    }
    if answer.shared.Some? && !IsRange(answer.shared.value, |lines|) {
      return Whole(SharedOutside);
    }
    AllAreRanges(lines, filled, answer);
    var apart := CheckApart(AllOf(answer.offers, answer.shared));
    return if apart then Ranges(answer.offers, answer.shared) else Whole(Overlap);
  }

  /** The ranges sorted, then each against the one before it: no two share a line. */
  method CheckApart(all: seq<Candidate>) returns (apart: bool)
    requires AllRanges(all)
    ensures apart <==> AllApart(all)
  {
    SortedApart(all);
    SortedByFirst(all);
    NeighboursSuffice(ByStart(all));
    apart := CheckNeighbours(ByStart(all));
  }

  lemma AllAreRanges(lines: seq<string>, filled: string -> bool, answer: Answer)
    requires answer.Offers? && (forall i :: 0 <= i < |answer.offers| ==> GoodOffer(lines, filled, answer.offers[i]))
    requires answer.shared.Some? ==> IsRange(answer.shared.value, |lines|)
    ensures AllRanges(AllOf(answer.offers, answer.shared))
  {
    assert forall i :: 0 <= i < |answer.offers| ==> GoodOffer(lines, filled, answer.offers[i]);
  }

  predicate IsFilled(lines: seq<string>, filled: string -> bool, n: int) {
    1 <= n <= |lines| && filled(lines[n - 1])
  }

  /** The numbers of the lines of a stretch that are not blank. */
  ghost function NotBlank(lines: seq<string>, filled: string -> bool, first: int, last: int): set<int> {
    set n | first <= n <= last && IsFilled(lines, filled, n)
  }

  lemma {:induction false} FilledInIsHowMany(lines: seq<string>, filled: string -> bool, first: int, last: int)
    requires 1 <= first && last <= |lines|
    ensures FilledIn(lines, filled, first, last) == |NotBlank(lines, filled, first, last)|
    decreases last - first
  {
    if first > last {
      assert NotBlank(lines, filled, first, last) == {};
    } else {
      FilledInIsHowMany(lines, filled, first, last - 1);
      var before := NotBlank(lines, filled, first, last - 1);
      assert NotBlank(lines, filled, first, last) == if filled(lines[last - 1]) then before + {last} else before;
    }
  }

  /** A good offer: two whole numbers, in order and in the text, with two lines at least that are not blank. */
  lemma GoodOfferIs(lines: seq<string>, filled: string -> bool, r: Candidate)
    ensures GoodOffer(lines, filled, r) <==>
      r.Range? && 1 <= r.first <= r.last <= |lines| && |NotBlank(lines, filled, r.first, r.last)| >= 2
  {
    if r.Range? && 1 <= r.first <= r.last <= |lines| {
      FilledInIsHowMany(lines, filled, r.first, r.last);
    }
  }

  // ---------------------------------------------------------------- the lines in no offer

  predicate Covered(ranges: seq<Candidate>, n: int) {
    exists i :: 0 <= i < |ranges| && Covers(ranges[i], n)
  }

  /** The numbers up to `count` of the lines that are not blank and in no range. */
  function LeftOut(lines: seq<string>, filled: string -> bool, ranges: seq<Candidate>, count: nat): (r: seq<int>)
    requires count <= |lines|
    ensures forall n :: n in r <==> 1 <= n <= count && filled(lines[n - 1]) && !Covered(ranges, n)
  {
    if count == 0 then []
    else LeftOut(lines, filled, ranges, count - 1) + if filled(lines[count - 1]) && !Covered(ranges, count) then [count] else []
  }

  ghost predicate Ascending(ns: seq<int>) {
    forall i, j :: 0 <= i < j < |ns| ==> ns[i] < ns[j]
  }

  lemma {:induction false} LeftOutAscending(lines: seq<string>, filled: string -> bool, ranges: seq<Candidate>, count: nat)
    requires count <= |lines|
    ensures Ascending(LeftOut(lines, filled, ranges, count))
  {
    if count > 0 {
      LeftOutAscending(lines, filled, ranges, count - 1);
      AscendingOneMore(LeftOut(lines, filled, ranges, count - 1), count);
    }
  }

  lemma AscendingOneMore(ns: seq<int>, n: int)
    requires Ascending(ns) && forall m :: m in ns ==> m < n
    ensures Ascending(ns + [n])
  {
    assert forall i :: 0 <= i < |ns| ==> ns[i] in ns;
  }

  /** A line stands in a range: from its first to its last. */
  ghost predicate Stands(r: Candidate, n: int) {
    r.Range? && r.first <= n && n <= r.last
  }

  /** Of a checked answer, each line that is not blank is in exactly one offer, in the shared range, or left out. */
  lemma EveryLineHasOnePlace(lines: seq<string>, filled: string -> bool, answer: Answer, n: int)
    requires GoodAnswer(lines, filled, answer) && 1 <= n <= |lines| && filled(lines[n - 1])
    ensures var all := AllOf(answer.offers, answer.shared);
      && (n in LeftOut(lines, filled, all, |lines|) <==> forall i :: 0 <= i < |all| ==> !Stands(all[i], n))
      && (forall i, j :: 0 <= i < j < |all| ==> !(Stands(all[i], n) && Stands(all[j], n)))
  {
    var all := AllOf(answer.offers, answer.shared);
    forall i, j | 0 <= i < j < |all|
      ensures !(Stands(all[i], n) && Stands(all[j], n))
    {
      assert Apart(all[i], all[j]);
    }
    assert forall i :: 0 <= i < |all| ==> (Covers(all[i], n) <==> Stands(all[i], n));
  }

  datatype Span = Span(first: int, last: int)

  function Expanded(spans: seq<Span>): seq<int> {
    if spans == [] then [] else Expanded(spans[..|spans| - 1]) + Numbers(spans[|spans| - 1].first, spans[|spans| - 1].last)
  }

  function Numbers(first: int, last: int): (r: seq<int>)
    decreases last - first
  {
    if first > last then [] else Numbers(first, last - 1) + [last]
  }

  /** Spans say the most they can: no two of them touch. */
  ghost predicate Widest(spans: seq<Span>) {
    && (forall k :: 0 <= k < |spans| ==> spans[k].first <= spans[k].last)
    && forall k :: 0 < k < |spans| ==> spans[k - 1].last + 1 < spans[k].first
  }

  function AddNumber(spans: seq<Span>, n: int): seq<Span> {
    if spans != [] && n == spans[|spans| - 1].last + 1 then spans[..|spans| - 1] + [Span(spans[|spans| - 1].first, n)]
    else spans + [Span(n, n)]
  }

  lemma NewSpan(spans: seq<Span>, n: int)
    ensures Expanded(spans + [Span(n, n)]) == Expanded(spans) + [n]
  {
    assert (spans + [Span(n, n)])[..|spans|] == spans;
    assert Numbers(n, n - 1) == [] && Numbers(n, n) == [n];
  }

  lemma ExpandedOneMore(before: seq<Span>, last: Span)
    ensures Expanded(before + [last]) == Expanded(before) + Numbers(last.first, last.last)
  {
    assert (before + [last])[..|before|] == before;
  }

  lemma LongerSpan(before: seq<Span>, first: int, n: int)
    requires first <= n
    ensures Expanded(before + [Span(first, n)]) == Expanded(before + [Span(first, n - 1)]) + [n]
  {
    ExpandedOneMore(before, Span(first, n));
    ExpandedOneMore(before, Span(first, n - 1));
    assert Expanded(before) + Numbers(first, n - 1) + [n] == Expanded(before) + (Numbers(first, n - 1) + [n]);
  }

  lemma AddNumberExpands(spans: seq<Span>, n: int)
    requires Widest(spans)
    ensures Expanded(AddNumber(spans, n)) == Expanded(spans) + [n]
  {
    if spans != [] && n == spans[|spans| - 1].last + 1 {
      var before, last := spans[..|spans| - 1], spans[|spans| - 1];
      LongerSpan(before, last.first, n);
      assert before + [Span(last.first, n - 1)] == spans;
    } else {
      NewSpan(spans, n);
    }
  }

  lemma AddNumberWidest(spans: seq<Span>, n: int)
    requires Widest(spans) && (spans != [] ==> spans[|spans| - 1].last < n)
    ensures Widest(AddNumber(spans, n)) && AddNumber(spans, n) != [] && AddNumber(spans, n)[|AddNumber(spans, n)| - 1].last == n
  {
  }

  /** The spans of the left-out lines: expanded, they are exactly those lines. */
  method Spans(numbers: seq<int>) returns (spans: seq<Span>)
    requires Ascending(numbers)
    ensures Expanded(spans) == numbers && Widest(spans)
  {
    spans := [];
    var i := 0;
    while i < |numbers|
      invariant 0 <= i <= |numbers| && Widest(spans) && Expanded(spans) == numbers[..i]
      invariant spans != [] <==> i > 0
      invariant i > 0 ==> spans[|spans| - 1].last == numbers[i - 1]
    {
      AddNumberExpands(spans, numbers[i]);
      AddNumberWidest(spans, numbers[i]);
      PrefixAndOne(numbers, i);
      spans := AddNumber(spans, numbers[i]);
      i := i + 1;
    }
    PrefixAll(numbers);
  }

  /** `leftOut`: the lines it says are the left-out lines, those that are not blank and in no range, each once. */
  method LeftOutSpans(lines: seq<string>, filled: string -> bool, ranges: seq<Candidate>) returns (spans: seq<Span>)
    ensures Expanded(spans) == LeftOut(lines, filled, ranges, |lines|) && Widest(spans)
    ensures forall n :: n in Expanded(spans) <==> 1 <= n <= |lines| && filled(lines[n - 1]) && !Covered(ranges, n)
  {
    LeftOutAscending(lines, filled, ranges, |lines|);
    spans := Spans(LeftOut(lines, filled, ranges, |lines|));
  }
}
