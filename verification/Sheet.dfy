/**
The A4 page filled in the browser (cv/web/cv.js, `fill`): the musts, then the other ranked items while the page
holds them, then the line spacing. Spacings are in hundredths; of the layout nothing is assumed.
*/
module Sheet {
  import opened Collections
  import opened Sorting

  const MIN := 100
  const START := 115
  const MAX := 150
  const STEP := 5
  /** A page is full from 95 hundredths of its box. */
  const TARGET := 95

  /** A line of the CV: its rank (0: not ranked) and whether the document shows it whatever is chosen. */
  datatype Item = Item(id: string, rank: nat, must: bool)

  datatype Experience = Experience(reference: bool, items: seq<Item>)

  /** What each experience shows. */
  type Shown = seq<set<string>>

  /** A ranked item that waits, and the experience it belongs to. */
  datatype Pending = Pending(e: nat, item: Item)

  datatype Filled = Filled(spacing: int, shrunk: bool, overflow: bool)

  // ---------------------------------------------------------------- the page

  /** `experiences.find((experience) => experience.reference) ?? experiences[0]`. */
  function ReferenceOf(page: seq<Experience>): (r: nat)
    ensures page != [] ==> r < |page|
    ensures page != [] && !page[r].reference ==> r == 0 && forall e :: 0 <= e < |page| ==> !page[e].reference
    ensures forall e :: 0 <= e < r && e < |page| ==> !page[e].reference
  {
    if page == [] || page[0].reference then 0
    else
      var later := ReferenceOf(page[1..]);
      if page[1..] != [] && page[1..][later].reference then later + 1 else 0
  }

  predicate Optional(item: Item) {
    !item.must && item.rank > 0
  }

  function MustIds(items: seq<Item>): set<string> {
    set k | 0 <= k < |items| && items[k].must :: items[k].id
  }

  ghost predicate WellFormed(page: seq<Experience>) {
    forall e :: 0 <= e < |page| ==> DistinctIds(page[e].items)
  }

  ghost predicate DistinctIds(items: seq<Item>) {
    forall j, k :: 0 <= j < k < |items| ==> items[j].id != items[k].id
  }

  /** Not more musts anywhere than the reference has. */
  ghost predicate MustsWithinReference(page: seq<Experience>) {
    forall e :: 0 <= e < |page| ==> |MustIds(page[e].items)| <= |MustIds(page[ReferenceOf(page)].items)|
  }

  // ---------------------------------------------------------------- what the page shows

  /** An experience may show one item more: it is the reference, or it shows fewer. */
  predicate MayGrow(page: seq<Experience>, shown: Shown, e: nat)
    requires e < |page| == |shown|
  {
    e == ReferenceOf(page) || |shown[e]| < |shown[ReferenceOf(page)]|
  }

  /** An optional item of the page that is not shown. */
  ghost predicate Waits(page: seq<Experience>, shown: Shown, p: Pending) {
    && p.e < |page| == |shown|
    && p.item in page[p.e].items && Optional(p.item) && p.item.id !in shown[p.e]
  }

  /** Every must, and nothing beside the musts and the ranked items. */
  ghost predicate ShowsWhatItShould(items: seq<Item>, shown: set<string>) {
    && (forall k :: 0 <= k < |items| && items[k].must ==> items[k].id in shown)
    && (forall id :: id in shown ==> exists k :: 0 <= k < |items| && items[k].id == id && (items[k].must || items[k].rank > 0))
  }

  predicate Overtakes(a: Item, b: Item, shown: set<string>) {
    Optional(a) && Optional(b) && a.id in shown && b.id !in shown
  }

  /** Items come by rank: none shown, a must apart, while a better one of its experience waits. */
  ghost predicate ByRank(items: seq<Item>, shown: set<string>) {
    forall j, k :: 0 <= j < |items| && 0 <= k < |items| && Overtakes(items[j], items[k], shown) ==> items[j].rank <= items[k].rank
  }

  ghost predicate ShownRight(page: seq<Experience>, shown: Shown) {
    && |shown| == |page|
    && forall e :: 0 <= e < |page| ==> ShowsWhatItShould(page[e].items, shown[e]) && ByRank(page[e].items, shown[e])
  }

  /** No experience shows more than the reference. */
  ghost predicate WithinReference(page: seq<Experience>, shown: Shown) {
    |shown| == |page| && forall e :: 0 <= e < |page| ==> |shown[e]| <= |shown[ReferenceOf(page)]|
  }

  // ---------------------------------------------------------------- the items that wait

  predicate SortedByRank(pending: seq<Pending>) {
    forall j, k :: 0 <= j < k < |pending| ==> pending[j].item.rank <= pending[k].item.rank
  }

  ghost predicate Once(pending: seq<Pending>) {
    forall j, k :: 0 <= j < k < |pending| ==> pending[j] != pending[k]
  }

  predicate RanksBefore(a: Pending, b: Pending) {
    a.item.rank < b.item.rank
  }

  predicate Differ(a: Pending, b: Pending) {
    a != b
  }

  /** `.sort((a, b) => a.item.rank - b.item.rank)`. */
  function Ordered(pending: seq<Pending>): seq<Pending> {
    Sorted(pending, RanksBefore)
  }

  lemma OrderedElements(pending: seq<Pending>)
    ensures forall p :: p in Ordered(pending) <==> p in pending
  {
    forall p
      ensures p in Ordered(pending) <==> p in pending
    {
      SortedElements(pending, RanksBefore, p);
    }
  }

  lemma OrderedIsSorted(pending: seq<Pending>)
    requires Once(pending)
    ensures SortedByRank(Ordered(pending)) && Once(Ordered(pending))
  {
    SortedInOrder(pending, RanksBefore);
    SortedPairwise(pending, RanksBefore, Differ);
    assert Pairwise(pending, Differ);
    var r := Ordered(pending);
    forall j, k | 0 <= j < k < |r|
      ensures r[j].item.rank <= r[k].item.rank && r[j] != r[k]
    {
      assert !RanksBefore(r[k], r[j]) && Differ(r[j], r[k]);
    }
  }

  /** The optional items of one experience. */
  function OfItems(e: nat, items: seq<Item>): seq<Pending> {
    if items == [] then []
    else
      var last := items[|items| - 1];
      OfItems(e, items[..|items| - 1]) + if Optional(last) then [Pending(e, last)] else []
  }

  /** The optional items of the first `n` experiences. */
  function OfPage(page: seq<Experience>, n: nat): seq<Pending>
    requires n <= |page|
  {
    if n == 0 then [] else OfPage(page, n - 1) + OfItems(n - 1, page[n - 1].items)
  }

  lemma {:induction false} OfItemsAre(e: nat, items: seq<Item>)
    requires DistinctIds(items)
    ensures Once(OfItems(e, items))
    ensures forall p :: p in OfItems(e, items) <==> p.e == e && p.item in items && Optional(p.item)
  {
    if items != [] {
      var n := |items| - 1;
      OfItemsAre(e, items[..n]);
      assert items == items[..n] + [items[n]];
      assert items[n] !in items[..n];
    }
  }

  lemma {:induction false} OfPageAre(page: seq<Experience>, n: nat)
    requires n <= |page| && WellFormed(page)
    ensures Once(OfPage(page, n))
    ensures forall p :: p in OfPage(page, n) <==> p.e < n && p.item in page[p.e].items && Optional(p.item)
  {
    if n > 0 {
      OfPageAre(page, n - 1);
      OfItemsAre(n - 1, page[n - 1].items);
      OnceTogether(OfPage(page, n - 1), OfItems(n - 1, page[n - 1].items));
    }
  }

  lemma OnceTogether(a: seq<Pending>, b: seq<Pending>)
    requires Once(a) && Once(b) && forall p :: p in b ==> p !in a
    ensures Once(a + b)
  {
    forall j, k | 0 <= j < k < |a + b|
      ensures (a + b)[j] != (a + b)[k]
    {
      if j < |a| <= k {
        assert b[k - |a|] in b;
      }
    }
  }

  // ---------------------------------------------------------------- filling by rank

  /** What is left to fill: every optional item not shown, once, the best ranked first. */
  ghost predicate Waiting(page: seq<Experience>, shown: Shown, pending: seq<Pending>) {
    && SortedByRank(pending) && Once(pending)
    && forall p :: p in pending <==> Waits(page, shown, p)
  }

  function Musts(page: seq<Experience>): (r: Shown)
    ensures |r| == |page| && forall e :: 0 <= e < |page| ==> r[e] == MustIds(page[e].items)
  {
    if page == [] then [] else Musts(page[..|page| - 1]) + [MustIds(page[|page| - 1].items)]
  }

  lemma MustsOfOne(items: seq<Item>)
    requires DistinctIds(items)
    ensures ShowsWhatItShould(items, MustIds(items)) && ByRank(items, MustIds(items))
    ensures forall k :: 0 <= k < |items| && Optional(items[k]) ==> items[k].id !in MustIds(items)
  {
  }

  /** The musts alone, the optional items all waiting: where the filling starts. */
  lemma MustsAreAStart(page: seq<Experience>)
    requires WellFormed(page)
    ensures ShownRight(page, Musts(page))
    ensures Waiting(page, Musts(page), Ordered(OfPage(page, |page|)))
    ensures MustsWithinReference(page) ==> WithinReference(page, Musts(page))
  {
    OfPageAre(page, |page|);
    OrderedIsSorted(OfPage(page, |page|));
    OrderedElements(OfPage(page, |page|));
    forall e | 0 <= e < |page|
      ensures ShowsWhatItShould(page[e].items, Musts(page)[e]) && ByRank(page[e].items, Musts(page)[e])
      ensures forall item :: item in page[e].items && Optional(item) ==> item.id !in Musts(page)[e]
    {
      MustsOfOne(page[e].items);
    }
  }

  function Grown(shown: Shown, p: Pending): Shown
    requires p.e < |shown|
  {
    shown[p.e := shown[p.e] + {p.item.id}]
  }

  function WithoutAt<T>(xs: seq<T>, k: nat): seq<T>
    requires k < |xs|
  {
    xs[..k] + xs[k + 1..]
  }

  /** The best ranked item that may be added now. */
  ghost predicate IsNext(page: seq<Experience>, shown: Shown, p: Pending) {
    && Waits(page, shown, p) && MayGrow(page, shown, p.e)
    && forall q :: Waits(page, shown, q) && MayGrow(page, shown, q.e) ==> p.item.rank <= q.item.rank
  }

  lemma FirstThatMayGrowIsNext(page: seq<Experience>, shown: Shown, pending: seq<Pending>, k: nat)
    requires Waiting(page, shown, pending) && k < |pending| && |shown| == |page|
    requires pending[k].e < |page| && MayGrow(page, shown, pending[k].e)
    requires forall j :: 0 <= j < k && pending[j].e < |page| ==> !MayGrow(page, shown, pending[j].e)
    ensures IsNext(page, shown, pending[k])
  {
    forall q | Waits(page, shown, q) && MayGrow(page, shown, q.e)
      ensures pending[k].item.rank <= q.item.rank
    {
      assert q in pending;
      var j :| 0 <= j < |pending| && pending[j] == q;
    }
  }

  /** No better optional item of its experience waits. */
  ghost predicate BestOf(items: seq<Item>, shown: set<string>, item: Item) {
    forall k :: 0 <= k < |items| && Optional(items[k]) && items[k].id !in shown ==> item.rank <= items[k].rank
  }

  lemma NextKeepsOne(items: seq<Item>, shown: set<string>, item: Item)
    requires ShowsWhatItShould(items, shown) && ByRank(items, shown) && item in items && Optional(item)
    requires BestOf(items, shown, item)
    ensures ShowsWhatItShould(items, shown + {item.id})
    ensures DistinctIds(items) ==> ByRank(items, shown + {item.id})
  {
    if DistinctIds(items) {
      var after := shown + {item.id};
      forall j, k | 0 <= j < |items| && 0 <= k < |items| && Overtakes(items[j], items[k], after)
        ensures items[j].rank <= items[k].rank
      {
        if items[j].id in shown {
          assert Overtakes(items[j], items[k], shown);
        } else {
          assert items[j] == item;
        }
      }
    }
  }

  lemma NextIsBestOfItsExperience(page: seq<Experience>, shown: Shown, p: Pending)
    requires IsNext(page, shown, p)
    ensures BestOf(page[p.e].items, shown[p.e], p.item)
  {
    forall k | 0 <= k < |page[p.e].items| && Optional(page[p.e].items[k]) && page[p.e].items[k].id !in shown[p.e]
      ensures p.item.rank <= page[p.e].items[k].rank
    {
      assert Waits(page, shown, Pending(p.e, page[p.e].items[k]));
    }
  }

  /** Adding the next item keeps what every experience must show, and its order. */
  lemma NextKeepsThePage(page: seq<Experience>, shown: Shown, p: Pending)
    requires WellFormed(page) && ShownRight(page, shown) && IsNext(page, shown, p)
    ensures ShownRight(page, Grown(shown, p))
  {
    NextIsBestOfItsExperience(page, shown, p);
    assert DistinctIds(page[p.e].items);
    NextKeepsOne(page[p.e].items, shown[p.e], p.item);
    assert forall e :: 0 <= e < |page| && e != p.e ==> Grown(shown, p)[e] == shown[e];
  }

  /** And no experience ever shows more than the reference. */
  lemma NextKeepsTheCap(page: seq<Experience>, shown: Shown, p: Pending)
    requires WithinReference(page, shown) && p.e < |page| && p.item.id !in shown[p.e] && MayGrow(page, shown, p.e)
    ensures WithinReference(page, Grown(shown, p))
  {
    assert forall e :: 0 <= e < |page| && e != p.e ==> Grown(shown, p)[e] == shown[e];
  }

  lemma WithoutAtSorted(pending: seq<Pending>, k: nat)
    requires k < |pending| && SortedByRank(pending) && Once(pending)
    ensures SortedByRank(WithoutAt(pending, k)) && Once(WithoutAt(pending, k))
    ensures forall p :: p in WithoutAt(pending, k) <==> p in pending && p != pending[k]
  {
    var rest := WithoutAt(pending, k);
    assert forall j :: 0 <= j < |rest| ==> rest[j] == pending[if j < k then j else j + 1];
    forall p | p in pending && p != pending[k]
      ensures p in rest
    {
      var j :| 0 <= j < |pending| && pending[j] == p;
      assert rest[if j < k then j else j - 1] == p;
    }
  }

  /** Once the next item is shown, the others wait as before. */
  lemma OthersStillWait(page: seq<Experience>, shown: Shown, pending: seq<Pending>, k: nat)
    requires WellFormed(page) && Waiting(page, shown, pending) && k < |pending| && |shown| == |page|
    ensures pending[k].e < |shown| && Waiting(page, Grown(shown, pending[k]), WithoutAt(pending, k))
  {
    var p := pending[k];
    assert Waits(page, shown, p);
    WithoutAtSorted(pending, k);
    forall q
      ensures q in WithoutAt(pending, k) <==> Waits(page, Grown(shown, p), q)
    {
      WaitsAfter(page, shown, p, q);
    }
  }

  lemma WaitsAfter(page: seq<Experience>, shown: Shown, p: Pending, q: Pending)
    requires WellFormed(page) && Waits(page, shown, p)
    ensures Waits(page, Grown(shown, p), q) <==> Waits(page, shown, q) && q != p
  {
    if Waits(page, shown, q) && q != p && q.e == p.e {
      assert DistinctIds(page[p.e].items);
      assert q.item.id != p.item.id;
    }
  }

  // ---------------------------------------------------------------- the sheet

  /** The height of the content, from what is shown, which experiences are bare, and the spacing. */
  type Layout = (Shown, seq<bool>, int) -> nat

  /** An experience that shows nothing takes its bare form. */
  function BareOf(shown: Shown): (r: seq<bool>)
    ensures |r| == |shown| && forall e :: 0 <= e < |shown| ==> r[e] == (shown[e] == {})
  {
    if shown == [] then [] else BareOf(shown[..|shown| - 1]) + [shown[|shown| - 1] == {}]
  }

  predicate Holds(layout: Layout, box: nat, shown: Shown, spacing: int) {
    layout(shown, BareOf(shown), spacing) <= box
  }

  /** `Math.round(100 * height / box)`, when the box has a height. */
  function Ratio(height: nat, box: nat): Option<nat> {
    if box == 0 then None else Some((200 * height + box) / (2 * box))
  }

  predicate UnderTarget(layout: Layout, box: nat, shown: Shown, spacing: int) {
    var ratio := Ratio(layout(shown, BareOf(shown), spacing), box);
    ratio.Some? && ratio.value < TARGET
  }

  /** A page is short of full exactly when less than 94.5 hundredths of its box are taken: the ratio is rounded. */
  lemma UnderTargetIs(layout: Layout, box: nat, shown: Shown, spacing: int)
    ensures UnderTarget(layout, box, shown, spacing) <==> IsShort(layout, box, shown, spacing)
  {
    if box > 0 {
      var x, d := 200 * layout(shown, BareOf(shown), spacing) + box, 2 * box;
      assert (x / d) * d <= x < (x / d + 1) * d;
      if x / d < 95 {
        AtMostTimes(x / d + 1, 95, d);
      } else {
        AtMostTimes(95, x / d, d);
      }
    }
  }

  lemma AtMostTimes(a: nat, b: nat, d: nat)
    requires a <= b
    ensures a * d <= b * d
  {
  }

  /** The spacing the musts are given: the first, going down, under which they fit, or the least. */
  function Shrunk(layout: Layout, box: nat, shown: Shown, spacing: int): int
    decreases spacing
  {
    if Holds(layout, box, shown, spacing) || spacing <= MIN then spacing else Shrunk(layout, box, shown, spacing - STEP)
  }

  /** From one to one and a half, by twentieths. */
  predicate IsSpacing(spacing: int) {
    100 <= spacing <= 150 && spacing % 5 == 0
  }

  /** The first spacing, from 1.15 down by twentieths, under which the musts fit, or the least. */
  ghost predicate IsBase(layout: Layout, box: nat, musts: Shown, base: int) {
    && 100 <= base <= 115 && base % 5 == 0
    && (base > 100 ==> Holds(layout, box, musts, base))
    && (forall wider :: base < wider <= 115 && wider % 5 == 0 ==> !Holds(layout, box, musts, wider))
  }

  lemma {:induction false} ShrunkIsBase(layout: Layout, box: nat, musts: Shown, spacing: int)
    requires 100 <= spacing <= 115 && spacing % 5 == 0
    requires forall wider :: spacing < wider <= 115 && wider % 5 == 0 ==> !Holds(layout, box, musts, wider)
    ensures IsBase(layout, box, musts, Shrunk(layout, box, musts, spacing))
    decreases spacing
  {
    if !Holds(layout, box, musts, spacing) && spacing > 100 {
      ShrunkIsBase(layout, box, musts, spacing - 5);
    }
  }

  /** Why no item is added any more: each one left is capped, or the next one overflows the page. */
  ghost predicate Full(page: seq<Experience>, layout: Layout, box: nat, shown: Shown, spacing: int) {
    |shown| == |page| && (AllCapped(page, shown) || NextOverflows(page, layout, box, shown, spacing))
  }

  ghost predicate AllCapped(page: seq<Experience>, shown: Shown)
    requires |shown| == |page|
  {
    forall p :: Waits(page, shown, p) ==> !MayGrow(page, shown, p.e)
  }

  ghost predicate NextOverflows(page: seq<Experience>, layout: Layout, box: nat, shown: Shown, spacing: int)
    requires |shown| == |page|
  {
    exists p :: IsNext(page, shown, p) && !Holds(layout, box, Grown(shown, p), spacing)
  }

  /** Why the spacing stays: the page is full enough, the spacing is the widest, or a wider one overflows. */
  ghost predicate WideEnough(layout: Layout, box: nat, shown: Shown, spacing: int) {
    !IsShort(layout, box, shown, spacing) || spacing == 150 || !Holds(layout, box, shown, spacing + 5)
  }

  /** Less than 94.5 hundredths of the box are taken. */
  ghost predicate IsShort(layout: Layout, box: nat, shown: Shown, spacing: int) {
    200 * layout(shown, BareOf(shown), spacing) < 189 * box
  }

  /**
   How the filling may end: within the box, or with the musts alone at the least spacing; with no item left to add at
   the spacing the musts needed, and, unless they needed a tighter one, no wider spacing to take.
   */
  ghost predicate Ended(page: seq<Experience>, layout: Layout, box: nat, shown: Shown, filled: Filled) {
    exists base :: EndedFrom(page, layout, box, shown, filled, base)
  }

  ghost predicate EndedFrom(page: seq<Experience>, layout: Layout, box: nat, shown: Shown, filled: Filled, base: int) {
    && IsBase(layout, box, Musts(page), base)
    && IsSpacing(filled.spacing) && base <= filled.spacing
    && (filled.overflow <==> !Holds(layout, box, shown, filled.spacing))
    && (filled.overflow ==> shown == Musts(page) && filled.spacing == 100)
    && filled.shrunk == (base < 115)
    && (filled.shrunk ==> filled.spacing == base)
    && (!filled.overflow ==> Full(page, layout, box, shown, base))
    && (!filled.overflow && !filled.shrunk ==> WideEnough(layout, box, shown, filled.spacing))
  }

  class Paper {
    const layout: Layout
    const box: nat
    var shown: Shown
    var bare: seq<bool>
    var spacing: int

    constructor (layout: Layout, box: nat, experiences: nat)
      ensures this.layout == layout && this.box == box && |shown| == experiences && forall e :: 0 <= e < experiences ==> shown[e] == {}
      ensures bare == BareOf(shown)
    {
      this.layout, this.box, spacing := layout, box, START;
      shown := seq(experiences, _ => {});
      bare := BareOf(seq(experiences, _ => {}));
    }

    predicate Fits()
      reads this
    {
      layout(shown, bare, spacing) <= box
    }

    /** `set`: an item shown or hidden, its experience bare or not. */
    method Set(e: nat, id: string, on: bool)
      requires e < |shown| && bare == BareOf(shown)
      modifies this`shown, this`bare
      ensures shown == old(shown)[e := if on then old(shown)[e] + {id} else old(shown)[e] - {id}] && bare == BareOf(shown)
    {
      shown := shown[e := if on then shown[e] + {id} else shown[e] - {id}];
      bare := bare[e := shown[e] == {}];
      assert bare == BareOf(shown);
    }
  }

  // ---------------------------------------------------------------- the filling

  method ShowMustsOf(paper: Paper, e: nat, items: seq<Item>)
    requires e < |paper.shown| && paper.bare == BareOf(paper.shown) && paper.shown[e] == {}
    modifies paper`shown, paper`bare
    ensures paper.shown == old(paper.shown)[e := MustIds(items)] && paper.bare == BareOf(paper.shown)
  {
    var k := 0;
    while k < |items|
      invariant 0 <= k <= |items| && paper.bare == BareOf(paper.shown)
      invariant |paper.shown| == |old(paper.shown)| && paper.shown[e] == MustIds(items[..k])
      invariant forall i :: 0 <= i < |paper.shown| && i != e ==> paper.shown[i] == old(paper.shown)[i]
    {
      MustIdsOneMore(items, k);
      if items[k].must {
        paper.Set(e, items[k].id, true);
      }
      k := k + 1;
    }
    PrefixAll(items);
  }

  lemma MustIdsOneMore(items: seq<Item>, k: nat)
    requires k < |items|
    ensures MustIds(items[..k + 1]) == MustIds(items[..k]) + if items[k].must then {items[k].id} else {}
  {
    var longer := items[..k + 1];
    forall id | id in MustIds(items[..k])
      ensures id in MustIds(longer)
    {
      var j :| 0 <= j < |items[..k]| && items[..k][j].must && items[..k][j].id == id;
      assert longer[j].must && longer[j].id == id;
    }
    assert items[k].must ==> longer[k].must && longer[k].id in MustIds(longer);
  }

  /** The first loop: the musts, whether they fit or not. */
  method ShowMusts(page: seq<Experience>, paper: Paper)
    requires |paper.shown| == |page| && paper.bare == BareOf(paper.shown)
    requires forall e :: 0 <= e < |page| ==> paper.shown[e] == {}
    modifies paper`shown, paper`bare
    ensures paper.shown == Musts(page) && paper.bare == BareOf(paper.shown)
  {
    var e := 0;
    while e < |page|
      invariant 0 <= e <= |page| && |paper.shown| == |page| && paper.bare == BareOf(paper.shown)
      invariant forall i :: 0 <= i < e ==> paper.shown[i] == MustIds(page[i].items)
      invariant forall i :: e <= i < |page| ==> paper.shown[i] == {}
    {
      ShowMustsOf(paper, e, page[e].items);
      e := e + 1;
    }
  }

  /** The second loop: the spacing gives way until the musts fit. */
  method Shrink(paper: Paper) returns (shrunk: bool)
    requires paper.bare == BareOf(paper.shown) && paper.spacing == START
    modifies paper`spacing
    ensures paper.spacing == Shrunk(paper.layout, paper.box, paper.shown, START)
    ensures IsSpacing(paper.spacing) && paper.spacing <= START && shrunk == (paper.spacing < START)
    ensures Holds(paper.layout, paper.box, paper.shown, paper.spacing) || paper.spacing == MIN
  {
    shrunk := false;
    while !paper.Fits() && paper.spacing > MIN
      invariant IsSpacing(paper.spacing) && paper.spacing <= START && shrunk == (paper.spacing < START)
      invariant Shrunk(paper.layout, paper.box, paper.shown, START) == Shrunk(paper.layout, paper.box, paper.shown, paper.spacing)
      decreases paper.spacing
    {
      paper.spacing := paper.spacing - STEP;
      shrunk := true;
    }
  }

  /** `pending.findIndex(...)`: the first waiting item whose experience may grow. */
  method FindNext(page: seq<Experience>, shown: Shown, pending: seq<Pending>) returns (next: Option<nat>)
    requires |shown| == |page| && forall p :: p in pending ==> p.e < |page|
    ensures next.Some? ==> next.value < |pending| && MayGrow(page, shown, pending[next.value].e)
    ensures forall j :: 0 <= j < |pending| && (next.None? || j < next.value) ==> !MayGrow(page, shown, pending[j].e)
  {
    var k := 0;
    while k < |pending|
      invariant 0 <= k <= |pending|
      invariant forall j :: 0 <= j < k ==> !MayGrow(page, shown, pending[j].e)
    {
      if MayGrow(page, shown, pending[k].e) {
        return Some(k);
      }
      k := k + 1;
    }
    return None;
  }

  lemma NobodyMayGrow(page: seq<Experience>, shown: Shown, pending: seq<Pending>)
    requires |shown| == |page| && Waiting(page, shown, pending)
    requires forall j :: 0 <= j < |pending| ==> pending[j].e < |page| && !MayGrow(page, shown, pending[j].e)
    ensures AllCapped(page, shown)
  {
    forall p | Waits(page, shown, p)
      ensures !MayGrow(page, shown, p.e)
    {
      assert p in pending;
    }
  }

  /** A page being filled: what is shown is right, what waits is known, and the cap holds if the musts kept it. */
  ghost predicate Filling(page: seq<Experience>, shown: Shown, pending: seq<Pending>) {
    && ShownRight(page, shown) && Waiting(page, shown, pending)
    && (MustsWithinReference(page) ==> WithinReference(page, shown))
  }

  lemma NextKeepsFilling(page: seq<Experience>, shown: Shown, pending: seq<Pending>, k: nat)
    requires WellFormed(page) && Filling(page, shown, pending) && k < |pending|
    requires pending[k].e < |page| && MayGrow(page, shown, pending[k].e)
    requires forall j :: 0 <= j < k && pending[j].e < |page| ==> !MayGrow(page, shown, pending[j].e)
    ensures IsNext(page, shown, pending[k])
    ensures Filling(page, Grown(shown, pending[k]), WithoutAt(pending, k))
  {
    FirstThatMayGrowIsNext(page, shown, pending, k);
    NextKeepsThePage(page, shown, pending[k]);
    OthersStillWait(page, shown, pending, k);
    if WithinReference(page, shown) {
      NextKeepsTheCap(page, shown, pending[k]);
    }
  }

  /** One item tried: shown if the page holds it, taken back if not. */
  method TryNext(paper: Paper, p: Pending) returns (fits: bool)
    requires p.e < |paper.shown| && paper.bare == BareOf(paper.shown) && p.item.id !in paper.shown[p.e]
    modifies paper`shown, paper`bare
    ensures paper.bare == BareOf(paper.shown)
    ensures fits == Holds(paper.layout, paper.box, Grown(old(paper.shown), p), paper.spacing)
    ensures paper.shown == if fits then Grown(old(paper.shown), p) else old(paper.shown)
  {
    paper.Set(p.e, p.item.id, true);
    fits := paper.Fits();
    if !fits {
      paper.Set(p.e, p.item.id, false);
      assert paper.shown == old(paper.shown);
    }
  }

  lemma PendingAreOnThePage(page: seq<Experience>, shown: Shown, pending: seq<Pending>)
    requires Waiting(page, shown, pending)
    ensures forall p :: p in pending ==> p.e < |page| == |shown|
  {
    assert forall p :: p in pending ==> Waits(page, shown, p);
  }

  /** One turn of the third loop: nothing left that may be added, or the next item tried. */
  method AddNext(page: seq<Experience>, paper: Paper, pending: seq<Pending>) returns (more: bool, left: seq<Pending>)
    requires WellFormed(page) && Filling(page, paper.shown, pending) && paper.bare == BareOf(paper.shown)
    requires Holds(paper.layout, paper.box, paper.shown, paper.spacing)
    modifies paper`shown, paper`bare
    ensures paper.bare == BareOf(paper.shown) && Holds(paper.layout, paper.box, paper.shown, paper.spacing)
    ensures more ==> Filling(page, paper.shown, left) && |left| < |pending|
    ensures !more ==> Filling(page, paper.shown, pending) && Full(page, paper.layout, paper.box, paper.shown, paper.spacing)
  {
    PendingAreOnThePage(page, paper.shown, pending);
    var next := FindNext(page, paper.shown, pending);
    if next.None? {
      NobodyMayGrow(page, paper.shown, pending);
      return false, pending;
    }
    left := WithoutAt(pending, next.value);
    more := AddOne(page, paper, pending, next.value);
  }

  lemma OverflowIsFull(page: seq<Experience>, layout: Layout, box: nat, shown: Shown, spacing: int, p: Pending)
    requires |shown| == |page| && IsNext(page, shown, p) && !Holds(layout, box, Grown(shown, p), spacing)
    ensures Full(page, layout, box, shown, spacing)
  {
  }

  method AddOne(page: seq<Experience>, paper: Paper, pending: seq<Pending>, k: nat) returns (fits: bool)
    requires WellFormed(page) && Filling(page, paper.shown, pending) && paper.bare == BareOf(paper.shown) && k < |pending|
    requires Holds(paper.layout, paper.box, paper.shown, paper.spacing)
    requires pending[k].e < |page| && MayGrow(page, paper.shown, pending[k].e)
    requires forall j :: 0 <= j < k && pending[j].e < |page| ==> !MayGrow(page, paper.shown, pending[j].e)
    modifies paper`shown, paper`bare
    ensures paper.bare == BareOf(paper.shown) && Holds(paper.layout, paper.box, paper.shown, paper.spacing)
    ensures Filling(page, paper.shown, if fits then WithoutAt(pending, k) else pending)
    ensures !fits ==> Full(page, paper.layout, paper.box, paper.shown, paper.spacing)
  {
    NextKeepsFilling(page, paper.shown, pending, k);
    ghost var before := paper.shown;
    fits := TryNext(paper, pending[k]);
    if !fits {
      OverflowIsFull(page, paper.layout, paper.box, before, paper.spacing, pending[k]);
    }
  }

  /** The third loop: ranked items while the page holds them, the one that overflows taken back. */
  method AddByRank(page: seq<Experience>, paper: Paper)
    requires WellFormed(page) && paper.shown == Musts(page) && paper.bare == BareOf(paper.shown)
    requires Holds(paper.layout, paper.box, paper.shown, paper.spacing)
    modifies paper`shown, paper`bare
    ensures paper.bare == BareOf(paper.shown) && ShownRight(page, paper.shown)
    ensures MustsWithinReference(page) ==> WithinReference(page, paper.shown)
    ensures Holds(paper.layout, paper.box, paper.shown, paper.spacing)
    ensures Full(page, paper.layout, paper.box, paper.shown, paper.spacing)
  {
    var pending, more := Ordered(OfPage(page, |page|)), true;
    MustsAreAStart(page);
    while more
      invariant paper.bare == BareOf(paper.shown) && Holds(paper.layout, paper.box, paper.shown, paper.spacing)
      invariant Filling(page, paper.shown, pending)
      invariant !more ==> Full(page, paper.layout, paper.box, paper.shown, paper.spacing)
      decreases |pending|, more
    {
      var left: seq<Pending>;
      more, left := AddNext(page, paper, pending);
      if more {
        pending := left;
      }
    }
  }

  /** Whether the page is short of full. */
  method IsShortOfFull(paper: Paper) returns (short: bool)
    requires paper.bare == BareOf(paper.shown)
    ensures short <==> IsShort(paper.layout, paper.box, paper.shown, paper.spacing)
  {
    UnderTargetIs(paper.layout, paper.box, paper.shown, paper.spacing);
    short := UnderTarget(paper.layout, paper.box, paper.shown, paper.spacing);
  }

  /** The last loop: the spacing widens while the page is not full and holds it. */
  method Widen(paper: Paper, shrunk: bool)
    requires paper.bare == BareOf(paper.shown) && IsSpacing(paper.spacing)
    requires Holds(paper.layout, paper.box, paper.shown, paper.spacing)
    modifies paper`spacing
    ensures IsSpacing(paper.spacing) && Holds(paper.layout, paper.box, paper.shown, paper.spacing)
    ensures if shrunk then paper.spacing == old(paper.spacing)
      else paper.spacing >= old(paper.spacing) && WideEnough(paper.layout, paper.box, paper.shown, paper.spacing)
  {
    var short := IsShortOfFull(paper);
    while !shrunk && short && paper.spacing < MAX
      invariant short <==> IsShort(paper.layout, paper.box, paper.shown, paper.spacing)
      invariant IsSpacing(paper.spacing) && Holds(paper.layout, paper.box, paper.shown, paper.spacing)
      invariant paper.spacing >= old(paper.spacing) && (shrunk ==> paper.spacing == old(paper.spacing))
      decreases MAX - paper.spacing
    {
      var wider := paper.spacing + STEP;
      paper.spacing := wider;
      if !paper.Fits() {
        paper.spacing := wider - STEP;
        return;
      }
      short := IsShortOfFull(paper);
    }
  }

  /**
   `fill`. Every must is shown and nothing but musts and ranked items, by rank in each experience, none beyond the
   reference; the page ends within its box, unless the musts alone overflow it at the least spacing; and it stopped
   growing, then widening, only for a reason.
   */
  method Fill(page: seq<Experience>, paper: Paper) returns (filled: Filled)
    requires WellFormed(page) && |paper.shown| == |page| && paper.bare == BareOf(paper.shown)
    requires forall e :: 0 <= e < |page| ==> paper.shown[e] == {}
    modifies paper
    ensures ShownRight(page, paper.shown) && paper.bare == BareOf(paper.shown)
    ensures MustsWithinReference(page) ==> WithinReference(page, paper.shown)
    ensures paper.spacing == filled.spacing && Ended(page, paper.layout, paper.box, paper.shown, filled)
  {
    paper.spacing := START;
    ShowMusts(page, paper);
    MustsAreAStart(page);
    var shrunk := Shrink(paper);
    ghost var base := paper.spacing;
    ShrunkIsBase(paper.layout, paper.box, Musts(page), START);
    if !paper.Fits() {
      filled := Filled(paper.spacing, true, true);
      assert EndedFrom(page, paper.layout, paper.box, paper.shown, filled, base);
      return;
    }
    AddByRank(page, paper);
    Widen(paper, shrunk);
    filled := Filled(paper.spacing, shrunk, false);
    assert EndedFrom(page, paper.layout, paper.box, paper.shown, filled, base);
  }
}