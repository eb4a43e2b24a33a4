/**
Where the model's picks end (cv/src/normalize.js): every bullet under the experience that owns it, every
skill in its own group, the skills column cut by priority.
*/
module Relocation {
  import opened Collections
  import opened Rows

  /** An experience or a skill group the model chose, with the ids it listed under it. */
  datatype Choice = Choice(id: string, picks: seq<string>)

  // ---------------------------------------------------------------- place and put

  /** One thing to place: an owner, and what goes under it (an experience may be chosen alone). */
  datatype Mention = Mention(owner: string, item: Option<string>)

  /** `place` and `put`: the owner is listed once, and the item once under it. */
  function Place(m: OrderedMap<string, seq<string>>, mention: Mention): OrderedMap<string, seq<string>> {
    var list := if mention.owner in m.at then m.at[mention.owner] else [];
    m.Set(mention.owner, if mention.item.Some? && mention.item.value !in list then list + [mention.item.value] else list)
  }

  function Placed(mentions: seq<Mention>): OrderedMap<string, seq<string>> {
    if mentions == [] then OrderedMap([], map[])
    else Place(Placed(mentions[..|mentions| - 1]), mentions[|mentions| - 1])
  }

  ghost predicate Mentioned(mentions: seq<Mention>, owner: string) {
    exists item :: Mention(owner, item) in mentions
  }

  /** Under an owner: listed exactly when mentioned, with exactly the items mentioned, each once. */
  ghost predicate PlacedUnder(mentions: seq<Mention>, m: OrderedMap<string, seq<string>>, owner: string) {
    && (owner in m.at <==> Mentioned(mentions, owner))
    && (owner in m.at ==> Distinct(m.at[owner]) && forall item :: item in m.at[owner] <==> Mention(owner, Some(item)) in mentions)
  }

  ghost predicate PlacedRight(mentions: seq<Mention>, m: OrderedMap<string, seq<string>>) {
    m.Valid() && forall owner :: PlacedUnder(mentions, m, owner)
  }

  lemma PlaceUnderOther(mentions: seq<Mention>, m: OrderedMap<string, seq<string>>, mention: Mention, owner: string)
    requires PlacedUnder(mentions, m, owner) && owner != mention.owner
    ensures PlacedUnder(mentions + [mention], Place(m, mention), owner)
  {
    var longer, after := mentions + [mention], Place(m, mention);
    assert forall item :: Mention(owner, item) in longer <==> Mention(owner, item) in mentions;
    assert owner in m.at ==> after.at[owner] == m.at[owner];
    assert Mentioned(longer, owner) <==> Mentioned(mentions, owner);
  }

  lemma PlaceUnderOwn(mentions: seq<Mention>, m: OrderedMap<string, seq<string>>, mention: Mention)
    requires PlacedUnder(mentions, m, mention.owner)
    ensures PlacedUnder(mentions + [mention], Place(m, mention), mention.owner)
  {
    var longer, after, owner := mentions + [mention], Place(m, mention), mention.owner;
    assert mention == Mention(owner, mention.item) && mention in longer;
    assert Mentioned(longer, owner);
    forall item
      ensures item in after.at[owner] <==> Mention(owner, Some(item)) in longer
    {
      assert Mention(owner, Some(item)) in longer <==> Mention(owner, Some(item)) in mentions || mention.item == Some(item);
      assert owner !in m.at ==> Mention(owner, Some(item)) !in mentions;
    }
  }

  lemma PlaceOneMore(mentions: seq<Mention>, m: OrderedMap<string, seq<string>>, mention: Mention)
    requires PlacedRight(mentions, m)
    ensures PlacedRight(mentions + [mention], Place(m, mention))
  {
    forall owner
      ensures PlacedUnder(mentions + [mention], Place(m, mention), owner)
    {
      if owner == mention.owner {
        PlaceUnderOwn(mentions, m, mention);
      } else {
        PlaceUnderOther(mentions, m, mention, owner);
      }
    }
  }

  lemma {:induction false} PlacedIsRight(mentions: seq<Mention>)
    ensures PlacedRight(mentions, Placed(mentions))
  {
    if mentions != [] {
      var n := |mentions| - 1;
      PlacedIsRight(mentions[..n]);
      PlaceOneMore(mentions[..n], Placed(mentions[..n]), mentions[n]);
      assert mentions == mentions[..n] + [mentions[n]];
    }
  }

  // ---------------------------------------------------------------- in the order of the mentions

  /** The owners of the mentions, and the items mentioned under one of them, in order. */
  function Owners(mentions: seq<Mention>): seq<string> {
    if mentions == [] then [] else Owners(mentions[..|mentions| - 1]) + [mentions[|mentions| - 1].owner]
  }

  function ItemsUnder(mentions: seq<Mention>, owner: string): seq<string> {
    if mentions == [] then []
    else
      var last := mentions[|mentions| - 1];
      ItemsUnder(mentions[..|mentions| - 1], owner) + if last.owner == owner && last.item.Some? then [last.item.value] else []
  }

  /** Each owner once in the order it was first mentioned, and its items likewise. */
  ghost predicate PlacedInOrder(mentions: seq<Mention>, m: OrderedMap<string, seq<string>>) {
    && m.order == Unique(Owners(mentions))
    && (forall owner :: owner in m.at <==> owner in Owners(mentions))
    && forall owner :: owner in m.at ==> m.at[owner] == Unique(ItemsUnder(mentions, owner))
  }

  lemma {:induction false} ItemsOfNobody(mentions: seq<Mention>, owner: string)
    requires owner !in Owners(mentions)
    ensures ItemsUnder(mentions, owner) == []
  {
    if mentions != [] {
      var n := |mentions| - 1;
      assert mentions[n].owner == Owners(mentions)[|Owners(mentions)| - 1];
      assert forall other :: other in Owners(mentions[..n]) ==> other in Owners(mentions);
      ItemsOfNobody(mentions[..n], owner);
    }
  }

  lemma ItemsAfterOne(mentions: seq<Mention>, mention: Mention, owner: string)
    ensures ItemsUnder(mentions + [mention], owner)
      == ItemsUnder(mentions, owner) + if mention.owner == owner && mention.item.Some? then [mention.item.value] else []
    ensures Owners(mentions + [mention]) == Owners(mentions) + [mention.owner]
  {
    assert (mentions + [mention])[..|mentions|] == mentions;
  }

  lemma UnderAfterOne(mentions: seq<Mention>, m: OrderedMap<string, seq<string>>, mention: Mention, owner: string)
    requires PlacedInOrder(mentions, m) && owner in Place(m, mention).at
    ensures Place(m, mention).at[owner] == Unique(ItemsUnder(mentions + [mention], owner))
  {
    ItemsAfterOne(mentions, mention, owner);
    var before := ItemsUnder(mentions, owner);
    if owner !in m.at {
      ItemsOfNobody(mentions, owner);
    }
    if mention.owner == owner && mention.item.Some? {
      UniqueAfterOne(before, mention.item.value);
    } else {
      assert before + [] == before;
    }
  }

  lemma InOrderAfterOne(mentions: seq<Mention>, m: OrderedMap<string, seq<string>>, mention: Mention)
    requires PlacedInOrder(mentions, m)
    ensures PlacedInOrder(mentions + [mention], Place(m, mention))
  {
    ItemsAfterOne(mentions, mention, mention.owner);
    UniqueAfterOne(Owners(mentions), mention.owner);
    forall owner | owner in Place(m, mention).at
      ensures Place(m, mention).at[owner] == Unique(ItemsUnder(mentions + [mention], owner))
    {
      UnderAfterOne(mentions, m, mention, owner);
    }
  }

  lemma {:induction false} PlacedKeepsOrder(mentions: seq<Mention>)
    ensures PlacedInOrder(mentions, Placed(mentions))
  {
    if mentions != [] {
      var n := |mentions| - 1;
      PlacedKeepsOrder(mentions[..n]);
      InOrderAfterOne(mentions[..n], Placed(mentions[..n]), mentions[n]);
      assert mentions == mentions[..n] + [mentions[n]];
    }
  }

  lemma PlacedAfterOne(mentions: seq<Mention>, mention: Mention)
    ensures Placed(mentions + [mention]) == Place(Placed(mentions), mention)
  {
    assert (mentions + [mention])[..|mentions|] == mentions;
  }

  // ---------------------------------------------------------------- experiences

  datatype Experience = Experience(id: string, bullets: seq<string>, main: bool)

  /** `owner`: the experience of each bullet. */
  function OwnerOf(experiences: seq<Experience>, bullet: string): (r: Option<string>)
    ensures r.Some? ==> exists e :: e in experiences && e.id == r.value && bullet in e.bullets
    ensures r.None? ==> forall e :: e in experiences ==> bullet !in e.bullets
  {
    if experiences == [] then None
    else
      var last := experiences[|experiences| - 1];
      if bullet in last.bullets then Some(last.id) else OwnerOf(experiences[..|experiences| - 1], bullet)
  }

  function IdsOf(experiences: seq<Experience>): set<string> {
    set e | e in experiences :: e.id
  }

  /** What a choice's own id places: its experience, or the bullet it really is. */
  function OfId(experiences: seq<Experience>, id: string): seq<Mention> {
    if id in IdsOf(experiences) then [Mention(id, None)]
    else match OwnerOf(experiences, id)
      case Some(owner) => [Mention(owner, Some(id))]
      case None => []
  }

  function OfPicks(experiences: seq<Experience>, picks: seq<string>): seq<Mention> {
    if picks == [] then []
    else
      var last := picks[|picks| - 1];
      OfPicks(experiences, picks[..|picks| - 1]) + OfPick(experiences, last)
  }

  function OfPick(experiences: seq<Experience>, pick: string): seq<Mention> {
    match OwnerOf(experiences, pick)
    case Some(owner) => [Mention(owner, Some(pick))]
    case None => []
  }

  function OfChoices(experiences: seq<Experience>, choices: seq<Choice>): seq<Mention> {
    if choices == [] then []
    else
      var last := choices[|choices| - 1];
      OfChoices(experiences, choices[..|choices| - 1]) + OfId(experiences, last.id) + OfPicks(experiences, last.picks)
  }

  /** A choice names a bullet: among its bullets, or in place of an experience's id. */
  ghost predicate NamedBy(experiences: seq<Experience>, choice: Choice, bullet: string) {
    bullet in choice.picks || (bullet == choice.id && choice.id !in IdsOf(experiences))
  }

  ghost predicate Named(experiences: seq<Experience>, choices: seq<Choice>, bullet: string) {
    exists c :: c in choices && NamedBy(experiences, c, bullet)
  }

  lemma {:induction false} PicksMention(experiences: seq<Experience>, picks: seq<string>, owner: string, bullet: string)
    ensures Mention(owner, Some(bullet)) in OfPicks(experiences, picks) <==> bullet in picks && OwnerOf(experiences, bullet) == Some(owner)
    ensures Mention(owner, None) !in OfPicks(experiences, picks)
  {
    if picks != [] {
      PicksMention(experiences, picks[..|picks| - 1], owner, bullet);
    }
  }

  lemma ChoiceMentions(experiences: seq<Experience>, choice: Choice, owner: string, bullet: string)
    ensures Mention(owner, Some(bullet)) in OfId(experiences, choice.id) + OfPicks(experiences, choice.picks)
      <==> NamedBy(experiences, choice, bullet) && OwnerOf(experiences, bullet) == Some(owner)
  {
    PicksMention(experiences, choice.picks, owner, bullet);
  }

  lemma {:induction false} ChoicesMention(experiences: seq<Experience>, choices: seq<Choice>, owner: string, bullet: string)
    ensures Mention(owner, Some(bullet)) in OfChoices(experiences, choices)
      <==> Named(experiences, choices, bullet) && OwnerOf(experiences, bullet) == Some(owner)
  {
    if choices != [] {
      var n := |choices| - 1;
      ChoicesMention(experiences, choices[..n], owner, bullet);
      ChoiceMentions(experiences, choices[n], owner, bullet);
      NamedInPrefix(experiences, choices, bullet);
      assert OfChoices(experiences, choices) == OfChoices(experiences, choices[..n]) + (OfId(experiences, choices[n].id) + OfPicks(experiences, choices[n].picks));
    }
  }

  lemma NamedInPrefix(experiences: seq<Experience>, choices: seq<Choice>, bullet: string)
    requires choices != []
    ensures var n := |choices| - 1;
      Named(experiences, choices, bullet) <==> Named(experiences, choices[..n], bullet) || NamedBy(experiences, choices[n], bullet)
  {
    var n := |choices| - 1;
    assert choices == choices[..n] + [choices[n]];
  }

  /** The loops that place every choice and every bullet. */
  method PlaceAll(experiences: seq<Experience>, choices: seq<Choice>) returns (m: OrderedMap<string, seq<string>>)
    ensures m == Placed(OfChoices(experiences, choices))
  {
    m := OrderedMap([], map[]);
    var i := 0;
    while i < |choices|
      invariant 0 <= i <= |choices|
      invariant m == Placed(OfChoices(experiences, choices[..i]))
    {
      m := PlaceChoice(experiences, choices[i], OfChoices(experiences, choices[..i]), m);
      PrefixAndOne(choices, i);
      i := i + 1;
      assert choices[..i][..|choices[..i]| - 1] == choices[..i - 1];
    }
    PrefixAll(choices);
  }

  method PlaceChoice(experiences: seq<Experience>, choice: Choice, ghost before: seq<Mention>, m0: OrderedMap<string, seq<string>>)
    returns (m: OrderedMap<string, seq<string>>)
    requires m0 == Placed(before)
    ensures m == Placed(before + OfId(experiences, choice.id) + OfPicks(experiences, choice.picks))
  {
    m := m0;
    var owner := OwnerOf(experiences, choice.id);
    if choice.id in IdsOf(experiences) {
      m := Place(m, Mention(choice.id, None));
      PlacedAfterOne(before, Mention(choice.id, None));
    } else if owner.Some? {
      m := Place(m, Mention(owner.value, Some(choice.id)));
      PlacedAfterOne(before, Mention(owner.value, Some(choice.id)));
    } else {
      assert before + [] == before;
    }
    ghost var started := before + OfId(experiences, choice.id);
    m := PlacePicks(experiences, choice.picks, started, m);
  }

  function PlacePick(experiences: seq<Experience>, pick: string, m: OrderedMap<string, seq<string>>): OrderedMap<string, seq<string>> {
    match OwnerOf(experiences, pick)
    case Some(owner) => Place(m, Mention(owner, Some(pick)))
    case None => m
  }

  lemma OnePickMore(experiences: seq<Experience>, before: seq<Mention>, picks: seq<string>, i: nat)
    requires i < |picks|
    ensures Placed(before + OfPicks(experiences, picks[..i + 1])) == PlacePick(experiences, picks[i], Placed(before + OfPicks(experiences, picks[..i])))
  {
    var owner, done := OwnerOf(experiences, picks[i]), OfPicks(experiences, picks[..i]);
    assert picks[..i + 1][..i] == picks[..i];
    if owner.Some? {
      var mention := Mention(owner.value, Some(picks[i]));
      PlacedAfterOne(before + done, mention);
      assert before + (done + [mention]) == before + done + [mention];
    } else {
      assert done + [] == done;
    }
  }

  method PlacePicks(experiences: seq<Experience>, picks: seq<string>, ghost before: seq<Mention>, m0: OrderedMap<string, seq<string>>)
    returns (m: OrderedMap<string, seq<string>>)
    requires m0 == Placed(before)
    ensures m == Placed(before + OfPicks(experiences, picks))
  {
    m := m0;
    assert before + [] == before;
    var i := 0;
    while i < |picks|
      invariant 0 <= i <= |picks|
      invariant m == Placed(before + OfPicks(experiences, picks[..i]))
    {
      OnePickMore(experiences, before, picks, i);
      m := PlacePick(experiences, picks[i], m);
      i := i + 1;
    }
    PrefixAll(picks);
  }

  predicate IsMain(experiences: seq<Experience>, id: string) {
    exists e :: e in experiences && e.id == id && e.main
  }

  /** The experiences of the analysis: those outside the main missions keep only bullets that back a requirement. */
  function Relocated(experiences: seq<Experience>, m: OrderedMap<string, seq<string>>, backs: string -> bool, n: nat): (r: seq<Choice>)
    requires n <= |m.order| && forall k :: 0 <= k < n ==> m.order[k] in m.at
    ensures |r| == n
    ensures forall k :: 0 <= k < n ==> r[k] == Choice(m.order[k],
      if IsMain(experiences, m.order[k]) then m.at[m.order[k]] else Keep(m.at[m.order[k]], backs))
  {
    if n == 0 then []
    else
      var id := m.order[n - 1];
      Relocated(experiences, m, backs, n - 1) + [Choice(id, if IsMain(experiences, id) then m.at[id] else Keep(m.at[id], backs))]
  }

  /** The bullets step of `normalize`. */
  method RelocateBullets(experiences: seq<Experience>, choices: seq<Choice>, backs: string -> bool) returns (out: seq<Choice>)
    ensures out == BulletsOf(experiences, choices, backs)
  {
    var m := PlaceAll(experiences, choices);
    PlacedIsRight(OfChoices(experiences, choices));
    OrderInMap(m);
    out := Relocated(experiences, m, backs, |m.order|);
  }

  lemma OrderInMap(m: OrderedMap<string, seq<string>>)
    requires m.Valid()
    ensures forall k :: 0 <= k < |m.order| ==> m.order[k] in m.at
  {
    assert forall k :: 0 <= k < |m.order| ==> m.order[k] in m.order;
  }

  function BulletsOf(experiences: seq<Experience>, choices: seq<Choice>, backs: string -> bool): seq<Choice> {
    var m := Placed(OfChoices(experiences, choices));
    PlacedIsRight(OfChoices(experiences, choices));
    OrderInMap(m);
    Relocated(experiences, m, backs, |m.order|)
  }

  /** A bullet shown: named by the model, and of a main mission or backing a requirement. */
  ghost predicate Shown(experiences: seq<Experience>, choices: seq<Choice>, backs: string -> bool, owner: string, bullet: string) {
    && Named(experiences, choices, bullet) && OwnerOf(experiences, bullet) == Some(owner)
    && ((exists e :: e in experiences && e.id == owner && e.main) || backs(bullet))
  }

  ghost predicate ListedUnder(out: seq<Choice>, owner: string, item: string) {
    exists k :: 0 <= k < |out| && out[k].id == owner && item in out[k].picks
  }

  /** Under an experience: exactly the bullets that must be shown there, each once. */
  ghost predicate ShowsExactly(experiences: seq<Experience>, choices: seq<Choice>, backs: string -> bool, out: Choice) {
    Distinct(out.picks) && forall bullet :: bullet in out.picks <==> Shown(experiences, choices, backs, out.id, bullet)
  }

  /**
   Relocation conserves picks: a known bullet the model named, under any id, is listed under the experience that
   owns it, and there alone, each experience and each bullet once; the only ones left out are those of a short
   mission or an R&D project that back nothing.
   */
  lemma RelocationConservesPicks(experiences: seq<Experience>, choices: seq<Choice>, backs: string -> bool)
    ensures var out := BulletsOf(experiences, choices, backs);
      && (forall j, k :: 0 <= j < k < |out| ==> out[j].id != out[k].id)
      && (forall k :: 0 <= k < |out| ==> ShowsExactly(experiences, choices, backs, out[k]))
    ensures forall owner, bullet :: Shown(experiences, choices, backs, owner, bullet) ==> ListedUnder(BulletsOf(experiences, choices, backs), owner, bullet)
  {
    var mentions := OfChoices(experiences, choices);
    var m, out := Placed(mentions), BulletsOf(experiences, choices, backs);
    PlacedIsRight(mentions);
    OrderInMap(m);
    forall k | 0 <= k < |out|
      ensures ShowsExactly(experiences, choices, backs, out[k])
    {
      OneExperience(experiences, choices, backs, m, out[k]);
    }
    forall owner, bullet | Shown(experiences, choices, backs, owner, bullet)
      ensures ListedUnder(out, owner, bullet)
    {
      ShownIsPlaced(experiences, choices, backs, m, owner, bullet);
      var k :| 0 <= k < |m.order| && m.order[k] == owner;
      assert out[k].id == owner;
    }
  }

  lemma ShownIsPlaced(experiences: seq<Experience>, choices: seq<Choice>, backs: string -> bool, m: OrderedMap<string, seq<string>>,
                      owner: string, bullet: string)
    requires PlacedRight(OfChoices(experiences, choices), m) && Shown(experiences, choices, backs, owner, bullet)
    ensures owner in m.order
  {
    ChoicesMention(experiences, choices, owner, bullet);
    assert PlacedUnder(OfChoices(experiences, choices), m, owner);
  }

  lemma OneExperience(experiences: seq<Experience>, choices: seq<Choice>, backs: string -> bool, m: OrderedMap<string, seq<string>>, out: Choice)
    requires PlacedRight(OfChoices(experiences, choices), m) && out.id in m.at
    requires out.picks == if IsMain(experiences, out.id) then m.at[out.id] else Keep(m.at[out.id], backs)
    ensures ShowsExactly(experiences, choices, backs, out)
  {
    assert PlacedUnder(OfChoices(experiences, choices), m, out.id);
    KeepDistinct(m.at[out.id], backs);
    forall bullet
      ensures bullet in out.picks <==> Shown(experiences, choices, backs, out.id, bullet)
    {
      ChoicesMention(experiences, choices, out.id, bullet);
    }
  }

  // ---------------------------------------------------------------- in the model's order

  /** The bullets a choice names: what stands for its id, when that is no experience, then those it lists. */
  function NamesOf(experiences: seq<Experience>, choice: Choice): seq<string> {
    (if choice.id in IdsOf(experiences) then [] else [choice.id]) + choice.picks
  }

  /** Everything the model named, in its order. */
  function AllNames(experiences: seq<Experience>, choices: seq<Choice>): seq<string> {
    if choices == [] then []
    else AllNames(experiences, choices[..|choices| - 1]) + NamesOf(experiences, choices[|choices| - 1])
  }

  function IsOwnedBy(experiences: seq<Experience>, owner: string): string -> bool {
    (bullet: string) => OwnerOf(experiences, bullet) == Some(owner)
  }

  lemma {:induction false} ItemsSplit(a: seq<Mention>, b: seq<Mention>, owner: string)
    ensures ItemsUnder(a + b, owner) == ItemsUnder(a, owner) + ItemsUnder(b, owner)
  {
    if b == [] {
      assert a + b == a;
    } else {
      var n := |b| - 1;
      assert (a + b)[..|a| + n] == a + b[..n] && (a + b)[|a| + n] == b[n];
      ItemsSplit(a, b[..n], owner);
    }
  }

  lemma OneName(experiences: seq<Experience>, bullet: string, owner: string)
    ensures Keep([bullet], IsOwnedBy(experiences, owner)) == if OwnerOf(experiences, bullet) == Some(owner) then [bullet] else []
  {
  }

  lemma OneMoreName(experiences: seq<Experience>, names: seq<string>, name: string, owner: string)
    ensures Keep(names + [name], IsOwnedBy(experiences, owner))
      == Keep(names, IsOwnedBy(experiences, owner)) + if OwnerOf(experiences, name) == Some(owner) then [name] else []
  {
    KeepSplit(names, [name], IsOwnedBy(experiences, owner));
    OneName(experiences, name, owner);
  }

  lemma OneMorePick(experiences: seq<Experience>, before: seq<Mention>, pick: string, owner: string)
    ensures ItemsUnder(before + OfPick(experiences, pick), owner)
      == ItemsUnder(before, owner) + if OwnerOf(experiences, pick) == Some(owner) then [pick] else []
  {
    var named := OwnerOf(experiences, pick);
    if named.Some? {
      ItemsAfterOne(before, Mention(named.value, Some(pick)), owner);
    } else {
      assert before + [] == before;
    }
  }

  lemma {:induction false} ItemsOfPicks(experiences: seq<Experience>, picks: seq<string>, owner: string)
    ensures ItemsUnder(OfPicks(experiences, picks), owner) == Keep(picks, IsOwnedBy(experiences, owner))
  {
    if picks != [] {
      var n := |picks| - 1;
      ItemsOfPicks(experiences, picks[..n], owner);
      OneMoreName(experiences, picks[..n], picks[n], owner);
      OneMorePick(experiences, OfPicks(experiences, picks[..n]), picks[n], owner);
      assert picks[..n] + [picks[n]] == picks;
    }
  }

  lemma ItemsOfId(experiences: seq<Experience>, id: string, owner: string)
    ensures ItemsUnder(OfId(experiences, id), owner)
      == if id !in IdsOf(experiences) && OwnerOf(experiences, id) == Some(owner) then [id] else []
  {
    if OfId(experiences, id) != [] {
      assert [] + OfId(experiences, id) == OfId(experiences, id);
      ItemsAfterOne([], OfId(experiences, id)[0], owner);
    }
  }

  lemma ItemsOfChoice(experiences: seq<Experience>, choice: Choice, owner: string)
    ensures ItemsUnder(OfId(experiences, choice.id) + OfPicks(experiences, choice.picks), owner)
      == Keep(NamesOf(experiences, choice), IsOwnedBy(experiences, owner))
  {
    ItemsSplit(OfId(experiences, choice.id), OfPicks(experiences, choice.picks), owner);
    ItemsOfId(experiences, choice.id, owner);
    ItemsOfPicks(experiences, choice.picks, owner);
    KeepSplit(if choice.id in IdsOf(experiences) then [] else [choice.id], choice.picks, IsOwnedBy(experiences, owner));
    OneName(experiences, choice.id, owner);
  }

  lemma OneMoreChoice(experiences: seq<Experience>, mentions: seq<Mention>, names: seq<string>, choice: Choice, owner: string)
    requires ItemsUnder(mentions, owner) == Keep(names, IsOwnedBy(experiences, owner))
    ensures ItemsUnder(mentions + OfId(experiences, choice.id) + OfPicks(experiences, choice.picks), owner)
      == Keep(names + NamesOf(experiences, choice), IsOwnedBy(experiences, owner))
  {
    var own := OfId(experiences, choice.id) + OfPicks(experiences, choice.picks);
    assert mentions + OfId(experiences, choice.id) + OfPicks(experiences, choice.picks) == mentions + own;
    ItemsOfChoice(experiences, choice, owner);
    ItemsSplit(mentions, own, owner);
    KeepSplit(names, NamesOf(experiences, choice), IsOwnedBy(experiences, owner));
  }

  lemma {:induction false} ItemsAreNames(experiences: seq<Experience>, choices: seq<Choice>, owner: string)
    ensures ItemsUnder(OfChoices(experiences, choices), owner) == Keep(AllNames(experiences, choices), IsOwnedBy(experiences, owner))
  {
    if choices != [] {
      var n := |choices| - 1;
      ItemsAreNames(experiences, choices[..n], owner);
      OneMoreChoice(experiences, OfChoices(experiences, choices[..n]), AllNames(experiences, choices[..n]), choices[n], owner);
    }
  }

  /** What an experience shows stands in the order of these items. */
  ghost predicate StandsIn(items: seq<string>, picks: seq<string>) {
    exists places :: TakenAt(items, places, picks)
  }

  lemma PicksStandInNames(experiences: seq<Experience>, choices: seq<Choice>, backs: string -> bool, e: nat)
    requires e < |BulletsOf(experiences, choices, backs)|
    ensures var out := BulletsOf(experiences, choices, backs)[e];
      StandsIn(Unique(Keep(AllNames(experiences, choices), IsOwnedBy(experiences, out.id))), out.picks)
  {
    var mentions := OfChoices(experiences, choices);
    var m := Placed(mentions);
    PlacedIsRight(mentions);
    OrderInMap(m);
    PlacedKeepsOrder(mentions);
    var owner := m.order[e];
    ItemsAreNames(experiences, choices, owner);
    WholeStandsIn(m.at[owner]);
    var places := KeepsInOrder(m.at[owner], backs);
  }

  lemma WholeStandsIn(items: seq<string>)
    ensures StandsIn(items, items)
  {
    var places := seq(|items|, (i: nat) => i);
    assert TakenAt(items, places, items);
  }

  lemma FirstInTail<T>(head: T, rest: seq<T>, x: T, i: nat)
    requires FirstAt([head] + rest, x, i) && head != x
    ensures i > 0 && FirstAt(rest, x, i - 1)
  {
    assert ([head] + rest)[..i] == [head] + rest[..i - 1];
  }

  lemma FirstIsHead<T>(head: T, rest: seq<T>, i: nat)
    requires FirstAt([head] + rest, head, i)
    ensures i == 0
  {
    FirstIsOne([head] + rest, head, i, 0);
  }

  lemma KeepUnfolds<T>(head: T, rest: seq<T>, p: T -> bool)
    ensures Keep([head] + rest, p) == if p(head) then [head] + Keep(rest, p) else Keep(rest, p)
  {
    assert ([head] + rest)[1..] == rest;
  }

  /** A head that is not the element looked for only moves it, when the filter keeps the head. */
  lemma NotTheHead<T>(head: T, rest: seq<T>, p: T -> bool, x: T, i: nat)
    requires head != x && FirstAt(Keep([head] + rest, p), x, i)
    ensures p(head) ==> i > 0
    ensures FirstAt(Keep(rest, p), x, if p(head) then i - 1 else i)
  {
    KeepUnfolds(head, rest, p);
    if p(head) {
      FirstInTail(head, Keep(rest, p), x, i);
    }
  }

  /** A filter keeps which of two elements stands first. */
  lemma {:induction false} FirstsStayInOrder<T>(xs: seq<T>, p: T -> bool, x: T, y: T, a: nat, b: nat, i: nat, j: nat)
    requires FirstAt(xs, x, a) && FirstAt(xs, y, b) && x != y && FirstAt(Keep(xs, p), x, i) && FirstAt(Keep(xs, p), y, j) && i < j
    ensures a < b
  {
    var head, rest := xs[0], xs[1..];
    assert xs == [head] + rest;
    if head == x {
      FirstIsHead(head, rest, a);
      FirstInTail(head, rest, y, b);
    } else if head == y {
      SecondIsHead(head, rest, p, j);
    } else {
      FirstInTail(head, rest, x, a);
      FirstInTail(head, rest, y, b);
      NotTheHead(head, rest, p, x, i);
      NotTheHead(head, rest, p, y, j);
      var less := if p(head) then 1 else 0;
      FirstsStayInOrder(rest, p, x, y, a - 1, b - 1, i - less, j - less);
    }
  }

  lemma SecondIsHead<T>(head: T, rest: seq<T>, p: T -> bool, j: nat)
    requires FirstAt(Keep([head] + rest, p), head, j)
    ensures j == 0
  {
    KeepUnfolds(head, rest, p);
    assert Keep([head] + rest, p)[j] in Keep([head] + rest, p);
    FirstIsHead(head, Keep(rest, p), j);
  }

  /** The bullets under an experience stand in the order the model first named them. */
  lemma BulletsKeepTheModelsOrder(experiences: seq<Experience>, choices: seq<Choice>, backs: string -> bool, e: nat, j: nat, k: nat, a: nat, b: nat)
    requires e < |BulletsOf(experiences, choices, backs)| && j < k < |BulletsOf(experiences, choices, backs)[e].picks|
    requires FirstAt(AllNames(experiences, choices), BulletsOf(experiences, choices, backs)[e].picks[j], a)
    requires FirstAt(AllNames(experiences, choices), BulletsOf(experiences, choices, backs)[e].picks[k], b)
    ensures a < b
  {
    var out, names := BulletsOf(experiences, choices, backs)[e], AllNames(experiences, choices);
    PicksStandInNames(experiences, choices, backs, e);
    var own := Keep(names, IsOwnedBy(experiences, out.id));
    var places :| TakenAt(Unique(own), places, out.picks);
    assert out.picks[j] in Unique(own) && out.picks[k] in Unique(own);
    var i, l := FirstIndex(own, out.picks[j]), FirstIndex(own, out.picks[k]);
    UniqueInOrder(own, places[j], places[k], i, l);
    FirstsStayInOrder(names, IsOwnedBy(experiences, out.id), out.picks[j], out.picks[k], a, b, i, l);
  }

  /** The experiences stand in the order the model first named them, or a bullet of theirs. */
  lemma ExperiencesKeepTheModelsOrder(experiences: seq<Experience>, choices: seq<Choice>, backs: string -> bool, j: nat, k: nat, a: nat, b: nat)
    requires j < k < |BulletsOf(experiences, choices, backs)|
    requires FirstAt(Owners(OfChoices(experiences, choices)), BulletsOf(experiences, choices, backs)[j].id, a)
    requires FirstAt(Owners(OfChoices(experiences, choices)), BulletsOf(experiences, choices, backs)[k].id, b)
    ensures a < b
  {
    var mentions := OfChoices(experiences, choices);
    PlacedIsRight(mentions);
    OrderInMap(Placed(mentions));
    PlacedKeepsOrder(mentions);
    UniqueInOrder(Owners(mentions), j, k, a, b);
  }

  /** The experience of a bullet is the last of the profile's that holds it. */
  lemma {:induction false} OwnerIsTheLast(experiences: seq<Experience>, bullet: string, k: nat)
    requires k < |experiences| && bullet in experiences[k].bullets
    requires forall j :: k < j < |experiences| ==> bullet !in experiences[j].bullets
    ensures OwnerOf(experiences, bullet) == Some(experiences[k].id)
  {
    if k < |experiences| - 1 {
      assert bullet !in experiences[|experiences| - 1].bullets;
      OwnerIsTheLast(experiences[..|experiences| - 1], bullet, k);
    }
  }

  /** `validateAnalysis` on the experiences: each is known, each bullet is its own. */
  ghost predicate ExperiencesPass(experiences: seq<Experience>, out: seq<Choice>) {
    forall k :: 0 <= k < |out| ==> ExperiencePasses(experiences, out[k])
  }

  ghost predicate ExperiencePasses(experiences: seq<Experience>, choice: Choice) {
    && choice.id in IdsOf(experiences)
    && forall bullet :: bullet in choice.picks ==> exists e :: e in experiences && e.id == choice.id && bullet in e.bullets
  }

  lemma OwnedBulletIsItsOwn(experiences: seq<Experience>, owner: string, bullet: string)
    requires OwnerOf(experiences, bullet) == Some(owner)
    ensures exists e :: e in experiences && e.id == owner && bullet in e.bullets
  {
  }

  /** Whatever the model chose, the relocated experiences pass validation. */
  lemma RelocatedExperiencesPass(experiences: seq<Experience>, choices: seq<Choice>, backs: string -> bool)
    ensures ExperiencesPass(experiences, BulletsOf(experiences, choices, backs))
  {
    var out := BulletsOf(experiences, choices, backs);
    RelocationConservesPicks(experiences, choices, backs);
    forall k | 0 <= k < |out|
      ensures ExperiencePasses(experiences, out[k])
    {
      ListedOwnerIsKnown(experiences, choices, backs, k);
      forall bullet | bullet in out[k].picks
        ensures exists e :: e in experiences && e.id == out[k].id && bullet in e.bullets
      {
        assert ShowsExactly(experiences, choices, backs, out[k]);
        assert Shown(experiences, choices, backs, out[k].id, bullet);
        OwnedBulletIsItsOwn(experiences, out[k].id, bullet);
      }
    }
  }

  lemma ListedOwnerIsKnown(experiences: seq<Experience>, choices: seq<Choice>, backs: string -> bool, k: nat)
    requires k < |BulletsOf(experiences, choices, backs)|
    ensures BulletsOf(experiences, choices, backs)[k].id in IdsOf(experiences)
  {
    var mentions := OfChoices(experiences, choices);
    PlacedIsRight(mentions);
    OrderInMap(Placed(mentions));
    PlacedOwnerIsKnown(experiences, choices, BulletsOf(experiences, choices, backs)[k].id);
  }

  lemma PlacedOwnerIsKnown(experiences: seq<Experience>, choices: seq<Choice>, owner: string)
    requires owner in Placed(OfChoices(experiences, choices)).at
    ensures owner in IdsOf(experiences)
  {
    var mentions := OfChoices(experiences, choices);
    PlacedIsRight(mentions);
    assert PlacedUnder(mentions, Placed(mentions), owner);
    var item :| Mention(owner, item) in mentions;
    MentionedOwnerIsKnown(experiences, choices, owner, item);
  }

  lemma {:induction false} MentionedOwnerIsKnown(experiences: seq<Experience>, choices: seq<Choice>, owner: string, item: Option<string>)
    requires Mention(owner, item) in OfChoices(experiences, choices)
    ensures owner in IdsOf(experiences)
  {
    var n := |choices| - 1;
    if Mention(owner, item) in OfChoices(experiences, choices[..n]) {
      MentionedOwnerIsKnown(experiences, choices[..n], owner, item);
    } else if item.Some? {
      PicksMention(experiences, choices[n].picks, owner, item.value);
    } else {
      PicksMention(experiences, choices[n].picks, owner, "");
    }
  }
}
