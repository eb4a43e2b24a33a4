/**
Runs of words found by searching strings: a space before, between and after the words (cv/src/guard.js, `copied` and
`echoed`; cv/src/links.js, `linkedSkills`).
*/
module Words {
  import opened Collections

  /** A word as the program cuts them: something, and no space. */
  ghost predicate IsWord(word: string) {
    word != "" && forall i :: 0 <= i < |word| ==> word[i] != ' '
  }

  ghost predicate AreWords(words: seq<string>) {
    forall k :: 0 <= k < |words| ==> IsWord(words[k])
  }

  /** `words.join(' ')`. */
  function Join(words: seq<string>): string {
    if words == [] then "" else if |words| == 1 then words[0] else words[0] + " " + Join(words[1..])
  }

  /** The text searched, or searched for: a space on each side of the words. */
  function Padded(words: seq<string>): string {
    " " + Join(words) + " "
  }

  predicate FoundAt<T(==)>(whole: seq<T>, part: seq<T>, i: int) {
    0 <= i <= |whole| - |part| && whole[i..i + |part|] == part
  }

  /** `whole.includes(part)` for strings; for words, the run stands among them, whole and in order. */
  predicate Includes<T(==)>(whole: seq<T>, part: seq<T>) {
    exists i :: 0 <= i <= |whole| - |part| && FoundAt(whole, part, i)
  }

  // ---------------------------------------------------------------- searching the string is searching the words

  /** A space, then each word with a space after it: the padded text of words, one word at a time. */
  function Spaced(words: seq<string>): string {
    if words == [] then " " else " " + words[0] + Spaced(words[1..])
  }

  lemma {:induction false} PaddedIsSpaced(words: seq<string>)
    requires words != []
    ensures Padded(words) == Spaced(words)
  {
    if |words| == 1 {
      assert words[1..] == [];
    } else {
      PaddedIsSpaced(words[1..]);
      assert Padded(words) == " " + words[0] + (" " + Join(words[1..]) + " ");
    }
  }

  lemma {:induction false} SpacedAppend(a: seq<string>, b: seq<string>)
    ensures Spaced(a) != "" && Spaced(a)[|Spaced(a)| - 1] == ' '
    ensures Spaced(a + b) == Spaced(a)[..|Spaced(a)| - 1] + Spaced(b)
  {
    if a == [] {
      assert a + b == b;
    } else {
      SpacedAppend(a[1..], b);
      assert (a + b)[1..] == a[1..] + b;
    }
  }

  lemma SpacedStartsWithSpace(words: seq<string>)
    ensures Spaced(words) != "" && Spaced(words)[0] == ' '
    ensures words != [] ==> |Spaced(words)| > 1
  {
    if words != [] {
      assert Spaced(words[1..]) != "";
    }
  }

  ghost predicate NoSpace(text: string) {
    forall i :: 0 <= i < |text| ==> text[i] != ' '
  }

  /** Two texts that agree as far as the first reaches, each a word and then a space: the words are the same. */
  lemma SameWord(a: string, rest: string, b: string, left: string)
    requires NoSpace(a) && NoSpace(b) && rest != "" && rest[0] == ' ' && left != "" && left[0] == ' '
    requires a + rest <= b + left
    ensures a == b && rest <= left
  {
    assert (a + rest)[|a|] == (b + left)[|a|] == ' ';
    assert |a| >= |b|;
    assert (a + rest)[|b|] == (b + left)[|b|] == ' ';
    assert |a| == |b|;
    assert forall i :: 0 <= i < |a| ==> (a + rest)[i] == a[i] && (b + left)[i] == b[i];
    assert forall i :: 0 <= i < |rest| ==> (a + rest)[|a| + i] == rest[i] && (b + left)[|b| + i] == left[i];
  }

  lemma WithoutFirst(a: string, b: string)
    requires " " + a <= " " + b
    ensures a <= b
  {
    assert forall i :: 0 <= i < |a| ==> (" " + a)[i + 1] == a[i] && (" " + b)[i + 1] == b[i];
  }

  lemma {:induction false} PrefixIsPrefix(run: seq<string>, words: seq<string>)
    requires AreWords(run) && AreWords(words) && Spaced(run) <= Spaced(words)
    ensures run <= words
  {
    SpacedStartsWithSpace(run);
    if run != [] && words != [] {
      SpacedStartsWithSpace(run[1..]);
      SpacedStartsWithSpace(words[1..]);
      assert Spaced(run) == " " + (run[0] + Spaced(run[1..])) && Spaced(words) == " " + (words[0] + Spaced(words[1..]));
      WithoutFirst(run[0] + Spaced(run[1..]), words[0] + Spaced(words[1..]));
      SameWord(run[0], Spaced(run[1..]), words[0], Spaced(words[1..]));
      PrefixIsPrefix(run[1..], words[1..]);
    }
  }

  /** A space of the padded text past its first is past its first word. */
  lemma PastTheFirstWord(words: seq<string>, i: nat)
    requires words != [] && IsWord(words[0]) && 0 < i < |Spaced(words)| && Spaced(words)[i] == ' '
    ensures i >= 1 + |words[0]| && Spaced(words)[1 + |words[0]|..] == Spaced(words[1..])
  {
    var head := " " + words[0];
    assert Spaced(words) == head + Spaced(words[1..]);
    assert forall j :: 1 <= j < |head| ==> head[j] == words[0][j - 1];
  }

  lemma FoundPast<T>(whole: seq<T>, part: seq<T>, n: nat, i: nat)
    requires n <= |whole|
    ensures FoundAt(whole[n..], part, i) <==> FoundAt(whole, part, n + i)
  {
    if n + i + |part| <= |whole| {
      assert whole[n..][i..i + |part|] == whole[n + i..n + i + |part|];
    }
  }

  lemma {:induction false} FoundAtAWord(words: seq<string>, run: seq<string>, i: nat) returns (k: nat)
    requires AreWords(words) && AreWords(run) && run != [] && FoundAt(Spaced(words), Spaced(run), i)
    ensures FoundAt(words, run, k)
  {
    SpacedStartsWithSpace(run);
    if i == 0 {
      assert Spaced(run) <= Spaced(words);
      PrefixIsPrefix(run, words);
      k := 0;
    } else {
      assert words != [];
      assert Spaced(words)[i] == Spaced(run)[0];
      PastTheFirstWord(words, i);
      var n := 1 + |words[0]|;
      FoundPast(Spaced(words), Spaced(run), n, i - n);
      var j := FoundAtAWord(words[1..], run, i - n);
      FoundPast(words, run, 1, j);
      k := j + 1;
    }
  }

  lemma FoundBetween<T>(before: seq<T>, part: seq<T>, after: seq<T>)
    ensures FoundAt(before + (part + after), part, |before|)
  {
    assert (before + (part + after))[|before|..|before| + |part|] == part;
  }

  lemma RunIsFound(words: seq<string>, run: seq<string>, k: nat)
    requires FoundAt(words, run, k)
    ensures Includes(Spaced(words), Spaced(run))
  {
    var before, after := words[..k], words[k + |run|..];
    assert words == before + (run + after);
    SpacedAppend(before, run + after);
    RunStartsText(run, after);
    var head, tail := Spaced(before)[..|Spaced(before)| - 1], Spaced(run + after)[|Spaced(run)|..];
    assert Spaced(words) == head + (Spaced(run) + tail);
    FoundBetween(head, Spaced(run), tail);
  }

  lemma RunStartsText(run: seq<string>, after: seq<string>)
    ensures Spaced(run) <= Spaced(run + after)
  {
    SpacedAppend(run, after);
    SpacedStartsWithSpace(after);
  }

  /** Searching a padded text for a padded run finds exactly the runs of whole words: never half a word. */
  lemma SearchFindsWholeWords(words: seq<string>, run: seq<string>)
    requires AreWords(words) && AreWords(run) && run != []
    ensures Includes(Padded(words), Padded(run)) <==> Includes(words, run)
  {
    PaddedIsSpaced(run);
    SpacedStartsWithSpace(run);
    if words == [] {
      NothingInNothing(run);
    } else {
      PaddedIsSpaced(words);
      if Includes(Padded(words), Padded(run)) {
        var i :| 0 <= i <= |Padded(words)| - |Padded(run)| && FoundAt(Padded(words), Padded(run), i);
        var k := FoundAtAWord(words, run, i);
      }
      if Includes(words, run) {
        var k :| 0 <= k <= |words| - |run| && FoundAt(words, run, k);
        RunIsFound(words, run, k);
      }
    }
  }

  /** The two spaces of a text without words hold no run. */
  lemma NothingInNothing(run: seq<string>)
    requires AreWords(run) && run != []
    ensures |Padded(run)| > |Padded([])|
  {
    assert IsWord(run[0]);
    assert |Join(run)| >= |run[0]|;
  }

  // ---------------------------------------------------------------- copied and echoed

  /** A window of the text that stands in the source and not in the profile. */
  predicate Leaks(tokens: seq<string>, source: seq<string>, profile: seq<string>, n: nat, i: nat)
    requires i + n <= |tokens|
  {
    Includes(source, tokens[i..i + n]) && !Includes(profile, tokens[i..i + n])
  }

  /** No window that starts before `i` leaks. */
  ghost predicate NoLeakBefore(tokens: seq<string>, source: seq<string>, profile: seq<string>, n: nat, i: nat) {
    forall j :: 0 <= j < i && j + n <= |tokens| ==> !Leaks(tokens, source, profile, n, j)
  }

  ghost predicate IsFirstLeak(tokens: seq<string>, source: seq<string>, profile: seq<string>, n: nat, i: nat) {
    i + n <= |tokens| && Leaks(tokens, source, profile, n, i) && NoLeakBefore(tokens, source, profile, n, i)
  }

  /** A window leaks exactly when its padded text is found in the one padded text and not in the other. */
  lemma LeakIsFound(tokens: seq<string>, source: seq<string>, profile: seq<string>, n: nat, i: nat)
    requires AreWords(tokens) && AreWords(source) && AreWords(profile) && n > 0 && i + n <= |tokens|
    ensures var part := Padded(tokens[i..i + n]);
      Leaks(tokens, source, profile, n, i) <==> Includes(Padded(source), part) && !Includes(Padded(profile), part)
  {
    SearchFindsWholeWords(source, tokens[i..i + n]);
    SearchFindsWholeWords(profile, tokens[i..i + n]);
  }

  /**
   `copied` (8 words of the offer) and `echoed` (6 of the instructions), for any length: the first window of `n` words
   shared with the source and absent from the profile, if any is.
   */
  method FirstLeak(tokens: seq<string>, source: seq<string>, profile: seq<string>, n: nat) returns (run: Option<string>)
    requires AreWords(tokens) && AreWords(source) && AreWords(profile) && n > 0
    ensures run.None? <==> NoLeakBefore(tokens, source, profile, n, |tokens|)
    ensures run.Some? ==> exists i: nat :: IsFirstLeak(tokens, source, profile, n, i) && run.value == Join(tokens[i..i + n])
  {
    var sourceText, profileText := Padded(source), Padded(profile);
    var i := 0;
    while i + n <= |tokens|
      invariant 0 <= i <= |tokens| && NoLeakBefore(tokens, source, profile, n, i)
    {
      var part := tokens[i..i + n];
      LeakIsFound(tokens, source, profile, n, i);
      if Includes(sourceText, Padded(part)) && !Includes(profileText, Padded(part)) {
        assert IsFirstLeak(tokens, source, profile, n, i);
        return Some(Join(part));
      }
      i := i + 1;
    }
    return None;
  }

  // ---------------------------------------------------------------- linked skills

  const MIN_OFFERS := 3

  datatype Ruling = Same | Near | Never

  datatype Link = Link(words: seq<string>, skill: string, offers: nat, verdict: Option<Ruling>)

  datatype Kind = Ruled(ruling: Ruling) | Mined

  datatype Linked = Linked(same: seq<string>, near: seq<string>, no: seq<string>, mined: seq<string>)

  /** How a link acts: as the owner ruled it, or accepted from enough offers, or not at all. */
  function Acts(link: Link): Option<Kind> {
    if link.verdict.Some? then Some(Ruled(link.verdict.value)) else if link.offers >= MIN_OFFERS then Some(Mined) else None
  }

  function Pushed(list: seq<string>, skill: string): seq<string> {
    if skill in list then list else list + [skill]
  }

  function Push(found: Linked, kind: Kind, skill: string): Linked {
    match kind
    case Ruled(Same) => found.(same := Pushed(found.same, skill))
    case Ruled(Near) => found.(near := Pushed(found.near, skill))
    case Ruled(Never) => found.(no := Pushed(found.no, skill))
    case Mined => found.(mined := Pushed(found.mined, skill))
  }

  /** A link speaks as the owner ruled it, or as mined when he did not and three offers at least bear it. */
  ghost predicate SpeaksAs(link: Link, kind: Kind) {
    match kind
    case Ruled(ruling) => link.verdict == Some(ruling)
    case Mined => link.verdict == None && link.offers >= 3
  }

  /** Some link that speaks so has its words, whole, in the requirement. */
  ghost predicate IsLinked(links: seq<Link>, requirement: seq<string>, kind: Kind, skill: string) {
    exists k :: 0 <= k < |links| && Includes(requirement, links[k].words) && SpeaksAs(links[k], kind) && links[k].skill == skill
  }

  predicate LinksTo(link: Link, requirement: seq<string>, kind: Kind, skill: string) {
    Includes(requirement, link.words) && Acts(link) == Some(kind) && link.skill == skill
  }

  /** The skills so linked, link by link. */
  function LinkedInOrder(links: seq<Link>, requirement: seq<string>, kind: Kind): seq<string> {
    if links == [] then []
    else
      var n := |links| - 1;
      LinkedInOrder(links[..n], requirement, kind) + if LinksTo(links[n], requirement, kind, links[n].skill) then [links[n].skill] else []
  }

  /** A list of one kind: exactly the skills so linked, each once, in the order of the first link to each. */
  ghost predicate ListRight(links: seq<Link>, requirement: seq<string>, kind: Kind, list: seq<string>) {
    && Distinct(list) && (forall skill :: skill in list <==> IsLinked(links, requirement, kind, skill))
    && list == Unique(LinkedInOrder(links, requirement, kind))
  }

  function ListOf(found: Linked, kind: Kind): seq<string> {
    match kind
    case Ruled(Same) => found.same
    case Ruled(Near) => found.near
    case Ruled(Never) => found.no
    case Mined => found.mined
  }

  ghost predicate LinkedRight(links: seq<Link>, requirement: seq<string>, found: Linked) {
    forall kind :: ListRight(links, requirement, kind, ListOf(found, kind))
  }

  lemma ListOneMore(links: seq<Link>, requirement: seq<string>, kind: Kind, list: seq<string>, i: nat)
    requires i < |links| && ListRight(links[..i], requirement, kind, list)
    ensures ListRight(links[..i + 1], requirement, kind,
                      if Includes(requirement, links[i].words) && Acts(links[i]) == Some(kind) then Pushed(list, links[i].skill) else list)
  {
    var after := if Includes(requirement, links[i].words) && Acts(links[i]) == Some(kind) then Pushed(list, links[i].skill) else list;
    forall skill
      ensures skill in after <==> IsLinked(links[..i + 1], requirement, kind, skill)
    {
      LinkedToOneMore(links, requirement, kind, skill, i);
    }
    OrderOneMore(links, requirement, kind, i);
  }

  lemma LinkedOneFurther(links: seq<Link>, requirement: seq<string>, kind: Kind, i: nat)
    requires i < |links|
    ensures var before := LinkedInOrder(links[..i], requirement, kind);
      LinkedInOrder(links[..i + 1], requirement, kind)
      == if LinksTo(links[i], requirement, kind, links[i].skill) then before + [links[i].skill] else before
  {
    assert links[..i + 1][..i] == links[..i];
    assert LinkedInOrder(links[..i], requirement, kind) + [] == LinkedInOrder(links[..i], requirement, kind);
  }

  lemma OrderOneMore(links: seq<Link>, requirement: seq<string>, kind: Kind, i: nat)
    requires i < |links|
    ensures var before := Unique(LinkedInOrder(links[..i], requirement, kind));
      Unique(LinkedInOrder(links[..i + 1], requirement, kind))
      == if LinksTo(links[i], requirement, kind, links[i].skill) then Pushed(before, links[i].skill) else before
  {
    var before := LinkedInOrder(links[..i], requirement, kind);
    LinkedOneFurther(links, requirement, kind, i);
    UniqueAfterOne(before, links[i].skill);
  }

  function Linking(found: Linked, link: Link, requirement: seq<string>): Linked {
    if Includes(requirement, link.words) && Acts(link).Some? then Push(found, Acts(link).value, link.skill) else found
  }

  lemma LinkingOneKind(found: Linked, link: Link, requirement: seq<string>, kind: Kind)
    ensures ListOf(Linking(found, link, requirement), kind)
      == if Includes(requirement, link.words) && Acts(link) == Some(kind) then Pushed(ListOf(found, kind), link.skill) else ListOf(found, kind)
  {
  }

  lemma LinkOneMore(links: seq<Link>, requirement: seq<string>, found: Linked, i: nat)
    requires i < |links| && LinkedRight(links[..i], requirement, found)
    ensures LinkedRight(links[..i + 1], requirement, Linking(found, links[i], requirement))
  {
    forall kind
      ensures ListRight(links[..i + 1], requirement, kind, ListOf(Linking(found, links[i], requirement), kind))
    {
      assert ListRight(links[..i], requirement, kind, ListOf(found, kind));
      ListOneMore(links, requirement, kind, ListOf(found, kind), i);
      LinkingOneKind(found, links[i], requirement, kind);
    }
  }

  lemma NothingLinked(requirement: seq<string>)
    ensures LinkedRight([], requirement, Linked([], [], [], []))
  {
    forall kind
      ensures ListRight([], requirement, kind, ListOf(Linked([], [], [], []), kind))
    {
    }
  }

  lemma LinkedToOneMore(links: seq<Link>, requirement: seq<string>, kind: Kind, skill: string, i: nat)
    requires i < |links|
    ensures IsLinked(links[..i + 1], requirement, kind, skill)
      <==> IsLinked(links[..i], requirement, kind, skill) || LinksTo(links[i], requirement, kind, skill)
  {
    if IsLinked(links[..i], requirement, kind, skill) {
      var k :| 0 <= k < |links[..i]| && LinksTo(links[..i][k], requirement, kind, skill);
      assert links[..i + 1][k] == links[..i][k];
    }
    assert links[..i + 1][i] == links[i];
  }

  /** `linkedSkills`: of each kind, exactly the skills of the links whose words stand whole in the requirement, each once, in order. */
  method LinkedSkills(links: seq<Link>, requirement: seq<string>) returns (found: Linked)
    requires AreWords(requirement) && forall k :: 0 <= k < |links| ==> AreWords(links[k].words) && links[k].words != []
    ensures LinkedRight(links, requirement, found)
  {
    var phrase := Padded(requirement);
    found := Linked([], [], [], []);
    NothingLinked(requirement);
    var i := 0;
    while i < |links|
      invariant 0 <= i <= |links| && LinkedRight(links[..i], requirement, found)
    {
      SearchFindsWholeWords(requirement, links[i].words);
      LinkOneMore(links, requirement, found, i);
      if Includes(phrase, Padded(links[i].words)) {
        var kind := Acts(links[i]);
        if kind.Some? {
          found := Push(found, kind.value, links[i].skill);
        }
      }
      i := i + 1;
    }
    PrefixAll(links);
  }
}
