/**
 The two scanners of the mention syntax `<@M:id|label>`: one finds every opening and its id, the other
 replaces complete mentions.  The regular expressions are given twice, as predicates on spans of the message
 and as the deterministic scanners; the scanners are shown to take exactly the spans that match.
 */
module Mentions {
  import opened Common

  datatype Mention = Mention(idType: char, id: string)

  /** What re.sub sees: characters outside of mentions, and mentions with their optional label. */
  datatype Piece = Text(c: char) | Found(mention: Mention, caption: Option<string>)

  predicate Upper(c: char) {
    'A' <= c <= 'Z'
  }

  predicate InId(c: char) {
    c != '|' && c != '>'
  }

  predicate InLabel(c: char) {
    c != '>'
  }

  /** `<`, the trigger, an upper-case letter, a colon. */
  predicate Header(s: string, t: char, i: nat) {
    i + 4 <= |s| && s[i] == '<' && s[i + 1] == t && Upper(s[i + 2]) && s[i + 3] == ':'
  }

  // ---------------------------------------------------------------- the patterns

  /** s[i..j] matches `<t([A-Z]):([^|>]+)`. */
  ghost predicate OpeningMatches(s: string, t: char, i: nat, j: nat) {
    Header(s, t, i) && i + 4 < j <= |s| && forall m :: i + 4 <= m < j ==> InId(s[m])
  }

  /** s[i..k] matches `<t([A-Z]):([^|>]+)(?:\|([^>]+))?>` with the id ending at j. */
  ghost predicate MentionMatches(s: string, t: char, i: nat, j: nat, k: nat) {
    && OpeningMatches(s, t, i, j) && j < k <= |s| && s[k - 1] == '>'
    && (k == j + 1 || (s[j] == '|' && j + 1 < k - 1 && forall m :: j + 1 <= m < k - 1 ==> InLabel(s[m])))
  }

  // ---------------------------------------------------------------- the scanners

  function IdEnd(s: string, i: nat): (j: nat)
    requires i <= |s|
    ensures i <= j <= |s|
    decreases |s| - i
  {
    if i < |s| && InId(s[i]) then IdEnd(s, i + 1) else i
  }

  function LabelEnd(s: string, i: nat): (j: nat)
    requires i <= |s|
    ensures i <= j <= |s|
    decreases |s| - i
  {
    if i < |s| && InLabel(s[i]) then LabelEnd(s, i + 1) else i
  }

  lemma {:induction false} IdEndIsMaximal(s: string, i: nat)
    requires i <= |s|
    ensures forall m :: i <= m < IdEnd(s, i) ==> InId(s[m])
    ensures IdEnd(s, i) < |s| ==> !InId(s[IdEnd(s, i)])
    decreases |s| - i
  {
    if i < |s| && InId(s[i]) {
      IdEndIsMaximal(s, i + 1);
    }
  }

  lemma {:induction false} LabelEndIsMaximal(s: string, i: nat)
    requires i <= |s|
    ensures forall m :: i <= m < LabelEnd(s, i) ==> InLabel(s[m])
    ensures LabelEnd(s, i) < |s| ==> !InLabel(s[LabelEnd(s, i)])
    decreases |s| - i
  {
    if i < |s| && InLabel(s[i]) {
      LabelEndIsMaximal(s, i + 1);
    }
  }

  /** Where the opening at i ends, if there is one: the id is as long as possible. */
  function Opening(s: string, t: char, i: nat): (r: Option<nat>)
    ensures r.Some? ==> i + 4 < r.value <= |s|
  {
    if Header(s, t, i) && IdEnd(s, i + 4) > i + 4 then Some(IdEnd(s, i + 4)) else None
  }

  /** Where the complete mention at i ends, if there is one. */
  function Closing(s: string, t: char, i: nat): (r: Option<nat>)
    ensures r.Some? ==> Opening(s, t, i).Some? && Opening(s, t, i).value < r.value <= |s|
  {
    match Opening(s, t, i)
    case None => None
    case Some(j) =>
      if j == |s| then None
      else if s[j] == '>' then Some(j + 1)
      else
        var e := LabelEnd(s, j + 1);
        if e > j + 1 && e < |s| then Some(e + 1) else None
  }

  /** The first pattern matches at i exactly if the scanner finds an opening, and the longest match is its. */
  lemma OpeningIsLongestMatch(s: string, t: char, i: nat)
    ensures match Opening(s, t, i)
      case None => forall j: nat :: !OpeningMatches(s, t, i, j)
      case Some(e) => OpeningMatches(s, t, i, e) && forall j: nat :: OpeningMatches(s, t, i, j) ==> j <= e
    ensures Opening(s, t, i).Some? && Opening(s, t, i).value < |s| ==> !InId(s[Opening(s, t, i).value])
  {
    if Header(s, t, i) {
      IdEndIsMaximal(s, i + 4);
    }
  }

  lemma ClosingMatches(s: string, t: char, i: nat) returns (j: nat)
    requires Closing(s, t, i).Some?
    ensures Opening(s, t, i) == Some(j) && MentionMatches(s, t, i, j, Closing(s, t, i).value)
  {
    j := Opening(s, t, i).value;
    OpeningIsLongestMatch(s, t, i);
    LabelEndIsMaximal(s, j + 1);
  }

  /** The second pattern has at most one match at i, and it is the scanner's. */
  lemma ClosingIsTheMatch(s: string, t: char, i: nat, k: nat)
    ensures (exists j: nat :: MentionMatches(s, t, i, j, k)) <==> Closing(s, t, i) == Some(k)
    ensures forall j: nat :: MentionMatches(s, t, i, j, k) ==> Opening(s, t, i) == Some(j)
  {
    forall j: nat | MentionMatches(s, t, i, j, k)
      ensures Opening(s, t, i) == Some(j) && Closing(s, t, i) == Some(k)
    {
      OpeningIsLongestMatch(s, t, i);
      LabelEndIsMaximal(s, j + 1);
    }
    if Closing(s, t, i) == Some(k) {
      var j := ClosingMatches(s, t, i);
    }
  }

  function At(s: string, i: nat, j: nat): Mention
    requires i + 4 <= j <= |s|
  {
    Mention(s[i + 2], s[i + 4..j])
  }

  /** extract_mentions from position i on: re.findall goes on where a match ends. */
  function Extract(s: string, t: char, i: nat): seq<Mention>
    decreases |s| - i
  {
    if i >= |s| then []
    else match Opening(s, t, i)
      case Some(j) => [At(s, i, j)] + Extract(s, t, j)
      case None => Extract(s, t, i + 1)
  }

  function FoundAt(s: string, i: nat, j: nat, k: nat): Piece
    requires i + 4 <= j < k <= |s|
  {
    Found(At(s, i, j), if k == j + 1 then None else Some(s[j + 1..k - 1]))
  }

  /** How re.sub cuts the message from position i on. */
  function Pieces(s: string, t: char, i: nat): seq<Piece>
    decreases |s| - i
  {
    if i >= |s| then []
    else match Closing(s, t, i)
      case Some(k) =>
        var j := Opening(s, t, i).value;
        [FoundAt(s, i, j, k)] + Pieces(s, t, k)
      case None => [Text(s[i])] + Pieces(s, t, i + 1)
  }

  function Render(p: Piece, useLabel: bool): string {
    match p
    case Text(c) => [c]
    case Found(m, caption) => if useLabel && caption.Some? && caption.value != "" then caption.value else m.id
  }

  function RenderAll(pieces: seq<Piece>, useLabel: bool): string {
    if pieces == [] then "" else Render(pieces[0], useLabel) + RenderAll(pieces[1..], useLabel)
  }

  /** replace_mentions. */
  function Replace(s: string, t: char, useLabel: bool): string {
    RenderAll(Pieces(s, t, 0), useLabel)
  }

  /** The mentions replaced, in order. */
  function Substituted(pieces: seq<Piece>): seq<Mention> {
    if pieces == [] then []
    else (if pieces[0].Found? then [pieces[0].mention] else []) + Substituted(pieces[1..])
  }

  function Spell(p: Piece, t: char): string {
    match p
    case Text(c) => [c]
    case Found(m, caption) =>
      ['<', t, m.idType, ':'] + m.id + Ending(caption)
  }

  function SpellAll(pieces: seq<Piece>, t: char): string {
    if pieces == [] then "" else Spell(pieces[0], t) + SpellAll(pieces[1..], t)
  }

  lemma Prepend(p: Piece, rest: seq<Piece>, t: char)
    ensures Substituted([p] + rest) == (if p.Found? then [p.mention] else []) + Substituted(rest)
    ensures SpellAll([p] + rest, t) == Spell(p, t) + SpellAll(rest, t)
  {
  }

  lemma TextStep(s: string, t: char, i: nat)
    requires i < |s| && Closing(s, t, i).None?
    ensures Substituted(Pieces(s, t, i)) == Substituted(Pieces(s, t, i + 1))
    ensures SpellAll(Pieces(s, t, i), t) == [s[i]] + SpellAll(Pieces(s, t, i + 1), t)
  {
  }

  lemma FoundStep(s: string, t: char, i: nat)
    requires i < |s| && Closing(s, t, i).Some?
    ensures var j, k := Opening(s, t, i).value, Closing(s, t, i).value;
      && Substituted(Pieces(s, t, i)) == [At(s, i, j)] + Substituted(Pieces(s, t, k))
      && SpellAll(Pieces(s, t, i), t) == s[i..k] + SpellAll(Pieces(s, t, k), t)
  {
    var k := Closing(s, t, i).value;
    var j := ClosingMatches(s, t, i);
    Prepend(FoundAt(s, i, j, k), Pieces(s, t, k), t);
    SpellMention(s, t, i, j, k);
  }

  lemma SpellOneMore(s: string, t: char, i: nat, next: nat)
    requires i < |s| && next == Closing(s, t, i).GetOr(i + 1) && SpellAll(Pieces(s, t, next), t) == s[next..]
    ensures SpellAll(Pieces(s, t, i), t) == s[i..]
  {
    assert s[i..] == s[i..next] + s[next..];
    if Closing(s, t, i).Some? {
      FoundStep(s, t, i);
    } else {
      TextStep(s, t, i);
      assert s[i..next] == [s[i]];
    }
  }

  /** Nothing of the message is lost or made up: the pieces spell it exactly. */
  lemma {:induction false} PiecesSpellMessage(s: string, t: char, i: nat)
    requires i <= |s|
    ensures SpellAll(Pieces(s, t, i), t) == s[i..]
    decreases |s| - i
  {
    if i < |s| {
      var next := Closing(s, t, i).GetOr(i + 1);
      PiecesSpellMessage(s, t, next);
      SpellOneMore(s, t, i, next);
    }
  }

  lemma ThreeParts(s: string, i: nat, a: nat, b: nat, k: nat)
    requires i <= a <= b <= k <= |s|
    ensures s[i..k] == (s[i..a] + s[a..b]) + s[b..k]
  {
  }

  /** The end of a mention: the label, if any, and the closing bracket. */
  function Ending(caption: Option<string>): string {
    (if caption.Some? then ['|'] + caption.value else []) + ['>']
  }

  lemma EndingAt(s: string, t: char, i: nat, j: nat, k: nat)
    requires MentionMatches(s, t, i, j, k)
    ensures Ending(FoundAt(s, i, j, k).caption) == s[j..k]
  {
    if k == j + 1 {
      assert s[j..k] == ['>'];
    } else {
      assert s[j..k] == s[j..j + 1] + s[j + 1..k - 1] + s[k - 1..k];
      assert s[j..j + 1] == ['|'] && s[k - 1..k] == ['>'];
    }
  }

  lemma SpellMention(s: string, t: char, i: nat, j: nat, k: nat)
    requires MentionMatches(s, t, i, j, k)
    ensures Spell(FoundAt(s, i, j, k), t) == s[i..k]
  {
    ThreeParts(s, i, i + 4, j, k);
    assert s[i..i + 4] == ['<', t, s[i + 2], ':'];
    EndingAt(s, t, i, j, k);
  }

  // ---------------------------------------------------------------- what the replacement leaves

  predicate Mentionless(pieces: seq<Piece>) {
    forall p :: p in pieces ==> p.Text?
  }

  lemma RenderShorter(p: Piece, t: char, useLabel: bool)
    ensures if p.Text? then Render(p, useLabel) == Spell(p, t) else |Render(p, useLabel)| < |Spell(p, t)|
  {
  }

  /** Rendering shortens every mention and leaves the rest. */
  lemma {:induction false} RenderAllShorter(pieces: seq<Piece>, t: char, useLabel: bool)
    ensures |RenderAll(pieces, useLabel)| <= |SpellAll(pieces, t)|
    ensures Mentionless(pieces) ==> RenderAll(pieces, useLabel) == SpellAll(pieces, t)
    ensures !Mentionless(pieces) ==> |RenderAll(pieces, useLabel)| < |SpellAll(pieces, t)|
  {
    if pieces != [] {
      RenderShorter(pieces[0], t, useLabel);
      RenderAllShorter(pieces[1..], t, useLabel);
      assert Mentionless(pieces) <==> pieces[0].Text? && Mentionless(pieces[1..]);
    }
  }

  /** replace_mentions gives back the message itself exactly if it has no complete mention; else something
      shorter. */
  lemma UnchangedExactly(s: string, t: char, useLabel: bool)
    ensures Replace(s, t, useLabel) == s <==> Mentionless(Pieces(s, t, 0))
    ensures |Replace(s, t, useLabel)| <= |s|
  {
    PiecesSpellMessage(s, t, 0);
    RenderAllShorter(Pieces(s, t, 0), t, useLabel);
    assert s[0..] == s;
  }

  /** A message that is one mention with a label becomes the label, or the id if labels are not wanted. */
  lemma LabelReplacesMention(s: string, t: char, useLabel: bool, j: nat)
    requires MentionMatches(s, t, 0, j, |s|) && j + 1 < |s|
    ensures Replace(s, t, useLabel) == if useLabel then s[j + 1..|s| - 1] else s[4..j]
  {
    ClosingIsTheMatch(s, t, 0, |s|);
    var found := FoundAt(s, 0, j, |s|);
    assert Pieces(s, t, |s|) == [];
    assert Pieces(s, t, 0) == [found];
    assert RenderAll([found], useLabel) == Render(found, useLabel) + RenderAll([], useLabel) by {
      assert [found][1..] == [];
    }
  }

  // ---------------------------------------------------------------- the scanners agree

  lemma SubsequenceSkip<T>(a: seq<T>, b: seq<T>, x: T)
    requires Subsequence(a, b)
    ensures Subsequence(a, [x] + b) && Subsequence([x] + a, [x] + b)
  {
  }

  /** Inside an opening that is not completed to a mention, no mention can begin: either the inner header
      lies within the id, and both ids end at the same place; or it straddles that end, so that the trigger is
      the bar there, and the bracket closing the inner mention would close the outer one too. */
  lemma NoMentionInsideBrokenOpening(s: string, t: char, i: nat, m: nat)
    requires t != '>' && Opening(s, t, i).Some? && Closing(s, t, i).None?
    requires i < m < Opening(s, t, i).value
    ensures Closing(s, t, m).None?
  {
    var j := Opening(s, t, i).value;
    OpeningIsLongestMatch(s, t, i);
    if Closing(s, t, m).Some? {
      var n := ClosingMatches(s, t, m);
      var k := Closing(s, t, m).value;
      if m + 4 <= j {
        OpeningIsLongestMatch(s, t, m);
      } else {
        LabelEndIsMaximal(s, j + 1);
      }
    }
  }

  /** What does not change from step to step does not change. */
  lemma {:induction false} Unchanging<A(!new)>(f: nat -> A, m: nat, j: nat)
    requires m <= j && forall n: nat :: m <= n < j ==> f(n) == f(n + 1)
    ensures f(m) == f(j)
    decreases j - m
  {
    if m < j {
      Unchanging(f, m + 1, j);
    }
  }

  lemma NothingMentionedAt(s: string, t: char, i: nat, m: nat)
    requires t != '>' && Opening(s, t, i).Some? && Closing(s, t, i).None? && i <= m < Opening(s, t, i).value
    ensures Closing(s, t, m).None?
  {
    if m > i {
      NoMentionInsideBrokenOpening(s, t, i, m);
    }
  }

  lemma SkipOne(s: string, t: char, i: nat, m: nat)
    requires t != '>' && Opening(s, t, i).Some? && Closing(s, t, i).None? && i <= m < Opening(s, t, i).value
    ensures Substituted(Pieces(s, t, m)) == Substituted(Pieces(s, t, m + 1))
  {
    NothingMentionedAt(s, t, i, m);
    TextStep(s, t, m);
  }

  /** So the pieces from i on are plain text up to the end of the broken opening. */
  lemma SkipBrokenOpening(s: string, t: char, i: nat)
    requires t != '>' && Opening(s, t, i).Some? && Closing(s, t, i).None?
    ensures Substituted(Pieces(s, t, i)) == Substituted(Pieces(s, t, Opening(s, t, i).value))
  {
    var f := (n: nat) => Substituted(Pieces(s, t, n));
    var j := Opening(s, t, i).value;
    forall m: nat | i <= m < j
      ensures f(m) == f(m + 1)
    {
      SkipOne(s, t, i, m);
    }
    Unchanging(f, i, j);
  }

  lemma ExtractStep(s: string, t: char, i: nat)
    requires i < |s|
    ensures Opening(s, t, i).None? ==> Extract(s, t, i) == Extract(s, t, i + 1) && Closing(s, t, i).None?
    ensures Opening(s, t, i).Some? ==>
      var j := Opening(s, t, i).value; Extract(s, t, i) == [At(s, i, j)] + Extract(s, t, j)
  {
  }

  /** Where the substitution goes on when the findall scanner has just found an opening at i, and what it
      has substituted meanwhile. */
  lemma AfterOpening(s: string, t: char, i: nat, p: nat) returns (q: nat)
    requires t != '>' && i <= p <= |s| && (i == p || s[p - 1] == '>') && Opening(s, t, i).Some?
    ensures var j := Opening(s, t, i).value;
      && j <= q <= |s| && (j == q || s[q - 1] == '>')
      && (Substituted(Pieces(s, t, p)) == Substituted(Pieces(s, t, q))
          || Substituted(Pieces(s, t, p)) == [At(s, i, j)] + Substituted(Pieces(s, t, q)))
  {
    var j := Opening(s, t, i).value;
    OpeningIsLongestMatch(s, t, i);
    if i < p {
      q := p;
    } else if Closing(s, t, i).Some? {
      q := Closing(s, t, i).value;
      var _ := ClosingMatches(s, t, i);
      FoundStep(s, t, i);
    } else {
      q := j;
      SkipBrokenOpening(s, t, i);
    }
  }

  /** The findall scanner may lag behind, inside the label of a mention just replaced (which ends with a
      closing bracket); it never runs past that bracket. */
  lemma {:induction false} ScannersAgreeFrom(s: string, t: char, i: nat, p: nat)
    requires t != '>' && i <= p <= |s| && (i == p || s[p - 1] == '>')
    ensures Subsequence(Substituted(Pieces(s, t, p)), Extract(s, t, i))
    decreases |s| - i
  {
    if i < |s| {
      ExtractStep(s, t, i);
      if Opening(s, t, i).Some? {
        var j := Opening(s, t, i).value;
        var q := AfterOpening(s, t, i, p);
        ScannersAgreeFrom(s, t, j, q);
        SubsequenceSkip(Substituted(Pieces(s, t, q)), Extract(s, t, j), At(s, i, j));
      } else if i < p {
        ScannersAgreeFrom(s, t, i + 1, p);
      } else {
        TextStep(s, t, p);
        ScannersAgreeFrom(s, t, i + 1, p + 1);
      }
    }
  }

  ghost predicate Agree(s: string, t: char) {
    Subsequence(Substituted(Pieces(s, t, 0)), Extract(s, t, 0))
  }

  const BRACKETS := "<>M:a|<>U:<>V:c>"

  lemma SecondMention(s: string)
    requires s == BRACKETS
    ensures Opening(s, '>', 10) == Some(15) && Closing(s, '>', 10) == Some(16)
  {
    assert IdEnd(s, 15) == 15 && IdEnd(s, 14) == 15;
  }

  lemma ReplacedInBracketsTail(s: string)
    requires s == BRACKETS
    ensures Substituted(Pieces(s, '>', 8)) == [Mention('V', s[14..15])]
  {
    SecondMention(s);
    TextStep(s, '>', 8);
    TextStep(s, '>', 9);
    FoundStep(s, '>', 10);
    assert Pieces(s, '>', 16) == [];
  }

  lemma FirstMention(s: string)
    requires s == BRACKETS
    ensures Opening(s, '>', 0) == Some(5) && Closing(s, '>', 0) == Some(8)
  {
    assert IdEnd(s, 5) == 5 && IdEnd(s, 4) == 5;
    assert LabelEnd(s, 7) == 7 && LabelEnd(s, 6) == 7;
  }

  lemma ReplacedInBrackets(s: string)
    requires s == BRACKETS
    ensures Substituted(Pieces(s, '>', 0)) == [Mention('M', s[4..5]), Mention('V', s[14..15])]
  {
    FirstMention(s);
    FoundStep(s, '>', 0);
    ReplacedInBracketsTail(s);
  }

  lemma NoMoreFound(s: string)
    requires s == BRACKETS
    ensures Extract(s, '>', 11) == []
  {
    assert Opening(s, '>', 11) == None && Opening(s, '>', 12) == None && Opening(s, '>', 13) == None;
    ExtractStep(s, '>', 11);
    ExtractStep(s, '>', 12);
    ExtractStep(s, '>', 13);
    assert Extract(s, '>', 14) == Extract(s, '>', 15) == Extract(s, '>', 16) == [];
  }

  lemma FoundInBrackets(s: string)
    requires s == BRACKETS
    ensures Extract(s, '>', 0) == [Mention('M', s[4..5]), Mention('U', s[10..11])]
  {
    FirstMention(s);
    assert IdEnd(s, 11) == 11 && IdEnd(s, 10) == 11;
    assert Opening(s, '>', 6) == Some(11) && Opening(s, '>', 5) == None;
    NoMoreFound(s);
    ExtractStep(s, '>', 0);
    ExtractStep(s, '>', 5);
    ExtractStep(s, '>', 6);
  }

  /** With the closing bracket as trigger, an opening in the label swallows the start of the next mention. */
  lemma BracketTriggerDisagrees()
    ensures !Agree(BRACKETS, '>')
  {
    var s := BRACKETS;
    ReplacedInBrackets(s);
    FoundInBrackets(s);
    var a, c, u := Mention('M', s[4..5]), Mention('V', s[14..15]), Mention('U', s[10..11]);
    assert [a, u][1..] == [u] && [a, c][1..] == [c] && [u][1..] == [];
    assert !Subsequence([a, c], [u]) && !Subsequence([c], [u]);
  }

  /** For a single trigger character, the mentions replaced are among the mentions found, in the same order, in
      every message, exactly if the trigger is not the closing bracket. */
  lemma ScannersAgreeExactly(t: char)
    ensures (forall s: string :: Agree(s, t)) <==> t != '>'
  {
    if t != '>' {
      forall s: string
        ensures Agree(s, t)
      {
        ScannersAgreeFrom(s, t, 0, 0);
      }
    } else {
      BracketTriggerDisagrees();
    }
  }
}
