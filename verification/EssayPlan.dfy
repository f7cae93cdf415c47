/**
 How an essay is cut into pieces that are typed or pasted, and how the pieces and the chats of the essay task are
 lined up.  Every cut spells the text; every chat and every piece is placed exactly once, in order.
 */
module EssayPlan {
  import opened Common

  /** Part of a text: typed, or pasted from a chat. */
  datatype Piece = Typed(text: string) | Pasted(text: string)

  function Spell(pieces: seq<Piece>): string {
    if pieces == [] then "" else pieces[0].text + Spell(pieces[1..])
  }

  lemma {:induction false} SpellConcat(a: seq<Piece>, b: seq<Piece>)
    ensures Spell(a + b) == Spell(a) + Spell(b)
  {
    if a == [] {
      assert a + b == b;
    } else {
      SpellConcat(a[1..], b);
      Uncons(a, b);
      Assoc(a[0].text, Spell(a[1..]), Spell(b));
    }
  }

  // ---------------------------------------------------------------- finding and splitting

  predicate At(s: string, p: string, i: nat) {
    i + |p| <= |s| && s[i..i + |p|] == p
  }

  /** str.find from a position on: the lowest index where p stands. */
  function FindFrom(s: string, p: string, i: nat): (r: Option<nat>)
    requires i <= |s|
    ensures r.Some? ==> At(s, p, r.value)
    decreases |s| - i
  {
    if At(s, p, i) then Some(i)
    else if i == |s| then None
    else FindFrom(s, p, i + 1)
  }

  lemma {:induction false} FindsLowest(s: string, p: string, i: nat, j: nat)
    requires i <= |s| && i <= j && At(s, p, j)
    ensures FindFrom(s, p, i).Some? && i <= FindFrom(s, p, i).value <= j
    decreases |s| - i
  {
    if !At(s, p, i) {
      FindsLowest(s, p, i + 1, j);
    }
  }

  function Find(s: string, p: string): (r: Option<nat>)
    ensures r.Some? ==> At(s, p, r.value)
  {
    FindFrom(s, p, 0)
  }

  lemma FindIs(s: string, p: string, i: nat)
    requires At(s, p, i) && forall j: nat :: j < i ==> !At(s, p, j)
    ensures Find(s, p) == Some(i)
  {
    FindsLowest(s, p, 0, i);
  }

  lemma FindIsNone(s: string, p: string)
    requires forall j: nat :: !At(s, p, j)
    ensures Find(s, p) == None
  {
  }

  lemma NeverThere(s: string, p: string)
    requires Find(s, p).None?
    ensures forall j: nat :: !At(s, p, j)
  {
    forall j: nat
      ensures !At(s, p, j)
    {
      if At(s, p, j) {
        FindsLowest(s, p, 0, j);
      }
    }
  }

  function TypedUnlessEmpty(s: string): seq<Piece> {
    if s == "" then [] else [Typed(s)]
  }

  function PastesOf(pieces: seq<Piece>): seq<string> {
    if pieces == [] then []
    else (if pieces[0].Pasted? then [pieces[0].text] else []) + PastesOf(pieces[1..])
  }

  lemma {:induction false} PastesOfConcat(a: seq<Piece>, b: seq<Piece>)
    ensures PastesOf(a + b) == PastesOf(a) + PastesOf(b)
  {
    if a == [] {
      assert a + b == b;
    } else {
      PastesOfConcat(a[1..], b);
      Uncons(a, b);
      Assoc(if a[0].Pasted? then [a[0].text] else [], PastesOf(a[1..]), PastesOf(b));
    }
  }

  /** The segments made so far and the rest of the text. */
  datatype Progress = Progress(segments: seq<Piece>, rest: string)

  /** What the next paste adds to the segments. */
  function Cut(rest: string, paste: string, i: nat): seq<Piece>
    requires i <= |rest|
  {
    TypedUnlessEmpty(rest[..i]) + [Pasted(paste)]
  }

  /** A paste that is not found in the rest is passed over; else it is cut out where it stands first. */
  function Step(p: Progress, paste: string): Progress {
    match Find(p.rest, paste)
    case None => p
    case Some(i) => Progress(p.segments + Cut(p.rest, paste, i), p.rest[i + |paste|..])
  }

  function ProgressAfter(text: string, pastes: seq<string>): Progress {
    if pastes == [] then Progress([], text) else Step(ProgressAfter(text, pastes[..|pastes| - 1]), pastes[|pastes| - 1])
  }

  function Split(text: string, pastes: seq<string>): seq<Piece> {
    ProgressAfter(text, pastes).segments + TypedUnlessEmpty(ProgressAfter(text, pastes).rest)
  }

  /** split_segments */
  method SplitSegments(text: string, pastes: seq<string>) returns (segments: seq<Piece>)
    ensures segments == Split(text, pastes)
  {
    segments := [];
    var rest := text;
    for k := 0 to |pastes|
      invariant Progress(segments, rest) == ProgressAfter(text, pastes[..k])
    {
      var paste := pastes[k];
      var index := Find(rest, paste);
      assert pastes[..k + 1][..k] == pastes[..k];
      if index.Some? {
        var cut := [Pasted(paste)];
        if index.value > 0 {
          cut := [Typed(rest[..index.value])] + cut;
        }
        assert cut == Cut(rest, paste, index.value);
        segments := segments + cut;
        rest := rest[index.value + |paste|..];
      }
    }
    assert pastes[..|pastes|] == pastes;
    if rest != "" {
      segments := segments + [Typed(rest)];
    }
  }

  lemma SpellUnlessEmpty(text: string)
    ensures Spell(TypedUnlessEmpty(text)) == text && PastesOf(TypedUnlessEmpty(text)) == []
  {
  }

  lemma CutSpells(rest: string, paste: string, i: nat)
    requires At(rest, paste, i)
    ensures Spell(Cut(rest, paste, i)) == rest[..i + |paste|] && PastesOf(Cut(rest, paste, i)) == [paste]
  {
    SpellConcat(TypedUnlessEmpty(rest[..i]), [Pasted(paste)]);
    PastesOfConcat(TypedUnlessEmpty(rest[..i]), [Pasted(paste)]);
    assert Spell([Pasted(paste)]) == paste + "" == paste;
    SpellUnlessEmpty(rest[..i]);
    assert rest[..i + |paste|] == rest[..i] + rest[i..i + |paste|];
  }

  /** Segments and rest spell the text; the pasted segments are some of the pastes, in their order. */
  ghost predicate Faithful(p: Progress, text: string, pastes: seq<string>) {
    Spell(p.segments) + p.rest == text && Subsequence(PastesOf(p.segments), pastes)
  }

  lemma CutKeepsText(p: Progress, paste: string, i: nat)
    requires At(p.rest, paste, i)
    ensures Spell(p.segments + Cut(p.rest, paste, i)) + p.rest[i + |paste|..] == Spell(p.segments) + p.rest
  {
    var cut, rest := Cut(p.rest, paste, i), p.rest[i + |paste|..];
    SpellConcat(p.segments, cut);
    CutSpells(p.rest, paste, i);
    Assoc(Spell(p.segments), Spell(cut), rest);
    assert p.rest == p.rest[..i + |paste|] + rest;
  }

  lemma CutAddsPaste(p: Progress, paste: string, i: nat)
    requires At(p.rest, paste, i)
    ensures PastesOf(p.segments + Cut(p.rest, paste, i)) == PastesOf(p.segments) + [paste]
  {
    PastesOfConcat(p.segments, Cut(p.rest, paste, i));
    CutSpells(p.rest, paste, i);
  }

  lemma StepKeepsFaithful(p: Progress, text: string, pastes: seq<string>, paste: string)
    requires Faithful(p, text, pastes)
    ensures Faithful(Step(p, paste), text, pastes + [paste])
  {
    SubsequenceAppend(PastesOf(p.segments), pastes, paste);
    match Find(p.rest, paste)
    case None =>
    case Some(i) =>
      CutKeepsText(p, paste, i);
      CutAddsPaste(p, paste, i);
  }

  lemma {:induction false} ProgressFaithful(text: string, pastes: seq<string>)
    ensures Faithful(ProgressAfter(text, pastes), text, pastes)
  {
    if pastes == [] {
      assert "" + text == text;
    } else {
      var init, last := pastes[..|pastes| - 1], pastes[|pastes| - 1];
      ProgressFaithful(text, init);
      StepKeepsFaithful(ProgressAfter(text, init), text, init, last);
      assert init + [last] == pastes;
    }
  }

  /** The segments spell the text; the pasted ones are some of the pastes, in their order. */
  lemma SplitSpells(text: string, pastes: seq<string>)
    ensures Spell(Split(text, pastes)) == text
    ensures Subsequence(PastesOf(Split(text, pastes)), pastes)
  {
    var p := ProgressAfter(text, pastes);
    ProgressFaithful(text, pastes);
    SpellConcat(p.segments, TypedUnlessEmpty(p.rest));
    PastesOfConcat(p.segments, TypedUnlessEmpty(p.rest));
    SpellUnlessEmpty(p.rest);
    assert PastesOf(p.segments) + [] == PastesOf(p.segments);
  }

  // ---------------------------------------------------------------- paragraphs

  const BREAK: string := "\n\n"

  /** value.split('\n\n') */
  function Parts(s: string): (parts: seq<string>)
    ensures parts != []
    decreases |s|
  {
    match Find(s, BREAK)
    case None => [s]
    case Some(i) => [s[..i]] + Parts(s[i + 2..])
  }

  /** The pieces of a typed segment: its paragraphs, each with the break that ends it. */
  function Chunks(s: string): seq<Piece>
    decreases |s|
  {
    match Find(s, BREAK)
    case None => TypedUnlessEmpty(s)
    case Some(i) => [Typed(s[..i] + BREAK)] + Chunks(s[i + 2..])
  }

  /** A typed piece holds a paragraph break at its very end or nowhere. */
  ghost predicate OneParagraph(text: string) {
    text != "" && forall j: nat :: At(text, BREAK, j) ==> j == |text| - 2
  }

  lemma PartIsOneParagraph(s: string, i: nat)
    requires Find(s, BREAK) == Some(i)
    ensures OneParagraph(s[..i] + BREAK)
  {
    var chunk := s[..i] + BREAK;
    assert chunk == s[..i + 2];
    forall j: nat | At(chunk, BREAK, j)
      ensures j == |chunk| - 2
    {
      assert chunk[j..j + 2] == s[j..j + 2];
      assert At(s, BREAK, j);
      FindsLowest(s, BREAK, 0, j);
    }
  }

  lemma {:induction false} ChunksSpell(s: string)
    ensures Spell(Chunks(s)) == s
    ensures forall c :: c in Chunks(s) ==> c.Typed? && OneParagraph(c.text)
    decreases |s|
  {
    match Find(s, BREAK)
    case None =>
      forall c | c in Chunks(s)
        ensures c.Typed? && OneParagraph(c.text)
      {
        assert c == Typed(s);
        NeverThere(s, BREAK);
      }
    case Some(i) =>
      ChunksSpell(s[i + 2..]);
      PartIsOneParagraph(s, i);
      assert s == s[..i] + BREAK + s[i + 2..];
  }

  lemma ChunksStep(rest: string)
    ensures var parts := Parts(rest);
      if |parts| == 1 then parts[0] == rest && Chunks(rest) == TypedUnlessEmpty(rest)
      else
        var gap := Find(rest, BREAK);
        && gap.Some? && parts == [rest[..gap.value]] + Parts(rest[gap.value + 2..])
        && Chunks(rest) == [Typed(parts[0] + BREAK)] + Chunks(rest[gap.value + 2..])
  {
  }

  /** The inner loop over the paragraphs of a typed segment. */
  method TypedPieces(value: string) returns (pieces: seq<Piece>)
    ensures pieces == Chunks(value)
  {
    var parts := Parts(value);
    pieces := [];
    ghost var rest := value;
    for index := 0 to |parts|
      invariant index < |parts| ==> parts[index..] == Parts(rest)
      invariant pieces + (if index < |parts| then Chunks(rest) else []) == Chunks(value)
    {
      var part := parts[index];
      var chunk := part + (if index < |parts| - 1 then BREAK else "");
      ChunksStep(rest);
      assert parts[index..][0] == part;
      if index < |parts| - 1 {
        ghost var i := Find(rest, BREAK).value;
        assert parts[index..][1..] == parts[index + 1..];
        Assoc(pieces, [Typed(chunk)], Chunks(rest[i + 2..]));
        rest := rest[i + 2..];
      } else {
        assert chunk == rest;
      }
      if chunk != "" {
        pieces := pieces + [Typed(chunk)];
      }
    }
  }

  function SegmentPieces(segment: Piece): seq<Piece> {
    if segment.Pasted? then [segment] else Chunks(segment.text)
  }

  function AllChunks(segments: seq<Piece>): seq<Piece> {
    if segments == [] then [] else SegmentPieces(segments[0]) + AllChunks(segments[1..])
  }

  /** The loop over the segments. */
  method MakePieces(segments: seq<Piece>) returns (pieces: seq<Piece>)
    ensures pieces == AllChunks(segments)
  {
    pieces := [];
    for k := 0 to |segments|
      invariant pieces + AllChunks(segments[k..]) == AllChunks(segments)
    {
      assert segments[k..][0] == segments[k] && segments[k..][1..] == segments[k + 1..];
      var more := [segments[k]];
      if segments[k].Typed? {
        more := TypedPieces(segments[k].text);
      }
      Assoc(pieces, more, AllChunks(segments[k + 1..]));
      pieces := pieces + more;
    }
    assert segments[|segments|..] == [];
  }

  lemma {:induction false} TypedHasNoPastes(pieces: seq<Piece>)
    requires forall c :: c in pieces ==> c.Typed?
    ensures PastesOf(pieces) == []
  {
    if pieces != [] {
      assert pieces[0] in pieces;
      TypedHasNoPastes(pieces[1..]);
    }
  }

  /** The pieces spell what the segments spell, and the pasted ones are left whole. */
  lemma {:induction false} PiecesSpell(segments: seq<Piece>)
    ensures Spell(AllChunks(segments)) == Spell(segments)
    ensures PastesOf(AllChunks(segments)) == PastesOf(segments)
  {
    if segments != [] {
      var first := SegmentPieces(segments[0]);
      PiecesSpell(segments[1..]);
      SpellConcat(first, AllChunks(segments[1..]));
      PastesOfConcat(first, AllChunks(segments[1..]));
      SegmentSpells(segments[0]);
    }
  }

  lemma SegmentSpells(segment: Piece)
    ensures Spell(SegmentPieces(segment)) == segment.text
    ensures PastesOf(SegmentPieces(segment)) == if segment.Pasted? then [segment.text] else []
  {
    if segment.Typed? {
      ChunksSpell(segment.text);
      TypedHasNoPastes(Chunks(segment.text));
    } else {
      assert Spell([segment]) == segment.text + "" == segment.text;
    }
  }

  lemma {:induction false} TypedPiecesAreParagraphs(segments: seq<Piece>, c: Piece)
    requires c in AllChunks(segments) && c.Typed?
    ensures OneParagraph(c.text)
  {
    if c in SegmentPieces(segments[0]) {
      ChunksSpell(segments[0].text);
    } else {
      TypedPiecesAreParagraphs(segments[1..], c);
    }
  }
}
