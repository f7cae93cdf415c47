/**
 Where the chats of an essay task go between its pieces: each chat gets a slot, slots are pushed so that they
 never decrease, and the operations are lined up by slot.
 */
module EssayOrder {
  import opened Common
  import opened EssayPlan
  import opened Typing

  /** A chat of the essay task with the text that is pasted from its answer; "" if nothing is. */
  datatype Chat = Chat(paste: string)

  datatype Op =
    | Ask(chat: nat)
    | Write(text: string, keys: seq<Key>, duration: int)
    | Insert(text: string)
    | Extra

  // ---------------------------------------------------------------- slots

  /** Python's round of a quotient: to the nearest, halves to even. */
  function Round(n: nat, d: nat): (r: nat)
    requires d > 0
    ensures 2 * r * d <= 2 * n + d && 2 * n <= 2 * r * d + d
  {
    var q, rem := n / d, n % d;
    assert n == q * d + rem;
    assert 2 * (q + 1) * d == 2 * (q * d) + 2 * d && 2 * q * d == 2 * (q * d);
    if 2 * rem < d || (2 * rem == d && q % 2 == 0) then q else q + 1
  }

  function IndexOf(pieces: seq<Piece>, p: Piece): (r: nat)
    ensures r <= |pieces| && (r == |pieces| <==> p !in pieces)
    ensures r < |pieces| ==> pieces[r] == p && p !in pieces[..r]
  {
    if pieces == [] then 0
    else if pieces[0] == p then 0
    else
      var rest := IndexOf(pieces[1..], p);
      assert p in pieces <==> p in pieces[1..];
      assert rest < |pieces| - 1 ==> pieces[..1 + rest] == [pieces[0]] + pieces[1..][..rest];
      1 + rest
  }

  predicate Missing(chats: seq<Chat>, pieces: seq<Piece>, i: nat)
    requires i < |chats|
  {
    chats[i].paste != "" && Pasted(chats[i].paste) !in pieces
  }

  /** The slot a chat asks for. */
  function Wanted(chats: seq<Chat>, pieces: seq<Piece>, i: nat): nat
    requires i < |chats|
  {
    if chats[i].paste != "" then IndexOf(pieces, Pasted(chats[i].paste))
    else if i == 0 then 0
    else Round(i * |pieces|, |chats| + 1)
  }

  lemma SpreadFits(i: nat, p: nat, c: nat)
    requires i < c
    ensures Round(i * p, c + 1) <= p
  {
    var r, d := Round(i * p, c + 1), c + 1;
    if r > p {
      Times(i, d - 2, p);
      Times(p + 1, r, d);
      assert (d - 2) * p == d * p - 2 * p;
      assert d * (p + 1) == d * p + d;
      TwiceTimes(r, d);
    }
  }

  lemma Times(a: int, b: int, k: nat)
    requires a <= b
    ensures a * k <= b * k && k * a <= k * b
  {
  }

  lemma TwiceTimes(r: int, d: int)
    ensures 2 * r * d == 2 * (r * d) && r * d == d * r
  {
  }

  lemma WantedFits(chats: seq<Chat>, pieces: seq<Piece>, i: nat)
    requires i < |chats|
    ensures Wanted(chats, pieces, i) <= |pieces|
  {
    SpreadFits(i, |pieces|, |chats|);
  }

  /** v is the largest slot asked for up to i. */
  ghost predicate IsTop(v: nat, chats: seq<Chat>, pieces: seq<Piece>, i: nat)
    requires i < |chats|
  {
    && (forall j :: 0 <= j <= i ==> Wanted(chats, pieces, j) <= v)
    && (exists j :: 0 <= j <= i && v == Wanted(chats, pieces, j))
  }

  /** The first n slots have been pushed. */
  ghost predicate Pushed(slots: seq<nat>, chats: seq<Chat>, pieces: seq<Piece>, n: nat)
    requires n <= |slots| == |chats|
  {
    forall i :: 0 <= i < n ==> IsTop(slots[i], chats, pieces, i)
  }

  method MakeSlots(chats: seq<Chat>, pieces: seq<Piece>) returns (r: Option<seq<nat>>)
    ensures r.None? <==> exists i :: 0 <= i < |chats| && Missing(chats, pieces, i)
    ensures r.Some? ==> |r.value| == |chats| && Pushed(r.value, chats, pieces, |chats|)
  {
    var slots: seq<nat> := [];
    for index := 0 to |chats|
      invariant |slots| == index && forall i :: 0 <= i < index ==> !Missing(chats, pieces, i) && slots[i] == Wanted(chats, pieces, i)
    {
      if Missing(chats, pieces, index) {
        return None;
      }
      slots := slots + [Wanted(chats, pieces, index)];
    }
    var i := 1;
    while i < |slots|
      invariant 1 <= i && (i <= |slots| || |slots| == 0) && |slots| == |chats|
      invariant Pushed(slots, chats, pieces, if i <= |slots| then i else |slots|)
      invariant forall j :: i <= j < |slots| ==> slots[j] == Wanted(chats, pieces, j)
    {
      ghost var before := slots;
      slots := slots[i := if slots[i] >= slots[i - 1] then slots[i] else slots[i - 1]];
      PushOne(before, slots, chats, pieces, i);
      i := i + 1;
    }
    return Some(slots);
  }

  lemma TopNext(v: nat, chats: seq<Chat>, pieces: seq<Piece>, i: nat)
    requires 0 < i < |chats| && IsTop(v, chats, pieces, i - 1)
    ensures IsTop(if Wanted(chats, pieces, i) >= v then Wanted(chats, pieces, i) else v, chats, pieces, i)
  {
  }

  lemma PushOne(before: seq<nat>, slots: seq<nat>, chats: seq<Chat>, pieces: seq<Piece>, i: nat)
    requires 1 <= i < |before| == |chats| && Pushed(before, chats, pieces, i)
    requires before[i] == Wanted(chats, pieces, i)
    requires slots == before[i := if before[i] >= before[i - 1] then before[i] else before[i - 1]]
    ensures Pushed(slots, chats, pieces, i + 1)
  {
    TopNext(before[i - 1], chats, pieces, i);
  }

  ghost predicate Rising(slots: seq<nat>, bound: nat) {
    && (forall i, j :: 0 <= i < j < |slots| ==> slots[i] <= slots[j])
    && forall i :: 0 <= i < |slots| ==> slots[i] <= bound
  }

  lemma TopsRise(v: nat, w: nat, chats: seq<Chat>, pieces: seq<Piece>, i: nat, j: nat)
    requires i <= j < |chats| && IsTop(v, chats, pieces, i) && IsTop(w, chats, pieces, j)
    ensures v <= w <= |pieces|
  {
    var k :| 0 <= k <= i && v == Wanted(chats, pieces, k);
    var m :| 0 <= m <= j && w == Wanted(chats, pieces, m);
    WantedFits(chats, pieces, m);
  }

  lemma PushedRises(slots: seq<nat>, chats: seq<Chat>, pieces: seq<Piece>)
    requires |slots| == |chats| && Pushed(slots, chats, pieces, |chats|)
    ensures Rising(slots, |pieces|)
  {
    forall i, j | 0 <= i <= j < |slots|
      ensures slots[i] <= slots[j] <= |pieces|
    {
      TopsRise(slots[i], slots[j], chats, pieces, i, j);
    }
  }

  // ---------------------------------------------------------------- lining up

  function Range(n: nat): seq<nat> {
    seq(n, i => i)
  }

  function ChatsIn(ops: seq<Op>): seq<nat> {
    if ops == [] then []
    else ChatsIn(ops[..|ops| - 1]) + (if ops[|ops| - 1].Ask? then [ops[|ops| - 1].chat] else [])
  }

  function PieceOf(op: Op): seq<Piece> {
    match op
    case Write(text, _, _) => [Typed(text)]
    case Insert(text) => [Pasted(text)]
    case _ => []
  }

  function PiecesIn(ops: seq<Op>): seq<Piece> {
    if ops == [] then [] else PiecesIn(ops[..|ops| - 1]) + PieceOf(ops[|ops| - 1])
  }

  lemma OneMore(ops: seq<Op>, op: Op)
    ensures ChatsIn(ops + [op]) == ChatsIn(ops) + (if op.Ask? then [op.chat] else [])
    ensures PiecesIn(ops + [op]) == PiecesIn(ops) + PieceOf(op)
  {
  }

  lemma {:induction false} ChatsConcat(a: seq<Op>, b: seq<Op>)
    ensures ChatsIn(a + b) == ChatsIn(a) + ChatsIn(b)
    decreases |b|
  {
    if b == [] {
      assert a + b == a && ChatsIn(a) + [] == ChatsIn(a);
    } else {
      var init, last := b[..|b| - 1], b[|b| - 1];
      ChatsConcat(a, init);
      AppendLast(a, b);
      OneMore(a + init, last);
      Assoc(ChatsIn(a), ChatsIn(init), if last.Ask? then [last.chat] else []);
    }
  }

  lemma {:induction false} PiecesConcat(a: seq<Op>, b: seq<Op>)
    ensures PiecesIn(a + b) == PiecesIn(a) + PiecesIn(b)
    decreases |b|
  {
    if b == [] {
      assert a + b == a && PiecesIn(a) + [] == PiecesIn(a);
    } else {
      var init, last := b[..|b| - 1], b[|b| - 1];
      PiecesConcat(a, init);
      AppendLast(a, b);
      OneMore(a + init, last);
      Assoc(PiecesIn(a), PiecesIn(init), PieceOf(last));
    }
  }

  lemma AppendLast(a: seq<Op>, b: seq<Op>)
    requires b != []
    ensures a + b == (a + b[..|b| - 1]) + [b[|b| - 1]]
  {
  }

  /** Every typed piece carries a plan that types it. */
  ghost predicate Planned(op: Op) {
    op.Write? ==> Types(op.keys, op.text) && Timed(op.keys, op.duration) && op.duration >= 200
  }

  /** Number of slots below k, for slots that never decrease. */
  function Below(slots: seq<nat>, k: nat): (n: nat)
    ensures n <= |slots|
  {
    if slots == [] then 0
    else if slots[|slots| - 1] < k then |slots|
    else Below(slots[..|slots| - 1], k)
  }

  lemma {:induction false} BelowExactly(slots: seq<nat>, k: nat, bound: nat)
    requires Rising(slots, bound)
    ensures forall i :: 0 <= i < |slots| ==> (slots[i] < k <==> i < Below(slots, k))
  {
    if slots != [] && slots[|slots| - 1] >= k {
      var init := slots[..|slots| - 1];
      BelowExactly(init, k, bound);
      assert forall i :: 0 <= i < |init| ==> init[i] == slots[i];
    }
  }

  lemma {:induction false} BelowGrows(slots: seq<nat>, k: nat)
    ensures Below(slots, k) <= Below(slots, k + 1)
  {
    if slots != [] {
      BelowGrows(slots[..|slots| - 1], k);
    }
  }

  /** Piece i stands at c, behind the pieces before it and exactly the first chats. */
  ghost predicate StandsAt(ops: seq<Op>, c: nat, i: nat, first: nat, pieces: seq<Piece>)
    requires i < |pieces|
  {
    && c < |ops| && PieceOf(ops[c]) == [pieces[i]]
    && PiecesIn(ops[..c]) == pieces[..i] && ChatsIn(ops[..c]) == Range(first)
  }

  /** cuts[i] is where piece i stands; before it come exactly the chats whose slot is at most i. */
  ghost predicate Placed(ops: seq<Op>, cuts: seq<nat>, slots: seq<nat>, pieces: seq<Piece>)
    requires |cuts| <= |pieces|
  {
    forall i :: 0 <= i < |cuts| ==> StandsAt(ops, cuts[i], i, Below(slots, i + 1), pieces)
  }

  lemma StandsExtend(ops: seq<Op>, r: seq<Op>, c: nat, i: nat, first: nat, pieces: seq<Piece>)
    requires i < |pieces| && StandsAt(ops, c, i, first, pieces) && ops <= r
    ensures StandsAt(r, c, i, first, pieces)
  {
    assert r[..c] == ops[..c];
  }

  lemma PlacedExtend(ops: seq<Op>, r: seq<Op>, cuts: seq<nat>, slots: seq<nat>, pieces: seq<Piece>)
    requires |cuts| <= |pieces| && Placed(ops, cuts, slots, pieces) && ops <= r
    ensures Placed(r, cuts, slots, pieces)
  {
    forall i | 0 <= i < |cuts|
      ensures StandsAt(r, cuts[i], i, Below(slots, i + 1), pieces)
    {
      StandsExtend(ops, r, cuts[i], i, Below(slots, i + 1), pieces);
    }
  }

  lemma PlacedNext(ops: seq<Op>, op: Op, cuts: seq<nat>, slots: seq<nat>, pieces: seq<Piece>)
    requires |cuts| < |pieces| && Placed(ops, cuts, slots, pieces)
    requires PieceOf(op) == [pieces[|cuts|]] && ChatsIn(ops) == Range(Below(slots, |cuts| + 1)) && PiecesIn(ops) == pieces[..|cuts|]
    ensures Placed(ops + [op], cuts + [|ops|], slots, pieces)
  {
    PlacedExtend(ops, ops + [op], cuts, slots, pieces);
    assert (ops + [op])[..|ops|] == ops;
    assert StandsAt(ops + [op], |ops|, |cuts|, Below(slots, |cuts| + 1), pieces);
  }

  /** How one types: whether careless, and what Python calls a letter and upper case. */
  datatype Typist = Typist(careless: bool, isLetter: char -> bool, isUpper: char -> bool)

  method PieceOp(piece: Piece, typist: Typist) returns (op: Op)
    ensures PieceOf(op) == [piece] && Planned(op)
  {
    match piece {
      case Typed(text) =>
        var keys, duration := PlanTyping(text, typist.careless, typist.isLetter, typist.isUpper);
        op := Write(text, keys, duration);
      case Pasted(text) =>
        op := Insert(text);
    }
  }

  ghost predicate AllPlanned(ops: seq<Op>) {
    forall op :: op in ops ==> Planned(op)
  }

  /** Chats and planned pieces only. */
  ghost predicate Drafting(ops: seq<Op>) {
    AllPlanned(ops) && Extra !in ops
  }

  lemma AskedNext(r: seq<Op>, n: nat)
    requires ChatsIn(r) == Range(n) && Drafting(r)
    ensures ChatsIn(r + [Ask(n)]) == Range(n + 1) && PiecesIn(r + [Ask(n)]) == PiecesIn(r) && Drafting(r + [Ask(n)])
  {
    OneMore(r, Ask(n));
    assert Range(n) + [n] == Range(n + 1);
    assert PiecesIn(r) + [] == PiecesIn(r);
  }

  /** The inner loop: the chats with this slot. */
  method AskAt(ops: seq<Op>, slots: seq<nat>, index: nat, ghost bound: nat) returns (r: seq<Op>)
    requires Rising(slots, bound) && ChatsIn(ops) == Range(Below(slots, index)) && Drafting(ops)
    ensures ChatsIn(r) == Range(Below(slots, index + 1)) && PiecesIn(r) == PiecesIn(ops) && ops <= r && Drafting(r)
  {
    r := ops;
    ghost var lo, hi := Below(slots, index), Below(slots, index + 1);
    ghost var n := lo;
    BelowExactly(slots, index, bound);
    BelowExactly(slots, index + 1, bound);
    BelowGrows(slots, index);
    for j := 0 to |slots|
      invariant n == if j < lo then lo else if j < hi then j else hi
      invariant ChatsIn(r) == Range(n) && Drafting(r)
      invariant PiecesIn(r) == PiecesIn(ops) && ops <= r
    {
      if slots[j] == index {
        AskedNext(r, j);
        r, n := r + [Ask(j)], j + 1;
      }
    }
  }

  /** After the rounds for the first pieces. */
  ghost predicate Lined(ops: seq<Op>, cuts: seq<nat>, slots: seq<nat>, pieces: seq<Piece>) {
    && |cuts| <= |pieces| && Placed(ops, cuts, slots, pieces)
    && ChatsIn(ops) == Range(Below(slots, |cuts|)) && PiecesIn(ops) == pieces[..|cuts|]
    && Drafting(ops)
  }

  lemma LinedNext(before: seq<Op>, asked: seq<Op>, op: Op, cuts: seq<nat>, slots: seq<nat>, pieces: seq<Piece>)
    requires |cuts| < |pieces| && Lined(before, cuts, slots, pieces)
    requires ChatsIn(asked) == Range(Below(slots, |cuts| + 1)) && PiecesIn(asked) == PiecesIn(before) && before <= asked
    requires Drafting(asked)
    requires PieceOf(op) == [pieces[|cuts|]] && Planned(op)
    ensures Lined(asked + [op], cuts + [|asked|], slots, pieces)
  {
    assert Placed(asked + [op], cuts + [|asked|], slots, pieces) by {
      PlacedExtend(before, asked, cuts, slots, pieces);
      PlacedNext(asked, op, cuts, slots, pieces);
    }
    PieceAdded(asked, op, pieces, |cuts|);
  }

  lemma PieceAdded(ops: seq<Op>, op: Op, pieces: seq<Piece>, k: nat)
    requires k < |pieces| && PiecesIn(ops) == pieces[..k] && PieceOf(op) == [pieces[k]] && Drafting(ops) && Planned(op)
    ensures PiecesIn(ops + [op]) == pieces[..k + 1] && ChatsIn(ops + [op]) == ChatsIn(ops) && Drafting(ops + [op])
  {
    OneMore(ops, op);
    assert ChatsIn(ops) + [] == ChatsIn(ops);
  }

  lemma LinedStart(slots: seq<nat>, pieces: seq<Piece>)
    ensures Lined([], [], slots, pieces)
  {
    NoneBelow(slots);
  }

  /** One round: the chats with this slot, then the piece. */
  method LineUpOne(ops: seq<Op>, ghost cuts: seq<nat>, slots: seq<nat>, pieces: seq<Piece>, index: nat, typist: Typist)
    returns (r: seq<Op>, ghost cuts': seq<nat>)
    requires index < |pieces| && Rising(slots, |pieces|) && |cuts| == index && Lined(ops, cuts, slots, pieces)
    ensures |cuts'| == index + 1 && Lined(r, cuts', slots, pieces)
  {
    var asked := AskAt(ops, slots, index, |pieces|);
    var op := PieceOp(pieces[index], typist);
    LinedNext(ops, asked, op, cuts, slots, pieces);
    r, cuts' := asked + [op], cuts + [|asked|];
  }

  lemma LinedEnd(before: seq<Op>, ops: seq<Op>, cuts: seq<nat>, slots: seq<nat>, pieces: seq<Piece>)
    requires Rising(slots, |pieces|) && |cuts| == |pieces| && Lined(before, cuts, slots, pieces)
    requires ChatsIn(ops) == Range(Below(slots, |pieces| + 1)) && PiecesIn(ops) == PiecesIn(before) && before <= ops
    ensures ChatsIn(ops) == Range(|slots|) && PiecesIn(ops) == pieces && Placed(ops, cuts, slots, pieces)
  {
    PlacedExtend(before, ops, cuts, slots, pieces);
    AllBelow(slots, |pieces|);
    assert pieces[..|pieces|] == pieces;
  }

  /** The rounds for all pieces. */
  method LineUpAll(pieces: seq<Piece>, slots: seq<nat>, typist: Typist) returns (ops: seq<Op>, ghost cuts: seq<nat>)
    requires Rising(slots, |pieces|)
    ensures |cuts| == |pieces| && Lined(ops, cuts, slots, pieces)
  {
    ops, cuts := [], [];
    LinedStart(slots, pieces);
    for index := 0 to |pieces|
      invariant |cuts| == index && Lined(ops, cuts, slots, pieces)
    {
      ops, cuts := LineUpOne(ops, cuts, slots, pieces, index, typist);
    }
  }

  /** The loop over pieces + [None]: every chat and every piece exactly once, in order. */
  method LineUp(pieces: seq<Piece>, slots: seq<nat>, typist: Typist) returns (ops: seq<Op>, ghost cuts: seq<nat>)
    requires Rising(slots, |pieces|)
    ensures ChatsIn(ops) == Range(|slots|) && PiecesIn(ops) == pieces
    ensures |cuts| == |pieces| && Placed(ops, cuts, slots, pieces)
    ensures Drafting(ops)
  {
    var before;
    before, cuts := LineUpAll(pieces, slots, typist);
    ops := AskAt(before, slots, |pieces|, |pieces|);
    LinedEnd(before, ops, cuts, slots, pieces);
  }

  lemma {:induction false} NoneBelow(slots: seq<nat>)
    ensures Below(slots, 0) == 0
  {
    if slots != [] {
      NoneBelow(slots[..|slots| - 1]);
    }
  }

  lemma AllBelow(slots: seq<nat>, bound: nat)
    requires Rising(slots, bound)
    ensures Below(slots, bound + 1) == |slots|
  {
  }

  // ---------------------------------------------------------------- the pieces of an essay

  function PastesWanted(chats: seq<Chat>): seq<string> {
    if chats == [] then []
    else PastesWanted(chats[..|chats| - 1]) + (if chats[|chats| - 1].paste != "" then [chats[|chats| - 1].paste] else [])
  }

  /** The pieces that essay_task makes of a text. */
  function PiecesOf(text: string, chats: seq<Chat>): seq<Piece> {
    AllChunks(Split(text, PastesWanted(chats)))
  }

  /** They spell the text, their pastes are the ones cut out of it, and a typed piece ends at its paragraph. */
  lemma PiecesSpellText(text: string, chats: seq<Chat>)
    ensures Spell(PiecesOf(text, chats)) == text
    ensures PastesOf(PiecesOf(text, chats)) == PastesOf(Split(text, PastesWanted(chats)))
    ensures forall p :: p in PiecesOf(text, chats) && p.Typed? ==> OneParagraph(p.text)
  {
    SplitSpells(text, PastesWanted(chats));
    PiecesSpell(Split(text, PastesWanted(chats)));
    forall p | p in PiecesOf(text, chats) && p.Typed?
      ensures OneParagraph(p.text)
    {
      TypedPiecesAreParagraphs(Split(text, PastesWanted(chats)), p);
    }
  }

  // ---------------------------------------------------------------- order

  /** A chat comes before piece w exactly when neither it nor an earlier chat asks for a later slot; so it
      comes before the paste taken from its own answer exactly when no earlier chat pushes it. */
  lemma ChatBeforePieceExactly(ops: seq<Op>, cuts: seq<nat>, slots: seq<nat>, chats: seq<Chat>, pieces: seq<Piece>, i: nat, w: nat)
    requires |slots| == |chats| && Pushed(slots, chats, pieces, |chats|)
    requires |cuts| == |pieces| && Placed(ops, cuts, slots, pieces)
    requires i < |chats| && w < |pieces|
    ensures i in ChatsIn(ops[..cuts[w]]) <==> forall j :: 0 <= j <= i ==> Wanted(chats, pieces, j) <= w
  {
    PushedRises(slots, chats, pieces);
    BelowExactly(slots, w + 1, |pieces|);
    assert i in Range(Below(slots, w + 1)) <==> i < Below(slots, w + 1) by {
      if i < Below(slots, w + 1) {
        assert Range(Below(slots, w + 1))[i] == i;
      }
    }
    assert StandsAt(ops, cuts[w], w, Below(slots, w + 1), pieces);
    assert i in ChatsIn(ops[..cuts[w]]) <==> slots[i] <= w;
    assert IsTop(slots[i], chats, pieces, i);
  }

  /** The third chat of this essay asks for slot 0, where its paste is, but the second for slot 1; so wherever
      such a list of operations comes from, the paste is inserted before the chat it is taken from. */
  lemma PasteBeforeItsChat() returns (text: string, chats: seq<Chat>)
    ensures |chats| == 3 && chats[2].paste != ""
    ensures var pieces := PiecesOf(text, chats);
      && |pieces| > 0 && pieces[0] == Pasted(chats[2].paste)
      && forall ops, cuts, slots: seq<nat> ::
        |slots| == 3 && Pushed(slots, chats, pieces, 3) && |cuts| == |pieces| && Placed(ops, cuts, slots, pieces)
        ==> 2 !in ChatsIn(ops[..cuts[0]])
  {
    chats := [Chat(""), Chat(""), Chat("p")];
    text := "pa" + BREAK + "b";
    var pieces := PiecesOf(text, chats);
    OnlyPaste(chats);
    ThreePieces(text);
    assert |pieces| == 3;
    assert Wanted(chats, pieces, 1) == Round(3, 4) == 1;
    forall ops, cuts, slots: seq<nat> |
      |slots| == 3 && Pushed(slots, chats, pieces, 3) && |cuts| == |pieces| && Placed(ops, cuts, slots, pieces)
      ensures 2 !in ChatsIn(ops[..cuts[0]])
    {
      ChatBeforePieceExactly(ops, cuts, slots, chats, pieces, 2, 0);
    }
  }

  lemma OnlyPaste(chats: seq<Chat>)
    requires |chats| == 3 && chats[0].paste == "" && chats[1].paste == "" && chats[2].paste != ""
    ensures PastesWanted(chats) == [chats[2].paste]
  {
    assert PastesWanted(chats[..2][..1]) == [];
    assert PastesWanted(chats[..2]) == [];
  }

  lemma ThreePieces(text: string)
    requires text == "pa" + BREAK + "b"
    ensures AllChunks(Split(text, ["p"])) == [Pasted("p"), Typed("a" + BREAK), Typed("b")]
  {
    assert text[0..1] == "p";
    FindIs(text, "p", 0);
    var rest := text[1..];
    assert rest == "a" + BREAK + "b";
    SplitAtFront(text, "p");
    TwoChunks(rest);
    var segments := [Pasted("p"), Typed(rest)];
    assert segments[1..] == [Typed(rest)] && [Typed(rest)][1..] == [];
    assert AllChunks([Typed(rest)]) == Chunks(rest) + [] == Chunks(rest);
    assert AllChunks(segments) == [Pasted("p")] + Chunks(rest);
  }

  lemma SplitAtFront(text: string, paste: string)
    requires Find(text, paste) == Some(0) && |text| > |paste|
    ensures Split(text, [paste]) == [Pasted(paste), Typed(text[|paste|..])]
  {
    assert [paste][..0] == [];
    assert ProgressAfter(text, [paste]) == Step(Progress([], text), paste);
  }

  lemma TwoChunks(rest: string)
    requires rest == "a" + BREAK + "b"
    ensures Chunks(rest) == [Typed("a" + BREAK), Typed("b")]
  {
    assert rest[0..2] != BREAK by {
      assert rest[0..2][0] == 'a';
    }
    FindIs(rest, BREAK, 1);
    assert rest[..1] == "a" && rest[3..] == "b";
    FindIsNone("b", BREAK);
    assert Chunks("b") == [Typed("b")];
  }
}
