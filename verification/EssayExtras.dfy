/**
 Absences and copies: operations inserted at random into the line of chats and pieces.  What was lined up stays
 in its order.
 */
module EssayExtras {
  import opened Common
  import opened Random
  import opened EssayPlan
  import opened EssayOrder

  function WithoutExtras(ops: seq<Op>): seq<Op> {
    if ops == [] then []
    else WithoutExtras(ops[..|ops| - 1]) + (if ops[|ops| - 1].Extra? then [] else [ops[|ops| - 1]])
  }

  lemma WithoutExtrasOneMore(ops: seq<Op>, op: Op)
    ensures WithoutExtras(ops + [op]) == if op.Extra? then WithoutExtras(ops) else WithoutExtras(ops) + [op]
  {
    assert (ops + [op])[..|ops|] == ops;
    assert WithoutExtras(ops) + [] == WithoutExtras(ops);
  }

  lemma {:induction false} WithoutExtrasConcat(a: seq<Op>, b: seq<Op>)
    ensures WithoutExtras(a + b) == WithoutExtras(a) + WithoutExtras(b)
    decreases |b|
  {
    if b == [] {
      assert a + b == a && WithoutExtras(a) + [] == WithoutExtras(a);
    } else {
      var init, last := b[..|b| - 1], b[|b| - 1];
      WithoutExtrasConcat(a, init);
      AppendLast(a, b);
      WithoutExtrasOneMore(a + init, last);
      Assoc(WithoutExtras(a), WithoutExtras(init), if last.Extra? then [] else [last]);
    }
  }

  lemma {:induction false} NothingToLeaveOut(ops: seq<Op>)
    requires Extra !in ops
    ensures WithoutExtras(ops) == ops
  {
    if ops != [] {
      var init, last := ops[..|ops| - 1], ops[|ops| - 1];
      assert last in ops;
      NothingToLeaveOut(init);
      assert init + [last] == ops;
    }
  }

  lemma ExtraBetween(a: seq<Op>, b: seq<Op>)
    ensures ChatsIn((a + [Extra]) + b) == ChatsIn(a + b)
    ensures PiecesIn((a + [Extra]) + b) == PiecesIn(a + b)
  {
    var more := a + [Extra];
    assert ChatsIn(more) == ChatsIn(a) && PiecesIn(more) == PiecesIn(a) by {
      OneMore(a, Extra);
    }
    ChatsConcat(more, b);
    ChatsConcat(a, b);
    PiecesConcat(more, b);
    PiecesConcat(a, b);
  }

  lemma WithoutExtraBetween(a: seq<Op>, b: seq<Op>)
    ensures WithoutExtras((a + [Extra]) + b) == WithoutExtras(a + b)
  {
    WithoutExtrasOneMore(a, Extra);
    WithoutExtrasConcat(a + [Extra], b);
    WithoutExtrasConcat(a, b);
  }

  // ---------------------------------------------------------------- pieces stay behind their chats

  /** Where a position goes when something is inserted at i. */
  function Shifted(c: nat, i: nat): nat {
    if c < i then c else c + 1
  }

  function ShiftedAll(cuts: seq<nat>, i: nat): (r: seq<nat>)
    ensures |r| == |cuts|
  {
    seq(|cuts|, k requires 0 <= k < |cuts| => Shifted(cuts[k], i))
  }

  lemma StandsBeforeInsertion(a: seq<Op>, b: seq<Op>, c: nat, i: nat, first: nat, pieces: seq<Piece>)
    requires i < |pieces| && StandsAt(a + b, c, i, first, pieces) && c < |a|
    ensures StandsAt((a + [Extra]) + b, c, i, first, pieces)
  {
    assert (a + b)[..c] == a[..c] && ((a + [Extra]) + b)[..c] == a[..c];
  }

  lemma StandsBehindInsertion(a: seq<Op>, b: seq<Op>, c: nat, i: nat, first: nat, pieces: seq<Piece>)
    requires i < |pieces| && StandsAt(a + b, c, i, first, pieces) && c >= |a|
    ensures StandsAt((a + [Extra]) + b, c + 1, i, first, pieces)
  {
    var front := b[..c - |a|];
    assert (a + b)[..c] == a + front && ((a + [Extra]) + b)[..c + 1] == (a + [Extra]) + front;
    ExtraBetween(a, front);
  }

  lemma PlacedInsert(a: seq<Op>, b: seq<Op>, cuts: seq<nat>, slots: seq<nat>, pieces: seq<Piece>)
    requires |cuts| <= |pieces| && Placed(a + b, cuts, slots, pieces)
    ensures Placed((a + [Extra]) + b, ShiftedAll(cuts, |a|), slots, pieces)
  {
    forall i | 0 <= i < |cuts|
      ensures StandsAt((a + [Extra]) + b, Shifted(cuts[i], |a|), i, Below(slots, i + 1), pieces)
    {
      if cuts[i] < |a| {
        StandsBeforeInsertion(a, b, cuts[i], i, Below(slots, i + 1), pieces);
      } else {
        StandsBehindInsertion(a, b, cuts[i], i, Below(slots, i + 1), pieces);
      }
    }
  }

  /** A lined-up list with extras: without them it is the list, and pieces and chats stand as in the list. */
  ghost predicate Extended(ops: seq<Op>, r: seq<Op>, cuts: seq<nat>, slots: seq<nat>, pieces: seq<Piece>) {
    && AllPlanned(r) && WithoutExtras(r) == ops
    && ChatsIn(r) == ChatsIn(ops) && PiecesIn(r) == PiecesIn(ops)
    && |cuts| == |pieces| && Placed(r, cuts, slots, pieces)
  }

  lemma ExtendedInsert(ops: seq<Op>, a: seq<Op>, b: seq<Op>, cuts: seq<nat>, slots: seq<nat>, pieces: seq<Piece>)
    requires Extended(ops, a + b, cuts, slots, pieces)
    ensures Extended(ops, (a + [Extra]) + b, ShiftedAll(cuts, |a|), slots, pieces)
  {
    WithoutExtraBetween(a, b);
    ExtraBetween(a, b);
    PlacedInsert(a, b, cuts, slots, pieces);
    forall op | op in (a + [Extra]) + b
      ensures Planned(op)
    {
      assert op == Extra || op in a + b;
    }
  }

  method SplitAt(ops: seq<Op>, i: nat) returns (a: seq<Op>, b: seq<Op>)
    requires i <= |ops|
    ensures a + b == ops && |a| == i
  {
    a, b := ops[..i], ops[i..];
  }

  /** One extra, anywhere behind the first operation. */
  method InsertExtra(r: seq<Op>, ghost ops: seq<Op>, ghost cuts: seq<nat>, ghost slots: seq<nat>, ghost pieces: seq<Piece>)
    returns (r': seq<Op>, ghost cuts': seq<nat>)
    requires Extended(ops, r, cuts, slots, pieces)
    ensures Extended(ops, r', cuts', slots, pieces) && |r'| == |r| + 1
    ensures r != [] ==> r'[0] == r[0]
  {
    var i := |r|;
    if |r| > 1 {
      i := RandInt(1, |r| - 1);
    }
    var a, b := SplitAt(r, i);
    ExtendedInsert(ops, a, b, cuts, slots, pieces);
    r', cuts' := (a + [Extra]) + b, ShiftedAll(cuts, |a|);
  }

  /** The loop over the extras: the chats and pieces keep their order among each other. */
  method InsertExtras(ops: seq<Op>, extras: nat, ghost cuts: seq<nat>, ghost slots: seq<nat>, ghost pieces: seq<Piece>)
    returns (r: seq<Op>, ghost cuts': seq<nat>)
    requires Drafting(ops) && |cuts| == |pieces| && Placed(ops, cuts, slots, pieces)
    ensures Extended(ops, r, cuts', slots, pieces) && |r| == |ops| + extras
    ensures ops != [] ==> r[0] == ops[0]
  {
    r, cuts' := ops, cuts;
    NothingToLeaveOut(ops);
    for k := 0 to extras
      invariant Extended(ops, r, cuts', slots, pieces) && |r| == |ops| + k
      invariant ops != [] ==> r[0] == ops[0]
    {
      r, cuts' := InsertExtra(r, ops, cuts', slots, pieces);
    }
  }

  // ---------------------------------------------------------------- drafting before the first extra

  lemma StartOfOps(ops: seq<Op>, i: nat)
    requires 1 <= i <= |ops|
    ensures PiecesIn(ops[..1]) == PieceOf(ops[0])
    ensures PiecesIn(ops[..1]) <= PiecesIn(ops[..i])
  {
    OneMore([], ops[0]);
    assert ops[..1] == [] + [ops[0]] && [] + PieceOf(ops[0]) == PieceOf(ops[0]);
    PiecesConcat(ops[..1], ops[1..i]);
    assert ops[..1] + ops[1..i] == ops[..i];
  }

  /** Wherever it is inserted, an absence or a copy comes after some drafting exactly when the first operation
      is a piece; with a chat in front it may come before all drafting. */
  lemma ExtraAfterDraftingExactly(ops: seq<Op>)
    requires |ops| > 1
    ensures (forall i: nat :: 1 <= i <= |ops| - 1 ==> PiecesIn(ops[..i]) != []) <==> PieceOf(ops[0]) != []
  {
    StartOfOps(ops, 1);
    forall i: nat | 1 <= i <= |ops| - 1
      ensures PieceOf(ops[0]) != [] ==> PiecesIn(ops[..i]) != []
    {
      StartOfOps(ops, i);
    }
  }

  lemma NoPieceYet(ops: seq<Op>, c: nat)
    requires 0 < c <= |ops| && PiecesIn(ops[..c]) == []
    ensures PieceOf(ops[0]) == [] && PiecesIn(ops[..1]) == []
  {
    StartOfOps(ops, c);
  }

  /** When the first chat brings no paste, it leads the line, so an extra may come before all drafting. */
  lemma FirstChatLeads(ops: seq<Op>, cuts: seq<nat>, slots: seq<nat>, chats: seq<Chat>, pieces: seq<Piece>)
    requires |slots| == |chats| > 0 && Pushed(slots, chats, pieces, |chats|) && chats[0].paste == ""
    requires |cuts| == |pieces| > 0 && Placed(ops, cuts, slots, pieces)
    ensures |ops| > 1 && PieceOf(ops[0]) == [] && exists i: nat :: 1 <= i <= |ops| - 1 && PiecesIn(ops[..i]) == []
  {
    PushedRises(slots, chats, pieces);
    BelowExactly(slots, 1, |pieces|);
    assert Wanted(chats, pieces, 0) == 0 && slots[0] == 0;
    assert StandsAt(ops, cuts[0], 0, Below(slots, 1), pieces);
    assert |ChatsIn(ops[..cuts[0]])| > 0;
    assert cuts[0] > 0;
    NoPieceYet(ops, cuts[0]);
  }

  /** Such a list: one chat without a paste and one typed piece. */
  method ChatThenPiece(typist: Typist) returns (ops: seq<Op>)
    ensures |ops| > 1 && PieceOf(ops[0]) == [] && PiecesIn(ops) == [Typed("a")]
    ensures exists i: nat :: 1 <= i <= |ops| - 1 && PiecesIn(ops[..i]) == []
  {
    var chats, pieces := [Chat("")], [Typed("a")];
    var slots := MakeSlots(chats, pieces);
    PushedRises(slots.value, chats, pieces);
    ghost var cuts;
    ops, cuts := LineUp(pieces, slots.value, typist);
    FirstChatLeads(ops, cuts, slots.value, chats, pieces);
  }
}
