/**
 Playing the operations of an essay task on a participant, and the way back: replaying the key presses and
 pastes of the log gives the essay.
 */
module EssayRun {
  import opened Common
  import opened Random
  import opened Typing
  import opened Simulator
  import EssayPlan
  import EssayOrder
  import EssayExtras

  const PASTE_LIMIT: nat := 20000

  // ---------------------------------------------------------------- reading a log

  predicate EssayText(e: Event) {
    match e.payload
    case Keystroke(field, _) => field == Essay
    case Paste(field, _) => field == Essay
    case Plain(_, _) => false
  }

  /** What an event does to the essay before the cursor. */
  function Shown1(text: string, e: Event): string {
    if !EssayText(e) then text
    else match e.payload
      case Keystroke(_, key) => Strike(text, key)
      case Paste(_, pasted) => text + pasted
      case Plain(_, _) => text
  }

  function Shown(text: string, log: seq<Event>): string {
    if log == [] then text else Shown1(Shown(text, log[..|log| - 1]), log[|log| - 1])
  }

  lemma ShownOneMore(text: string, log: seq<Event>, e: Event)
    ensures Shown(text, log + [e]) == Shown1(Shown(text, log), e)
  {
  }

  lemma {:induction false} ShownConcat(text: string, a: seq<Event>, b: seq<Event>)
    ensures Shown(text, a + b) == Shown(Shown(text, a), b)
    decreases |b|
  {
    if b == [] {
      assert a + b == a;
    } else {
      var init, last := b[..|b| - 1], b[|b| - 1];
      ShownConcat(text, a, init);
      assert a + b == (a + init) + [last] && b == init + [last];
      ShownOneMore(text, a + init, last);
    }
  }

  /** Whatever stood there before, the events append exactly this text to the essay. */
  ghost predicate Writes(events: seq<Event>, text: string) {
    forall before: string :: Shown(before, events) == before + text
  }

  lemma WritesConcat(a: seq<Event>, s: string, b: seq<Event>, t: string)
    requires Writes(a, s) && Writes(b, t)
    ensures Writes(a + b, s + t)
  {
    forall before: string
      ensures Shown(before, a + b) == before + (s + t)
    {
      ShownConcat(before, a, b);
      Assoc(before, s, t);
    }
  }

  lemma WritesNothing(events: seq<Event>)
    requires forall e :: e in events ==> !EssayText(e)
    ensures Writes(events, "")
  {
    forall before: string
      ensures Shown(before, events) == before + ""
    {
      ShownNothing(before, events);
    }
  }

  lemma {:induction false} ShownNothing(before: string, events: seq<Event>)
    requires forall e :: e in events ==> !EssayText(e)
    ensures Shown(before, events) == before
  {
    if events != [] {
      assert events[|events| - 1] in events;
      ShownNothing(before, events[..|events| - 1]);
    }
  }

  /** The essay events lie between the two times, at least a millisecond apart, so that their timestamps,
      which are full milliseconds, increase. */
  ghost predicate Stamped(events: seq<Event>, from: int, until: int) {
    && (forall i :: 0 <= i < |events| && EssayText(events[i]) ==> from <= events[i].at && events[i].at + MS <= until)
    && (forall i, j :: 0 <= i < j < |events| && EssayText(events[i]) && EssayText(events[j]) ==> events[i].at + MS <= events[j].at)
  }

  lemma StampedConcat(a: seq<Event>, b: seq<Event>, x: int, y: int, z: int)
    requires Stamped(a, x, y) && Stamped(b, y, z) && x <= y <= z
    ensures Stamped(a + b, x, z)
  {
  }

  // ---------------------------------------------------------------- key presses

  function KeyEvent(start: int, field: Field, k: Key): Event {
    Event(start + k.offset * MS + k.hold * MS, start + k.offset * MS, Keystroke(field, k))
  }

  function KeyEvents(start: int, field: Field, keys: seq<Key>): seq<Event> {
    if keys == [] then [] else KeyEvents(start, field, keys[..|keys| - 1]) + [KeyEvent(start, field, keys[|keys| - 1])]
  }

  lemma {:induction false} KeyEventsAt(start: int, field: Field, keys: seq<Key>)
    ensures |KeyEvents(start, field, keys)| == |keys|
    ensures forall i :: 0 <= i < |keys| ==> KeyEvents(start, field, keys)[i] == KeyEvent(start, field, keys[i])
  {
    if keys != [] {
      KeyEventsAt(start, field, keys[..|keys| - 1]);
    }
  }

  lemma KeyEventsNext(start: int, field: Field, keys: seq<Key>, i: nat)
    requires i < |keys|
    ensures KeyEvents(start, field, keys[..i + 1]) == KeyEvents(start, field, keys[..i]) + [KeyEvent(start, field, keys[i])]
  {
    assert keys[..i + 1][..i] == keys[..i];
  }

  /** event, while tracking. */
  method Track(p: Participant, e: Event)
    requires p.Conserved() && p.tracking
    modifies p`queue, p`timers, p`log
    ensures p.Conserved() && p.log == old(p.log) + [e]
  {
    p.Emit(e.ready, e.at, e.payload);
  }

  /** emit_typing, while tracking. */
  method EmitTyping(p: Participant, start: int, keys: seq<Key>, field: Field)
    requires p.Conserved() && p.tracking
    modifies p`queue, p`timers, p`log
    ensures p.Conserved() && p.log == old(p.log) + KeyEvents(start, field, keys)
  {
    ghost var before, sofar := p.log, KeyEvents(start, field, []);
    for i := 0 to |keys|
      invariant p.Conserved() && p.log == before + sofar && sofar == KeyEvents(start, field, keys[..i])
    {
      Track(p, KeyEvent(start, field, keys[i]));
      KeyEventsNext(start, field, keys, i);
      Assoc(before, sofar, [KeyEvent(start, field, keys[i])]);
      sofar := sofar + [KeyEvent(start, field, keys[i])];
    }
    assert keys[..|keys|] == keys;
  }

  lemma {:induction false} ShownKeys(text: string, start: int, keys: seq<Key>)
    ensures Shown(text, KeyEvents(start, Essay, keys)) == Replay(text, keys)
  {
    if keys != [] {
      var init, last := keys[..|keys| - 1], keys[|keys| - 1];
      ShownKeys(text, start, init);
      ShownOneMore(text, KeyEvents(start, Essay, init), KeyEvent(start, Essay, last));
    }
  }

  lemma KeysWrite(start: int, keys: seq<Key>, text: string)
    requires Types(keys, text)
    ensures Writes(KeyEvents(start, Essay, keys), text)
  {
    forall before: string
      ensures Shown(before, KeyEvents(start, Essay, keys)) == before + text
    {
      ShownKeys(before, start, keys);
    }
  }

  lemma Scaled(a: int, b: int)
    requires a < b
    ensures a * MS + MS <= b * MS
  {
  }

  lemma KeysStamped(start: int, keys: seq<Key>, duration: int)
    requires Timed(keys, duration)
    ensures Stamped(KeyEvents(start, Essay, keys), start, start + duration * MS)
  {
    var events := KeyEvents(start, Essay, keys);
    KeyEventsAt(start, Essay, keys);
    forall i | 0 <= i < |events|
      ensures start <= events[i].at && events[i].at + MS <= start + duration * MS
    {
      Scaled(keys[i].offset, duration);
    }
    forall i, j | 0 <= i < j < |events|
      ensures events[i].at + MS <= events[j].at
    {
      Scaled(keys[i].offset, keys[j].offset);
    }
  }

  // ---------------------------------------------------------------- operations

  /** What an operation that ran from one time to another leaves in the log. */
  ghost predicate Left(before: seq<Event>, since: int, log: seq<Event>, now: int, added: seq<Event>, text: string) {
    log == before + added && Writes(added, text) && Stamped(added, since, now) && since <= now
  }

  /** advance to the current time and a call that has to succeed, such as saving the draft. */
  method Call(p: Participant) returns (ok: bool)
    requires p.Conserved()
    modifies p`queue, p`timers, p`wire, p`sent, p`activeSince
    ensures Served(p.server, old(p.wire), p.wire, ok) && (ok ==> p.Conserved())
    ensures ok ==> |p.wire.asked| > |old(p.wire).asked| && p.server(|p.wire.asked| - 1) == 200
  {
    ghost var before := p.wire;
    ghost var fired;
    ok, fired := p.Advance(p.t);
    if ok {
      ghost var middle := p.wire;
      var status := p.Request(ToApi);
      ok := status == 200;
      ServedThen(p.server, before, middle, p.wire, ok);
    }
  }

  /** What essay_type and essay_paste do after their events: time passes, and 700 ms later the draft is saved. */
  method SaveDraft(p: Participant, until: int) returns (ok: bool)
    requires p.Conserved() && p.t <= until
    modifies p`t, p`queue, p`timers, p`wire, p`sent, p`activeSince
    ensures Served(p.server, old(p.wire), p.wire, ok)
    ensures ok ==> p.Conserved() && p.t >= until
  {
    ghost var before := p.wire;
    p.t := until;
    ghost var fired;
    ok, fired := p.Advance(p.t);
    if ok {
      ghost var middle := p.wire;
      p.t := p.t + 700 * MS;
      ok := Call(p);
      ServedThen(p.server, before, middle, p.wire, ok);
    }
  }

  /** The branch essay_type of run_op. */
  method RunWrite(p: Participant, text: string, keys: seq<Key>, duration: int) returns (ok: bool, ghost added: seq<Event>)
    requires p.Conserved() && p.tracking && Types(keys, text) && Timed(keys, duration) && duration >= 200
    modifies p`t, p`queue, p`timers, p`log, p`wire, p`sent, p`activeSince
    ensures Served(p.server, old(p.wire), p.wire, ok)
    ensures ok ==> p.Conserved() && Left(old(p.log), old(p.t), p.log, p.t, added, text)
  {
    ghost var start := p.t;
    added := KeyEvents(start, Essay, keys);
    KeysWrite(start, keys, text);
    KeysStamped(start, keys, duration);
    EmitTyping(p, p.t, keys, Essay);
    ok := SaveDraft(p, p.t + duration * MS);
    if ok {
      StampedLonger(added, start, start + duration * MS, p.t);
    }
  }

  function Shorten(text: string): string {
    if |text| <= PASTE_LIMIT then text else text[..PASTE_LIMIT]
  }

  /** The presses of paste_keys. */
  predicate ShortcutKeys(keys: seq<Key>) {
    && |keys| == 2 && keys[0].cls.Modifier? && keys[1].cls.Shortcut?
    && keys[0].offset == 0 && keys[1].offset == 90
  }

  lemma ShortcutTypesNothing(keys: seq<Key>)
    requires ShortcutKeys(keys)
    ensures Types(keys, "")
  {
    TypesNothing();
    TypesIgnored([], "", keys[0]);
    TypesIgnored([] + [keys[0]], "", keys[1]);
    assert [] + [keys[0]] + [keys[1]] == keys;
  }

  function PasteEvent(start: int, text: string): Event {
    Event(start + 95 * MS, start + 95 * MS, Paste(Essay, Shorten(text)))
  }

  function PasteEvents(start: int, keys: seq<Key>, text: string): seq<Event> {
    KeyEvents(start, Essay, keys) + [PasteEvent(start, text)]
  }

  lemma PasteWrites(start: int, keys: seq<Key>, text: string)
    requires ShortcutKeys(keys)
    ensures Writes(PasteEvents(start, keys, text), Shorten(text))
  {
    ShortcutTypesNothing(keys);
    KeysWrite(start, keys, "");
    forall before: string
      ensures Shown(before, PasteEvents(start, keys, text)) == before + Shorten(text)
    {
      ShownOneMore(before, KeyEvents(start, Essay, keys), PasteEvent(start, text));
      assert Shown(before, KeyEvents(start, Essay, keys)) == before + "" == before;
    }
  }

  lemma PasteStamped(start: int, keys: seq<Key>, text: string, until: int)
    requires ShortcutKeys(keys) && start + 900 * MS <= until
    ensures Stamped(PasteEvents(start, keys, text), start, until)
  {
    var events := PasteEvents(start, keys, text);
    KeyEventsAt(start, Essay, keys);
    assert |events| == 3 && events[0].at == start && events[1].at == start + 90 * MS && events[2].at == start + 95 * MS;
  }

  /** paste_keys: Ctrl+V. */
  method ShortcutPlan() returns (keys: seq<Key>)
    ensures ShortcutKeys(keys)
  {
    var long := RandInt(180, 400);
    var short := RandInt(60, 110);
    keys := [Key(0, "Control", Modifier, long, false), Key(90, "v", Shortcut, short, false)];
  }

  /** The events of a paste; the log keeps the first 20000 characters. */
  method EmitPaste(p: Participant, text: string) returns (ghost added: seq<Event>)
    requires p.Conserved() && p.tracking
    modifies p`queue, p`timers, p`log
    ensures p.Conserved() && p.log == old(p.log) + added
    ensures Writes(added, Shorten(text)) && Stamped(added, p.t, p.t + 900 * MS)
  {
    ghost var before := p.log;
    var start := p.t;
    var keys := ShortcutPlan();
    var last := PasteEvent(start, text);
    ghost var typed := KeyEvents(start, Essay, keys);
    EmitTyping(p, start, keys, Essay);
    Track(p, last);
    added := typed + [last];
    Assoc(before, typed, [last]);
    PasteFacts(start, keys, text);
  }

  lemma PasteFacts(start: int, keys: seq<Key>, text: string)
    requires ShortcutKeys(keys)
    ensures Writes(PasteEvents(start, keys, text), Shorten(text))
    ensures Stamped(PasteEvents(start, keys, text), start, start + 900 * MS)
  {
    PasteWrites(start, keys, text);
    PasteStamped(start, keys, text, start + 900 * MS);
  }

  lemma StampedLonger(events: seq<Event>, x: int, y: int, z: int)
    requires Stamped(events, x, y) && y <= z
    ensures Stamped(events, x, z)
  {
  }

  /** The branch essay_paste of run_op. */
  method RunInsert(p: Participant, text: string) returns (ok: bool, ghost added: seq<Event>)
    requires p.Conserved() && p.tracking
    modifies p`t, p`queue, p`timers, p`log, p`wire, p`sent, p`activeSince
    ensures Served(p.server, old(p.wire), p.wire, ok)
    ensures ok ==> p.Conserved() && Left(old(p.log), old(p.t), p.log, p.t, added, Shorten(text))
  {
    ghost var start := p.t;
    added := EmitPaste(p, text);
    var wait := RandInt(900, 2500);
    ok := SaveDraft(p, p.t + wait * MS);
    if ok {
      StampedLonger(added, start, start + 900 * MS, p.t);
    }
  }

  /** An event outside the essay's text may be recorded. */
  method Record(p: Participant) returns (ghost added: seq<Event>)
    requires p.Conserved() && p.tracking
    modifies p`queue, p`timers, p`log
    ensures p.Conserved() && p.log == old(p.log) + added && forall e :: e in added ==> !EssayText(e)
  {
    added := [];
    var e: Event := *;
    if !EssayText(e) {
      Track(p, e);
      added := [e];
    }
  }

  /** Time passes and timers fire; a call may be made and the queue may be flushed. */
  method Pass(p: Participant) returns (ok: bool)
    requires p.Conserved()
    modifies p`t, p`queue, p`timers, p`wire, p`sent, p`activeSince, p`away
    ensures Served(p.server, old(p.wire), p.wire, ok)
    ensures (ok ==> p.Conserved()) && p.t >= old(p.t)
  {
    ghost var before := p.wire;
    p.away := *;
    var wait := AtLeastInt(0);
    p.t := p.t + wait;
    ok := Call(p);
    var flush: bool := *;
    if ok && flush {
      ghost var middle, batches := p.wire, [];
      ok, batches := p.Flush(p.t + 60 * MS, true);
      ServedThen(p.server, before, middle, p.wire, ok);
    }
  }

  /** The other branches of run_op: chats, absences and copies. */
  method RunOther(p: Participant) returns (ok: bool, ghost added: seq<Event>)
    requires p.Conserved() && p.tracking
    modifies p`t, p`queue, p`timers, p`log, p`wire, p`sent, p`activeSince, p`away
    ensures Served(p.server, old(p.wire), p.wire, ok)
    ensures ok ==> p.Conserved() && Left(old(p.log), old(p.t), p.log, p.t, added, "")
  {
    ghost var before, start := p.log, p.wire;
    added, ok := [], true;
    var steps := AtLeastInt(0);
    for k := 0 to steps
      invariant ok && Served(p.server, start, p.wire, true)
      invariant p.Conserved() && p.log == before + added && p.t >= old(p.t)
      invariant forall e :: e in added ==> !EssayText(e)
    {
      ghost var more, middle := [], p.wire;
      more := Record(p);
      Assoc(before, added, more);
      added := added + more;
      ok := Pass(p);
      ServedThen(p.server, start, middle, p.wire, ok);
      if !ok {
        return;
      }
    }
    WritesNothing(added);
  }

  // ---------------------------------------------------------------- the whole task

  /** The pieces as the log has them. */
  function Logged(pieces: seq<EssayPlan.Piece>): seq<EssayPlan.Piece> {
    if pieces == [] then []
    else [if pieces[0].Pasted? then EssayPlan.Pasted(Shorten(pieces[0].text)) else pieces[0]] + Logged(pieces[1..])
  }

  lemma {:induction false} LoggedConcat(a: seq<EssayPlan.Piece>, b: seq<EssayPlan.Piece>)
    ensures EssayPlan.Spell(Logged(a + b)) == EssayPlan.Spell(Logged(a)) + EssayPlan.Spell(Logged(b))
  {
    if a == [] {
      assert a + b == b;
    } else {
      LoggedConcat(a[1..], b);
      Uncons(a, b);
      Assoc(Logged(a)[0].text, EssayPlan.Spell(Logged(a[1..])), EssayPlan.Spell(Logged(b)));
    }
  }

  /** The log has the text itself exactly when no pasted piece is longer than it keeps. */
  lemma {:induction false} LoggedExactly(pieces: seq<EssayPlan.Piece>)
    ensures |EssayPlan.Spell(Logged(pieces))| <= |EssayPlan.Spell(pieces)|
    ensures EssayPlan.Spell(Logged(pieces)) == EssayPlan.Spell(pieces)
      <==> forall p :: p in EssayPlan.PastesOf(pieces) ==> |p| <= PASTE_LIMIT
  {
    if pieces != [] {
      LoggedExactly(pieces[1..]);
      var first := if pieces[0].Pasted? then Shorten(pieces[0].text) else pieces[0].text;
      assert Logged(pieces)[1..] == Logged(pieces[1..]);
      assert EssayPlan.Spell(Logged(pieces)) == first + EssayPlan.Spell(Logged(pieces[1..]));
      if first == pieces[0].text {
        SameTail(first, EssayPlan.Spell(Logged(pieces[1..])), EssayPlan.Spell(pieces[1..]));
        assert pieces[0].Pasted? ==> |pieces[0].text| <= PASTE_LIMIT;
      } else {
        assert pieces[0].text in EssayPlan.PastesOf(pieces);
        assert |first| < |pieces[0].text|;
      }
    }
  }

  lemma SameTail(first: string, a: string, b: string)
    ensures first + a == first + b <==> a == b
  {
    assert (first + a)[|first|..] == a && (first + b)[|first|..] == b;
  }

  function OpText(op: EssayOrder.Op): string {
    EssayPlan.Spell(EssayOrder.PieceOf(op))
  }

  function OpLogged(op: EssayOrder.Op): string {
    EssayPlan.Spell(Logged(EssayOrder.PieceOf(op)))
  }

  /** run_op for one operation; the draft grows by what the operation adds to the essay. */
  method RunOp(p: Participant, op: EssayOrder.Op, draft: string) returns (ok: bool, ghost added: seq<Event>, draft': string)
    requires p.Conserved() && p.tracking && EssayOrder.Planned(op)
    modifies p`t, p`queue, p`timers, p`log, p`wire, p`sent, p`activeSince, p`away
    ensures Served(p.server, old(p.wire), p.wire, ok)
    ensures ok ==> p.Conserved() && Left(old(p.log), old(p.t), p.log, p.t, added, OpLogged(op))
    ensures draft' == draft + OpText(op)
  {
    OneText(op);
    match op {
      case Write(text, keys, duration) =>
        ok, added := RunWrite(p, text, keys, duration);
        draft' := draft + text;
      case Insert(text) =>
        ok, added := RunInsert(p, text);
        draft' := draft + text;
      case _ =>
        ok, added := RunOther(p);
        draft' := draft;
    }
  }

  lemma SpellOne(piece: EssayPlan.Piece)
    ensures EssayPlan.Spell([piece]) == piece.text && Logged([piece])[1..] == []
  {
  }

  lemma OneText(op: EssayOrder.Op)
    ensures op.Write? ==> OpText(op) == op.text && OpLogged(op) == op.text
    ensures op.Insert? ==> OpText(op) == op.text && OpLogged(op) == Shorten(op.text)
    ensures op.Ask? || op.Extra? ==> OpText(op) == "" && OpLogged(op) == ""
  {
    match op
    case Write(text, _, _) => SpellOne(EssayPlan.Typed(text));
    case Insert(text) =>
      SpellOne(EssayPlan.Pasted(text));
      SpellOne(EssayPlan.Pasted(Shorten(text)));
    case _ =>
  }

  lemma LeftThenLeft(before: seq<Event>, since: int, mid: seq<Event>, y: int, after: seq<Event>, now: int,
      a: seq<Event>, s: string, b: seq<Event>, t: string)
    requires Left(before, since, mid, y, a, s) && Left(mid, y, after, now, b, t)
    ensures Left(before, since, after, now, a + b, s + t)
  {
    WritesConcat(a, s, b, t);
    StampedConcat(a, b, since, y, now);
    Assoc(before, a, b);
  }

  function Drafted(ops: seq<EssayOrder.Op>): string {
    EssayPlan.Spell(EssayOrder.PiecesIn(ops))
  }

  function DraftLogged(ops: seq<EssayOrder.Op>): string {
    EssayPlan.Spell(Logged(EssayOrder.PiecesIn(ops)))
  }

  lemma DraftNext(ops: seq<EssayOrder.Op>, i: nat)
    requires i < |ops|
    ensures Drafted(ops[..i + 1]) == Drafted(ops[..i]) + OpText(ops[i])
    ensures DraftLogged(ops[..i + 1]) == DraftLogged(ops[..i]) + OpLogged(ops[i])
  {
    assert ops[..i + 1] == ops[..i] + [ops[i]];
    EssayOrder.OneMore(ops[..i], ops[i]);
    EssayPlan.SpellConcat(EssayOrder.PiecesIn(ops[..i]), EssayOrder.PieceOf(ops[i]));
    LoggedConcat(EssayOrder.PiecesIn(ops[..i]), EssayOrder.PieceOf(ops[i]));
  }

  /** A gap before an operation, during which the network may fail. */
  method Wait(p: Participant)
    modifies p`t, p`offline
    ensures p.t >= old(p.t)
  {
    var gap := AtLeastInt(0);
    p.t := p.t + gap * MS;
    var fails: bool := *;
    if fails && p.offline.None? {
      var seconds := AtLeastInt(0);
      p.offline := Some((p.t, p.t + seconds * NS));
    }
  }

  /** A gap and the operation behind it. */
  method WaitAndRun(p: Participant, op: EssayOrder.Op, draft: string) returns (ok: bool, ghost added: seq<Event>, draft': string)
    requires p.Conserved() && p.tracking && EssayOrder.Planned(op)
    modifies p`t, p`queue, p`timers, p`log, p`wire, p`sent, p`activeSince, p`away, p`offline
    ensures Served(p.server, old(p.wire), p.wire, ok)
    ensures ok ==> p.Conserved() && Left(old(p.log), old(p.t), p.log, p.t, added, OpLogged(op))
    ensures draft' == draft + OpText(op)
  {
    ghost var since, log := p.t, p.log;
    Wait(p);
    ghost var resumed := p.t;
    ok, added, draft' := RunOp(p, op, draft);
    if ok {
      LeftEarlier(log, since, resumed, p.log, p.t, added, OpLogged(op));
    }
  }

  lemma LeftEarlier(before: seq<Event>, x: int, y: int, log: seq<Event>, now: int, added: seq<Event>, text: string)
    requires Left(before, y, log, now, added, text) && x <= y
    ensures Left(before, x, log, now, added, text)
  {
  }

  /** The body of the loop over the operations. */
  method RunNext(p: Participant, ops: seq<EssayOrder.Op>, i: nat, ghost before: seq<Event>, ghost since: int,
      ghost added: seq<Event>, draft: string) returns (ok: bool, ghost added': seq<Event>, draft': string)
    requires i < |ops| && p.Conserved() && p.tracking && EssayOrder.Planned(ops[i])
    requires Left(before, since, p.log, p.t, added, DraftLogged(ops[..i])) && draft == Drafted(ops[..i])
    modifies p`t, p`queue, p`timers, p`log, p`wire, p`sent, p`activeSince, p`away, p`offline
    ensures Served(p.server, old(p.wire), p.wire, ok)
    ensures ok ==> p.Conserved() && Left(before, since, p.log, p.t, added', DraftLogged(ops[..i + 1]))
    ensures draft' == Drafted(ops[..i + 1])
  {
    ghost var mid, reached := p.log, p.t;
    ghost var more;
    ok, more, draft' := WaitAndRun(p, ops[i], draft);
    added' := added + more;
    DraftNext(ops, i);
    if ok {
      LeftThenLeft(before, since, mid, reached, p.log, p.t, added, DraftLogged(ops[..i]), more, OpLogged(ops[i]));
    }
  }

  /** The loop over the operations; it goes through exactly if the server's status is fine each time. */
  method RunOps(p: Participant, ops: seq<EssayOrder.Op>) returns (ok: bool, ghost added: seq<Event>, draft: string)
    requires p.Conserved() && p.tracking && EssayOrder.AllPlanned(ops)
    modifies p`t, p`queue, p`timers, p`log, p`wire, p`sent, p`activeSince, p`away, p`offline
    ensures Served(p.server, old(p.wire), p.wire, ok)
    ensures ok ==> p.Conserved() && Left(old(p.log), old(p.t), p.log, p.t, added, DraftLogged(ops)) && draft == Drafted(ops)
  {
    ghost var before, since, start := p.log, p.t, p.wire;
    ok, added, draft := true, [], "";
    WritesNothing([]);
    for i := 0 to |ops|
      invariant ok && Served(p.server, start, p.wire, true) && p.Conserved()
      invariant Left(before, since, p.log, p.t, added, DraftLogged(ops[..i])) && draft == Drafted(ops[..i])
    {
      ghost var middle := p.wire;
      ok, added, draft := RunNext(p, ops, i, before, since, added, draft);
      ServedThen(p.server, start, middle, p.wire, ok);
      if !ok {
        return;
      }
    }
    assert ops[..|ops|] == ops;
  }

  /** The operations of an essay: its chats and pieces lined up by slot, with extras among them. */
  ghost predicate LinedUp(text: string, chats: seq<EssayOrder.Chat>, ops: seq<EssayOrder.Op>, cuts: seq<nat>, slots: seq<nat>) {
    var pieces := EssayOrder.PiecesOf(text, chats);
    && |slots| == |chats| && EssayOrder.Pushed(slots, chats, pieces, |chats|)
    && EssayOrder.AllPlanned(ops)
    && EssayOrder.ChatsIn(ops) == EssayOrder.Range(|chats|) && EssayOrder.PiecesIn(ops) == pieces
    && |cuts| == |pieces| && EssayOrder.Placed(ops, cuts, slots, pieces)
  }

  /** essay_task up to its operations; None when a paste does not occur in the pieces, where next() raises
      StopIteration. */
  method PlanEssay(text: string, chats: seq<EssayOrder.Chat>, extras: nat, typist: EssayOrder.Typist)
    returns (r: Option<seq<EssayOrder.Op>>, ghost cuts: seq<nat>, ghost slots: seq<nat>)
    ensures r == None <==> exists i :: 0 <= i < |chats| && EssayOrder.Missing(chats, EssayOrder.PiecesOf(text, chats), i)
    ensures r.Some? ==> LinedUp(text, chats, r.value, cuts, slots)
  {
    cuts, slots := [], [];
    var pastes := EssayOrder.PastesWanted(chats);
    var segments := EssayPlan.SplitSegments(text, pastes);
    var pieces := EssayPlan.MakePieces(segments);
    assert pieces == EssayOrder.PiecesOf(text, chats);
    var pushed := EssayOrder.MakeSlots(chats, pieces);
    if pushed.None? {
      return None, cuts, slots;
    }
    slots := pushed.value;
    EssayOrder.PushedRises(slots, chats, pieces);
    var ops;
    ops, cuts := EssayOrder.LineUp(pieces, pushed.value, typist);
    ops, cuts := EssayExtras.InsertExtras(ops, extras, cuts, slots, pieces);
    r := Some(ops);
  }

  /** How essay_task ends: next() raised, a request failed, or all operations were run. */
  datatype Ending = PasteMissing | RequestFailed | Written

  /** essay_task from the cut of the text to the end of the operations. */
  method EssayTask(p: Participant, text: string, chats: seq<EssayOrder.Chat>, extras: nat, typist: EssayOrder.Typist)
    returns (r: Ending, ghost added: seq<Event>, draft: string, ghost ops: seq<EssayOrder.Op>, ghost cuts: seq<nat>, ghost slots: seq<nat>)
    requires p.Conserved() && p.tracking
    modifies p`t, p`queue, p`timers, p`log, p`wire, p`sent, p`activeSince, p`away, p`offline
    ensures r == PasteMissing <==> exists i :: 0 <= i < |chats| && EssayOrder.Missing(chats, EssayOrder.PiecesOf(text, chats), i)
    ensures r != PasteMissing ==> Served(p.server, old(p.wire), p.wire, r == Written) && LinedUp(text, chats, ops, cuts, slots)
    ensures r == Written ==> p.Conserved() && draft == text
    ensures r == Written ==>
      Left(old(p.log), old(p.t), p.log, p.t, added, EssayPlan.Spell(Logged(EssayOrder.PiecesOf(text, chats))))
  {
    added, draft, ops := [], "", [];
    var plan;
    plan, cuts, slots := PlanEssay(text, chats, extras, typist);
    if plan.None? {
      return PasteMissing, added, draft, ops, cuts, slots;
    }
    ops := plan.value;
    EssayOrder.PiecesSpellText(text, chats);
    var ok;
    ok, added, draft := RunOps(p, plan.value);
    r := if ok then Written else RequestFailed;
  }

  /** The essay comes back from the log exactly when every paste cut out of it is at most 20000 characters. */
  lemma EssayComesBackExactly(text: string, chats: seq<EssayOrder.Chat>, added: seq<Event>)
    requires Writes(added, EssayPlan.Spell(Logged(EssayOrder.PiecesOf(text, chats))))
    ensures Shown("", added) == text <==> PastesFit(text, chats)
  {
    EssayOrder.PiecesSpellText(text, chats);
    LoggedExactly(EssayOrder.PiecesOf(text, chats));
    var logged := EssayPlan.Spell(Logged(EssayOrder.PiecesOf(text, chats)));
    assert Shown("", added) == "" + logged == logged;
  }

  predicate PastesFit(text: string, chats: seq<EssayOrder.Chat>) {
    forall p :: p in EssayPlan.PastesOf(EssayPlan.Split(text, EssayOrder.PastesWanted(chats))) ==> |p| <= PASTE_LIMIT
  }

  lemma WholePaste(text: string)
    requires text != ""
    ensures EssayPlan.Split(text, [text]) == [EssayPlan.Pasted(text)]
  {
    assert text[0..|text|] == text;
    EssayPlan.FindIs(text, text, 0);
    assert [text][..0] == [];
    assert EssayPlan.ProgressAfter(text, []) == EssayPlan.Progress([], text);
    assert EssayPlan.Cut(text, text, 0) == [EssayPlan.Pasted(text)];
    assert text[|text|..] == "";
  }

  /** An essay that is one paste of 20001 characters does not fit. */
  lemma LongPasteIsCut(text: string, chats: seq<EssayOrder.Chat>)
    requires |text| == PASTE_LIMIT + 1 && chats == [EssayOrder.Chat(text)]
    ensures !PastesFit(text, chats)
    ensures forall added: seq<Event> :: Writes(added, EssayPlan.Spell(Logged(EssayOrder.PiecesOf(text, chats)))) ==> Shown("", added) != text
  {
    assert EssayOrder.PastesWanted(chats) == [text] by {
      assert chats[..0] == [];
    }
    WholePaste(text);
    assert text in EssayPlan.PastesOf([EssayPlan.Pasted(text)]);
    forall added: seq<Event> | Writes(added, EssayPlan.Spell(Logged(EssayOrder.PiecesOf(text, chats))))
      ensures Shown("", added) != text
    {
      EssayComesBackExactly(text, chats, added);
    }
  }

  // ---------------------------------------------------------------- independence of the order of arrival

  /** The events of the essay's text, in the order of the log. */
  function Essays(log: seq<Event>): seq<Event> {
    if log == [] then [] else Essays(log[..|log| - 1]) + (if EssayText(log[|log| - 1]) then [log[|log| - 1]] else [])
  }

  lemma {:induction false} ShownByEssays(text: string, log: seq<Event>)
    ensures Shown(text, Essays(log)) == Shown(text, log)
  {
    if log != [] {
      var init, last := log[..|log| - 1], log[|log| - 1];
      ShownByEssays(text, init);
      if EssayText(last) {
        ShownOneMore(text, Essays(init), last);
      } else {
        assert Essays(init) + [] == Essays(init);
      }
    }
  }

  lemma {:induction false} EssaysMembers(log: seq<Event>, e: Event)
    ensures multiset(Essays(log))[e] == if EssayText(e) then multiset(log)[e] else 0
  {
    if log != [] {
      var init, last := log[..|log| - 1], log[|log| - 1];
      EssaysMembers(init, e);
      assert log == init + [last];
    }
  }

  ghost predicate Chronological(events: seq<Event>) {
    forall i, j :: 0 <= i < j < |events| ==> events[i].at < events[j].at
  }

  lemma LastIsLargest(a: seq<Event>, b: seq<Event>)
    requires Chronological(a) && Chronological(b) && multiset(a) == multiset(b) && a != [] && b != []
    ensures a[|a| - 1] == b[|b| - 1]
  {
    var x, y := a[|a| - 1], b[|b| - 1];
    assert x in multiset(a) && y in multiset(b);
    assert x in b && y in a;
  }

  lemma WithoutLast(a: seq<Event>)
    requires a != []
    ensures multiset(a[..|a| - 1]) == multiset(a) - multiset{a[|a| - 1]}
  {
    assert a == a[..|a| - 1] + [a[|a| - 1]];
  }

  /** Sorting by strictly increasing times leaves no choice. */
  lemma {:induction false} OneOrder(a: seq<Event>, b: seq<Event>)
    requires Chronological(a) && Chronological(b) && multiset(a) == multiset(b)
    ensures a == b
    decreases |a|
  {
    assert |a| == |multiset(a)| == |multiset(b)| == |b|;
    if a != [] {
      LastIsLargest(a, b);
      WithoutLast(a);
      WithoutLast(b);
      OneOrder(a[..|a| - 1], b[..|b| - 1]);
    }
  }

  lemma {:induction false} EssaysStamped(events: seq<Event>, from: int, until: int)
    requires Stamped(events, from, until)
    ensures Chronological(Essays(events))
    ensures forall e :: e in Essays(events) ==> e in events && EssayText(e)
  {
    if events != [] {
      var init, last := events[..|events| - 1], events[|events| - 1];
      EssaysStamped(init, from, until);
      forall e | e in Essays(init) && EssayText(last)
        ensures e.at < last.at
      {
        assert e in init;
      }
    }
  }

  /** Whatever the order in which the events arrive: sorted by time, the essay events read as the log does. */
  lemma ArrivalOrderDoesNotMatter(added: seq<Event>, received: seq<Event>, from: int, until: int)
    requires Stamped(added, from, until)
    requires multiset(received) == multiset(added) && Chronological(Essays(received))
    ensures Shown("", received) == Shown("", added)
  {
    EssaysStamped(added, from, until);
    forall e: Event
      ensures multiset(Essays(received))[e] == multiset(Essays(added))[e]
    {
      EssaysMembers(received, e);
      EssaysMembers(added, e);
    }
    OneOrder(Essays(received), Essays(added));
    ShownByEssays("", received);
    ShownByEssays("", added);
  }

  /** Everything posted and everything still queued, sorted by time, gives what was written. */
  lemma WhatWasSentReadsAsTheEssay(before: seq<Event>, added: seq<Event>, sent: seq<Event>, queue: seq<Event>, received: seq<Event>,
      from: int, until: int)
    requires multiset(before + added) == multiset(sent) + multiset(queue)
    requires multiset(received) == multiset(sent) + multiset(queue) && Chronological(Essays(received))
    requires Stamped(added, from, until) && forall e :: e in before ==> !EssayText(e)
    ensures Shown("", received) == Shown("", added)
  {
    assert Stamped(before + added, from, until);
    ArrivalOrderDoesNotMatter(before + added, received, from, until);
    ShownConcat("", before, added);
    ShownNothing("", before);
  }

  /** From a text, its chats and any draws to the reader: when the task is written, what was posted and what is still
      queued, sorted by time, shows the essay exactly if every paste cut out of it is at most 20000 characters. */
  method WriteAndRead(p: Participant, text: string, chats: seq<EssayOrder.Chat>, extras: nat, typist: EssayOrder.Typist)
    returns (r: Ending)
    requires p.Conserved() && p.tracking && forall e :: e in p.log ==> !EssayText(e)
    modifies p`t, p`queue, p`timers, p`log, p`wire, p`sent, p`activeSince, p`away, p`offline
    ensures r == PasteMissing <==> exists i :: 0 <= i < |chats| && EssayOrder.Missing(chats, EssayOrder.PiecesOf(text, chats), i)
    ensures r != PasteMissing ==> Served(p.server, old(p.wire), p.wire, r == Written)
    ensures r == Written ==> forall received |
      multiset(received) == multiset(p.sent) + multiset(p.queue) && Chronological(Essays(received)) ::
      Shown("", received) == text <==> PastesFit(text, chats)
  {
    ghost var before, since := p.log, p.t;
    var draft;
    ghost var added, ops, cuts, slots;
    r, added, draft, ops, cuts, slots := EssayTask(p, text, chats, extras, typist);
    if r == Written {
      forall received | multiset(received) == multiset(p.sent) + multiset(p.queue) && Chronological(Essays(received))
        ensures Shown("", received) == text <==> PastesFit(text, chats)
      {
        WhatWasSentReadsAsTheEssay(before, added, p.sent, p.queue, received, since, p.t);
        EssayComesBackExactly(text, chats, added);
      }
    }
  }
}
