/**
 Keystroke plans of the synthetic participants: a text is compiled to key presses with typing errors that are
 corrected at once, shift presses and pauses.  The partner of the compiler is the replay of a plan, which
 applies each press to the text typed so far.
 */
module Typing {
  import opened Random

  datatype KeyClass = Printable | Whitespace | Enter | Backspace | Modifier | Shortcut

  /** A press: offset in ms from the start of the plan, key, class, hold time in ms. */
  datatype Key = Key(offset: int, value: string, cls: KeyClass, hold: int, shift: bool)

  /** What a press does to the text before the cursor. */
  function Strike(text: string, k: Key): string {
    match k.cls
    case Printable => text + k.value
    case Whitespace => text + k.value
    case Enter => text + ['\n']
    case Backspace => if text == [] then [] else text[..|text| - 1]
    case Modifier => text
    case Shortcut => text
  }

  function Replay(text: string, keys: seq<Key>): string {
    if keys == [] then text else Strike(Replay(text, keys[..|keys| - 1]), keys[|keys| - 1])
  }

  lemma ReplayOneMore(text: string, keys: seq<Key>, k: Key)
    ensures Replay(text, keys + [k]) == Strike(Replay(text, keys), k)
  {
  }

  lemma {:induction false} ReplayConcat(text: string, a: seq<Key>, b: seq<Key>)
    ensures Replay(text, a + b) == Replay(Replay(text, a), b)
    decreases |b|
  {
    if b == [] {
      assert a + b == a;
    } else {
      var init, last := b[..|b| - 1], b[|b| - 1];
      ReplayConcat(text, a, init);
      assert a + b == (a + init) + [last] && b == init + [last];
      ReplayOneMore(text, a + init, last);
    }
  }

  /** Whatever was typed before, the keys append exactly this text. */
  ghost predicate Types(keys: seq<Key>, text: string) {
    forall before: string :: Replay(before, keys) == before + text
  }

  lemma TypesNothing()
    ensures Types([], "")
  {
  }

  lemma TypesOneMore(keys: seq<Key>, text: string, k: Key, c: char)
    requires Types(keys, text)
    requires (k.value == [c] && (k.cls.Printable? || k.cls.Whitespace?)) || (k.cls.Enter? && c == '\n')
    ensures Types(keys + [k], text + [c])
  {
  }

  lemma TypesIgnored(keys: seq<Key>, text: string, k: Key)
    requires Types(keys, text) && (k.cls.Modifier? || k.cls.Shortcut?)
    ensures Types(keys + [k], text)
  {
    forall before: string
      ensures Replay(before, keys + [k]) == before + text
    {
      ReplayOneMore(before, keys, k);
    }
  }

  lemma TypesSingle(k: Key, c: char)
    requires (k.value == [c] && (k.cls.Printable? || k.cls.Whitespace?)) || (k.cls.Enter? && c == '\n')
    ensures Types([k], [c])
  {
  }

  lemma TypesAfterModifier(shift: Key, k: Key, c: char)
    requires shift.cls.Modifier? && k.value == [c] && k.cls.Printable?
    ensures Types([shift, k], [c])
  {
    TypesNothing();
    TypesIgnored([], "", shift);
    TypesOneMore([] + [shift], "", k, c);
    assert [] + [shift] + [k] == [shift, k] && "" + [c] == [c];
  }

  /** A wrong letter and the backspace after it cancel. */
  lemma TypesCorrection(keys: seq<Key>, text: string, wrong: Key, back: Key, c: char)
    requires Types(keys, text) && wrong.cls.Printable? && wrong.value == [c] && back.cls.Backspace?
    ensures Types(keys + [wrong] + [back], text)
  {
  }

  /** Offsets strictly increase and are all below the bound. */
  ghost predicate Timed(keys: seq<Key>, bound: int) {
    && (forall i, j :: 0 <= i < j < |keys| ==> keys[i].offset < keys[j].offset)
    && (forall i :: 0 <= i < |keys| ==> 0 <= keys[i].offset < bound && keys[i].hold > 0)
  }

  /** The nested function press: time passes, the key goes down for a random while. */
  method Press(at: real, value: string, cls: KeyClass, shift: bool, gap: real) returns (later: real, k: Key)
    requires at >= 0.0 && gap >= 38.0
    ensures later == at + gap && k.offset == later.Floor && k.offset > at.Floor
    ensures k.value == value && k.cls == cls && k.shift == shift
    ensures if cls.Modifier? then 160 <= k.hold <= 420 else 55 <= k.hold <= 150
  {
    later := at + gap;
    var hold;
    if cls == Modifier {
      hold := RandInt(160, 420);
    } else {
      hold := RandInt(55, 150);
    }
    k := Key(later.Floor, value, cls, hold, shift);
  }

  /** The nested function interval: a log-normal draw of at least 38 ms. */
  method Interval() returns (gap: real)
    ensures gap >= 38.0
  {
    gap := AtLeast(38.0);
  }

  predicate Shifted(c: char) {
    c in "~!@#$%^&*()_+{}|:\"<>?"
  }

  /** The pause that plan_typing may insert at the end of a sentence or between words. */
  method Pause(previous: string, c: char, careless: bool) returns (pause: int)
    ensures pause >= 0
  {
    pause := 0;
    var often, seldom: bool := *, *;
    if (previous == "" || previous in [".", "?", "!"]) && c == ' ' && !careless && often {
      pause := RandInt(1800, 7500);
    } else if c == ' ' && !careless && seldom {
      pause := RandInt(2100, 5200);
    }
  }

  /** Presses that come after each other, the first after a given time. */
  ghost predicate Follows(keys: seq<Key>, at: real, later: real) {
    && later >= at >= 0.0 && Timed(keys, later.Floor + 1)
    && forall i :: 0 <= i < |keys| ==> keys[i].offset > at.Floor
  }

  lemma FollowsConcat(a: seq<Key>, b: seq<Key>, x: real, y: real, z: real)
    requires Follows(a, x, y) && Follows(b, y, z)
    ensures Follows(a + b, x, z)
  {
  }

  /** A wrong letter, corrected at once. */
  method Mistake(at: real) returns (later: real, keys: seq<Key>)
    requires at >= 0.0
    ensures Types(keys, "") && Follows(keys, at, later)
  {
    var wrong: char := *;
    var gap := Interval();
    var k, back;
    later, k := Press(at, [wrong], Printable, false, gap);
    var correction := RandInt(160, 520);
    later, back := Press(later, "Backspace", Backspace, false, correction as real);
    TypesNothing();
    TypesCorrection([], "", k, back, wrong);
    assert [] + [k] + [back] == [k, back];
    keys := [k, back];
  }

  /** The press for one character other than a line break, with the shift key where needed. */
  method Character(at: real, c: char, isUpper: bool) returns (later: real, keys: seq<Key>)
    requires at >= 0.0
    ensures Types(keys, [c]) && Follows(keys, at, later)
  {
    var k;
    var gap := Interval();
    if isUpper || Shifted(c) {
      var shift;
      later, shift := Press(at, "Shift", Modifier, true, gap);
      var reach := RandInt(60, 160);
      later, k := Press(later, [c], Printable, true, reach as real);
      TypesAfterModifier(shift, k, c);
      keys := [shift, k];
    } else {
      later, k := Press(at, [c], if c == ' ' || c == '\t' then Whitespace else Printable, false, gap);
      TypesSingle(k, c);
      keys := [k];
    }
  }

  /** A line break, with a longer pause before an empty line. */
  method LineBreak(at: real, previous: string) returns (later: real, keys: seq<Key>)
    requires at >= 0.0
    ensures Types(keys, "\n") && Follows(keys, at, later)
  {
    var gap := Interval();
    var extra := 400;
    if previous == "\n" {
      extra := RandInt(2500, 14000);
    }
    var k;
    later, k := Press(at, "Enter", Enter, false, gap + extra as real);
    TypesSingle(k, '\n');
    keys := [k];
  }

  lemma TypesConcat(a: seq<Key>, s: string, b: seq<Key>, t: string)
    requires Types(a, s) && Types(b, t)
    ensures Types(a + b, s + t)
  {
    forall before: string
      ensures Replay(before, a + b) == before + (s + t)
    {
      ReplayConcat(before, a, b);
      assert before + (s + t) == (before + s) + t;
    }
  }

  /** plan_typing.  For every text and every draw, replaying the plan types exactly the text; the presses are
      in strictly increasing time order, and all before the duration is over. */
  method PlanTyping(text: string, careless: bool, isLetter: char -> bool, isUpper: char -> bool)
    returns (keys: seq<Key>, duration: int)
    ensures Types(keys, text)
    ensures Timed(keys, duration) && duration >= 200
  {
    keys := [];
    var at := 0.0;
    var previous := "";
    TypesNothing();
    for index := 0 to |text|
      invariant Types(keys, text[..index]) && Follows(keys, 0.0, at)
    {
      var c := text[index];
      var more;
      var now;
      if c == '\n' {
        now, more := LineBreak(at, previous);
      } else {
        var pause := Pause(previous, c, careless);
        var mistake: bool := *;
        var correction := [];
        now := at + pause as real;
        TypesNothing();
        if isLetter(c) && mistake {
          now, correction := Mistake(now);
        }
        var strikes;
        ghost var middle := now;
        now, strikes := Character(now, c, isUpper(c));
        TypesConcat(correction, "", strikes, [c]);
        FollowsConcat(correction, strikes, at, middle, now);
        assert "" + [c] == [c];
        more := correction + strikes;
      }
      TypesConcat(keys, text[..index], more, [c]);
      FollowsConcat(keys, more, 0.0, at, now);
      assert text[..index + 1] == text[..index] + [c];
      keys, at := keys + more, now;
      previous := [c];
    }
    assert text[..|text|] == text;
    duration := at.Floor + 200;
  }
}
