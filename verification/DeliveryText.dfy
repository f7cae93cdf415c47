/**
 The JSON texts whose sizes the queue limits speak of (RFC 8259): the sizes of module DeliveryQueue are the lengths
 of these texts.  An event's own text is given, and characters are bytes.
 */
module DeliveryText {
  import opened Common
  import opened DeliveryQueue

  // ---------------------------------------------------------------- numbers

  const DIGITS := "0123456789"

  /** JSON.stringify of a natural number. */
  function Numeral(n: nat): (r: string)
    ensures r != ""
  {
    if n < 10 then [DIGITS[n]] else Numeral(n / 10) + [DIGITS[n % 10]]
  }

  function Value(s: string): nat {
    if s == "" then 0 else 10 * Value(s[..|s| - 1]) + if '0' <= s[|s| - 1] <= '9' then (s[|s| - 1] - '0') as nat else 0
  }

  lemma DigitValue(n: nat)
    requires n < 10
    ensures '0' <= DIGITS[n] <= '9' && (DIGITS[n] - '0') as nat == n
  {
  }

  /** The numeral is the number's, without leading zeros, and has as many digits as Digits says. */
  lemma {:induction false} NumeralReads(n: nat)
    ensures Value(Numeral(n)) == n && |Numeral(n)| == Digits(n)
    ensures n > 0 ==> Numeral(n)[0] != '0'
  {
    DigitValue(n % 10);
    if n >= 10 {
      NumeralReads(n / 10);
      assert Numeral(n)[..|Numeral(n)| - 1] == Numeral(n / 10);
    } else {
      assert Numeral(n)[..0] == "" && Value("") == 0;
    }
  }

  // ---------------------------------------------------------------- arrays and objects

  function Quoted(text: string): string {
    "\"" + text + "\""
  }

  /** Elements with commas between them. */
  function Listed(texts: seq<string>): string {
    if texts == [] then "" else if |texts| == 1 then texts[0] else texts[0] + "," + Listed(texts[1..])
  }

  ghost predicate TextsOf(texts: seq<string>, events: seq<Event>) {
    |texts| == |events| && forall i :: 0 <= i < |events| ==> |texts[i]| == events[i].bytes
  }

  lemma {:induction false} ListedLength(texts: seq<string>, events: seq<Event>)
    requires TextsOf(texts, events)
    ensures |Listed(texts)| == SumBytes(events) + if events == [] then 0 else |events| - 1
  {
    if |events| > 1 {
      ListedLength(texts[1..], events[1..]);
    } else if |events| == 1 {
      assert SumBytes(events[1..]) == 0;
    }
  }

  function QueueText(q: Queue, texts: seq<string>): string {
    "{" + Quoted("sessionId") + ":" + (match q.sessionId case None => "null" case Some(id) => Quoted(id))
      + "," + Quoted("events") + ":" + "[" + Listed(texts) + "]"
      + "," + Quoted("dropped") + ":" + Numeral(q.dropped) + "}"
  }

  function BodyText(sessionId: string, version: nat, texts: seq<string>): string {
    "{" + Quoted("experiment_session_id") + ":" + Quoted(sessionId)
      + "," + Quoted("schema_version") + ":" + Numeral(version)
      + "," + Quoted("events") + ":" + "[" + Listed(texts) + "]" + "}"
  }

  lemma QueueTextLength(q: Queue, texts: seq<string>)
    requires TextsOf(texts, q.events)
    ensures |QueueText(q, texts)| == QueueBytes(q)
  {
    NumeralReads(q.dropped);
    ListedLength(texts, q.events);
  }

  lemma BodyTextLength(sessionId: string, version: nat, texts: seq<string>, events: seq<Event>)
    requires TextsOf(texts, events) && version < 10
    ensures |BodyText(sessionId, version, texts)| == BodyBytes(sessionId, events)
  {
    NumeralReads(version);
    ListedLength(texts, events);
  }

  // ---------------------------------------------------------------- the limits

  /** What the loop of enforceQueueLimit leaves: at most ten thousand events, and eight mebibytes of text unless it
      is empty. */
  lemma FitsExactly(q: Queue, texts: seq<string>)
    requires TextsOf(texts, q.events)
    ensures Fits(q) <==> |q.events| <= 10000 && (q.events == [] || |QueueText(q, texts)| <= 8_388_608)
  {
    QueueTextLength(q, texts);
  }

  /** A batch has at most a hundred events; the text sent has at most 220 kibibytes unless it carries a single event,
      and with one more event it would have as many or more. */
  lemma BatchTextWithinLimit(sessionId: string, version: nat, events: seq<Event>, texts: seq<string>, n: nat)
    requires IsBatchSize(sessionId, events, n) && TextsOf(texts, events) && version < 10
    ensures n <= 100 && (n > 1 ==> |BodyText(sessionId, version, texts[..n])| < 225_280)
    ensures 0 < n < |events| && n < 100 ==> |BodyText(sessionId, version, texts[..n + 1])| >= 225_280
  {
    BodyTextLength(sessionId, version, texts[..n], events[..n]);
    if 0 < n < |events| {
      BodyTextLength(sessionId, version, texts[..n + 1], events[..n + 1]);
    }
  }
}
