/** SamplingProcessor: one 64-bit counter per rendered (level, logger, message) key. */
module Sampling {
  import opened Arithmetic
  import opened Seqs

  const WORD: nat := 0x1_0000_0000_0000_0000

  datatype Event = Event(level: nat, logger: string, message: string)

  /** Rates after normalisation: zero means one. */
  datatype Rates = Rates(debug: nat, info: nat, warn: nat) {
    predicate Valid() { 0 < debug < WORD && 0 < info < WORD && 0 < warn < WORD }

    function EveryFor(level: nat): nat {
      match level
      case 0 => debug
      case 1 => info
      case 2 => warn
      case _ => 1
    }
  }

  function NormalizeEvery(v: nat): nat { if v == 0 then 1 else v }

  function Decimal(n: nat): string {
    if n < 10 then ["0123456789"[n]] else Decimal(n / 10) + ["0123456789"[n % 10]]
  }

  function CounterKey(e: Event): string { Decimal(e.level) + "|" + e.logger + "|" + e.message }

  /** Events that reach their counter: level below error and a rate above one. */
  predicate Sampled(r: Rates, e: Event) { r.EveryFor(e.level) > 1 && e.level < 3 }

  type Counters = map<string, nat>

  /** next: an absent counter starts at zero, and adding wraps. */
  function Next(cs: Counters, key: string): nat { ((if key in cs then cs[key] else 0) + 1) % WORD }

  /** Process: new counters, and whether the event is kept; n-1 wraps below zero as uint64 does. */
  function Decide(r: Rates, cs: Counters, e: Event): (Counters, bool)
    requires r.Valid()
  {
    if !Sampled(r, e) then (cs, true)
    else
      var n := Next(cs, CounterKey(e));
      (cs[CounterKey(e) := n], (n + WORD - 1) % WORD % r.EveryFor(e.level) == 0)
  }

  function Run(r: Rates, es: seq<Event>): Counters
    requires r.Valid()
  {
    if es == [] then map[] else Decide(r, Run(r, Front(es)), Last(es)).0
  }

  /** Events of the run with this key, and those of them that were kept. */
  function Seen(es: seq<Event>, key: string): nat {
    if es == [] then 0 else Seen(Front(es), key) + (if CounterKey(Last(es)) == key then 1 else 0)
  }

  function Kept(r: Rates, es: seq<Event>, key: string): nat
    requires r.Valid()
  {
    if es == [] then 0
    else Kept(r, Front(es), key) + (if CounterKey(Last(es)) == key && Decide(r, Run(r, Front(es)), Last(es)).1 then 1 else 0)
  }

  function CeilDiv(n: nat, e: nat): nat requires e > 0 { (n + e - 1) / e }

  /** What n calls at rate e keep: the counter restarts after WORD calls. */
  function Expected(n: nat, e: nat): nat requires e > 0 { n / WORD * CeilDiv(WORD, e) + CeilDiv(n % WORD, e) }

  predicate Digit(c: char) { '0' <= c <= '9' }

  lemma {:induction false} DecimalDigits(n: nat)
    ensures |Decimal(n)| > 0 && (n >= 10 ==> |Decimal(n)| > 1) && forall i :: 0 <= i < |Decimal(n)| ==> Digit(Decimal(n)[i])
  {
    if n >= 10 { DecimalDigits(n / 10); }
  }

  lemma KeyHead(e: Event)
    ensures var key := CounterKey(e);
            |key| > 1 && if e.level < 10 then key[0] == "0123456789"[e.level] && key[1] == '|' else Digit(key[1])
  {
    DecimalDigits(e.level);
    assert CounterKey(e)[0] == Decimal(e.level)[0];
    assert e.level >= 10 ==> CounterKey(e)[1] == Decimal(e.level)[1];
  }

  /** A key of debug, info or warn tells the level, so one such key has one rate. */
  lemma KeyLevel(e1: Event, e2: Event)
    requires e1.level <= 2 && CounterKey(e1) == CounterKey(e2)
    ensures e1.level == e2.level
  {
    KeyHead(e1);
    KeyHead(e2);
  }

  lemma CeilDivSnoc(n: nat, e: nat)
    requires e > 0
    ensures CeilDiv(n + 1, e) == CeilDiv(n, e) + (if n % e == 0 then 1 else 0)
  {
    var q, d := n / e, n % e;
    assert n == q * e + d;
    Quotient(n + e, e, q + 1, d);
    if d == 0 { Quotient(n + e - 1, e, q, e - 1); } else { Quotient(n + e - 1, e, q + 1, d - 1); }
  }

  lemma ExpectedSnoc(n: nat, e: nat)
    requires e > 0
    ensures Expected(n + 1, e) == Expected(n, e) + (if n % WORD % e == 0 then 1 else 0)
  {
    var q, d := n / WORD, n % WORD;
    assert n == q * WORD + d;
    CeilDivSnoc(d, e);
    if d + 1 < WORD {
      Quotient(n + 1, WORD, q, d + 1);
    } else {
      Quotient(n + 1, WORD, q + 1, 0);
      Quotient(e - 1, e, 0, e - 1);
      assert CeilDiv(0, e) == 0;
      assert (q + 1) * CeilDiv(WORD, e) == q * CeilDiv(WORD, e) + CeilDiv(WORD, e);
    }
  }

  lemma AddModulo(n: nat, k: nat)
    ensures (n % WORD + k) % WORD == (n + k) % WORD
  {
    var q := n / WORD;
    var m := n % WORD + k;
    assert n + k == q * WORD + m;
    assert m == m / WORD * WORD + m % WORD;
    assert n + k == (q + m / WORD) * WORD + m % WORD;
    Quotient(n + k, WORD, q + m / WORD, m % WORD);
  }

  /** Debug, info and warn events have the rate configured for them. */
  function RateOf(r: Rates, level: nat): nat { if level == 0 then r.debug else if level == 1 then r.info else r.warn }

  /** The counter of an event's key holds the number of events with that key, modulo the word. */
  lemma {:induction false} CounterCounts(r: Rates, es: seq<Event>, e: Event)
    requires r.Valid() && e.level <= 2 && RateOf(r, e.level) > 1
    ensures var key, cs := CounterKey(e), Run(r, es); (if key in cs then cs[key] else 0) == Seen(es, key) % WORD
  {
    if es != [] {
      CounterCounts(r, Front(es), e);
      AddModulo(Seen(Front(es), CounterKey(e)), 1);
      if CounterKey(Last(es)) == CounterKey(e) { KeyLevel(e, Last(es)); }
    }
  }

  /** The wrapped counter, less one and wrapped again, is the number of earlier calls modulo the word. */
  lemma WrappedIndex(n: nat)
    ensures ((n % WORD + 1) % WORD + WORD - 1) % WORD == n % WORD
  {
    var d := n % WORD;
    if d + 1 < WORD {
      Quotient(d + 1, WORD, 0, d + 1);
      Quotient(d + WORD, WORD, 1, d);
    } else {
      Quotient(d + 1, WORD, 1, 0);
      Quotient(WORD - 1, WORD, 0, WORD - 1);
    }
  }

  /** For any interleaving of any events, of n with one key at rate e exactly Expected(n, e) are kept. */
  lemma {:induction false} KeptCount(r: Rates, es: seq<Event>, e: Event)
    requires r.Valid() && e.level <= 2 && RateOf(r, e.level) > 1
    ensures Kept(r, es, CounterKey(e)) == Expected(Seen(es, CounterKey(e)), RateOf(r, e.level))
  {
    var key, every := CounterKey(e), RateOf(r, e.level);
    if es == [] {
      Quotient(0, WORD, 0, 0);
      Quotient(every - 1, every, 0, every - 1);
      assert Expected(0, every) == 0;
    } else {
      KeptCount(r, Front(es), e);
      if CounterKey(Last(es)) == key {
        KeyLevel(e, Last(es));
        var n := Seen(Front(es), key);
        CounterCounts(r, Front(es), e);
        WrappedIndex(n);
        ExpectedSnoc(n, every);
      }
    }
  }

  /** Up to one word of calls, that is the ceiling of n / e. */
  lemma ExpectedIsCeiling(n: nat, e: nat)
    requires e > 0 && n <= WORD
    ensures Expected(n, e) == CeilDiv(n, e)
  {
    if n < WORD {
      Quotient(n, WORD, 0, n);
    } else {
      Quotient(n, WORD, 1, 0);
      Quotient(e - 1, e, 0, e - 1);
    }
  }

  lemma DividingRate(n: nat, e: nat)
    requires e > 0 && WORD % e == 0
    ensures Expected(n, e) == CeilDiv(n, e)
  {
    var w, q, d := WORD / e, n / WORD, n % WORD;
    assert WORD == w * e;
    Quotient(WORD + e - 1, e, w, e - 1);
    var m := d + e - 1;
    assert m == m / e * e + m % e;
    assert n + e - 1 == q * WORD + m;
    assert q * WORD == q * w * e;
    assert n + e - 1 == (q * w + m / e) * e + m % e;
    Quotient(n + e - 1, e, q * w + m / e, m % e);
  }

  /** Beyond it, it stays the ceiling for every n exactly for rates that divide the word. */
  lemma CeilingForever(e: nat)
    requires e > 0
    ensures (forall n: nat :: Expected(n, e) == CeilDiv(n, e)) <==> WORD % e == 0
  {
    if WORD % e == 0 {
      forall n: nat ensures Expected(n, e) == CeilDiv(n, e) { DividingRate(n, e); }
    } else {
      // one call after the counter wraps
      Quotient(WORD + 1, WORD, 1, 1);
      CeilDivSnoc(WORD, e);
      CeilDivSnoc(0, e);
      Quotient(0, e, 0, 0);
      Quotient(e - 1, e, 0, e - 1);
      assert Expected(WORD + 1, e) == CeilDiv(WORD, e) + 1;
      assert CeilDiv(WORD + 1, e) == CeilDiv(WORD, e);
    }
  }

  // ---- keys ----

  predicate HasBar(s: string) { '|' in s }

  lemma Rest(e1: Event, e2: Event)
    requires e1.level < 10 && e2.level < 10 && CounterKey(e1) == CounterKey(e2)
    ensures e1.logger + "|" + e1.message == e2.logger + "|" + e2.message
  {
    assert CounterKey(e1)[2..] == e1.logger + "|" + e1.message;
    assert CounterKey(e2)[2..] == e2.logger + "|" + e2.message;
  }

  lemma FirstBar(logger: string, message: string)
    ensures (logger + "|" + message)[|logger|] == '|'
    ensures !HasBar(logger) ==> forall i :: 0 <= i < |logger| ==> (logger + "|" + message)[i] != '|'
  {
    forall i | 0 <= i < |logger| ensures (logger + "|" + message)[i] in logger { assert (logger + "|" + message)[i] == logger[i]; }
  }

  /** Loggers whose names have no bar never share a counter across distinct events. */
  lemma KeyInjective(e1: Event, e2: Event)
    requires e1.level <= 2 && !HasBar(e1.logger) && !HasBar(e2.logger)
    ensures CounterKey(e1) == CounterKey(e2) <==> e1 == e2
  {
    if CounterKey(e1) == CounterKey(e2) {
      KeyLevel(e1, e2);
      Rest(e1, e2);
      var s1, s2 := e1.logger + "|" + e1.message, e2.logger + "|" + e2.message;
      FirstBar(e1.logger, e1.message);
      FirstBar(e2.logger, e2.message);
      assert s1[..|e1.logger|] == e1.logger && s2[..|e2.logger|] == e2.logger;
      assert s1[|e1.logger| + 1..] == e1.message && s2[|e2.logger| + 1..] == e2.message;
    }
  }

  predicate SharesWith(e: Event, other: Event) {
    other != e && CounterKey(other) == CounterKey(e)
  }

  /** Moving a bar between name and message keeps the key. */
  lemma MovedBar(level: nat, a: string, b: string, c: string)
    ensures SharesWith(Event(level, a + "|" + b, c), Event(level, a, b + "|" + c))
    ensures SharesWith(Event(level, a, b + "|" + c), Event(level, a + "|" + b, c))
  {
    assert Decimal(level) + "|" + (a + "|" + b) + "|" + c == Decimal(level) + "|" + a + "|" + (b + "|" + c);
  }

  lemma NoBarUnique(e: Event, other: Event)
    requires e.level <= 2 && CounterKey(other) == CounterKey(e)
    requires !HasBar(e.logger) && !HasBar(e.message)
    ensures other == e
  {
    KeyLevel(e, other);
    Rest(e, other);
    var s, t := e.logger + "|" + e.message, other.logger + "|" + other.message;
    FirstBar(other.logger, other.message);
    forall i | 0 <= i < |s| && i != |e.logger| ensures s[i] != '|' {
      if i < |e.logger| { assert s[i] == e.logger[i]; } else { assert s[i] == e.message[i - |e.logger| - 1]; }
    }
    assert |other.logger| == |e.logger|;
    assert s[..|e.logger|] == e.logger && t[..|e.logger|] == other.logger;
    assert s[|e.logger| + 1..] == e.message && t[|e.logger| + 1..] == other.message;
  }

  /** A sampled event shares its counter with a different one exactly when its logger name or its message has a bar. */
  lemma SharesCounterIff(e: Event)
    requires e.level <= 2
    ensures (exists other: Event :: SharesWith(e, other)) <==> HasBar(e.logger) || HasBar(e.message)
  {
    if HasBar(e.logger) {
      var i :| 0 <= i < |e.logger| && e.logger[i] == '|';
      assert e.logger == e.logger[..i] + "|" + e.logger[i + 1..];
      MovedBar(e.level, e.logger[..i], e.logger[i + 1..], e.message);
      assert SharesWith(e, Event(e.level, e.logger[..i], e.logger[i + 1..] + "|" + e.message));
    } else if HasBar(e.message) {
      var i :| 0 <= i < |e.message| && e.message[i] == '|';
      assert e.message == e.message[..i] + "|" + e.message[i + 1..];
      MovedBar(e.level, e.logger, e.message[..i], e.message[i + 1..]);
      assert SharesWith(e, Event(e.level, e.logger + "|" + e.message[..i], e.message[i + 1..]));
    } else {
      forall other: Event | CounterKey(other) == CounterKey(e) ensures other == e { NoBarUnique(e, other); }
    }
  }

  // ---- the processor ----

  class SamplingProcessor {
    const rates: Rates
    var counters: Counters
    ghost var seen: seq<Event>   // every event processed

    ghost predicate Valid() reads this { rates.Valid() && counters == Run(rates, seen) }

    constructor (debugEvery: nat, infoEvery: nat, warnEvery: nat)
      requires debugEvery < WORD && infoEvery < WORD && warnEvery < WORD
      ensures Valid() && seen == []
      ensures rates.debug == (if debugEvery == 0 then 1 else debugEvery)
      ensures rates.info == (if infoEvery == 0 then 1 else infoEvery)
      ensures rates.warn == (if warnEvery == 0 then 1 else warnEvery)
    {
      rates := Rates(NormalizeEvery(debugEvery), NormalizeEvery(infoEvery), NormalizeEvery(warnEvery));
      counters, seen := map[], [];
    }

    method NextCount(key: string) returns (n: nat)
      modifies this`counters
      ensures n == Next(old(counters), key) && counters == old(counters)[key := n]
    {
      if key !in counters {
        counters := counters[key := 0];
      }
      n := (counters[key] + 1) % WORD;
      counters := counters[key := n];
    }

    /** Process; an event below error level with rate above one is kept or dropped, every other one is kept. */
    method Process(e: Event) returns (keep: bool)
      requires Valid()
      modifies this
      ensures Valid() && seen == old(seen) + [e]
      ensures (counters, keep) == Decide(rates, old(counters), e)
      ensures e.level >= 3 || RateOf(rates, e.level) == 1 ==> keep && counters == old(counters)
    {
      seen := seen + [e];
      assert Front(seen) == old(seen);
      var every := rates.EveryFor(e.level);
      if every <= 1 || e.level >= 3 {
        return true;
      }
      var n := NextCount(CounterKey(e));
      return (n + WORD - 1) % WORD % every == 0;
    }
  }
}
