/** TextEncoder: one line of key=value tokens, and a decoder, written as its specification, that reads it back. */
module TextEncoder {
  import opened Basics
  import opened Seqs

  // ---- quoting ----

  const HEX := "0123456789abcdef"

  function Hex(n: nat, width: nat): string {
    if width == 0 then "" else Hex(n / 16, width - 1) + [HEX[n % 16]]
  }

  /** unicode.IsPrint is `printable` from 0x80 on. */
  predicate IsPrint(printable: char -> bool, c: char) {
    if c as int < 0x80 then 0x20 <= c as int <= 0x7e else printable(c)
  }

  /** One character under %q. */
  function Escape(printable: char -> bool, c: char): string {
    if c == '"' || c == '\\' then ['\\', c]
    else if IsPrint(printable, c) then [c]
    else match c as int
         case 7 => "\\a"
         case 8 => "\\b"
         case 12 => "\\f"
         case 10 => "\\n"
         case 13 => "\\r"
         case 9 => "\\t"
         case 11 => "\\v"
         case n => if n < 0x20 || n == 0x7f then "\\x" + Hex(n, 2)
                   else if n < 0x10000 then "\\u" + Hex(n, 4)
                   else "\\U" + Hex(n, 8)
  }

  function EscapeAll(printable: char -> bool, s: string): string {
    if s == "" then "" else Escape(printable, s[0]) + EscapeAll(printable, s[1..])
  }

  predicate NeedsQuotes(s: string) {
    exists i :: 0 <= i < |s| && s[i] in " \t\r\n=\""
  }

  function QuoteIfNeeded(printable: char -> bool, s: string): string {
    if s == "" then "\"\""
    else if NeedsQuotes(s) then "\"" + EscapeAll(printable, s) + "\""
    else s
  }

  // ---- reading quoted values ----

  function HexDigit(c: char): Option<nat> {
    if '0' <= c <= '9' then Some(c as int - '0' as int)
    else if 'a' <= c <= 'f' then Some(c as int - 'a' as int + 10)
    else None
  }

  function UnHex(s: string, width: nat): Option<nat>
    requires width <= |s|
  {
    if width == 0 then Some(0)
    else match (UnHex(s, width - 1), HexDigit(s[width - 1]))
         case (Some(n), Some(d)) => Some(16 * n + d)
         case _ => None
  }

  function ToChar(n: nat): Option<char> {
    if n < 0xD800 || 0xE000 <= n < 0x110000 then Some(n as char) else None
  }

  function UnescapeHex(s: string, width: nat): Option<(char, nat)> {
    if |s| < width then None
    else match UnHex(s, width)
         case Some(n) => (match ToChar(n) case Some(c) => Some((c, width + 1)) case None => None)
         case None => None
  }

  /** The character an escape stands for, and its length after the backslash. */
  function Unescape(s: string): Option<(char, nat)> {
    if s == "" then None
    else match s[0]
         case 'a' => Some((7 as char, 1))
         case 'b' => Some((8 as char, 1))
         case 'f' => Some((12 as char, 1))
         case 'n' => Some((10 as char, 1))
         case 'r' => Some((13 as char, 1))
         case 't' => Some((9 as char, 1))
         case 'v' => Some((11 as char, 1))
         case '\\' => Some(('\\', 1))
         case '"' => Some(('"', 1))
         case 'x' => UnescapeHex(s[1..], 2)
         case 'u' => UnescapeHex(s[1..], 4)
         case 'U' => UnescapeHex(s[1..], 8)
         case _ => None
  }

  /** Reads up to the closing quote: the value and what follows. */
  function Unquote(s: string): Option<(string, string)>
    decreases |s|
  {
    if s == "" then None
    else if s[0] == '"' then Some(("", s[1..]))
    else if s[0] == '\\' then
      match Unescape(s[1..])
      case Some((c, n)) =>
        if 1 + n > |s| then None
        else (match Unquote(s[1 + n..]) case Some((v, rest)) => Some(([c] + v, rest)) case None => None)
      case None => None
    else match Unquote(s[1..]) case Some((v, rest)) => Some(([s[0]] + v, rest)) case None => None
  }

  lemma HexLength(n: nat, width: nat)
    ensures |Hex(n, width)| == width
  {
  }

  function Pow16(k: nat): nat { if k == 0 then 1 else 16 * Pow16(k - 1) }

  lemma UnHexLocal(s: string, t: string, width: nat)
    requires width <= |s| && s == t
    ensures UnHex(s, width) == UnHex(t, width)
  {
  }

  lemma {:induction false} UnHexHex(n: nat, width: nat, rest: string)
    requires n < Pow16(width)
    ensures |Hex(n, width)| == width && UnHex(Hex(n, width) + rest, width) == Some(n)
  {
    HexLength(n, width);
    if width > 0 {
      HexLength(n / 16, width - 1);
      var d := [HEX[n % 16]];
      assert Hex(n, width) + rest == Hex(n / 16, width - 1) + (d + rest);
      UnHexHex(n / 16, width - 1, d + rest);
      assert (Hex(n, width) + rest)[width - 1] == HEX[n % 16];
      UnHexLocal(Hex(n, width) + rest, Hex(n / 16, width - 1) + (d + rest), width - 1);
      assert HexDigit(HEX[n % 16]) == Some(n % 16);
    }
  }

  lemma UnescapeHexed(n: nat, width: nat, rest: string)
    requires n < Pow16(width) && ToChar(n).Some?
    ensures UnescapeHex(Hex(n, width) + rest, width) == Some((n as char, width + 1))
  {
    UnHexHex(n, width, rest);
  }

  lemma PowersOf16()
    ensures Pow16(2) == 0x100 && Pow16(4) == 0x10000 && Pow16(8) == 0x100000000
  {
    assert Pow16(4) == 16 * 16 * Pow16(2);
    assert Pow16(6) == 16 * 16 * Pow16(4);
    assert Pow16(8) == 16 * 16 * Pow16(6);
  }

  /** An escaped character reads back as itself and consumes exactly its escape. */
  lemma UnquoteEscaped(printable: char -> bool, c: char, rest: string)
    ensures Unquote(Escape(printable, c) + rest) ==
            match Unquote(rest) case Some((v, r)) => Some(([c] + v, r)) case None => None
  {
    var e := Escape(printable, c);
    if e == [c] {
      assert (e + rest)[1..] == rest;
    } else {
      var n := c as int;
      assert e[0] == '\\';
      var tail := e[1..] + rest;
      assert (e + rest)[1..] == tail;
      PowersOf16();
      if |e| == 2 {
        assert tail[0] == e[1];
        assert Unescape(tail) == Some((c, 1));
      } else {
        var w: nat := if n < 0x20 || n == 0x7f then 2 else if n < 0x10000 then 4 else 8;
        HexLength(n, w);
        assert e[2..] == Hex(n, w);
        assert tail[1..] == Hex(n, w) + rest;
        UnescapeHexed(n, w, rest);
      }
      assert (e + rest)[|e|..] == rest;
    }
  }

  lemma {:induction false} UnquoteBack(printable: char -> bool, s: string, rest: string)
    ensures Unquote(EscapeAll(printable, s) + "\"" + rest) == Some((s, rest))
  {
    if s == "" {
      assert "" + "\"" + rest == "\"" + rest;
      assert ("\"" + rest)[1..] == rest;
    } else {
      var more := EscapeAll(printable, s[1..]) + "\"" + rest;
      assert EscapeAll(printable, s) + "\"" + rest == Escape(printable, s[0]) + more;
      UnquoteBack(printable, s[1..], rest);
      UnquoteEscaped(printable, s[0], more);
      assert [s[0]] + s[1..] == s;
    }
  }

  // ---- reading a line ----

  lemma Tail(c: string, s: string)
    requires |c| == 1
    ensures (c + s)[0] == c[0] && (c + s)[1..] == s
  {
  }

  /** Splits s before the first character of `stops`. */
  function Until(s: string, stops: string): (string, string) {
    if s == "" || s[0] in stops then ("", s)
    else var (a, b) := Until(s[1..], stops); ([s[0]] + a, b)
  }

  lemma {:induction false} UntilStop(a: string, rest: string, stops: string)
    requires forall i :: 0 <= i < |a| ==> a[i] !in stops
    requires rest != "" && rest[0] in stops
    ensures Until(a + rest, stops) == (a, rest)
  {
    if a == "" {
      assert a + rest == rest;
    } else {
      assert (a + rest)[1..] == a[1..] + rest;
      UntilStop(a[1..], rest, stops);
      assert [a[0]] + a[1..] == a;
    }
  }

  datatype Token = Token(key: string, value: string)

  function ReadValue(s: string): Option<(string, string)> {
    if s != "" && s[0] == '"' then Unquote(s[1..]) else Some(Until(s, " \n"))
  }

  lemma Separators(c: char)
    ensures c !in " \t\r\n=\"" ==> c !in " \n" && c != '"'
  {
  }

  lemma ReadQuoted(body: string, rest: string)
    ensures ReadValue("\"" + body + "\"" + rest) == Unquote(body + "\"" + rest)
  {
    Assoc("\"" + body, "\"", rest);
    Assoc("\"", body, "\"" + rest);
    Assoc(body, "\"", rest);
    Tail("\"", body + ("\"" + rest));
  }

  lemma ReadPlain(v: string, rest: string)
    requires v != "" && !NeedsQuotes(v) && rest != "" && (rest[0] == ' ' || rest[0] == '\n')
    ensures ReadValue(v + rest) == Some((v, rest))
  {
    forall i | 0 <= i < |v| ensures v[i] !in " \n" && v[i] != '"' { Separators(v[i]); }
    UntilStop(v, rest, " \n");
  }

  lemma ValueReadsBack(printable: char -> bool, v: string, rest: string)
    requires rest != "" && (rest[0] == ' ' || rest[0] == '\n')
    ensures ReadValue(QuoteIfNeeded(printable, v) + rest) == Some((v, rest))
  {
    if v != "" && !NeedsQuotes(v) {
      ReadPlain(v, rest);
    } else {
      assert QuoteIfNeeded(printable, v) == "\"" + EscapeAll(printable, v) + "\"";
      ReadQuoted(EscapeAll(printable, v), rest);
      UnquoteBack(printable, v, rest);
    }
  }

  /** Different values always print differently. */
  lemma QuoteInjective(printable: char -> bool, v: string, w: string)
    ensures QuoteIfNeeded(printable, v) == QuoteIfNeeded(printable, w) <==> v == w
  {
    ValueReadsBack(printable, v, "\n");
    ValueReadsBack(printable, w, "\n");
  }

  /** A character that is copied: printable, and neither a quote nor a backslash. */
  predicate Copied(printable: char -> bool, c: char) {
    var n := c as int;
    n != 34 && n != 92 && (32 <= n <= 126 || (n >= 128 && printable(c)))
  }

  /** Copied, or a backslash and one character, two, four or eight hexadecimal digits. */
  lemma EscapeLength(printable: char -> bool, c: char)
    ensures var n := c as int; var e := Escape(printable, c);
            && (Copied(printable, c) <==> e == [c]) && (!Copied(printable, c) ==> e[0] == '\\')
            && |e| == if Copied(printable, c) then 1
                      else if n == 34 || n == 92 || 7 <= n <= 13 then 2
                      else if n < 128 then 4
                      else if n < 0x10000 then 6 else 10
  {
    HexLength(c as int, 2);
    HexLength(c as int, 4);
    HexLength(c as int, 8);
  }

  /** Quoting copies printable characters but quotes and backslashes, and makes every other one longer. */
  lemma {:induction false} EscapedLength(printable: char -> bool, s: string)
    ensures |EscapeAll(printable, s)| >= |s|
    ensures |EscapeAll(printable, s)| == |s| <==> forall i :: 0 <= i < |s| ==> Copied(printable, s[i])
    ensures |EscapeAll(printable, s)| == |s| ==> EscapeAll(printable, s) == s
  {
    if s != "" {
      EscapeLength(printable, s[0]);
      EscapedLength(printable, s[1..]);
      assert forall i :: 0 < i < |s| ==> s[i] == s[1..][i - 1];
      assert s == [s[0]] + s[1..];
    }
  }

  /** A character that makes a value ambiguous in a line: tab, newline, carriage return, space, quote, equals sign. */
  predicate Special(c: char) { c as int == 9 || c as int == 10 || c as int == 13 || c as int == 32 || c as int == 34 || c as int == 61 }

  lemma SpecialIs(c: char)
    ensures Special(c) <==> c in " \t\r\n=\""
  {
  }

  /** A value is printed as it is exactly when it is not empty and holds no special character; otherwise it is quoted, printable characters copied. */
  lemma PlainIff(printable: char -> bool, v: string)
    ensures var q := QuoteIfNeeded(printable, v); var plain := v != "" && forall i :: 0 <= i < |v| ==> !Special(v[i]);
            && (q == v <==> plain)
            && (!plain ==> q == "\"" + EscapeAll(printable, v) + "\"")
  {
    EscapedLength(printable, v);
    forall i | 0 <= i < |v| ensures Special(v[i]) <==> v[i] in " \t\r\n=\"" { SpecialIs(v[i]); }
  }

  function Shown(printable: char -> bool, t: Token): string { " " + t.key + "=" + QuoteIfNeeded(printable, t.value) }

  function WriteTokens(printable: char -> bool, ts: seq<Token>): string {
    if ts == [] then "" else Shown(printable, ts[0]) + WriteTokens(printable, ts[1..])
  }

  /** Reads tokens up to the closing newline. */
  function ReadTokens(s: string): Option<seq<Token>>
    decreases |s|
  {
    if s == "\n" then Some([])
    else if s == "" || s[0] != ' ' then None
    else
      var (key, more) := Until(s[1..], "=");
      if more == "" then None
      else match ReadValue(more[1..])
           case None => None
           case Some((v, rest)) =>
             if |rest| >= |s| then None
             else match ReadTokens(rest)
                  case None => None
                  case Some(ts) => Some([Token(key, v)] + ts)
  }

  predicate KeysOk(ts: seq<Token>) { forall t <- ts :: '=' !in t.key }

  lemma TokenParts(printable: char -> bool, t: Token, rest: string)
    ensures var q := QuoteIfNeeded(printable, t.value); var s := Shown(printable, t) + rest;
            && s[0] == ' ' && s[1..] == t.key + ("=" + (q + rest)) && ("=" + (q + rest))[1..] == q + rest && |rest| < |s|
  {
    var q := QuoteIfNeeded(printable, t.value);
    Assoc(" " + t.key + "=", q, rest);
    Assoc(" " + t.key, "=", q + rest);
    Assoc(" ", t.key, "=" + (q + rest));
    Tail(" ", t.key + ("=" + (q + rest)));
    Tail("=", q + rest);
  }

  /** One token is read off the front of a line. */
  lemma ReadOne(printable: char -> bool, t: Token, rest: string)
    requires '=' !in t.key && rest != "" && (rest[0] == ' ' || rest[0] == '\n')
    ensures ReadTokens(Shown(printable, t) + rest) ==
            match ReadTokens(rest) case None => None case Some(ts) => Some([t] + ts)
  {
    var more := "=" + (QuoteIfNeeded(printable, t.value) + rest);
    TokenParts(printable, t, rest);
    UntilStop(t.key, more, "=");
    ValueReadsBack(printable, t.value, rest);
  }

  lemma {:induction false} TokensReadBack(printable: char -> bool, ts: seq<Token>)
    requires KeysOk(ts)
    ensures ReadTokens(WriteTokens(printable, ts) + "\n") == Some(ts)
  {
    if ts == [] {
      assert "" + "\n" == "\n";
    } else {
      var rest := WriteTokens(printable, ts[1..]) + "\n";
      assert Shown(printable, ts[0]) + WriteTokens(printable, ts[1..]) + "\n" == Shown(printable, ts[0]) + rest;
      TokensReadBack(printable, ts[1..]);
      assert ts[0] in ts;
      if |ts| > 1 { TokenParts(printable, ts[1], WriteTokens(printable, ts[1..][1..])); }
      ReadOne(printable, ts[0], rest);
      assert [ts[0]] + ts[1..] == ts;
    }
  }

  // ---- events ----

  /** The event as the encoder sees it: time, level, caller, error and field values already rendered. */
  datatype Event = Event(
    time: string, level: string, service: string, environment: string, loggerName: string, message: string,
    traceID: string, spanID: string, requestID: string, correlationID: string,
    err: Option<string>, caller: Option<string>, fields: seq<Token>, stack: string)

  /** A token that is written only if it has a value. */
  datatype Slot = Slot(key: string, value: Option<string>)

  function NonEmpty(v: string): Option<string> { if v == "" then None else Some(v) }

  function SlotTokens(slot: Slot): seq<Token> { if slot.value.Some? then [Token(slot.key, slot.value.value)] else [] }

  function Opts(slots: seq<Slot>): seq<Token> {
    if slots == [] then []
    else SlotTokens(slots[0]) + Opts(slots[1..])
  }

  function Leading(e: Event): seq<Slot> {
    [Slot("service", NonEmpty(e.service)), Slot("env", NonEmpty(e.environment)), Slot("logger", NonEmpty(e.loggerName))]
  }

  function Trailing(e: Event): seq<Slot> {
    [Slot("trace_id", NonEmpty(e.traceID)), Slot("span_id", NonEmpty(e.spanID)), Slot("request_id", NonEmpty(e.requestID)),
     Slot("correlation_id", NonEmpty(e.correlationID)), Slot("error", e.err), Slot("caller", e.caller)]
  }

  function Stack(e: Event): seq<Token> { Opts([Slot("stack", NonEmpty(e.stack))]) }

  /** The tokens of a line, in order; `sorted` is the sorted clone of the fields. */
  function Tokens(e: Event, sorted: seq<Token>): seq<Token> {
    Opts(Leading(e)) + ([Token("msg", e.message)] + (Opts(Trailing(e)) + (sorted + Stack(e))))
  }

  predicate KeyLeq(a: string, b: string) {
    a == "" || (b != "" && (a[0] < b[0] || (a[0] == b[0] && KeyLeq(a[1..], b[1..]))))
  }

  predicate FirstDifference(a: string, b: string, i: int) {
    0 <= i < |a| && i < |b| && a[i] != b[i] && a[..i] == b[..i]
  }

  /** The order of keys: b starts with a, or has the greater character where they first differ. */
  lemma {:induction false} KeyOrder(a: string, b: string)
    ensures KeyLeq(a, b) <==> a <= b || exists i :: FirstDifference(a, b, i) && a[i] < b[i]
  {
    if a != "" && b != "" && a[0] == b[0] {
      KeyOrder(a[1..], b[1..]);
      assert a <= b <==> a[1..] <= b[1..];
      if i :| FirstDifference(a, b, i) && a[i] < b[i] { assert FirstDifference(a[1..], b[1..], i - 1); }
      if i :| FirstDifference(a[1..], b[1..], i) && a[1..][i] < b[1..][i] { assert FirstDifference(a, b, i + 1); }
    } else if a != "" && b != "" {
      assert FirstDifference(a, b, 0);
    }
  }

  /** What sort.Slice leaves: a permutation in key order, fields of equal key in any order. */
  ghost predicate SortOf(sorted: seq<Token>, fields: seq<Token>) {
    multiset(sorted) == multiset(fields) && forall i, j :: 0 <= i < j < |sorted| ==> KeyLeq(sorted[i].key, sorted[j].key)
  }

  lemma {:induction false} WriteConcat(printable: char -> bool, a: seq<Token>, b: seq<Token>)
    ensures WriteTokens(printable, a + b) == WriteTokens(printable, a) + WriteTokens(printable, b)
  {
    if a == [] {
      assert a + b == b;
    } else {
      assert (a + b)[1..] == a[1..] + b;
      WriteConcat(printable, a[1..], b);
    }
  }

  /** The builder's text after writing ts behind head. */
  function Built(printable: char -> bool, head: string, ts: seq<Token>): string {
    if ts == [] then head else Built(printable, head, Front(ts)) + Shown(printable, Last(ts))
  }

  lemma BuiltSnoc(printable: char -> bool, head: string, ts: seq<Token>, t: Token)
    ensures Built(printable, head, ts + [t]) == Built(printable, head, ts) + Shown(printable, t)
  {
    assert Front(ts + [t]) == ts;
  }

  lemma WriteOne(printable: char -> bool, t: Token)
    ensures WriteTokens(printable, [t]) == Shown(printable, t)
  {
    assert WriteTokens(printable, [t][1..]) == "";
  }

  lemma WriteSnoc(printable: char -> bool, ts: seq<Token>, t: Token)
    ensures WriteTokens(printable, ts + [t]) == WriteTokens(printable, ts) + Shown(printable, t)
  {
    WriteConcat(printable, ts, [t]);
    WriteOne(printable, t);
  }


  lemma AppendBoth(built: string, head: string, written: string, shown: string)
    requires built == head + written
    ensures built + shown == head + (written + shown)
  {
    Assoc(head, written, shown);
  }

  lemma {:induction false} BuiltIsWritten(printable: char -> bool, head: string, ts: seq<Token>)
    ensures Built(printable, head, ts) == head + WriteTokens(printable, ts)
  {
    if ts == [] {
      assert head + "" == head;
    } else {
      hide *;
      var front, t := ts[..|ts| - 1], ts[|ts| - 1];
      assert front + [t] == ts;
      BuiltIsWritten(printable, head, front);
      WriteSnoc(printable, front, t);
      BuiltSnoc(printable, head, front, t);
      AppendBoth(Built(printable, head, front), head, WriteTokens(printable, front), Shown(printable, t));
    }
  }

  function TextLine(printable: char -> bool, time: string, level: string, ts: seq<Token>): string {
    time + " " + level + WriteTokens(printable, ts) + "\n"
  }

  function Line(printable: char -> bool, e: Event, sorted: seq<Token>): string {
    TextLine(printable, e.time, e.level, Tokens(e, sorted))
  }

  /** One "key=value" appended to the builder. */
  method WriteToken(printable: char -> bool, b: string, t: Token) returns (b1: string)
    ensures b1 == b + Shown(printable, t)
  {
    b1 := b + " ";
    b1 := b1 + t.key;
    b1 := b1 + "=";
    b1 := b1 + QuoteIfNeeded(printable, t.value);
  }

  lemma SliceSnoc<T>(ts: seq<T>, xs: seq<T>, i: nat)
    requires i < |xs|
    ensures ts + xs[..i] + [xs[i]] == ts + xs[..i + 1]
  {
  }

  /** The loop over the sorted fields. */
  method WriteAll(printable: char -> bool, b: string, tokens: seq<Token>, ghost head: string, ghost ts: seq<Token>) returns (b1: string)
    requires b == Built(printable, head, ts)
    ensures b1 == Built(printable, head, ts + tokens)
  {
    b1 := b;
    assert ts + tokens[..0] == ts;
    for i := 0 to |tokens|
      invariant b1 == Built(printable, head, ts + tokens[..i])
    {
      BuiltSnoc(printable, head, ts + tokens[..i], tokens[i]);
      b1 := WriteToken(printable, b1, tokens[i]);
      SliceSnoc(ts, tokens, i);
    }
    assert tokens[..|tokens|] == tokens;
  }

  lemma {:induction false} OptsSnoc(slots: seq<Slot>, slot: Slot)
    ensures Opts(slots + [slot]) == Opts(slots) + SlotTokens(slot)
  {
    if slots == [] {
      assert [slot][1..] == [] && [] + [slot] == [slot];
    } else {
      assert (slots + [slot])[1..] == slots[1..] + [slot];
      OptsSnoc(slots[1..], slot);
    }
  }

  lemma OptsUpTo(ts: seq<Token>, slots: seq<Slot>, i: nat)
    requires i < |slots|
    ensures ts + Opts(slots[..i]) + SlotTokens(slots[i]) == ts + Opts(slots[..i + 1])
  {
    OptsSnoc(slots[..i], slots[i]);
    assert slots[..i] + [slots[i]] == slots[..i + 1];
  }

  /** One `if value != ""` step of Encode. */
  method WriteSlot(printable: char -> bool, b: string, slot: Slot, ghost head: string, ghost ts: seq<Token>) returns (b1: string)
    requires b == Built(printable, head, ts)
    ensures b1 == Built(printable, head, ts + SlotTokens(slot))
  {
    if slot.value.None? {
      assert ts + [] == ts;
      return b;
    }
    BuiltSnoc(printable, head, ts, Token(slot.key, slot.value.value));
    b1 := WriteToken(printable, b, Token(slot.key, slot.value.value));
  }

  /** These steps, in order. */
  method WriteSlots(printable: char -> bool, b: string, slots: seq<Slot>, ghost head: string, ghost ts: seq<Token>) returns (b1: string)
    requires b == Built(printable, head, ts)
    ensures b1 == Built(printable, head, ts + Opts(slots))
  {
    b1 := b;
    assert ts + Opts(slots[..0]) == ts;
    for i := 0 to |slots|
      invariant b1 == Built(printable, head, ts + Opts(slots[..i]))
    {
      b1 := WriteSlot(printable, b1, slots[i], head, ts + Opts(slots[..i]));
      OptsUpTo(ts, slots, i);
    }
    assert slots[..|slots|] == slots;
  }

  lemma Reassociate<T>(a: seq<T>, b: seq<T>, c: seq<T>, d: seq<T>, e: seq<T>)
    ensures a + (b + (c + (d + e))) == [] + a + b + c + d + e
  {
  }

  lemma TokensInOrder(e: Event, sorted: seq<Token>)
    ensures Tokens(e, sorted) == [] + Opts(Leading(e)) + [Token("msg", e.message)] + Opts(Trailing(e)) + sorted + Stack(e)
  {
    Reassociate(Opts(Leading(e)), [Token("msg", e.message)], Opts(Trailing(e)), sorted, Stack(e));
  }

  /** Encode; `sorted` is what the sort of the cloned fields came to. */
  method Encode(printable: char -> bool, e: Event, sorted: seq<Token>) returns (line: string)
    requires SortOf(sorted, e.fields)
    ensures line == Line(printable, e, sorted)
  {
    var b := e.time + " " + e.level;
    ghost var head, ts: seq<Token> := b, [];
    b := WriteSlots(printable, b, Leading(e), head, ts);
    ts := ts + Opts(Leading(e));
    BuiltSnoc(printable, head, ts, Token("msg", e.message));
    b := WriteToken(printable, b, Token("msg", e.message));
    ts := ts + [Token("msg", e.message)];
    b := WriteSlots(printable, b, Trailing(e), head, ts);
    ts := ts + Opts(Trailing(e));
    b := WriteAll(printable, b, sorted, head, ts);
    ts := ts + sorted;
    b := WriteSlots(printable, b, [Slot("stack", NonEmpty(e.stack))], head, ts);
    TokensInOrder(e, sorted);
    assert ts + Stack(e) == Tokens(e, sorted);
    BuiltIsWritten(printable, head, Tokens(e, sorted));
    line := b + "\n";
  }

  // ---- decoding ----

  /** The encoder's own keys, in the order of the line; the fields stand before the last. */
  const KEYS := ["service", "env", "logger", "msg", "trace_id", "span_id", "request_id", "correlation_id", "error", "caller", "stack"]

  /** What an event holds under each of them. */
  function Own(e: Event, key: string): Option<string> {
    match key
    case "service" => NonEmpty(e.service)
    case "env" => NonEmpty(e.environment)
    case "logger" => NonEmpty(e.loggerName)
    case "msg" => Some(e.message)
    case "trace_id" => NonEmpty(e.traceID)
    case "span_id" => NonEmpty(e.spanID)
    case "request_id" => NonEmpty(e.requestID)
    case "correlation_id" => NonEmpty(e.correlationID)
    case "error" => e.err
    case "caller" => e.caller
    case "stack" => NonEmpty(e.stack)
    case _ => None
  }

  function Picked(e: Event, keys: seq<string>): seq<Token> {
    if keys == [] then []
    else (if Own(e, keys[0]).Some? then [Token(keys[0], Own(e, keys[0]).value)] else []) + Picked(e, keys[1..])
  }

  lemma {:induction false} PickedSlots(e: Event, keys: seq<string>, slots: seq<Slot>)
    requires |keys| == |slots| && forall i :: 0 <= i < |keys| ==> slots[i] == Slot(keys[i], Own(e, keys[i]))
    ensures Picked(e, keys) == Opts(slots)
  {
    if keys != [] { PickedSlots(e, keys[1..], slots[1..]); }
  }

  /** A line's tokens are what the event holds under the encoder's keys, in their order, with the sorted fields before the stack. */
  lemma TokensByKey(e: Event, sorted: seq<Token>)
    ensures Tokens(e, sorted) == Picked(e, KEYS[..3]) + ([Token("msg", e.message)] + (Picked(e, KEYS[4..10]) + (sorted + Picked(e, KEYS[10..]))))
    ensures Own(e, KEYS[3]) == Some(e.message)
  {
    PickedSlots(e, KEYS[..3], Leading(e));
    PickedSlots(e, KEYS[4..10], Trailing(e));
    PickedSlots(e, KEYS[10..], [Slot("stack", NonEmpty(e.stack))]);
  }

  /** The decoder: time, level and tokens of a line. */
  function Decode(line: string): Option<(string, string, seq<Token>)> {
    var (time, more) := Until(line, " ");
    if more == "" then None
    else
      var (level, rest) := Until(more[1..], " ");
      match ReadTokens(rest)
      case Some(ts) => Some((time, level, ts))
      case None => None
  }

  /** The default time layout and every level name are free of spaces and newlines. */
  predicate HeadOk(e: Event) {
    forall c | c in e.time + e.level :: c != ' ' && c != '\n'
  }

  lemma {:induction false} OptsKeys(slots: seq<Slot>)
    ensures forall t <- Opts(slots) :: exists i :: 0 <= i < |slots| && slots[i].key == t.key
  {
    if slots != [] {
      OptsKeys(slots[1..]);
      forall t <- Opts(slots) ensures exists i :: 0 <= i < |slots| && slots[i].key == t.key {
        if t in Opts(slots[1..]) {
          var i :| 0 <= i < |slots[1..]| && slots[1..][i].key == t.key;
          assert slots[i + 1].key == t.key;
        } else {
          assert slots[0].key == t.key;
        }
      }
    }
  }

  lemma SortKeeps(sorted: seq<Token>, fields: seq<Token>)
    requires SortOf(sorted, fields)
    ensures forall t <- sorted :: t in fields
  {
    forall t <- sorted ensures t in fields { assert t in multiset(sorted); }
  }

  predicate FixedKey(key: string) {
    key in ["service", "env", "logger", "msg", "trace_id", "span_id", "request_id", "correlation_id", "error", "caller", "stack"]
  }

  lemma FixedKeysPlain(key: string)
    ensures FixedKey(key) ==> '=' !in key && '\n' !in key
  {
  }

  lemma TokenKeys(e: Event, sorted: seq<Token>)
    requires SortOf(sorted, e.fields)
    ensures forall t <- Tokens(e, sorted) :: t in e.fields || FixedKey(t.key)
  {
    OptsKeys(Leading(e));
    OptsKeys(Trailing(e));
    OptsKeys([Slot("stack", NonEmpty(e.stack))]);
    SortKeeps(sorted, e.fields);
  }

  lemma HeadReadsBack(time: string, level: string, w: string)
    requires (forall i :: 0 <= i < |time| ==> time[i] != ' ') && (forall i :: 0 <= i < |level| ==> level[i] != ' ')
    requires w != "" && w[0] == ' '
    ensures Until(time + " " + level + w, " ") == (time, " " + level + w)
    ensures Until(level + w, " ") == (level, w)
  {
    assert time + " " + level + w == time + (" " + level + w);
    UntilStop(time, " " + level + w, " ");
    UntilStop(level, w, " ");
  }

  lemma TokensStart(printable: char -> bool, ts: seq<Token>)
    requires ts != []
    ensures var w := WriteTokens(printable, ts) + "\n"; w != "" && w[0] == ' '
  {
    assert Shown(printable, ts[0])[0] == ' ';
  }

  lemma TextLineReadsBack(printable: char -> bool, time: string, level: string, ts: seq<Token>)
    requires (forall i :: 0 <= i < |time| ==> time[i] != ' ') && (forall i :: 0 <= i < |level| ==> level[i] != ' ')
    requires ts != [] && KeysOk(ts)
    ensures Decode(TextLine(printable, time, level, ts)) == Some((time, level, ts))
  {
    TokensReadBack(printable, ts);
    var w := WriteTokens(printable, ts) + "\n";
    TokensStart(printable, ts);
    HeadReadsBack(time, level, w);
    Assoc(time + " " + level, WriteTokens(printable, ts), "\n");
    Assoc(" ", level, w);
    Tail(" ", level + w);
  }

  lemma HeadParts(e: Event)
    requires HeadOk(e)
    ensures forall i :: 0 <= i < |e.time| ==> e.time[i] != ' ' && e.time[i] != '\n'
    ensures forall i :: 0 <= i < |e.level| ==> e.level[i] != ' ' && e.level[i] != '\n'
  {
    forall i | 0 <= i < |e.time| ensures e.time[i] != ' ' && e.time[i] != '\n' { assert e.time[i] in e.time + e.level; }
    forall i | 0 <= i < |e.level| ensures e.level[i] != ' ' && e.level[i] != '\n' { assert e.level[i] in e.time + e.level; }
  }

  /**
   Lines decode uniquely: as long as no field key has a '=', the decoder recovers time and level, the
   core tokens in order, and the fields as the key-sorted permutation the encoder wrote.
   */
  lemma LineReadsBack(printable: char -> bool, e: Event, sorted: seq<Token>)
    requires SortOf(sorted, e.fields) && HeadOk(e) && KeysOk(e.fields)
    ensures Decode(Line(printable, e, sorted)) == Some((e.time, e.level, Tokens(e, sorted)))
  {
    TokenKeys(e, sorted);
    forall t <- Tokens(e, sorted) ensures '=' !in t.key { FixedKeysPlain(t.key); }
    HeadParts(e);
    TextLineReadsBack(printable, e.time, e.level, Tokens(e, sorted));
  }

  // ---- one line per event ----

  predicate NoNewline(s: string) { '\n' !in s }

  lemma {:induction false} HexNoNewline(n: nat, width: nat)
    ensures NoNewline(Hex(n, width))
  {
    if width > 0 { HexNoNewline(n / 16, width - 1); }
  }

  lemma EscapeNoNewline(printable: char -> bool, c: char)
    ensures NoNewline(Escape(printable, c))
  {
    HexNoNewline(c as int, 2);
    HexNoNewline(c as int, 4);
    HexNoNewline(c as int, 8);
  }

  lemma {:induction false} EscapeAllNoNewline(printable: char -> bool, s: string)
    ensures NoNewline(EscapeAll(printable, s))
  {
    if s != "" {
      EscapeNoNewline(printable, s[0]);
      EscapeAllNoNewline(printable, s[1..]);
    }
  }

  lemma ValueNoNewline(printable: char -> bool, v: string)
    ensures NoNewline(QuoteIfNeeded(printable, v))
  {
    EscapeAllNoNewline(printable, v);
    if '\n' in v {
      var i :| 0 <= i < |v| && v[i] == '\n';
      assert v[i] in " \t\r\n=\"";
    }
  }

  lemma {:induction false} TokensNoNewline(printable: char -> bool, ts: seq<Token>)
    requires forall t <- ts :: NoNewline(t.key)
    ensures NoNewline(WriteTokens(printable, ts))
  {
    if ts != [] {
      assert ts[0] in ts;
      ValueNoNewline(printable, ts[0].value);
      TokensNoNewline(printable, ts[1..]);
    }
  }

  lemma NewlineAtEnd(a: string, b: string, c: string)
    requires NoNewline(a) && NoNewline(b) && NoNewline(c)
    ensures var line := a + " " + b + c + "\n"; forall i :: 0 <= i < |line| ==> (line[i] == '\n' <==> i == |line| - 1)
  {
    var body := a + " " + b + c;
    assert NoNewline(body);
    forall i | 0 <= i < |body| ensures body[i] != '\n' { assert body[i] in body; }
  }

  /** An encoded line has one newline, at its end, whatever the messages and values hold. */
  lemma OneNewline(printable: char -> bool, e: Event, sorted: seq<Token>)
    requires SortOf(sorted, e.fields) && HeadOk(e) && forall t <- e.fields :: NoNewline(t.key)
    ensures var line := Line(printable, e, sorted);
            forall i :: 0 <= i < |line| ==> (line[i] == '\n' <==> i == |line| - 1)
  {
    TokenKeys(e, sorted);
    forall t <- Tokens(e, sorted) ensures NoNewline(t.key) {
      FixedKeysPlain(t.key);
    }
    TokensNoNewline(printable, Tokens(e, sorted));
    HeadParts(e);
    NewlineAtEnd(e.time, e.level, WriteTokens(printable, Tokens(e, sorted)));
  }

  // ---- from tokens back to the event ----

  predicate Outside(ts: seq<Token>, slots: seq<Slot>) {
    ts == [] || forall i :: 0 <= i < |slots| ==> slots[i].key != ts[0].key
  }

  lemma {:induction false} FirstToken(slots: seq<Slot>, rest: seq<Token>, key: string)
    requires forall i :: 0 <= i < |slots| ==> slots[i].key != key
    requires rest == [] || rest[0].key != key
    ensures var ts := Opts(slots) + rest; ts == [] || ts[0].key != key
  {
    OptsKeys(slots);
    var ts := Opts(slots) + rest;
    if Opts(slots) != [] { assert ts[0] == Opts(slots)[0] && ts[0] in Opts(slots); } else { assert ts == rest; }
  }

  lemma PeelSlot(p: Slot, q: Slot, r: seq<Token>, t: seq<Token>)
    requires p.key == q.key && (r == [] || r[0].key != p.key) && (t == [] || t[0].key != p.key)
    requires Opts([p]) + r == Opts([q]) + t
    ensures p == q && r == t
  {
    assert Opts([p][1..]) == [] && Opts([q][1..]) == [];
    var lhs, rhs := Opts([p]) + r, Opts([q]) + t;
    if p.value.Some? { assert lhs[0] == Token(p.key, p.value.value) && lhs[1..] == r; } else { assert lhs == r; }
    if q.value.Some? { assert rhs[0] == Token(p.key, q.value.value) && rhs[1..] == t; } else { assert rhs == t; }
  }

  lemma OptsOne(p: Slot)
    ensures Opts([p]) == SlotTokens(p)
  {
    assert Opts([p][1..]) == [];
  }

  lemma OptsCons(p: seq<Slot>, r: seq<Token>)
    requires p != []
    ensures Opts(p) + r == Opts([p[0]]) + (Opts(p[1..]) + r)
  {
    OptsOne(p[0]);
    Assoc(SlotTokens(p[0]), Opts(p[1..]), r);
  }

  lemma SlotsSplit(p: seq<Slot>, q: seq<Slot>)
    requires p != [] && q != [] && p[0] == q[0] && p[1..] == q[1..]
    ensures p == q
  {
    assert p == [p[0]] + p[1..] && q == [q[0]] + q[1..];
  }

  /** Optional tokens with distinct keys can be told apart from what follows them. */
  lemma {:induction false} PeelSlots(p: seq<Slot>, q: seq<Slot>, r: seq<Token>, t: seq<Token>)
    requires |p| == |q| && forall i :: 0 <= i < |p| ==> p[i].key == q[i].key
    requires forall i, j :: 0 <= i < j < |p| ==> p[i].key != p[j].key
    requires Outside(r, p) && Outside(t, p)
    requires Opts(p) + r == Opts(q) + t
    ensures p == q && r == t
  {
    if p == [] {
      assert Opts(p) + r == r && Opts(q) + t == t;
    } else {
      FirstToken(p[1..], r, p[0].key);
      FirstToken(q[1..], t, p[0].key);
      OptsCons(p, r);
      OptsCons(q, t);
      PeelSlot(p[0], q[0], Opts(p[1..]) + r, Opts(q[1..]) + t);
      PeelSlots(p[1..], q[1..], r, t);
      SlotsSplit(p, q);
    }
  }

  /** Field keys a reader could mistake for the encoder's own tokens behind msg. */
  predicate Reserved(key: string) {
    key in ["trace_id", "span_id", "request_id", "correlation_id", "error", "caller", "stack"]
  }

  /** The last token tells whether there is a stack. */
  lemma StackLast(s: seq<Token>, e: Event)
    requires forall t <- s :: t.key != "stack"
    ensures var all := s + Stack(e);
            && (e.stack != "" <==> all != [] && Last(all).key == "stack")
            && (e.stack != "" ==> Last(all).value == e.stack && Front(all) == s)
            && (e.stack == "" ==> all == s)
  {
    assert Opts([Slot("stack", NonEmpty(e.stack))][1..]) == [];
    assert Stack(e) == if e.stack == "" then [] else [Token("stack", e.stack)];
    if s != [] { assert Last(s) in s; }
  }

  /** Everything behind msg. */
  function Behind(e: Event, s: seq<Token>): seq<Token> { Opts(Trailing(e)) + (s + Stack(e)) }

  lemma TrailingKeys(e1: Event, e2: Event)
    ensures var p, q := Trailing(e1), Trailing(e2);
            |p| == |q| && (forall i :: 0 <= i < |p| ==> p[i].key == q[i].key) && forall i, j :: 0 <= i < j < |p| ==> p[i].key != p[j].key
  {
  }

  lemma StackOutside(s: seq<Token>, e: Event)
    requires forall t <- s :: !Reserved(t.key)
    ensures Outside(s + Stack(e), Trailing(e))
  {
    assert Opts([Slot("stack", NonEmpty(e.stack))][1..]) == [];
    if s != [] { assert (s + Stack(e))[0] == s[0] && !Reserved(s[0].key); }
    else { assert s + Stack(e) == Stack(e); }
  }

  lemma PeelTrailing(e1: Event, s1: seq<Token>, e2: Event, s2: seq<Token>)
    requires Behind(e1, s1) == Behind(e2, s2)
    requires (forall t <- s1 :: !Reserved(t.key)) && (forall t <- s2 :: !Reserved(t.key))
    ensures s1 == s2 && Trailing(e1) == Trailing(e2) && e1.stack == e2.stack
  {
    StackOutside(s1, e1);
    StackOutside(s2, e2);
    TrailingKeys(e1, e2);
    PeelSlots(Trailing(e1), Trailing(e2), s1 + Stack(e1), s2 + Stack(e2));
    forall t | t in s1 || t in s2 ensures t.key != "stack" { assert !Reserved(t.key); }
    StackLast(s1, e1);
    StackLast(s2, e2);
  }

  lemma TokensDetermineEvent(e1: Event, s1: seq<Token>, e2: Event, s2: seq<Token>)
    requires Tokens(e1, s1) == Tokens(e2, s2)
    requires (forall t <- s1 :: !Reserved(t.key)) && (forall t <- s2 :: !Reserved(t.key))
    ensures s1 == s2 && Leading(e1) == Leading(e2) && e1.message == e2.message && Trailing(e1) == Trailing(e2) && e1.stack == e2.stack
  {
    var m1, m2 := [Token("msg", e1.message)] + Behind(e1, s1), [Token("msg", e2.message)] + Behind(e2, s2);
    PeelSlots(Leading(e1), Leading(e2), m1, m2);
    assert m1[0] == m2[0] && m1[1..] == Behind(e1, s1) && m2[1..] == Behind(e2, s2);
    PeelTrailing(e1, s1, e2, s2);
  }

  lemma SlotsDetermine(e1: Event, e2: Event)
    requires Leading(e1) == Leading(e2) && Trailing(e1) == Trailing(e2)
    ensures e1.service == e2.service && e1.environment == e2.environment && e1.loggerName == e2.loggerName
    ensures e1.traceID == e2.traceID && e1.spanID == e2.spanID && e1.requestID == e2.requestID && e1.correlationID == e2.correlationID
    ensures e1.err == e2.err && e1.caller == e2.caller
  {
    forall i | 0 <= i < 3 ensures Leading(e1)[i] == Leading(e2)[i] {}
    forall i | 0 <= i < 6 ensures Trailing(e1)[i] == Trailing(e2)[i] {}
    assert Leading(e1)[0].value == NonEmpty(e1.service) && Leading(e1)[1].value == NonEmpty(e1.environment) && Leading(e1)[2].value == NonEmpty(e1.loggerName);
    assert Trailing(e1)[0].value == NonEmpty(e1.traceID) && Trailing(e1)[1].value == NonEmpty(e1.spanID) && Trailing(e1)[2].value == NonEmpty(e1.requestID);
    assert Trailing(e1)[3].value == NonEmpty(e1.correlationID) && Trailing(e1)[4].value == e1.err && Trailing(e1)[5].value == e1.caller;
  }

  /** A line determines its event up to the order of the fields, when no field key has a '=' or is a reserved name. */
  lemma LineDeterminesEvent(printable: char -> bool, e1: Event, s1: seq<Token>, e2: Event, s2: seq<Token>)
    requires SortOf(s1, e1.fields) && HeadOk(e1) && KeysOk(e1.fields) && (forall t <- e1.fields :: !Reserved(t.key))
    requires SortOf(s2, e2.fields) && HeadOk(e2) && KeysOk(e2.fields) && (forall t <- e2.fields :: !Reserved(t.key))
    ensures Line(printable, e1, s1) == Line(printable, e2, s2) <==> s1 == s2 && e1.(fields := []) == e2.(fields := [])
  {
    if Line(printable, e1, s1) == Line(printable, e2, s2) {
      LineReadsBack(printable, e1, s1);
      LineReadsBack(printable, e2, s2);
      SortKeeps(s1, e1.fields);
      SortKeeps(s2, e2.fields);
      TokensDetermineEvent(e1, s1, e2, s2);
      SlotsDetermine(e1, e2);
    }
  }

  /** The event with that value in place of its own. */
  function WithReserved(e: Event, key: string, v: string): Event {
    match key
    case "trace_id" => e.(traceID := v)
    case "span_id" => e.(spanID := v)
    case "request_id" => e.(requestID := v)
    case "correlation_id" => e.(correlationID := v)
    case "error" => e.(err := Some(v))
    case "caller" => e.(caller := Some(v))
    case "stack" => e.(stack := v)
    case _ => e
  }

  /** Nothing behind msg. */
  predicate Bare(e: Event) {
    e.traceID == e.spanID == e.requestID == e.correlationID == e.stack == "" && e.err == e.caller == None && e.fields == []
  }

  lemma {:induction false} NoSlots(slots: seq<Slot>)
    requires forall i :: 0 <= i < |slots| ==> slots[i].value.None?
    ensures Opts(slots) == []
  {
    if slots != [] { NoSlots(slots[1..]); }
  }

  lemma BareBehind(e: Event, s: seq<Token>)
    requires Bare(e.(fields := []))
    ensures Behind(e, s) == s
  {
    NoSlots(Trailing(e));
    NoSlots([Slot("stack", NonEmpty(""))]);
    assert [] + (s + []) == s;
  }

  lemma ReservedPlace(e: Event, key: string, v: string) returns (i: nat)
    requires Bare(e) && Reserved(key) && v != ""
    ensures var e1 := WithReserved(e, key, v); var slots := Trailing(e1) + [Slot("stack", NonEmpty(e1.stack))];
            i < |slots| && slots[i] == Slot(key, Some(v)) && forall j :: 0 <= j < |slots| && j != i ==> slots[j].value.None?
  {
    i := match key
         case "trace_id" => 0
         case "span_id" => 1
         case "request_id" => 2
         case "correlation_id" => 3
         case "error" => 4
         case "caller" => 5
         case _ => 6;
  }

  lemma {:induction false} OneSlot(slots: seq<Slot>, i: nat)
    requires i < |slots| && forall j :: 0 <= j < |slots| && j != i ==> slots[j].value.None?
    ensures Opts(slots) == SlotTokens(slots[i])
  {
    if i == 0 {
      NoSlots(slots[1..]);
    } else {
      OneSlot(slots[1..], i - 1);
    }
  }

  /** The one token behind msg. */
  lemma ReservedBehind(e: Event, key: string, v: string)
    requires Bare(e) && Reserved(key) && v != ""
    ensures Behind(WithReserved(e, key, v), []) == [Token(key, v)]
  {
    var e1 := WithReserved(e, key, v);
    var slots := Trailing(e1) + [Slot("stack", NonEmpty(e1.stack))];
    OptsSnoc(Trailing(e1), Slot("stack", NonEmpty(e1.stack)));
    OptsOne(Slot("stack", NonEmpty(e1.stack)));
    assert Behind(e1, []) == Opts(slots) by { assert [] + Stack(e1) == Stack(e1); }
    var i := ReservedPlace(e, key, v);
    OneSlot(slots, i);
  }

  /** A reserved value changes nothing up to msg. */
  lemma ReservedHead(e: Event, key: string, v: string)
    ensures var e1 := WithReserved(e, key, v);
            e1.time == e.time && e1.level == e.level && Leading(e1) == Leading(e) && e1.message == e.message && e1.fields == e.fields
  {
  }

  lemma SameLine(printable: char -> bool, e1: Event, s1: seq<Token>, e2: Event, s2: seq<Token>)
    requires e1.time == e2.time && e1.level == e2.level && Leading(e1) == Leading(e2) && e1.message == e2.message
    requires Behind(e1, s1) == Behind(e2, s2)
    ensures Line(printable, e1, s1) == Line(printable, e2, s2)
  {
  }

  /** Any field with a reserved key and a value can be mistaken for the token itself: two events, one line. */
  lemma ReservedKeyAmbiguous(printable: char -> bool, e: Event, key: string, v: string)
    requires Bare(e) && Reserved(key) && v != ""
    ensures var t := Token(key, v); var e1, e2 := WithReserved(e, key, v), e.(fields := [t]);
            && e1 != e2 && SortOf([], e1.fields) && SortOf([t], e2.fields)
            && Line(printable, e1, []) == Line(printable, e2, [t])
  {
    var t := Token(key, v);
    var e1, e2 := WithReserved(e, key, v), e.(fields := [t]);
    BareBehind(e2, [t]);
    ReservedBehind(e, key, v);
    ReservedHead(e, key, v);
    SameLine(printable, e1, [], e2, [t]);
  }

  lemma SameShown(k1: string, q1: string, k2: string, q2: string)
    ensures " " + (k1 + "=" + q1 + " " + k2) + "=" + q2 == (" " + k1 + "=" + q1) + (" " + k2 + "=" + q2)
  {
    var a := " " + k1 + "=" + q1;
    assert " " + (k1 + "=" + q1 + " " + k2) == a + " " + k2;
    Assoc(a, " ", k2);
    Assoc(a, " " + k2, "=");
    Assoc(a, " " + k2 + "=", q2);
  }

  lemma SplitKey(printable: char -> bool, k1: string, v: string, k2: string, w: string)
    ensures WriteTokens(printable, [Token(k1 + "=" + QuoteIfNeeded(printable, v) + " " + k2, w)])
            == WriteTokens(printable, [Token(k1, v), Token(k2, w)])
  {
    var t1, t2 := Token(k1, v), Token(k2, w);
    WriteOne(printable, Token(k1 + "=" + QuoteIfNeeded(printable, v) + " " + k2, w));
    WriteOne(printable, t2);
    assert [t1, t2][1..] == [t2];
    SameShown(k1, QuoteIfNeeded(printable, v), k2, QuoteIfNeeded(printable, w));
  }

  lemma SameText(printable: char -> bool, before: seq<Token>, s: seq<Token>, t: seq<Token>, after: seq<Token>)
    requires WriteTokens(printable, s) == WriteTokens(printable, t)
    ensures WriteTokens(printable, before + s + after) == WriteTokens(printable, before + t + after)
  {
    WriteConcat(printable, before + s, after);
    WriteConcat(printable, before + t, after);
    WriteConcat(printable, before, s);
    WriteConcat(printable, before, t);
  }

  /** A line depends on its fields only through their text. */
  lemma FieldsInLine(printable: char -> bool, e: Event, s: seq<Token>, t: seq<Token>)
    requires WriteTokens(printable, s) == WriteTokens(printable, t)
    ensures Line(printable, e, s) == Line(printable, e, t)
  {
    var before := [] + Opts(Leading(e)) + [Token("msg", e.message)] + Opts(Trailing(e));
    TokensInOrder(e, s);
    TokensInOrder(e, t);
    SameText(printable, before, s, t, Stack(e));
  }

  /** So can a field key with a '=' and a space: for any keys in order and any values, one field and two fields give one line. */
  lemma EqualsKeyAmbiguous(printable: char -> bool, e: Event, k1: string, v: string, k2: string, w: string)
    requires KeyLeq(k1, k2)
    ensures var one := [Token(k1 + "=" + QuoteIfNeeded(printable, v) + " " + k2, w)];
            var two := [Token(k1, v), Token(k2, w)];
            var e1, e2 := e.(fields := one), e.(fields := two);
            && e1 != e2 && SortOf(one, e1.fields) && SortOf(two, e2.fields)
            && Line(printable, e1, one) == Line(printable, e2, two)
  {
    var one := [Token(k1 + "=" + QuoteIfNeeded(printable, v) + " " + k2, w)];
    var two := [Token(k1, v), Token(k2, w)];
    assert |one| != |two|;
    SplitKey(printable, k1, v, k2, w);
    FieldsInLine(printable, e, one, two);
    assert Leading(e) == Leading(e.(fields := one)) == Leading(e.(fields := two));
    assert Tokens(e, one) == Tokens(e.(fields := one), one) && Tokens(e, two) == Tokens(e.(fields := two), two);
  }
}
