/** RedactionProcessor over arbitrarily nested maps, lists and field lists. */
module Redaction {
  import opened Basics

  datatype Value =
    | Str(s: string)
    | Other(id: int)                       // any value that is no container
    | Map(m: map<string, Value>)
    | List(xs: seq<Value>)
    | Fields(fs: seq<Field>)

  datatype Field = Field(key: string, value: Value)

  // ---- keys ----

  predicate IsSpace(c: char) { c == ' ' || '\t' <= c <= '\r' }
  function LowerChar(c: char): char { if 'A' <= c <= 'Z' then (c as int + 32) as char else c }

  function ToLower(s: string): string { seq(|s|, i requires 0 <= i < |s| => LowerChar(s[i])) }
  function TrimLeft(s: string): string { if s != [] && IsSpace(s[0]) then TrimLeft(s[1..]) else s }
  function TrimRight(s: string): string { if s != [] && IsSpace(s[|s| - 1]) then TrimRight(s[..|s| - 1]) else s }
  function TrimSpace(s: string): string { TrimRight(TrimLeft(s)) }

  datatype Options = Options(keys: seq<string>, mask: string, caseInsensitive: bool, redactError: bool)
  datatype Processor = Processor(mask: string, keys: set<string>, caseInsensitive: bool, redactError: bool)

  function ConfiguredKey(caseInsensitive: bool, k: string): string {
    if caseInsensitive then ToLower(TrimSpace(k)) else TrimSpace(k)
  }

  /** What NewRedactionProcessor makes of its options. */
  ghost predicate BuiltFrom(p: Processor, opts: Options) {
    && p.mask == (if opts.mask == "" then "***REDACTED***" else opts.mask)
    && p.caseInsensitive == opts.caseInsensitive && p.redactError == opts.redactError
    && forall s :: s in p.keys <==> s != "" && exists i :: 0 <= i < |opts.keys| && ConfiguredKey(opts.caseInsensitive, opts.keys[i]) == s
  }

  /** NewRedactionProcessor. */
  method NewProcessor(opts: Options) returns (p: Processor)
    ensures BuiltFrom(p, opts)
  {
    var mask := if opts.mask == "" then "***REDACTED***" else opts.mask;
    var keys: set<string> := {};
    for n := 0 to |opts.keys|
      invariant forall s :: s in keys <==> s != "" && exists i :: 0 <= i < n && ConfiguredKey(opts.caseInsensitive, opts.keys[i]) == s
    {
      var k := if opts.caseInsensitive then ToLower(TrimSpace(opts.keys[n])) else TrimSpace(opts.keys[n]);
      if k != "" { keys := keys + {k}; }
    }
    return Processor(mask, keys, opts.caseInsensitive, opts.redactError);
  }

  /** shouldRedact: in case-sensitive mode the trimmed key is computed and thrown away. */
  predicate ShouldRedact(p: Processor, key: string) {
    if p.caseInsensitive then ToLower(TrimSpace(key)) in p.keys else key in p.keys
  }

  lemma {:induction false} TrimLeftDone(s: string)
    ensures TrimLeft(s) != [] ==> !IsSpace(TrimLeft(s)[0])
  {
    if s != [] && IsSpace(s[0]) { TrimLeftDone(s[1..]); }
  }

  lemma {:induction false} TrimRightDone(s: string)
    ensures TrimRight(s) <= s
    ensures TrimRight(s) != [] ==> !IsSpace(TrimRight(s)[|TrimRight(s)| - 1])
  {
    if s != [] && IsSpace(s[|s| - 1]) { TrimRightDone(s[..|s| - 1]); }
  }

  lemma TrimTwice(s: string)
    ensures TrimSpace(TrimSpace(s)) == TrimSpace(s)
  {
    TrimLeftDone(s);
    TrimRightDone(TrimLeft(s));
  }

  // ---- which keys are redacted, from the options alone ----

  /** A character code of ASCII white space. */
  predicate SpaceCode(c: char) { c as int == 32 || 9 <= c as int <= 13 }

  /** s[i..j] with only white space around it, and none at its ends. */
  ghost predicate Core(s: string, i: nat, j: nat) {
    && i <= j <= |s|
    && (forall k :: 0 <= k < i || j <= k < |s| ==> SpaceCode(s[k]))
    && (i < j ==> !SpaceCode(s[i]) && !SpaceCode(s[j - 1]))
  }

  ghost predicate TrimsTo(s: string, t: string) { exists i: nat, j: nat :: Core(s, i, j) && s[i..j] == t }

  /** Equal, letter by letter, up to the case of ASCII letters. */
  predicate SameLetter(a: char, b: char) {
    || a == b
    || (65 <= a as int <= 90 && b as int == a as int + 32)
    || (65 <= b as int <= 90 && a as int == b as int + 32)
  }

  predicate SameUpToCase(a: string, b: string) { |a| == |b| && forall i :: 0 <= i < |a| ==> SameLetter(a[i], b[i]) }

  lemma {:induction false} TrimLeftAt(s: string) returns (i: nat)
    ensures i <= |s| && TrimLeft(s) == s[i..] && (forall k :: 0 <= k < i ==> SpaceCode(s[k])) && (i < |s| ==> !SpaceCode(s[i]))
  {
    if s != [] && IsSpace(s[0]) {
      i := TrimLeftAt(s[1..]);
      i := i + 1;
    } else {
      i := 0;
    }
  }

  lemma {:induction false} TrimRightAt(s: string) returns (j: nat)
    ensures j <= |s| && TrimRight(s) == s[..j] && (forall k :: j <= k < |s| ==> SpaceCode(s[k])) && (j > 0 ==> !SpaceCode(s[j - 1]))
  {
    if s != [] && IsSpace(s[|s| - 1]) {
      j := TrimRightAt(s[..|s| - 1]);
    } else {
      j := |s|;
    }
  }

  lemma TrimmedOnce(s: string, t: string)
    ensures TrimsTo(s, t) <==> t == TrimSpace(s)
  {
    var i := TrimLeftAt(s);
    var j := TrimRightAt(s[i..]);
    assert Core(s, i, i + j) && s[i..i + j] == TrimSpace(s);
    if TrimsTo(s, t) {
      var i1: nat, j1: nat :| Core(s, i1, j1) && s[i1..j1] == t;
    }
  }

  lemma SameLower(a: char, b: char)
    ensures LowerChar(a) == LowerChar(b) <==> SameLetter(a, b)
  {
  }

  lemma LowerSame(a: string, b: string)
    ensures ToLower(a) == ToLower(b) <==> SameUpToCase(a, b)
  {
    forall i | 0 <= i < |a| && i < |b| ensures LowerChar(a[i]) == LowerChar(b[i]) <==> SameLetter(a[i], b[i]) { SameLower(a[i], b[i]); }
    if ToLower(a) == ToLower(b) {
      assert |ToLower(a)| == |a| && |ToLower(b)| == |b|;
      forall i | 0 <= i < |a| ensures SameLetter(a[i], b[i]) { assert ToLower(a)[i] == ToLower(b)[i]; }
    }
  }

  /** The trimmed configured key t is `key` or, case-insensitively, `key` trimmed, up to case. */
  ghost predicate Matches(caseInsensitive: bool, t: string, key: string) {
    if caseInsensitive then exists u: string :: TrimsTo(key, u) && SameUpToCase(t, u) else t == key
  }

  /** Option key i asks for `key` to be redacted. */
  ghost predicate Asks(opts: Options, i: nat, key: string) {
    i < |opts.keys| && exists t: string :: TrimsTo(opts.keys[i], t) && t != "" && Matches(opts.caseInsensitive, t, key)
  }

  lemma AsksIs(opts: Options, i: nat, key: string)
    requires i < |opts.keys|
    ensures Asks(opts, i, key) <==>
            && TrimSpace(opts.keys[i]) != ""
            && ConfiguredKey(opts.caseInsensitive, opts.keys[i]) == if opts.caseInsensitive then ToLower(TrimSpace(key)) else key
  {
    var t, u := TrimSpace(opts.keys[i]), TrimSpace(key);
    TrimmedOnce(opts.keys[i], t);
    TrimmedOnce(key, u);
    LowerSame(t, u);
    forall x: string | TrimsTo(opts.keys[i], x) ensures x == t { TrimmedOnce(opts.keys[i], x); }
    forall x: string | TrimsTo(key, x) ensures x == u { TrimmedOnce(key, x); }
  }

  /**
   A key is redacted exactly when some configured key trims to a non-empty string that is the key itself or,
   case-insensitively, the trimmed key up to the case of its letters.
   */
  lemma RedactedIffAsked(p: Processor, opts: Options, key: string)
    requires BuiltFrom(p, opts)
    ensures ShouldRedact(p, key) <==> exists i: nat :: Asks(opts, i, key)
  {
    var wanted := if opts.caseInsensitive then ToLower(TrimSpace(key)) else key;
    forall i: nat | i < |opts.keys| ensures
      Asks(opts, i, key) <==> TrimSpace(opts.keys[i]) != "" && ConfiguredKey(opts.caseInsensitive, opts.keys[i]) == wanted
    {
      AsksIs(opts, i, key);
    }
    if ShouldRedact(p, key) {
      var i :| 0 <= i < |opts.keys| && ConfiguredKey(opts.caseInsensitive, opts.keys[i]) == wanted;
      assert Asks(opts, i, key);
    }
    if i: nat :| Asks(opts, i, key) {
      assert |ConfiguredKey(opts.caseInsensitive, opts.keys[i])| == |TrimSpace(opts.keys[i])|;
    }
  }

  /**
   A field whose normalised key is configured should be redacted. Case-insensitively it always is;
   case-sensitively it is exactly when its key has no surrounding space.
   */
  lemma SpacedKeysEscape(p: Processor, opts: Options, key: string)
    requires BuiltFrom(p, opts) && ConfiguredKey(p.caseInsensitive, key) in p.keys
    ensures ShouldRedact(p, key) <==> p.caseInsensitive || TrimSpace(key) == key
  {
    if !p.caseInsensitive && key in p.keys {
      var i :| 0 <= i < |opts.keys| && ConfiguredKey(opts.caseInsensitive, opts.keys[i]) == key;
      TrimTwice(opts.keys[i]);
    }
  }

  /** An input that escapes: the key "password " with "password" configured, case-sensitively. */
  lemma SpacedKeyExample(p: Processor)
    requires BuiltFrom(p, Options(["password"], "", false, false))
    ensures ConfiguredKey(false, "password ") in p.keys && !ShouldRedact(p, "password ")
  {
    var opts := Options(["password"], "", false, false);
    assert TrimSpace(opts.keys[0]) == "password";
    assert TrimLeft("password ") == "password ";
    assert "password "[..8] == "password";
    assert TrimSpace("password ") == "password";
    assert ConfiguredKey(false, opts.keys[0]) == "password";
    assert "password" in p.keys;
    SpacedKeysEscape(p, opts, "password ");
  }

  // ---- values ----

  function RedactValue(p: Processor, key: string, value: Value): Value
    decreases value, 0
  {
    if ShouldRedact(p, key) then Str(p.mask)
    else match value
         case Map(m) => Map(map k | k in m :: RedactValue(p, k, m[k]))
         case List(xs) => List(seq(|xs|, i requires 0 <= i < |xs| => RedactNested(p, xs[i])))
         case Fields(fs) => Fields(seq(|fs|, i requires 0 <= i < |fs| => Field(fs[i].key, RedactValue(p, fs[i].key, fs[i].value))))
         case _ => value
  }

  function RedactNested(p: Processor, value: Value): Value
    decreases value, 0
  {
    match value
    case Map(m) => Map(map k | k in m :: RedactValue(p, k, m[k]))
    case List(xs) => List(seq(|xs|, i requires 0 <= i < |xs| => RedactNested(p, xs[i])))
    case Fields(fs) => Fields(seq(|fs|, i requires 0 <= i < |fs| => Field(fs[i].key, RedactValue(p, fs[i].key, fs[i].value))))
    case _ => value
  }

  function RedactFields(p: Processor, fs: seq<Field>): seq<Field> {
    seq(|fs|, i requires 0 <= i < |fs| => Field(fs[i].key, RedactValue(p, fs[i].key, fs[i].value)))
  }

  /** redactNested is redactValue under a key that is not sensitive. */
  lemma NestedIsValue(p: Processor, key: string, value: Value)
    ensures RedactValue(p, key, value) == if ShouldRedact(p, key) then Str(p.mask) else RedactNested(p, value)
  {
    if !ShouldRedact(p, key) {
      match value {
        case Map(m) => assert (map k | k in m :: RedactValue(p, k, m[k])) == RedactNested(p, value).m;
        case _ =>
      }
    }
  }

  // ---- looking inside ----

  datatype Step = Key(k: string) | Index(i: nat) | FieldAt(n: nat)

  function Child(v: Value, step: Step): Option<Value> {
    match (v, step)
    case (Map(m), Key(k)) => if k in m then Some(m[k]) else None
    case (List(xs), Index(i)) => if i < |xs| then Some(xs[i]) else None
    case (Fields(fs), FieldAt(n)) => if n < |fs| then Some(fs[n].value) else None
    case _ => None
  }

  /** The step goes into a value stored under a sensitive key. */
  predicate Sensitive(p: Processor, v: Value, step: Step) {
    match (v, step)
    case (Map(_), Key(k)) => ShouldRedact(p, k)
    case (Fields(fs), FieldAt(n)) => n < |fs| && ShouldRedact(p, fs[n].key)
    case _ => false
  }

  function Lookup(v: Value, path: seq<Step>): Option<Value> {
    if path == [] then Some(v)
    else
      var c := Child(v, path[0]);
      if c.None? then None else Lookup(c.value, path[1..])
  }

  /** Length of the path up to and including its first step under a sensitive key; None if there is none. */
  function Cut(p: Processor, v: Value, path: seq<Step>): Option<nat> {
    if path == [] || Child(v, path[0]).None? then None
    else if Sensitive(p, v, path[0]) then Some(1)
    else
      var rest := Cut(p, Child(v, path[0]).value, path[1..]);
      if rest.None? then None else Some(rest.value + 1)
  }

  lemma ChildRedacted(p: Processor, v: Value, step: Step)
    ensures Child(RedactNested(p, v), step) ==
            if Child(v, step).None? then None
            else if Sensitive(p, v, step) then Some(Str(p.mask))
            else Some(RedactNested(p, Child(v, step).value))
  {
    match (v, step) {
      case (Map(m), Key(k)) => if k in m { NestedIsValue(p, k, m[k]); }
      case (Fields(fs), FieldAt(n)) => if n < |fs| { NestedIsValue(p, fs[n].key, fs[n].value); }
      case _ =>
    }
  }

  /**
   What is found at any path of the result: the mask at the first sensitive key, nothing below it, and
   away from sensitive keys the redaction of what was there - so nothing below a sensitive key is left.
   */
  lemma {:induction false} FoundAfterRedaction(p: Processor, v: Value, path: seq<Step>)
    ensures Lookup(RedactNested(p, v), path) ==
            match Cut(p, v, path)
            case Some(n) => if |path| == n then Some(Str(p.mask)) else None
            case None => if Lookup(v, path).None? then None else Some(RedactNested(p, Lookup(v, path).value))
    decreases |path|
  {
    if path != [] {
      ChildRedacted(p, v, path[0]);
      var c := Child(v, path[0]);
      if c.Some? {
        if Sensitive(p, v, path[0]) {
          if |path| > 1 { assert Child(Str(p.mask), path[1..][0]).None?; }
        } else {
          FoundAfterRedaction(p, c.value, path[1..]);
        }
      }
    }
  }

  /** Away from sensitive keys a container keeps its kind, its keys or length, and a leaf is unchanged. */
  lemma ShapeKept(p: Processor, v: Value)
    ensures var r := RedactNested(p, v);
            match v
            case Map(m) => r.Map? && r.m.Keys == m.Keys
            case List(xs) => r.List? && |r.xs| == |xs|
            case Fields(fs) => r.Fields? && |r.fs| == |fs| && forall i :: 0 <= i < |fs| ==> r.fs[i].key == fs[i].key
            case _ => r == v
  {
  }

  /** Redacting twice is redacting once. */
  lemma {:induction false} RedactTwice(p: Processor, v: Value)
    ensures RedactNested(p, RedactNested(p, v)) == RedactNested(p, v)
    decreases v
  {
    var r := RedactNested(p, v);
    match v {
      case Map(m) =>
        forall k | k in m ensures RedactValue(p, k, r.m[k]) == r.m[k] {
          RedactTwice(p, m[k]);
          NestedIsValue(p, k, m[k]);
          NestedIsValue(p, k, r.m[k]);
        }
        assert RedactNested(p, r).m == r.m;
      case List(xs) =>
        forall i | 0 <= i < |xs| ensures RedactNested(p, r.xs[i]) == r.xs[i] { RedactTwice(p, xs[i]); }
        assert RedactNested(p, r).xs == r.xs;
      case Fields(fs) =>
        forall i | 0 <= i < |fs| ensures RedactValue(p, fs[i].key, r.fs[i].value) == r.fs[i].value {
          RedactTwice(p, fs[i].value);
          NestedIsValue(p, fs[i].key, fs[i].value);
          NestedIsValue(p, fs[i].key, r.fs[i].value);
        }
        assert RedactNested(p, r).fs == r.fs;
      case _ =>
    }
  }

  /** An event's field list is redacted as the field list value it is, so all of the above holds for it. */
  lemma FieldsAsValue(p: Processor, fs: seq<Field>)
    ensures RedactNested(p, Fields(fs)) == Fields(RedactFields(p, fs))
    ensures RedactFields(p, RedactFields(p, fs)) == RedactFields(p, fs)
  {
    assert RedactNested(p, Fields(fs)).fs == RedactFields(p, fs);
    RedactTwice(p, Fields(fs));
    assert RedactNested(p, Fields(RedactFields(p, fs))).fs == RedactFields(p, RedactFields(p, fs));
  }
}
