/**
 Redaction on the containers themselves. Maps and slices are objects that events, loggers and callers
 share; redaction builds new ones and overwrites nothing but the event's own field slots.
 */
module RedactionHeap {
  import opened Basics
  import opened Redaction

  /** A field value; containers are references. */
  datatype Val =
    | VStr(s: string)
    | VOther(id: int)
    | VMap(o: MapObj)
    | VList(xs: array<Val>)
    | VFields(fs: array<FieldV>)

  datatype FieldV = FieldV(key: string, value: Val)

  class MapObj {
    var m: map<string, Val>
    constructor (m: map<string, Val>)
      ensures this.m == m
    {
      this.m := m;
    }
  }

  /** At this moment v holds `value`, all the way down, in containers that are all in r. */
  ghost predicate Holds(v: Val, value: Value, r: set<object>)
    reads r
    decreases value
  {
    match (v, value)
    case (VStr(s), Str(t)) => s == t
    case (VOther(i), Other(j)) => i == j
    case (VMap(o), Map(m)) => o in r && o.m.Keys == m.Keys && forall k :: k in m ==> Holds(o.m[k], m[k], r)
    case (VList(xs), List(ys)) => xs in r && xs.Length == |ys| && forall i :: 0 <= i < |ys| ==> Holds(xs[i], ys[i], r)
    case (VFields(fs), Fields(gs)) =>
      fs in r && fs.Length == |gs| && forall i :: 0 <= i < |gs| ==> fs[i].key == gs[i].key && Holds(fs[i].value, gs[i].value, r)
    case _ => false
  }

  /** The same for the fields of a slice. */
  ghost predicate FieldsHold(fs: seq<FieldV>, gs: seq<Field>, r: set<object>)
    reads r
  {
    |fs| == |gs| && forall i :: 0 <= i < |gs| ==> fs[i].key == gs[i].key && Holds(fs[i].value, gs[i].value, r)
  }

  /** What a value holds is determined by its containers, whatever set they are looked up in. */
  lemma {:induction false} HoldsOne(v: Val, a: Value, b: Value, r: set<object>, r1: set<object>)
    requires Holds(v, a, r) && Holds(v, b, r1)
    ensures a == b
    decreases a
  {
    match v {
      case VMap(o) =>
        forall k | k in a.m ensures a.m[k] == b.m[k] { HoldsOne(o.m[k], a.m[k], b.m[k], r, r1); }
      case VList(xs) =>
        forall i | 0 <= i < |a.xs| ensures a.xs[i] == b.xs[i] { HoldsOne(xs[i], a.xs[i], b.xs[i], r, r1); }
      case VFields(fs) =>
        forall i | 0 <= i < |a.fs| ensures a.fs[i] == b.fs[i] { HoldsOne(fs[i].value, a.fs[i].value, b.fs[i].value, r, r1); }
      case _ =>
    }
  }

  /** A larger set of containers changes nothing. */
  lemma {:induction false} Widen(v: Val, value: Value, r: set<object>, r1: set<object>)
    requires Holds(v, value, r) && r <= r1
    ensures Holds(v, value, r1)
    decreases value
  {
    match v {
      case VMap(o) => forall k | k in value.m ensures Holds(o.m[k], value.m[k], r1) { Widen(o.m[k], value.m[k], r, r1); }
      case VList(xs) => forall i | 0 <= i < |value.xs| ensures Holds(xs[i], value.xs[i], r1) { Widen(xs[i], value.xs[i], r, r1); }
      case VFields(fs) =>
        forall i | 0 <= i < |value.fs| ensures Holds(fs[i].value, value.fs[i].value, r1) { Widen(fs[i].value, value.fs[i].value, r, r1); }
      case _ =>
    }
  }

  lemma WidenFields(fs: seq<FieldV>, gs: seq<Field>, r: set<object>, r1: set<object>)
    requires FieldsHold(fs, gs, r) && r <= r1
    ensures FieldsHold(fs, gs, r1)
  {
    forall i | 0 <= i < |gs| ensures Holds(fs[i].value, gs[i].value, r1) { Widen(fs[i].value, gs[i].value, r, r1); }
  }

  /** Map entries made so far hold what they should. */
  ghost predicate EntriesHold(m: map<string, Val>, want: map<string, Value>, r: set<object>)
    reads r
  {
    forall k :: k in m ==> k in want && Holds(m[k], want[k], r)
  }

  lemma WidenEntries(m: map<string, Val>, want: map<string, Value>, r: set<object>, r1: set<object>)
    requires EntriesHold(m, want, r) && r <= r1
    ensures EntriesHold(m, want, r1)
  {
    forall k | k in m ensures Holds(m[k], want[k], r1) { Widen(m[k], want[k], r, r1); }
  }

  lemma AddEntry(m: map<string, Val>, want: map<string, Value>, r: set<object>, k: string, v: Val, rv: set<object>)
    requires EntriesHold(m, want, r) && k in want && Holds(v, want[k], rv)
    ensures EntriesHold(m[k := v], want, r + rv)
  {
    WidenEntries(m, want, r, r + rv);
    Widen(v, want[k], rv, r + rv);
  }

  lemma MapMade(made: MapObj, want: map<string, Value>, r: set<object>)
    requires EntriesHold(made.m, want, r) && made.m.Keys == want.Keys
    ensures Holds(VMap(made), Map(want), r + {made})
  {
    WidenEntries(made.m, want, r, r + {made});
  }

  lemma MapEntry(p: Processor, o: MapObj, value: Value, r: set<object>, k: string)
    requires Holds(VMap(o), value, r) && k in o.m
    ensures value.Map? && k in value.m && Holds(o.m[k], value.m[k], r)
    ensures var want := Redaction.RedactNested(p, value);
            want.Map? && k in want.m && want.m[k] == Redaction.RedactValue(p, k, value.m[k])
  {
  }

  // ---- no modifies clause: whatever these write they have made themselves ----

  /** redactValue: the mask under a sensitive key, otherwise a redacted copy; a leaf is its own copy. */
  method RedactValue(p: Processor, key: string, v: Val, ghost value: Value, ghost r: set<object>) returns (out: Val, ghost r1: set<object>)
    requires Holds(v, value, r)
    ensures fresh(r1) && Holds(out, Redaction.RedactValue(p, key, value), r1)
    ensures Holds(v, value, r)
    decreases value, 3
  {
    NestedIsValue(p, key, value);
    if ShouldRedact(p, key) {
      return VStr(p.mask), {};
    }
    out, r1 := RedactNested(p, v, value, r);
  }

  method RedactNested(p: Processor, v: Val, ghost value: Value, ghost r: set<object>) returns (out: Val, ghost r1: set<object>)
    requires Holds(v, value, r)
    ensures fresh(r1) && Holds(out, Redaction.RedactNested(p, value), r1)
    ensures Holds(v, value, r)
    decreases value, 2
  {
    match v {
      case VMap(o) => out, r1 := RedactMap(p, o, value, r);
      case VList(xs) => out, r1 := RedactList(p, xs, value, r);
      case VFields(fs) => out, r1 := RedactFieldList(p, fs, value, r);
      case _ => return v, {};
    }
  }

  method RedactMap(p: Processor, o: MapObj, ghost value: Value, ghost r: set<object>) returns (out: Val, ghost r1: set<object>)
    requires Holds(VMap(o), value, r)
    ensures fresh(r1) && Holds(out, Redaction.RedactNested(p, value), r1)
    decreases value, 1
  {
    var entries, r0 := RedactEntries(p, o, value, r);
    var made := new MapObj(entries);
    MapMade(made, Redaction.RedactNested(p, value).m, r0);
    return VMap(made), r0 + {made};
  }

  /** The loop over a map: every entry redacted under its own key. */
  method RedactEntries(p: Processor, o: MapObj, ghost value: Value, ghost r: set<object>) returns (out: map<string, Val>, ghost r1: set<object>)
    requires Holds(VMap(o), value, r)
    ensures fresh(r1) && out.Keys == o.m.Keys && EntriesHold(out, Redaction.RedactNested(p, value).m, r1)
    decreases value, 0
  {
    ghost var want := Redaction.RedactNested(p, value).m;
    out, r1 := map[], {};
    var keys := o.m.Keys;
    while keys != {}
      invariant keys <= o.m.Keys && out.Keys == o.m.Keys - keys
      invariant fresh(r1) && EntriesHold(out, want, r1)
      decreases |keys|
    {
      var k :| k in keys;
      MapEntry(p, o, value, r, k);
      var v, rv := RedactValue(p, k, o.m[k], value.m[k], r);
      AddEntry(out, want, r1, k, v, rv);
      out, r1 := out[k := v], r1 + rv;
      keys := keys - {k};
    }
  }

  method RedactList(p: Processor, xs: array<Val>, ghost value: Value, ghost r: set<object>) returns (out: Val, ghost r1: set<object>)
    requires Holds(VList(xs), value, r)
    ensures fresh(r1) && Holds(out, Redaction.RedactNested(p, value), r1)
    decreases value, 0
  {
    ghost var want := Redaction.RedactNested(p, value).xs;
    var made := new Val[xs.Length];
    r1 := {};
    for i := 0 to xs.Length
      invariant fresh(r1) && made !in r1
      invariant forall j :: 0 <= j < i ==> Holds(made[j], want[j], r1)
    {
      var v, rv := RedactNested(p, xs[i], value.xs[i], r);
      Widen(v, want[i], rv, r1 + rv);
      forall j | 0 <= j < i ensures Holds(made[j], want[j], r1 + rv) { Widen(made[j], want[j], r1, r1 + rv); }
      r1 := r1 + rv;
      made[i] := v;
    }
    forall j | 0 <= j < xs.Length ensures Holds(made[j], want[j], r1 + {made}) { Widen(made[j], want[j], r1, r1 + {made}); }
    r1 := r1 + {made};
    return VList(made), r1;
  }

  method RedactFieldList(p: Processor, fs: array<FieldV>, ghost value: Value, ghost r: set<object>) returns (out: Val, ghost r1: set<object>)
    requires Holds(VFields(fs), value, r)
    ensures fresh(r1) && Holds(out, Redaction.RedactNested(p, value), r1)
    decreases value, 0
  {
    ghost var want := Redaction.RedactNested(p, value).fs;
    var made := new FieldV[fs.Length];
    r1 := {};
    for i := 0 to fs.Length
      invariant fresh(r1) && made !in r1
      invariant FieldsHold(made[..i], want[..i], r1)
    {
      var v, rv := RedactValue(p, fs[i].key, fs[i].value, value.fs[i].value, r);
      Widen(v, want[i].value, rv, r1 + rv);
      WidenFields(made[..i], want[..i], r1, r1 + rv);
      r1 := r1 + rv;
      made[i] := FieldV(fs[i].key, v);
    }
    WidenFields(made[..fs.Length], want[..fs.Length], r1, r1 + {made});
    r1 := r1 + {made};
    return VFields(made), r1;
  }

  /** The error of an event; a Go nil error is None. */
  datatype EventErr = Original(e: Err) | Masked(mask: string)

  /**
   Process: every field of the slice fields[..n] gets its value overwritten in place, then the error.
   Nothing but the slice's own slots is written, so what the old values hold, which loggers and callers
   may share, stays as it was.
   */
  method Process(p: Processor, fields: array<FieldV>, n: nat, err: Option<EventErr>, ghost gs: seq<Field>, ghost r: set<object>)
    returns (newErr: Option<EventErr>, ghost r1: set<object>)
    requires n <= fields.Length && fields !in r && FieldsHold(fields[..n], gs, r)
    modifies fields
    ensures fresh(r1) && FieldsHold(fields[..n], RedactFields(p, gs), r1)
    ensures FieldsHold(old(fields[..n]), gs, r)
    ensures fields[n..] == old(fields[n..])
    ensures newErr == if p.redactError && err.Some? && ShouldRedact(p, "error") then Some(Masked(p.mask)) else err
  {
    ghost var was, want := fields[..n], RedactFields(p, gs);
    r1 := {};
    var i := 0;
    while i < n
      invariant 0 <= i <= n
      invariant fresh(r1) && fields !in r1 && FieldsHold(fields[..i], want[..i], r1)
      invariant FieldsHold(was, gs, r)
      invariant forall j :: i <= j < n ==> fields[j] == was[j]
      invariant fields[n..] == old(fields[n..])
    {
      assert fields[i] == was[i];
      var v, rv := RedactValue(p, fields[i].key, fields[i].value, gs[i].value, r);
      Widen(v, want[i].value, rv, r1 + rv);
      WidenFields(fields[..i], want[..i], r1, r1 + rv);
      r1 := r1 + rv;
      fields[i] := FieldV(fields[i].key, v);
      i := i + 1;
    }
    assert want[..n] == want;
    newErr := err;
    if p.redactError && err.Some? && ShouldRedact(p, "error") {
      newErr := Some(Masked(p.mask));
    }
  }
}
