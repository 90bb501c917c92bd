/**
 The logger and the backing arrays of its field slices: cloning, appending within spare capacity, and
 processors that overwrite an event's fields in place. None of the logger's methods has a modifies
 clause: whatever they write was allocated by them.
 */
module Loggers {
  import opened Basics
  import Redaction
  import opened RedactionHeap

  type Field = FieldV

  /** A Go slice from the start of its backing array; the array's length is the capacity. */
  datatype Slice = Slice(buf: array<Field>, len: nat) {
    predicate Valid() { len <= buf.Length }

    function Contents(): seq<Field>
      requires Valid()
      reads buf
    {
      buf[..len]
    }
  }

  /** The nil slice. */
  method Nil() returns (s: Slice)
    ensures s.Valid() && s.len == 0 && s.buf.Length == 0 && fresh(s.buf)
  {
    var empty := new Field[0];
    return Slice(empty, 0);
  }

  /** append: in place while the capacity lasts, otherwise into a new array with `spare` extra slots. */
  method Append(s: Slice, x: Slice, spare: nat) returns (r: Slice)
    requires s.Valid() && x.Valid() && s.buf != x.buf
    modifies if s.len + x.len <= s.buf.Length then {s.buf} else {}
    ensures r.Valid() && r.Contents() == old(s.Contents() + x.Contents())
    ensures if s.len + x.len <= s.buf.Length then r.buf == s.buf else fresh(r.buf)
    ensures s.buf[..s.len] == old(s.buf[..s.len])
  {
    var n := s.len + x.len;
    if n <= s.buf.Length {
      for i := 0 to x.len
        invariant s.buf[..s.len] == old(s.buf[..s.len])
        invariant s.buf[s.len..s.len + i] == x.buf[..i]
        invariant x.buf[..] == old(x.buf[..])
      {
        s.buf[s.len + i] := x.buf[i];
      }
      assert s.buf[..n] == s.buf[..s.len] + s.buf[s.len..n];
      return Slice(s.buf, n);
    }
    var buf := new Field[n + spare](i requires 0 <= i < n + spare reads s.buf, x.buf =>
      if i < s.len && i < s.buf.Length then s.buf[i]
      else if 0 <= i - s.len < x.buf.Length then x.buf[i - s.len]
      else FieldV("", VStr("")));
    assert buf[..n] == s.buf[..s.len] + x.buf[..x.len];
    return Slice(buf, n);
  }

  /** cloneFields: nil for an empty slice, otherwise a copy without spare capacity. */
  method CloneFields(x: Slice) returns (r: Slice)
    requires x.Valid()
    ensures r.Valid() && fresh(r.buf) && r.Contents() == x.Contents() && r.len == r.buf.Length
  {
    if x.len == 0 {
      r := Nil();
      return;
    }
    var buf := new Field[x.len](i requires 0 <= i < x.len <= x.buf.Length reads x.buf => x.buf[i]);
    assert buf[..] == x.buf[..x.len];
    return Slice(buf, x.len);
  }

  /** A processor of the chain: redaction in place, or one that returns an error and ends the chain. */
  datatype Processor = Redact(p: Redaction.Processor) | Stop

  /** The fields an event has when the chain is through; None if a processor stopped it. */
  function Chain(ps: seq<Processor>, fs: seq<Redaction.Field>): Option<seq<Redaction.Field>> {
    if ps == [] then Some(fs)
    else if ps[0].Stop? then None
    else Chain(ps[1..], Redaction.RedactFields(ps[0].p, fs))
  }

  /** The chain stops the event exactly when some processor does, wherever it stands. */
  lemma {:induction false} ChainStops(ps: seq<Processor>, fs: seq<Redaction.Field>)
    ensures Chain(ps, fs).None? <==> exists i :: 0 <= i < |ps| && ps[i].Stop?
  {
    if ps != [] && ps[0].Redact? {
      ChainStops(ps[1..], Redaction.RedactFields(ps[0].p, fs));
      if i :| 0 <= i < |ps| && ps[i].Stop? { assert ps[1..][i - 1].Stop?; }
      if i :| 0 <= i < |ps[1..]| && ps[1..][i].Stop? { assert ps[i + 1].Stop?; }
    }
  }

  /** The last processor of a chain that finds the key sensitive. */
  function LastMask(ps: seq<Processor>, key: string): Option<string> {
    if ps == [] then None
    else
      var later := LastMask(ps[1..], key);
      if later.Some? then later
      else if ps[0].Redact? && Redaction.ShouldRedact(ps[0].p, key) then Some(ps[0].p.mask) else None
  }

  /** A text is not changed by processors that do not find its key sensitive. */
  lemma {:induction false} MaskStays(ps: seq<Processor>, fs: seq<Redaction.Field>, i: nat)
    requires Chain(ps, fs).Some? && i < |fs| && fs[i].value.Str? && LastMask(ps, fs[i].key).None?
    ensures |Chain(ps, fs).value| == |fs| && Chain(ps, fs).value[i] == fs[i]
  {
    if ps != [] { MaskStays(ps[1..], Redaction.RedactFields(ps[0].p, fs), i); }
  }

  /**
   Whatever the processors, the chain keeps every field's place and key, and a field whose key any of
   them finds sensitive ends as the mask of the last one that does.
   */
  lemma {:induction false} ChainMasks(ps: seq<Processor>, fs: seq<Redaction.Field>, i: nat)
    requires Chain(ps, fs).Some? && i < |fs|
    ensures var out := Chain(ps, fs).value;
            && |out| == |fs| && out[i].key == fs[i].key
            && (LastMask(ps, fs[i].key).Some? ==> out[i].value == Redaction.Str(LastMask(ps, fs[i].key).value))
  {
    if ps != [] {
      var next := Redaction.RedactFields(ps[0].p, fs);
      ChainMasks(ps[1..], next, i);
      if LastMask(ps[1..], fs[i].key).None? && LastMask(ps, fs[i].key).Some? {
        MaskStays(ps[1..], next, i);
      }
    }
  }

  function JoinName(parent: string, name: string): string {
    if name == "" then parent else if parent == "" then name else parent + "." + name
  }

  /** Deriving by two names in turn is deriving by the joined name. */
  lemma JoinNameTwice(a: string, b: string, c: string)
    ensures JoinName(JoinName(a, b), c) == JoinName(a, JoinName(b, c))
  {
    if a != "" && b != "" && c != "" {
      assert a + "." + b + "." + c == a + "." + (b + "." + c);
    }
  }

  class Logger {
    const processors: seq<Processor>
    const level: nat
    var name: string
    var fields: Slice

    predicate Valid() reads this { fields.Valid() }

    function Contents(): seq<Field>
      requires Valid()
      reads this, fields.buf
    {
      fields.Contents()
    }

    constructor (processors: seq<Processor>, level: nat, name: string, fields: Slice)
      requires fields.Valid()
      ensures Valid() && this.processors == processors && this.level == level && this.name == name && this.fields == fields
    {
      this.processors, this.level, this.name, this.fields := processors, level, name, fields;
    }

    method Clone() returns (cp: Logger)
      requires Valid()
      ensures fresh(cp) && cp.Valid() && fresh(cp.fields.buf) && cp.fields.len == cp.fields.buf.Length
      ensures cp.processors == processors && cp.level == level && cp.name == name && cp.Contents() == Contents()
    {
      var fs := CloneFields(fields);
      cp := new Logger(processors, level, name, fs);
    }

    /** With: the derived logger has the parent's fields and the arguments; nothing that existed changes. */
    method With(args: Slice, spare: nat) returns (cp: Logger)
      requires Valid() && args.Valid()
      ensures fresh(cp) && cp.Valid() && fresh(cp.fields.buf)
      ensures cp.processors == processors && cp.level == level && cp.name == name
      ensures cp.Contents() == Contents() + args.Contents()
    {
      cp := Clone();
      if args.len > 0 {
        cp.fields := Append(cp.fields, args, spare);
      }
    }

    method WithName(name: string) returns (cp: Logger)
      requires Valid()
      ensures fresh(cp) && cp.Valid() && fresh(cp.fields.buf)
      ensures cp.processors == processors && cp.level == level && cp.Contents() == Contents()
      ensures cp.name == if name == "" then this.name else if this.name == "" then name else this.name + "." + name
    {
      cp := Clone();
      if name == "" { return; }
      if cp.name == "" {
        cp.name := name;
      } else {
        cp.name := cp.name + "." + name;
      }
    }

    predicate Enabled(lvl: nat) { lvl <= 4 && lvl >= level }

    /** The event's own slice: the logger's fields, then the arguments. */
    method EventFields(args: Slice, spare1: nat, spare2: nat) returns (s: Slice)
      requires Valid() && args.Valid()
      ensures s.Valid() && fresh(s.buf) && s.Contents() == old(Contents() + args.Contents())
    {
      var none := Nil();
      s := Append(none, fields, spare1);
      if args.len > 0 {
        s := Append(s, args, spare2);
      }
    }

    /**
     LogErr: the fields of the event that reaches the sink, None if it does not. The event shares the
     containers in r with the logger and the caller until a processor replaces them; they are not written.
     */
    method LogErr(lvl: nat, args: Slice, spare1: nat, spare2: nat, ghost gs: seq<Redaction.Field>, ghost r: set<object>)
      returns (event: Option<Slice>, ghost r1: set<object>)
      requires Valid() && args.Valid() && FieldsHold(Contents() + args.Contents(), gs, r)
      ensures event.Some? <==> level <= lvl <= 4 && Chain(processors, gs).Some?
      ensures event.Some? ==> event.value.Valid() && fresh(event.value.buf)
                              && FieldsHold(event.value.Contents(), Chain(processors, gs).value, r1)
      ensures FieldsHold(Contents() + args.Contents(), gs, r)
    {
      r1 := r;
      if !Enabled(lvl) { return None, r1; }
      var evFields := EventFields(args, spare1, spare2);
      ghost var now := gs;
      var i := 0;
      assert processors[0..] == processors;
      while i < |processors|
        invariant 0 <= i <= |processors| && fresh(evFields.buf) && evFields.Valid() && evFields.buf !in r1
        invariant FieldsHold(evFields.Contents(), now, r1)
        invariant Chain(processors[i..], now) == Chain(processors, gs)
      {
        assert processors[i..][1..] == processors[i + 1..];
        if processors[i].Stop? { return None, r1; }
        var _, made := RedactionHeap.Process(processors[i].p, evFields.buf, evFields.len, None, now, r1);
        r1, now := made, Redaction.RedactFields(processors[i].p, now);
        i := i + 1;
      }
      return Some(evFields), r1;
    }
  }

  // ---- a whole tree of derived loggers ----

  /** A call on the logger at `on` in the tree built so far. */
  datatype Call =
    | With(on: nat, args: Slice, spare: nat)
    | WithName(on: nat, name: string)
    | LogErr(on: nat, level: nat, args: Slice, spare1: nat, spare2: nat)

  /** What a logger is: its name, and what its fields hold all the way down. */
  datatype View = View(name: string, fields: seq<Redaction.Field>)

  /** A call by what its arguments hold. */
  datatype Derivation =
    | Fields(on: nat, fields: seq<Redaction.Field>)
    | Name(on: nat, name: string)
    | Logged(on: nat, fields: seq<Redaction.Field>)

  /** d is what c's arguments hold at this moment, in containers of r. */
  ghost predicate Means(c: Call, d: Derivation, r: set<object>)
    reads r, if c.WithName? then {} else {c.args.buf}
  {
    match c
    case With(on, args, _) => args.Valid() && d.Fields? && d.on == on && FieldsHold(args.Contents(), d.fields, r)
    case WithName(on, name) => d == Name(on, name)
    case LogErr(on, _, args, _, _) => args.Valid() && d.Logged? && d.on == on && FieldsHold(args.Contents(), d.fields, r)
  }

  /** The view every logger of the tree should have for ever, from the root's and the derivations alone. */
  ghost function Tree(root: View, ds: seq<Derivation>): seq<View> {
    if ds == [] then [root]
    else
      var t, d := Tree(root, ds[..|ds| - 1]), ds[|ds| - 1];
      match d
      case Fields(on, fs) => if on < |t| then t + [View(t[on].name, t[on].fields + fs)] else t
      case Name(on, name) => if on < |t| then t + [View(JoinName(t[on].name, name), t[on].fields)] else t
      case Logged(_, _) => t
  }

  ghost predicate Shows(l: Logger, v: View, r: set<object>)
    reads l, l.fields.buf, r
  {
    l.Valid() && l.name == v.name && FieldsHold(l.Contents(), v.fields, r)
  }

  ghost predicate AllShow(tree: seq<Logger>, views: seq<View>, r: set<object>)
    reads tree, set l <- tree :: l.fields.buf, r
  {
    |tree| == |views| && forall i :: 0 <= i < |tree| ==> Shows(tree[i], views[i], r)
  }

  /** One call on a logger of the tree. */
  method RunCall(tree: seq<Logger>, c: Call, ghost d: Derivation, ghost views: seq<View>, ghost r: set<object>) returns (l: Option<Logger>)
    requires c.on < |tree| && AllShow(tree, views, r) && Means(c, d, r)
    ensures l.Some? <==> !c.LogErr?
    ensures c.With? ==> Shows(l.value, View(views[c.on].name, views[c.on].fields + d.fields), r)
    ensures c.WithName? ==> Shows(l.value, View(JoinName(views[c.on].name, c.name), views[c.on].fields), r)
  {
    assert Shows(tree[c.on], views[c.on], r);
    match c {
      case With(on, args, spare) =>
        var cp := tree[on].With(args, spare);
        return Some(cp);
      case WithName(on, name) =>
        var cp := tree[on].WithName(name);
        return Some(cp);
      case LogErr(on, level, args, spare1, spare2) =>
        var _, _ := tree[on].LogErr(level, args, spare1, spare2, views[on].fields + d.fields, r);
        return None;
    }
  }

  /**
   Loggers are immutable, all the way down: after any sequence of With, WithName and LogErr calls on any
   logger of the tree, with processors redacting events that share containers with the loggers, every
   logger still is what it was when it was derived, and every argument holds what it held. A call on a
   logger that does not exist is no call.
   */
  method RunCalls(root: Logger, calls: seq<Call>, ghost view: View, ghost ds: seq<Derivation>, ghost r: set<object>) returns (tree: seq<Logger>)
    requires Shows(root, view, r)
    requires |ds| == |calls| && forall i :: 0 <= i < |calls| ==> Means(calls[i], ds[i], r)
    ensures AllShow(tree, Tree(view, ds), r)
    ensures forall i :: 0 <= i < |calls| ==> Means(calls[i], ds[i], r)
  {
    tree := [root];
    for n := 0 to |calls|
      invariant AllShow(tree, Tree(view, ds[..n]), r)
    {
      var c := calls[n];
      assert ds[..n + 1][..n] == ds[..n] && Means(c, ds[n], r);
      if c.on < |tree| {
        var l := RunCall(tree, c, ds[n], Tree(view, ds[..n]), r);
        tree := if l.Some? then tree + [l.value] else tree;
      }
    }
    assert ds[..|calls|] == ds;
  }
}
