/** The layout configuration of the network graph (`Config` in
    nengo_viz/components/netgraph.py): per object a position, a size and,
    for networks, whether the network is expanded; and `Config.dumps`, which
    writes it out as `config[<uid>].<attr>=<value>` lines in uid order. */
module Layout {
  import opened Base
  import opened Networks

  /** A position or size: a Python 2-tuple of floats, kept opaque. */
  datatype Pair = Pair(x: real, y: real)

  /** The parameters `Config` declares: `pos` and `size` (default `None`)
      on ensembles, nodes and networks, and `expanded` (default `False`)
      on networks only. */
  datatype Params = Params(pos: Option<Pair>, size: Option<Pair>, expanded: bool)

  const Defaults := Params(None, None, false)

  /** `nengo.Config` keyed by object; the model keys it by the object's uid. */
  datatype Config = Config(params: map<Uid, Params>) {
    /** `self[obj]`: what was set for the object, or the declared defaults. */
    function Get(uid: Uid): Params {
      if uid in params then params[uid] else Defaults
    }

    function Put(uid: Uid, p: Params): (c: Config)
      ensures c.Get(uid) == p
      ensures forall v | v != uid :: c.Get(v) == Get(v)
    {
      Config(params[uid := p])
    }
  }

  // ---------------------------------------------------------------------
  // Python's order on `str`, which `sorted(uids.items())` uses.

  /** `a < b` on Python strings: lexicographic by character. */
  predicate Below(a: string, b: string)
    decreases |a|
  {
    if a == [] then b != []
    else b != [] && (a[0] < b[0] || (a[0] == b[0] && Below(a[1..], b[1..])))
  }

  lemma {:induction false} BelowIrreflexive(a: string)
    ensures !Below(a, a)
    decreases |a|
  {
    if a != [] {
      BelowIrreflexive(a[1..]);
    }
  }

  lemma {:induction false} BelowAsymmetric(a: string, b: string)
    requires Below(a, b)
    ensures !Below(b, a)
    decreases |a|
  {
    if a != [] && b != [] && a[0] == b[0] {
      BelowAsymmetric(a[1..], b[1..]);
    }
  }

  lemma {:induction false} BelowTransitive(a: string, b: string, c: string)
    requires Below(a, b) && Below(b, c)
    ensures Below(a, c)
    decreases |a|
  {
    if a != [] && a[0] == b[0] && b[0] == c[0] {
      BelowTransitive(a[1..], b[1..], c[1..]);
    }
  }

  lemma {:induction false} BelowTotal(a: string, b: string)
    requires a != b
    ensures Below(a, b) || Below(b, a)
    decreases |a|
  {
    if a != [] && b != [] && a[0] == b[0] {
      assert a == [a[0]] + a[1..] && b == [b[0]] + b[1..];
      BelowTotal(a[1..], b[1..]);
    }
  }

  predicate IsSmallest(k: Uid, s: set<Uid>) {
    k in s && forall y | y in s && y != k :: Below(k, y)
  }

  lemma {:induction false} SmallestExists(s: set<Uid>) returns (k: Uid)
    requires s != {}
    ensures IsSmallest(k, s)
    decreases |s|
  {
    var x :| x in s;
    if s == {x} {
      k := x;
    } else {
      var m := SmallestExists(s - {x});
      if Below(x, m) {
        k := x;
        forall y | y in s && y != x ensures Below(x, y) {
          if y != m {
            BelowTransitive(x, m, y);
          }
        }
      } else {
        BelowTotal(x, m);
        k := m;
      }
    }
  }

  lemma {:induction false} HasSmallest(s: set<Uid>)
    requires s != {}
    ensures exists k :: IsSmallest(k, s)
  {
    var k := SmallestExists(s);
  }

  lemma {:induction false} SmallestUnique(s: set<Uid>)
    ensures forall a, b | IsSmallest(a, s) && IsSmallest(b, s) :: a == b
  {
    forall a, b | IsSmallest(a, s) && IsSmallest(b, s) ensures a == b {
      if a != b {
        BelowAsymmetric(a, b);
      }
    }
  }

  /** The least uid of a non-empty set. */
  function Smallest(s: set<Uid>): (k: Uid)
    requires s != {}
    ensures k in s && forall y | y in s && y != k :: Below(k, y)
  {
    HasSmallest(s);
    SmallestUnique(s);
    var k :| IsSmallest(k, s);
    k
  }

  /** The keys of `uids` in the order `sorted(uids.items())` visits them:
      every key once, strictly ascending. */
  function SortedKeys(s: set<Uid>): (r: seq<Uid>)
    ensures |r| == |s| && (set k | k in r) == s
    ensures forall i, j | 0 <= i < j < |r| :: Below(r[i], r[j])
    decreases |s|
  {
    if s == {} then []
    else
      var k := Smallest(s);
      var rest := SortedKeys(s - {k});
      SortedCons(k, rest, s);
      [k] + rest
  }

  /** The least element in front of the ascending rest is ascending. */
  lemma {:induction false} SortedCons(k: Uid, rest: seq<Uid>, s: set<Uid>)
    requires k in s && forall y | y in s && y != k :: Below(k, y)
    requires |rest| == |s - {k}| && (set x | x in rest) == s - {k}
    requires forall i, j | 0 <= i < j < |rest| :: Below(rest[i], rest[j])
    ensures |[k] + rest| == |s| && (set x | x in [k] + rest) == s
    ensures forall i, j | 0 <= i < j < |[k] + rest| :: Below(([k] + rest)[i], ([k] + rest)[j])
  {
    var r := [k] + rest;
    assert (set x | x in r) == {k} + (set x | x in rest);
    forall i, j | 0 <= i < j < |r| ensures Below(r[i], r[j]) {
      var y := rest[j - 1];
      assert r[j] == y && y in rest;
      assert y in s - {k};
      if i > 0 {
        assert r[i] == rest[i - 1];
      }
    }
  }

  // ---------------------------------------------------------------------
  // The lines `dumps` writes, first as structured entries.

  datatype Attr = Pos | Size | Expanded

  /** Position of an attribute within one object's lines. */
  function Rank(a: Attr): nat {
    match a
    case Pos => 0
    case Size => 1
    case Expanded => 2
  }

  datatype Value = Coords(coords: Option<Pair>) | Flag(flag: bool)

  /** One `config[<uid>].<attr>=<value>` line before formatting. */
  datatype Entry = Entry(uid: Uid, attr: Attr, value: Value)

  /** The attributes `dumps` writes for an object: connections (and any
      other kind) contribute nothing. */
  function Attrs(o: Obj): set<Attr> {
    match o
    case EnsembleObj(_) => {Pos, Size}
    case NodeObj(_) => {Pos, Size}
    case NetworkObj(_) => {Pos, Size, Expanded}
    case ConnectionObj(_) => {}
  }

  function ValueOf(p: Params, a: Attr): Value {
    match a
    case Pos => Coords(p.pos)
    case Size => Coords(p.size)
    case Expanded => Flag(p.expanded)
  }

  /** The lines one loop iteration of `dumps` appends for `uid, obj`. */
  function ObjectEntries(c: Config, uid: Uid, o: Obj): seq<Entry> {
    var p := c.Get(ObjUid(o));
    match o
    case EnsembleObj(_) => [Entry(uid, Pos, Coords(p.pos)), Entry(uid, Size, Coords(p.size))]
    case NodeObj(_) => [Entry(uid, Pos, Coords(p.pos)), Entry(uid, Size, Coords(p.size))]
    case NetworkObj(_) => [Entry(uid, Pos, Coords(p.pos)), Entry(uid, Size, Coords(p.size)), Entry(uid, Expanded, Flag(p.expanded))]
    case ConnectionObj(_) => []
  }

  /** The entries for the objects named by `keys`, in that order. */
  function Entries(c: Config, uids: map<Uid, Obj>, keys: seq<Uid>): seq<Entry>
    requires forall i | 0 <= i < |keys| :: keys[i] in uids
  {
    if keys == [] then [] else ObjectEntries(c, keys[0], uids[keys[0]]) + Entries(c, uids, keys[1..])
  }

  function AllEntries(c: Config, uids: map<Uid, Obj>): seq<Entry> {
    Entries(c, uids, SortedKeys(uids.Keys))
  }

  /** Strictly ordered by uid, and within one uid by `pos`, `size`, `expanded`. */
  predicate Ordered(es: seq<Entry>) {
    forall i, j | 0 <= i < j < |es| ::
      Below(es[i].uid, es[j].uid) || (es[i].uid == es[j].uid && Rank(es[i].attr) < Rank(es[j].attr))
  }

  lemma {:induction false} ObjectEntriesMembers(c: Config, uid: Uid, o: Obj)
    ensures Ordered(ObjectEntries(c, uid, o))
    ensures forall e :: e in ObjectEntries(c, uid, o) <==>
      e.uid == uid && e.attr in Attrs(o) && e.value == ValueOf(c.Get(ObjUid(o)), e.attr)
  {
  }

  /** The entries come out in sorted order: by uid, then attribute. */
  lemma {:induction false} EntriesOrdered(c: Config, uids: map<Uid, Obj>, keys: seq<Uid>)
    requires forall i | 0 <= i < |keys| :: keys[i] in uids
    requires forall i, j | 0 <= i < j < |keys| :: Below(keys[i], keys[j])
    ensures Ordered(Entries(c, uids, keys))
    ensures forall e | e in Entries(c, uids, keys) :: e.uid in keys
    decreases |keys|
  {
    if keys != [] {
      var head := ObjectEntries(c, keys[0], uids[keys[0]]);
      var tail := Entries(c, uids, keys[1..]);
      EntriesOrdered(c, uids, keys[1..]);
      ObjectEntriesMembers(c, keys[0], uids[keys[0]]);
      var es := head + tail;
      forall i, j | 0 <= i < j < |es|
        ensures Below(es[i].uid, es[j].uid) || (es[i].uid == es[j].uid && Rank(es[i].attr) < Rank(es[j].attr))
      {
        if i < |head| && j >= |head| {
          assert es[i] in head && es[j] in tail;
          var k :| 0 <= k < |keys[1..]| && es[j].uid == keys[1..][k];
          assert keys[1..][k] == keys[k + 1];
        } else if i >= |head| {
          assert es[i] == tail[i - |head|] && es[j] == tail[j - |head|];
        }
      }
      forall e | e in es ensures e.uid in keys {
        if e in tail {
          var k :| 0 <= k < |keys[1..]| && e.uid == keys[1..][k];
          assert keys[1..][k] == keys[k + 1];
        }
      }
    }
  }

  /** An entry is written exactly for each attribute its object has, with
      that object's configured value. */
  lemma {:induction false} EntriesMembers(c: Config, uids: map<Uid, Obj>, keys: seq<Uid>)
    requires forall i | 0 <= i < |keys| :: keys[i] in uids
    ensures forall e :: e in Entries(c, uids, keys) <==>
      e.uid in keys && e.attr in Attrs(uids[e.uid]) && e.value == ValueOf(c.Get(ObjUid(uids[e.uid])), e.attr)
    decreases |keys|
  {
    if keys != [] {
      EntriesMembers(c, uids, keys[1..]);
      ObjectEntriesMembers(c, keys[0], uids[keys[0]]);
      assert forall k :: k in keys <==> k == keys[0] || k in keys[1..];
    }
  }

  /** What `dumps` promises about its lines: every configurable object in
      `uids` contributes one line per attribute it has, with its configured
      value, and the lines follow sorted uid order. */
  lemma {:induction false} AllEntriesSpec(c: Config, uids: map<Uid, Obj>)
    ensures Ordered(AllEntries(c, uids))
    ensures forall e :: e in AllEntries(c, uids) <==>
      e.uid in uids && e.attr in Attrs(uids[e.uid]) && e.value == ValueOf(c.Get(ObjUid(uids[e.uid])), e.attr)
  {
    var keys := SortedKeys(uids.Keys);
    assert forall k :: k in keys <==> k in uids.Keys;
    EntriesOrdered(c, uids, keys);
    EntriesMembers(c, uids, keys);
  }

  // ---------------------------------------------------------------------
  // Formatting and joining.

  function AttrName(a: Attr): string {
    match a
    case Pos => "pos"
    case Size => "size"
    case Expanded => "expanded"
  }

  /** `'%s' % value`; a tuple's text comes from `show`, which stays abstract. */
  function ShowValue(v: Value, show: Pair -> string): string {
    match v
    case Coords(None) => "None"
    case Coords(Some(p)) => show(p)
    case Flag(true) => "True"
    case Flag(false) => "False"
  }

  function Render(e: Entry, show: Pair -> string): string {
    "config[" + e.uid + "]." + AttrName(e.attr) + "=" + ShowValue(e.value, show)
  }

  function Lines(c: Config, uids: map<Uid, Obj>, show: Pair -> string): seq<string> {
    var es := AllEntries(c, uids);
    seq(|es|, i requires 0 <= i < |es| => Render(es[i], show))
  }

  /** `'\n'.join(lines)`: separators between lines, none after the last. */
  function Join(lines: seq<string>): string {
    if lines == [] then ""
    else if |lines| == 1 then lines[0]
    else lines[0] + "\n" + Join(lines[1..])
  }

  /** `s.split('\n')`, the inverse of `Join`. */
  function Split(s: string): (r: seq<string>)
    ensures |r| >= 1
    decreases |s|
  {
    if s == [] then [""]
    else
      var rest := Split(s[1..]);
      if s[0] == '\n' then [""] + rest else [[s[0]] + rest[0]] + rest[1..]
  }

  /** `Config.dumps(uids)`. */
  function Dumps(c: Config, uids: map<Uid, Obj>, show: Pair -> string): string {
    Join(Lines(c, uids, show))
  }

  lemma {:induction false} SplitLine(a: string)
    requires '\n' !in a
    ensures Split(a) == [a]
    decreases |a|
  {
    if a != [] {
      SplitLine(a[1..]);
      assert [a[0]] + a[1..] == a;
    }
  }

  lemma {:induction false} SplitAtNewline(a: string, b: string)
    requires '\n' !in a
    ensures Split(a + "\n" + b) == [a] + Split(b)
    decreases |a|
  {
    if a == [] {
      assert a + "\n" + b == "\n" + b;
      assert ("\n" + b)[1..] == b;
    } else {
      var s := a + "\n" + b;
      assert s[0] == a[0] && s[1..] == a[1..] + "\n" + b;
      SplitAtNewline(a[1..], b);
      assert [a[0]] + a[1..] == a;
    }
  }

  /** Joining newline-free lines and splitting again gives the lines back. */
  lemma {:induction false} SplitJoin(lines: seq<string>)
    requires lines != []
    requires forall i | 0 <= i < |lines| :: '\n' !in lines[i]
    ensures Split(Join(lines)) == lines
    decreases |lines|
  {
    if |lines| == 1 {
      SplitLine(lines[0]);
    } else {
      SplitJoin(lines[1..]);
      SplitAtNewline(lines[0], Join(lines[1..]));
      assert [lines[0]] + lines[1..] == lines;
    }
  }

  lemma {:induction false} JoinLast(lines: seq<string>)
    requires lines != [] && lines[|lines| - 1] != []
    ensures Join(lines) != [] && Join(lines)[|Join(lines)| - 1] == lines[|lines| - 1][|lines[|lines| - 1]| - 1]
    decreases |lines|
  {
    if |lines| > 1 {
      JoinLast(lines[1..]);
    }
  }

  lemma {:induction false} RenderNoNewline(e: Entry, show: Pair -> string)
    requires '\n' !in e.uid
    requires forall p :: '\n' !in show(p)
    ensures '\n' !in Render(e, show)
  {
    var v := ShowValue(e.value, show);
    assert '\n' !in AttrName(e.attr);
    assert '\n' !in v by {
      match e.value
      case Coords(None) =>
      case Coords(Some(p)) =>
      case Flag(b) =>
    }
  }

  /** The text `dumps` returns splits back into exactly its lines on
      `'\n'`, and ends without a trailing newline; with nothing to write it
      is the empty string. */
  lemma {:induction false} DumpsSplits(c: Config, uids: map<Uid, Obj>, show: Pair -> string)
    requires forall k | k in uids :: '\n' !in k
    requires forall p :: '\n' !in show(p)
    ensures Lines(c, uids, show) == [] <==> Dumps(c, uids, show) == ""
    ensures Lines(c, uids, show) != [] ==>
      && Split(Dumps(c, uids, show)) == Lines(c, uids, show)
      && Dumps(c, uids, show)[|Dumps(c, uids, show)| - 1] != '\n'
  {
    var ls := Lines(c, uids, show);
    var es := AllEntries(c, uids);
    AllEntriesSpec(c, uids);
    forall i | 0 <= i < |ls| ensures '\n' !in ls[i] && ls[i] != [] {
      assert es[i] in es;
      RenderNoNewline(es[i], show);
    }
    if ls != [] {
      SplitJoin(ls);
      JoinLast(ls);
      var last := ls[|ls| - 1];
      assert last[|last| - 1] in last;
    }
  }

  /** Nothing but connections (or nothing at all) gives an empty file. */
  lemma {:induction false} EntriesEmpty(c: Config, uids: map<Uid, Obj>, keys: seq<Uid>)
    requires forall i | 0 <= i < |keys| :: keys[i] in uids
    ensures Entries(c, uids, keys) == [] <==> forall k | k in keys :: uids[k].ConnectionObj?
    decreases |keys|
  {
    if keys != [] {
      EntriesEmpty(c, uids, keys[1..]);
      assert forall k | k in keys :: k == keys[0] || k in keys[1..];
    }
  }

  /** Only connections: nothing to write. */
  lemma {:induction false} AllEntriesEmpty(c: Config, uids: map<Uid, Obj>)
    ensures AllEntries(c, uids) == [] <==> forall k | k in uids :: uids[k].ConnectionObj?
  {
    var keys := SortedKeys(uids.Keys);
    assert forall k :: k in keys <==> k in (set x | x in keys);
    EntriesEmpty(c, uids, keys);
  }

  /** Joining non-empty lines gives the empty string only for no lines. */
  lemma {:induction false} JoinEmpty(lines: seq<string>)
    requires forall i | 0 <= i < |lines| :: lines[i] != []
    ensures Join(lines) == "" <==> lines == []
  {
    if |lines| > 1 {
      assert Join(lines)[|lines[0]|] == '\n';
    }
  }

  /** `dumps` writes nothing exactly when every registered object is a
      connection, whatever the uids and the printed positions contain. */
  lemma {:induction false} DumpsEmpty(c: Config, uids: map<Uid, Obj>, show: Pair -> string)
    ensures Dumps(c, uids, show) == "" <==> forall k | k in uids :: uids[k].ConnectionObj?
  {
    var ls := Lines(c, uids, show);
    forall i | 0 <= i < |ls| ensures ls[i] != [] {
      assert ls[i][0] == 'c';
    }
    JoinEmpty(ls);
    assert |ls| == |AllEntries(c, uids)|;
    AllEntriesEmpty(c, uids);
  }

}
