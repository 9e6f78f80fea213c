/** The nengo object tree that the network graph walks: a network holds
    ensembles, nodes, sub-networks and connections. Identifiers come from
    the visualiser's `get_uid`, which the model takes to be injective over the
    tree (`WellFormed`). This module also gives the reference answers the lazy
    parent index is proved against: the true parent, the depth and the
    ancestry of every uid in the tree. */
module Networks {
  import opened Base

  datatype Ensemble = Ensemble(uid: Uid)
  datatype Node = Node(uid: Uid)

  /** `ident` stands for Python's `id(conn)`; `pre` and `post` are the uids
      of `conn.pre_obj` and `conn.post_obj`. */
  datatype Connection = Connection(ident: nat, pre: Uid, post: Uid)

  datatype Network = Network(
    uid: Uid,
    ensembles: seq<Ensemble>,
    nodes: seq<Node>,
    networks: seq<Network>,
    connections: seq<Connection>)

  /** Any object the graph hands a uid to. */
  datatype Obj =
    | EnsembleObj(ensemble: Ensemble)
    | NodeObj(node: Node)
    | NetworkObj(network: Network)
    | ConnectionObj(connection: Connection)

  /** Decimal digits of `n`, as `'%d' % n` prints them: no leading zero
      unless `n` is zero itself. */
  function Decimal(n: nat): (s: string)
    ensures |s| >= 1
    ensures forall i | 0 <= i < |s| :: '0' <= s[i] <= '9'
    ensures s[0] == '0' <==> n == 0
    decreases n
  {
    var d := ['0' + (n % 10) as char];
    if n < 10 then d else Decimal(n / 10) + d
  }

  /** The number a string of decimal digits denotes, most significant first. */
  function DigitsValue(s: string): nat
    decreases |s|
  {
    if s == [] then 0
    else
      var c := s[|s| - 1];
      var d := if '0' <= c <= '9' then (c as int) - ('0' as int) else 0;
      10 * DigitsValue(s[..|s| - 1]) + d
  }

  /** Reading the printed digits back gives the number. */
  lemma {:induction false} DecimalValue(n: nat)
    ensures DigitsValue(Decimal(n)) == n
    decreases n
  {
    if n >= 10 {
      var s := Decimal(n);
      assert s[..|s| - 1] == Decimal(n / 10);
      DecimalValue(n / 10);
    }
  }

  /** The uid `create_connection` gives a connection: `'conn_%d' % id(conn)`. */
  function ConnUid(c: Connection): Uid {
    "conn_" + Decimal(c.ident)
  }

  /** Connections with different `id`s get different uids. */
  lemma {:induction false} ConnUidInjective(a: Connection, b: Connection)
    ensures ConnUid(a) == ConnUid(b) <==> a.ident == b.ident
  {
    if ConnUid(a) == ConnUid(b) {
      assert Decimal(a.ident) == ConnUid(a)[5..] == ConnUid(b)[5..] == Decimal(b.ident);
      DecimalValue(a.ident);
      DecimalValue(b.ident);
    }
  }

  /** What `get_uid` returns for an object (connections: their `conn_` uid). */
  function ObjUid(o: Obj): Uid {
    match o
    case EnsembleObj(e) => e.uid
    case NodeObj(x) => x.uid
    case NetworkObj(n) => n.uid
    case ConnectionObj(c) => ConnUid(c)
  }

  function NodeUids(n: Network): seq<Uid> {
    seq(|n.nodes|, i requires 0 <= i < |n.nodes| => n.nodes[i].uid)
  }

  function EnsembleUids(n: Network): seq<Uid> {
    seq(|n.ensembles|, i requires 0 <= i < |n.ensembles| => n.ensembles[i].uid)
  }

  function NetworkUids(n: Network): seq<Uid> {
    seq(|n.networks|, i requires 0 <= i < |n.networks| => n.networks[i].uid)
  }

  /** The direct children of a network, in the order `get_parents` visits them. */
  function ChildUids(n: Network): seq<Uid> {
    NodeUids(n) + EnsembleUids(n) + NetworkUids(n)
  }

  function LeafUids(n: Network): set<Uid> {
    (set k | k in NodeUids(n)) + (set k | k in EnsembleUids(n))
  }

  function Kids(n: Network): set<Uid> {
    set k | k in ChildUids(n)
  }

  /** Every uid in the subtree rooted at `n`, `n`'s own included. */
  function UidSet(n: Network): set<Uid>
    decreases n
  {
    {n.uid} + LeafUids(n)
    + (set i, u | 0 <= i < |n.networks| && u in UidSet(n.networks[i]) :: u)
  }

  /** `get_uid` is injective on the tree: no uid occurs twice. */
  ghost predicate WellFormed(n: Network)
    decreases n
  {
    && Distinct(ChildUids(n))
    && n.uid !in LeafUids(n)
    && (forall i | 0 <= i < |n.networks| :: n.uid !in UidSet(n.networks[i]))
    && (forall i | 0 <= i < |n.networks| :: LeafUids(n) !! UidSet(n.networks[i]))
    && (forall i, j | 0 <= i < j < |n.networks| :: UidSet(n.networks[i]) !! UidSet(n.networks[j]))
    && (forall i | 0 <= i < |n.networks| :: WellFormed(n.networks[i]))
  }

  /** `n` is `m` or a network nested somewhere inside it. */
  ghost predicate Occurs(m: Network, n: Network)
    decreases m
  {
    m == n || exists i | 0 <= i < |m.networks| :: Occurs(m.networks[i], n)
  }

  /** Number of networks in the subtree: the measure the search consumes. */
  function Size(n: Network): nat {
    1 + SizeAll(n.networks)
  }

  function SizeAll(ns: seq<Network>): nat {
    if ns == [] then 0 else Size(ns[0]) + SizeAll(ns[1..])
  }

  /** Which network holds `u`; Dafny picks an index, `WellFormed` makes it unique. */
  ghost function Depth(m: Network, u: Uid): nat
    requires u in UidSet(m)
    decreases m
  {
    if u == m.uid then 0
    else if u in LeafUids(m) then 1
    else
      var i :| 0 <= i < |m.networks| && u in UidSet(m.networks[i]);
      1 + Depth(m.networks[i], u)
  }

  /** The uid of the network that directly contains `u` in the tree. */
  ghost function ParentUid(m: Network, u: Uid): Uid
    requires u in UidSet(m) && u != m.uid
    decreases m
  {
    if u in LeafUids(m) then m.uid
    else
      var i :| 0 <= i < |m.networks| && u in UidSet(m.networks[i]);
      if u == m.networks[i].uid then m.uid else ParentUid(m.networks[i], u)
  }

  lemma {:induction false} SubtreeIndexUnique(m: Network, u: Uid, i: int, j: int)
    requires WellFormed(m)
    requires 0 <= i < |m.networks| && 0 <= j < |m.networks|
    requires u in UidSet(m.networks[i]) && u in UidSet(m.networks[j])
    ensures i == j
  {
    assert u in UidSet(m.networks[i]) * UidSet(m.networks[j]);
  }

  lemma {:induction false} OccursWithin(m: Network, n: Network)
    requires WellFormed(m) && Occurs(m, n)
    ensures WellFormed(n) && UidSet(n) <= UidSet(m)
    decreases m
  {
    if m != n {
      var i :| 0 <= i < |m.networks| && Occurs(m.networks[i], n);
      OccursWithin(m.networks[i], n);
    }
  }

  lemma {:induction false} OccursChild(m: Network, n: Network, i: int)
    requires Occurs(m, n) && 0 <= i < |n.networks|
    ensures Occurs(m, n.networks[i])
    decreases m
  {
    if m == n {
      assert Occurs(n.networks[i], n.networks[i]);
    } else {
      var j :| 0 <= j < |m.networks| && Occurs(m.networks[j], n);
      OccursChild(m.networks[j], n, i);
    }
  }

  /** A direct child of the root has the root as its true parent. */
  lemma {:induction false} RootKidParent(m: Network, c: Uid)
    requires WellFormed(m) && c in Kids(m)
    ensures c in UidSet(m) && c != m.uid && ParentUid(m, c) == m.uid
  {
    if c !in LeafUids(m) {
      var i :| 0 <= i < |m.networks| && m.networks[i].uid == c;
      assert c in UidSet(m.networks[i]);
      forall j | 0 <= j < |m.networks| && c in UidSet(m.networks[j]) ensures j == i {
        SubtreeIndexUnique(m, c, i, j);
      }
    }
  }

  /** A uid below sub-network `i` has the same true parent in `m` as in that
      sub-network. */
  lemma {:induction false} ParentThroughSubtree(m: Network, i: int, c: Uid)
    requires WellFormed(m) && 0 <= i < |m.networks|
    requires c in UidSet(m.networks[i]) && c != m.networks[i].uid
    ensures c in UidSet(m) && c != m.uid && ParentUid(m, c) == ParentUid(m.networks[i], c)
  {
    forall j | 0 <= j < |m.networks| && c in UidSet(m.networks[j]) ensures j == i {
      SubtreeIndexUnique(m, c, i, j);
    }
  }

  /** A child of a network found in the tree has that network as its
      true parent. */
  lemma {:induction false} KidParent(m: Network, n: Network, c: Uid)
    requires WellFormed(m) && Occurs(m, n) && c in Kids(n)
    ensures c in UidSet(m) && c != m.uid && ParentUid(m, c) == n.uid
    decreases m
  {
    if m == n {
      RootKidParent(m, c);
    } else {
      var i :| 0 <= i < |m.networks| && Occurs(m.networks[i], n);
      KidParent(m.networks[i], n, c);
      ParentThroughSubtree(m, i, c);
    }
  }

  /** Below sub-network `i`, depths in `m` are one more than in the subtree. */
  lemma {:induction false} DepthThroughSubtree(m: Network, i: int, c: Uid)
    requires WellFormed(m) && 0 <= i < |m.networks| && c in UidSet(m.networks[i])
    ensures c in UidSet(m) && Depth(m, c) == 1 + Depth(m.networks[i], c)
  {
    forall j | 0 <= j < |m.networks| && c in UidSet(m.networks[j]) ensures j == i {
      SubtreeIndexUnique(m, c, i, j);
    }
  }

  lemma {:induction false} LeafDepth(m: Network, u: Uid)
    requires WellFormed(m) && u in LeafUids(m)
    ensures u in UidSet(m) && u != m.uid && ParentUid(m, u) == m.uid
    ensures Depth(m, u) == 1 && Depth(m, m.uid) == 0
  {
  }

  lemma {:induction false} NetKidDepth(m: Network, i: int)
    requires WellFormed(m) && 0 <= i < |m.networks|
    ensures m.networks[i].uid in UidSet(m) && m.networks[i].uid != m.uid
    ensures ParentUid(m, m.networks[i].uid) == m.uid
    ensures Depth(m, m.networks[i].uid) == 1 && Depth(m, m.uid) == 0
  {
    var u := m.networks[i].uid;
    assert NetworkUids(m)[i] == u;
    assert ChildUids(m)[|NodeUids(m)| + |EnsembleUids(m)| + i] == u;
    assert u in Kids(m);
    RootKidParent(m, u);
    DepthThroughSubtree(m, i, u);
  }

  /** The true parent sits one level higher: the depth the ancestor chain
      descends by. */
  lemma {:induction false} ParentDepth(m: Network, u: Uid)
    requires WellFormed(m) && u in UidSet(m) && u != m.uid
    ensures ParentUid(m, u) in UidSet(m)
    ensures Depth(m, ParentUid(m, u)) + 1 == Depth(m, u)
    decreases m
  {
    if u in LeafUids(m) {
      LeafDepth(m, u);
    } else {
      var i :| 0 <= i < |m.networks| && u in UidSet(m.networks[i]);
      var s := m.networks[i];
      if u == s.uid {
        NetKidDepth(m, i);
      } else {
        ParentThroughSubtree(m, i, u);
        ParentDepth(s, u);
        var p := ParentUid(s, u);
        DepthThroughSubtree(m, i, u);
        DepthThroughSubtree(m, i, p);
        assert ParentUid(m, u) == p;
        assert Depth(m, p) == 1 + Depth(s, p);
      }
    }
  }

  /** The reference ancestry of `u`: `u`, its parent, its grandparent, …,
      ending at the root. */
  ghost function Ancestry(m: Network, u: Uid): (r: seq<Uid>)
    requires WellFormed(m) && u in UidSet(m)
    ensures |r| >= 1 && r[0] == u && r[|r| - 1] == m.uid
    ensures forall i | 0 <= i < |r| - 1 :: r[i] in UidSet(m) && r[i] != m.uid && r[i + 1] == ParentUid(m, r[i])
    decreases Depth(m, u)
  {
    if u == m.uid then [u]
    else
      ParentDepth(m, u);
      [u] + Ancestry(m, ParentUid(m, u))
  }

  lemma {:induction false} SizeAllAppend(a: seq<Network>, b: seq<Network>)
    ensures SizeAll(a + b) == SizeAll(a) + SizeAll(b)
    decreases |a|
  {
    if a == [] {
      assert a + b == b;
    } else {
      assert (a + b)[1..] == a[1..] + b;
      SizeAllAppend(a[1..], b);
    }
  }
}
