/** The server side of the network graph (`NetGraph` in
    nengo_viz/components/netgraph.py): the queue of networks still to be sent
    to the client, the objects announced so far, the lazy parent index, the
    layout configuration, and the handlers for the client's actions. Whatever
    the component writes to the client is appended to `Client.written`. */
module NetGraphs {
  import opened Base
  import opened Networks
  import opened ParentIndex
  import opened Layout

  /** The `type` field of an object announcement: 'ens', 'node' or 'net'. */
  datatype Kind = Ens | NodeKind | Net

  /** The JSON records the component writes to the client. */
  datatype Message =
    | ObjectInfo(uid: Uid, pos: Pair, kind: Kind, size: Pair, parent: Option<Uid>, expanded: Option<bool>)
    | ConnectionInfo(uid: Uid, pre: seq<Uid>, post: seq<Uid>, parent: Option<Uid>)
    | PanInfo(pan: Pair)
    | ZoomInfo(zoom: real)

  /** The client connection; only what was written to it is kept. */
  class Client {
    var written: seq<Message>

    constructor ()
      ensures written == []
    {
      written := [];
    }

    method Write(m: Message)
      modifies this
      ensures written == old(written) + [m]
    {
      written := written + [m];
    }
  }

  // ---------------------------------------------------------------------
  // Defaults and the values reported to the client.

  /** Size `create_object` gives an object that has none. */
  const DefaultSize := Pair(0.1, 0.1)

  /** Pan `send_pan_and_zoom` reports: the model's position, or (0, 0). */
  function PanOf(p: Params): Pair {
    if p.pos.None? then Pair(0.0, 0.0) else p.pos.value
  }

  /** Zoom `send_pan_and_zoom` reports: the first component of the model's
      size, or 1.0. */
  function ZoomOf(p: Params): real {
    if p.size.None? then 1.0 else p.size.value.x
  }

  /** The model's parameters after `act_pan(x, y)`. */
  function Panned(p: Params, x: real, y: real): Params {
    p.(pos := Some(Pair(x, y)))
  }

  /** The model's parameters after `act_zoom(scale, x, y)`. */
  function Zoomed(p: Params, scale: real, x: real, y: real): Params {
    p.(size := Some(Pair(scale, scale)), pos := Some(Pair(x, y)))
  }

  /** What the client sets is what it is told back: after a zoom the next
      report gives that scale and position, after a pan that position and
      the old zoom; with nothing set it gets (0, 0) and 1.0. */
  lemma {:induction false} ReportedView(p: Params, scale: real, x: real, y: real)
    ensures PanOf(Zoomed(p, scale, x, y)) == Pair(x, y) && ZoomOf(Zoomed(p, scale, x, y)) == scale
    ensures PanOf(Panned(p, x, y)) == Pair(x, y) && ZoomOf(Panned(p, x, y)) == ZoomOf(p)
    ensures PanOf(Defaults) == Pair(0.0, 0.0) && ZoomOf(Defaults) == 1.0
  {
  }

  /** The parameters `create_object` leaves: a missing position becomes
      `placement` (the source draws it at random), a missing size
      `DefaultSize`; what was set stays. */
  function Placed(p: Params, placement: Pair): (r: Params)
    ensures r.pos == if p.pos.None? then Some(placement) else p.pos
    ensures r.size == if p.size.None? then Some(DefaultSize) else p.size
    ensures r.expanded == p.expanded
  {
    var withPos := if p.pos.None? then p.(pos := Some(placement)) else p;
    if withPos.size.None? then withPos.(size := Some(DefaultSize)) else withPos
  }

  /** Creating an object again changes none of its layout. */
  lemma {:induction false} PlacedIdempotent(p: Params, a: Pair, b: Pair)
    ensures Placed(Placed(p, a), b) == Placed(p, a)
  {
  }

  function KindOf(o: Obj): Kind
    requires !o.ConnectionObj?
  {
    match o
    case EnsembleObj(_) => Ens
    case NodeObj(_) => NodeKind
    case NetworkObj(_) => Net
  }

  /** The record `create_object` writes for `obj`, given the configuration
      before the call. */
  function Announcement(c: Config, obj: Obj, parent: Option<Uid>, placement: Uid -> Pair): Message
    requires !obj.ConnectionObj?
  {
    var p := Placed(c.Get(ObjUid(obj)), placement(ObjUid(obj)));
    ObjectInfo(ObjUid(obj), p.pos.value, KindOf(obj), p.size.value, parent,
               if KindOf(obj) == Net then Some(p.expanded) else None)
  }

  function Announcements(c: Config, objs: seq<Obj>, parent: Option<Uid>, placement: Uid -> Pair): seq<Message>
    requires forall i | 0 <= i < |objs| :: !objs[i].ConnectionObj?
  {
    seq(|objs|, i requires 0 <= i < |objs| => Announcement(c, objs[i], parent, placement))
  }

  function ObjUids(objs: seq<Obj>): seq<Uid> {
    seq(|objs|, i requires 0 <= i < |objs| => ObjUid(objs[i]))
  }

  /** `uids` after `self.uids[get_uid(o)] = o` for each `o` in turn. */
  function Registered(u: map<Uid, Obj>, objs: seq<Obj>): (r: map<Uid, Obj>)
    ensures r.Keys == u.Keys + (set k | k in ObjUids(objs))
    decreases |objs|
  {
    if objs == [] then u
    else
      var last := objs[|objs| - 1];
      assert ObjUids(objs) == ObjUids(objs[..|objs| - 1]) + [ObjUid(last)];
      Registered(u, objs[..|objs| - 1])[ObjUid(last) := last]
  }

  /** Each registered object is stored under its own uid, and every entry
      for another uid is kept. */
  lemma {:induction false} RegisteredEntries(u: map<Uid, Obj>, objs: seq<Obj>)
    requires Distinct(ObjUids(objs))
    ensures forall i | 0 <= i < |objs| :: ObjUid(objs[i]) in Registered(u, objs)
    ensures forall i | 0 <= i < |objs| :: Registered(u, objs)[ObjUid(objs[i])] == objs[i]
    ensures forall k | k in u && k !in ObjUids(objs) :: Registered(u, objs)[k] == u[k]
    decreases |objs|
  {
    if objs != [] {
      var n := |objs| - 1;
      var init, last := objs[..n], objs[n];
      var us, ui := ObjUids(objs), ObjUids(init);
      assert ui == us[..n];
      RegisteredEntries(u, init);
      var r, ri := Registered(u, objs), Registered(u, init);
      assert r == ri[ObjUid(last) := last];
      forall i | 0 <= i < |objs| ensures ObjUid(objs[i]) in r && r[ObjUid(objs[i])] == objs[i] {
        if i < n {
          assert init[i] == objs[i] && us[i] == ObjUid(objs[i]) && us[n] == ObjUid(last);
        }
      }
      forall k | k in u && k !in us ensures r[k] == u[k] {
        assert us[n] == ObjUid(last);
      }
    }
  }

  lemma {:induction false} RegisteredAppend(u: map<Uid, Obj>, a: seq<Obj>, b: seq<Obj>)
    ensures Registered(Registered(u, a), b) == Registered(u, a + b)
    decreases |b|
  {
    if b == [] {
      assert a + b == a;
    } else {
      assert (a + b)[..|a + b| - 1] == a + b[..|b| - 1];
      RegisteredAppend(u, a, b[..|b| - 1]);
    }
  }

  lemma {:induction false} AnnouncementsSnoc(c: Config, objs: seq<Obj>, i: int, parent: Option<Uid>, placement: Uid -> Pair)
    requires 0 <= i < |objs| && forall j | 0 <= j < |objs| :: !objs[j].ConnectionObj?
    ensures Announcements(c, objs[..i + 1], parent, placement)
         == Announcements(c, objs[..i], parent, placement) + [Announcement(c, objs[i], parent, placement)]
  {
  }

  lemma {:induction false} RegisteredSnoc(u: map<Uid, Obj>, objs: seq<Obj>, i: int)
    requires 0 <= i < |objs|
    ensures Registered(u, objs[..i + 1]) == Registered(u, objs[..i])[ObjUid(objs[i]) := objs[i]]
  {
    assert objs[..i + 1][..i] == objs[..i];
  }

  /** With distinct uids, the `i`th object's uid is new to the prefix. */
  lemma {:induction false} FreshUid(objs: seq<Obj>, i: int)
    requires 0 <= i < |objs| && Distinct(ObjUids(objs))
    ensures ObjUid(objs[i]) !in ObjUids(objs)[..i]
    ensures ObjUids(objs)[..i + 1] == ObjUids(objs)[..i] + [ObjUid(objs[i])]
  {
    forall j | 0 <= j < i ensures ObjUids(objs)[j] != ObjUid(objs[i]) {
      assert ObjUids(objs)[i] == ObjUid(objs[i]);
    }
  }

  /** Placing the `i`th object extends the placed prefix by its uid. */
  lemma {:induction false} PlacedStep(c0: Config, c: Config, objs: seq<Obj>, i: int, placement: Uid -> Pair)
    requires 0 <= i < |objs| && Distinct(ObjUids(objs))
    requires forall v :: c.Get(v) == if v in ObjUids(objs)[..i] then Placed(c0.Get(v), placement(v)) else c0.Get(v)
    ensures c.Get(ObjUid(objs[i])) == c0.Get(ObjUid(objs[i]))
    ensures var u := ObjUid(objs[i]);
      forall v :: c.Put(u, Placed(c.Get(u), placement(u))).Get(v)
        == if v in ObjUids(objs)[..i + 1] then Placed(c0.Get(v), placement(v)) else c0.Get(v)
  {
    FreshUid(objs, i);
  }

  /** The `i`th announcement, made from a layout that agrees with the
      original one on the object, extends the log of the prefix. */
  lemma {:induction false} AnnouncementStep(c0: Config, c: Config, objs: seq<Obj>, i: int, parent: Option<Uid>,
                                            placement: Uid -> Pair, w0: seq<Message>, w: seq<Message>)
    requires 0 <= i < |objs| && forall j | 0 <= j < |objs| :: !objs[j].ConnectionObj?
    requires c.Get(ObjUid(objs[i])) == c0.Get(ObjUid(objs[i]))
    requires w == w0 + Announcements(c0, objs[..i], parent, placement)
    ensures w + [Announcement(c, objs[i], parent, placement)] == w0 + Announcements(c0, objs[..i + 1], parent, placement)
  {
    AnnouncementsSnoc(c0, objs, i, parent, placement);
  }

  function EnsembleObjs(n: Network): seq<Obj> {
    seq(|n.ensembles|, i requires 0 <= i < |n.ensembles| => EnsembleObj(n.ensembles[i]))
  }

  function NodeObjs(n: Network): seq<Obj> {
    seq(|n.nodes|, i requires 0 <= i < |n.nodes| => NodeObj(n.nodes[i]))
  }

  function NetworkObjs(n: Network): seq<Obj> {
    seq(|n.networks|, i requires 0 <= i < |n.networks| => NetworkObj(n.networks[i]))
  }

  function ConnectionObjs(cs: seq<Connection>): seq<Obj> {
    seq(|cs|, i requires 0 <= i < |cs| => ConnectionObj(cs[i]))
  }

  /** What `expand_network` creates, in its order: ensembles, nodes,
      sub-networks. */
  function ChildObjs(n: Network): seq<Obj> {
    EnsembleObjs(n) + NodeObjs(n) + NetworkObjs(n)
  }

  /** The `parent` field `expand_network` gives the objects it creates. */
  function ParentField(m: Network, net: Network): Option<Uid> {
    if net == m then None else Some(net.uid)
  }

  /** Python's `s[:-1]`: everything but the last element, and nothing
      of an empty list. */
  function DropLast(s: seq<Uid>): (r: seq<Uid>)
    ensures |r| == if s == [] then 0 else |s| - 1
    ensures forall i | 0 <= i < |r| :: r[i] == s[i]
  {
    if s == [] then [] else s[..|s| - 1]
  }

  /** `get_parents` succeeds for both ends of the connection. */
  ghost predicate Linkable(m: Network, c: Connection) {
    c.pre in UidSet(m) && c.pre != m.uid && c.post in UidSet(m) && c.post != m.uid
  }

  /** The record `create_connection` writes: each end's ancestry without
      the root. */
  ghost function Link(m: Network, c: Connection, parent: Option<Uid>): Message
    requires WellFormed(m) && Linkable(m, c)
  {
    ConnectionInfo(ConnUid(c), DropLast(Ancestry(m, c.pre)), DropLast(Ancestry(m, c.post)), parent)
  }

  /** The connection record names each end and then the networks enclosing
      it, innermost first, up to but not including the root. */
  lemma {:induction false} LinkEnds(m: Network, c: Connection, parent: Option<Uid>)
    requires WellFormed(m) && Linkable(m, c)
    ensures var r := Link(m, c, parent).pre;
      && |r| >= 1 && r[0] == c.pre && ParentUid(m, r[|r| - 1]) == m.uid
      && (forall i | 0 <= i < |r| :: r[i] in UidSet(m) && r[i] != m.uid)
      && (forall i | 0 <= i < |r| - 1 :: r[i + 1] == ParentUid(m, r[i]))
  {
    var a := Ancestry(m, c.pre);
    assert a[0] != a[|a| - 1];
    var r := a[..|a| - 1];
    assert Link(m, c, parent).pre == r;
    forall i | 0 <= i < |r| ensures r[i] in UidSet(m) && r[i] != m.uid && ParentUid(m, r[i]) == a[i + 1] {
      assert r[i] == a[i];
    }
    forall i | 0 <= i < |r| - 1 ensures r[i + 1] == ParentUid(m, r[i]) {
      assert r[i + 1] == a[i + 1];
    }
  }

  ghost function Links(m: Network, cs: seq<Connection>, parent: Option<Uid>): (r: seq<Message>)
    requires WellFormed(m) && forall i | 0 <= i < |cs| :: Linkable(m, cs[i])
    ensures |r| == |cs|
    decreases |cs|
  {
    if cs == [] then []
    else Links(m, cs[..|cs| - 1], parent) + [Link(m, cs[|cs| - 1], parent)]
  }

  /** The `i`th record the connection loop writes is the `i`th
      connection's. */
  lemma {:induction false} LinkAt(m: Network, cs: seq<Connection>, parent: Option<Uid>, i: int)
    requires WellFormed(m) && forall j | 0 <= j < |cs| :: Linkable(m, cs[j])
    requires 0 <= i < |cs|
    ensures Links(m, cs, parent)[i] == Link(m, cs[i], parent)
    decreases |cs|
  {
    var init := cs[..|cs| - 1];
    var l, li := Links(m, cs, parent), Links(m, init, parent);
    assert l == li + [Link(m, cs[|cs| - 1], parent)];
    if i < |init| {
      assert forall j | 0 <= j < |init| :: Linkable(m, init[j]);
      LinkAt(m, init, parent, i);
      assert init[i] == cs[i] && l[i] == li[i];
      assert l[i] == Link(m, cs[i], parent);
    } else {
      assert |li| == |init| == i;
      assert l[i] == Link(m, cs[i], parent);
    }
  }

  /** The connection loop writes, in order, exactly one record per
      connection. */
  lemma {:induction false} LinksEntries(m: Network, cs: seq<Connection>, parent: Option<Uid>)
    requires WellFormed(m) && forall i | 0 <= i < |cs| :: Linkable(m, cs[i])
    ensures forall i | 0 <= i < |cs| :: Links(m, cs, parent)[i] == Link(m, cs[i], parent)
  {
    forall i | 0 <= i < |cs| ensures Links(m, cs, parent)[i] == Link(m, cs[i], parent) {
      LinkAt(m, cs, parent, i);
    }
  }

  /** Everything `expand_network(net)` writes when it completes: the
      children's announcements, then the connections' records. */
  ghost function ExpansionMessages(m: Network, c: Config, net: Network, placement: Uid -> Pair): seq<Message>
    requires WellFormed(m) && AllLinkable(m, net)
  {
    var parent := ParentField(m, net);
    Announcements(c, ChildObjs(net), parent, placement) + Links(m, net.connections, parent)
  }

  /** The layout the `create_object` loops of `expand_network(net)` leave:
      every child placed, everything else as it was. */
  ghost predicate KidsPlaced(c0: Config, c: Config, net: Network, placement: Uid -> Pair) {
    forall v :: c.Get(v) == if v in Kids(net) then Placed(c0.Get(v), placement(v)) else c0.Get(v)
  }

  /** The layout `expand_network(net)` leaves: every child placed, the
      network itself marked expanded, everything else as it was. */
  function ExpandedConfig(c: Config, net: Network, placement: Uid -> Pair, v: Uid): Params {
    if v == net.uid then c.Get(v).(expanded := true)
    else if v in Kids(net) then Placed(c.Get(v), placement(v))
    else c.Get(v)
  }

  /** After an expansion the network is marked expanded with its layout
      otherwise kept, and every child has a position and a size, keeping
      whatever was already set. */
  lemma {:induction false} ExpansionLayout(c: Config, net: Network, placement: Uid -> Pair, v: Uid)
    requires WellFormed(net)
    ensures ExpandedConfig(c, net, placement, net.uid) == c.Get(net.uid).(expanded := true)
    ensures v in Kids(net) ==>
      var p := ExpandedConfig(c, net, placement, v);
      && p.pos.Some? && p.size.Some? && p.expanded == c.Get(v).expanded
      && (c.Get(v).pos.Some? ==> p.pos == c.Get(v).pos)
      && (c.Get(v).size.Some? ==> p.size == c.Get(v).size)
  {
    SelfNotKid(net);
  }

  lemma {:induction false} ChildObjsFacts(n: Network)
    ensures forall i | 0 <= i < |ChildObjs(n)| :: !ChildObjs(n)[i].ConnectionObj?
    ensures (set k | k in ObjUids(ChildObjs(n))) == Kids(n)
    ensures Distinct(ChildUids(n)) ==> Distinct(ObjUids(ChildObjs(n)))
  {
    var e, d, w := EnsembleUids(n), NodeUids(n), NetworkUids(n);
    assert ObjUids(ChildObjs(n)) == e + d + w;
    if Distinct(ChildUids(n)) {
      var s := e + d + w;
      forall i, j | 0 <= i < j < |s| ensures s[i] != s[j] {
        var t := ChildUids(n);
        var ti := if i < |e| then |d| + i else if i < |e| + |d| then i - |e| else i;
        var tj := if j < |e| then |d| + j else if j < |e| + |d| then j - |e| else j;
        assert s[i] == t[ti] && s[j] == t[tj];
      }
    }
  }

  ghost predicate AllLinkable(m: Network, net: Network) {
    forall i | 0 <= i < |net.connections| :: Linkable(m, net.connections[i])
  }

  lemma {:induction false} LinksSnoc(m: Network, cs: seq<Connection>, i: int, parent: Option<Uid>)
    requires WellFormed(m) && 0 <= i < |cs| && forall j | 0 <= j <= i :: Linkable(m, cs[j])
    ensures Links(m, cs[..i + 1], parent) == Links(m, cs[..i], parent) + [Link(m, cs[i], parent)]
  {
    assert cs[..i + 1][..i] == cs[..i];
  }

  lemma {:induction false} ConnectionObjsSnoc(cs: seq<Connection>, i: int)
    requires 0 <= i < |cs|
    ensures ConnectionObjs(cs[..i + 1]) == ConnectionObjs(cs[..i]) + [ConnectionObj(cs[i])]
  {
  }

  /** The parent index after `create_connection(conn)`: `get_parents` of
      the pre end and, only if that found it, of the post end. Ends that
      are already recorded cost no search pass. */
  function ConnSearch(s: Progress, conn: Connection): (r: Progress)
    ensures s.parents.Keys <= r.parents.Keys
    ensures conn.pre in s.parents && conn.post in s.parents ==> r == s
  {
    var s1 := Search(s.parents, s.queue, conn.pre);
    if conn.pre in s1.parents then Search(s1.parents, s1.queue, conn.post) else s1
  }

  /** The parent index after `create_connection` on each of `cs` in turn. */
  function ConnSearches(s: Progress, cs: seq<Connection>): (r: Progress)
    ensures s.parents.Keys <= r.parents.Keys
    decreases |cs|
  {
    if cs == [] then s else ConnSearch(ConnSearches(s, cs[..|cs| - 1]), cs[|cs| - 1])
  }

  lemma {:induction false} ConnSearchesSnoc(s: Progress, cs: seq<Connection>, i: int)
    requires 0 <= i < |cs|
    ensures ConnSearches(s, cs[..i + 1]) == ConnSearch(ConnSearches(s, cs[..i]), cs[i])
  {
    assert cs[..i + 1][..i] == cs[..i];
  }

  /** On a consistent index, one connection whose ends lie below the root
      keeps the index consistent and leaves both ends recorded. */
  lemma {:induction false} ConnSearchRecords(m: Network, t: Progress, c: Connection)
    requires Consistent(m, t.parents, t.queue) && Linkable(m, c)
    ensures var r := ConnSearch(t, c);
      Consistent(m, r.parents, r.queue) && c.pre in r.parents && c.post in r.parents
  {
    var s1 := Search(t.parents, t.queue, c.pre);
    SearchConsistent(m, t.parents, t.queue, c.pre);
    SearchConsistent(m, s1.parents, s1.queue, c.post);
  }

  /** Both ends of every connection in `cs` have an entry in `p`. */
  predicate EndsIn(cs: seq<Connection>, p: map<Uid, Uid>) {
    forall i | 0 <= i < |cs| :: cs[i].pre in p && cs[i].post in p
  }

  lemma {:induction false} EndsGrow(cs: seq<Connection>, p: map<Uid, Uid>, q: map<Uid, Uid>)
    requires EndsIn(cs, p) && p.Keys <= q.Keys
    ensures EndsIn(cs, q)
  {
  }

  lemma {:induction false} EndsSnoc(cs: seq<Connection>, p: map<Uid, Uid>)
    requires cs != [] && EndsIn(cs[..|cs| - 1], p)
    requires cs[|cs| - 1].pre in p && cs[|cs| - 1].post in p
    ensures EndsIn(cs, p)
  {
    forall i | 0 <= i < |cs| - 1 ensures cs[i].pre in p && cs[i].post in p {
      assert cs[..|cs| - 1][i] == cs[i];
    }
  }

  /** On a consistent index, announcing connections whose ends lie below
      the root keeps the index consistent and leaves every end recorded. */
  lemma {:induction false} ConnSearchesRecord(m: Network, s: Progress, cs: seq<Connection>)
    requires Consistent(m, s.parents, s.queue)
    requires forall i | 0 <= i < |cs| :: Linkable(m, cs[i])
    ensures Consistent(m, ConnSearches(s, cs).parents, ConnSearches(s, cs).queue)
    ensures EndsIn(cs, ConnSearches(s, cs).parents)
    decreases |cs|
  {
    if cs != [] {
      var n := |cs| - 1;
      var init := cs[..n];
      assert forall i | 0 <= i < n :: init[i] == cs[i];
      ConnSearchesRecord(m, s, init);
      var t := ConnSearches(s, init);
      ConnSearchRecords(m, t, cs[n]);
      var r := ConnSearch(t, cs[n]);
      EndsGrow(init, t.parents, r.parents);
      EndsSnoc(cs, r.parents);
    }
  }

  /** When every end is already recorded, the connection loop searches
      nothing: the index stays exactly as it was. */
  lemma {:induction false} ConnSearchesRecorded(s: Progress, cs: seq<Connection>)
    requires EndsIn(cs, s.parents)
    ensures ConnSearches(s, cs) == s
    decreases |cs|
  {
    if cs != [] {
      var init := cs[..|cs| - 1];
      assert forall i | 0 <= i < |init| :: init[i] == cs[i];
      ConnSearchesRecorded(s, init);
    }
  }

  /** One connection more: the log gains its record. */
  lemma {:induction false} LinksStep(m: Network, cs: seq<Connection>, i: int, parent: Option<Uid>, w0: seq<Message>, w: seq<Message>)
    requires WellFormed(m) && 0 <= i < |cs| && forall j | 0 <= j <= i :: Linkable(m, cs[j])
    requires w == w0 + Links(m, cs[..i], parent)
    ensures w + [Link(m, cs[i], parent)] == w0 + Links(m, cs[..i + 1], parent)
  {
    var last := Link(m, cs[i], parent);
    LinksSnoc(m, cs, i, parent);
    AppendTwice(w0, Links(m, cs[..i], parent), w, [last], w + [last]);
  }

  /** One connection more: `uids` gains its entry. */
  lemma {:induction false} RegisteredConnStep(cs: seq<Connection>, i: int, u0: map<Uid, Obj>, u: map<Uid, Obj>)
    requires 0 <= i < |cs| && u == Registered(u0, ConnectionObjs(cs[..i]))
    ensures u[ConnUid(cs[i]) := ConnectionObj(cs[i])] == Registered(u0, ConnectionObjs(cs[..i + 1]))
  {
    var objs := ConnectionObjs(cs[..i + 1]);
    ConnectionObjsSnoc(cs, i);
    assert objs[..i] == ConnectionObjs(cs[..i]);
    assert objs[|objs| - 1] == ConnectionObj(cs[i]);
  }

  lemma {:induction false} AppendTwice<T>(w0: seq<T>, a: seq<T>, w1: seq<T>, l: seq<T>, w2: seq<T>)
    requires w1 == w0 + a && w2 == w1 + l
    ensures w2 == w0 + (a + l)
  {
  }

  /** The log of an expansion: the children's announcements, then the
      connections' records; and `uids` gains the children, then the
      connections. */
  lemma {:induction false} ExpansionLog(m: Network, c: Config, net: Network, placement: Uid -> Pair,
                                        w0: seq<Message>, w1: seq<Message>, w2: seq<Message>,
                                        u0: map<Uid, Obj>, u1: map<Uid, Obj>, u2: map<Uid, Obj>)
    requires WellFormed(m) && AllLinkable(m, net)
    requires w1 == w0 + Announcements(c, ChildObjs(net), ParentField(m, net), placement)
    requires w2 == w1 + Links(m, net.connections, ParentField(m, net))
    requires u1 == Registered(u0, ChildObjs(net)) && u2 == Registered(u1, ConnectionObjs(net.connections))
    ensures w2 == w0 + ExpansionMessages(m, c, net, placement)
    ensures u2 == Registered(u0, ChildObjs(net) + ConnectionObjs(net.connections))
  {
    AppendTwice(w0, Announcements(c, ChildObjs(net), ParentField(m, net), placement), w1,
                Links(m, net.connections, ParentField(m, net)), w2);
    RegisteredAppend(u0, ChildObjs(net), ConnectionObjs(net.connections));
  }

  /** The layout after an expansion: children placed, then the network
      marked expanded. */
  lemma {:induction false} ExpansionConfig(m: Network, c0: Config, c1: Config, net: Network, placement: Uid -> Pair)
    requires WellFormed(m) && Occurs(m, net)
    requires KidsPlaced(c0, c1, net, placement)
    ensures forall v :: c1.Put(net.uid, c1.Get(net.uid).(expanded := true)).Get(v) == ExpandedConfig(c0, net, placement, v)
  {
    OccursWithin(m, net);
    SelfNotKid(net);
  }

  /** What `create_object` needs of a network's children, for a network
      in the tree. */
  lemma {:induction false} ChildrenCreatable(m: Network, net: Network)
    requires WellFormed(m) && Occurs(m, net)
    ensures WellFormed(net)
    ensures forall i | 0 <= i < |ChildObjs(net)| :: !ChildObjs(net)[i].ConnectionObj?
    ensures forall i | 0 <= i < |ChildObjs(net)| :: ChildObjs(net)[i].NetworkObj? ==> Occurs(m, ChildObjs(net)[i].network)
    ensures Distinct(ObjUids(ChildObjs(net)))
    ensures forall v :: v in ObjUids(ChildObjs(net)) <==> v in Kids(net)
  {
    OccursWithin(m, net);
    ChildObjsFacts(net);
    ChildNetworksOccur(m, net);
  }

  /** The sub-networks among a network's children lie in the tree too. */
  lemma {:induction false} ChildNetworksOccur(m: Network, n: Network)
    requires Occurs(m, n)
    ensures forall i | 0 <= i < |ChildObjs(n)| :: ChildObjs(n)[i].NetworkObj? ==> Occurs(m, ChildObjs(n)[i].network)
  {
    forall i | 0 <= i < |ChildObjs(n)| && ChildObjs(n)[i].NetworkObj?
      ensures Occurs(m, ChildObjs(n)[i].network)
    {
      var k := i - |n.ensembles| - |n.nodes|;
      assert 0 <= k && ChildObjs(n)[i] == NetworkObjs(n)[k];
      OccursChild(m, n, k);
    }
  }

  /** A well-formed network is not its own child. */
  lemma {:induction false} SelfNotKid(n: Network)
    requires WellFormed(n)
    ensures n.uid !in Kids(n)
  {
    forall k | 0 <= k < |n.networks| ensures NetworkUids(n)[k] != n.uid {
      assert n.networks[k].uid in UidSet(n.networks[k]);
    }
    assert n.uid !in NodeUids(n) && n.uid !in EnsembleUids(n);
  }

  class NetGraph {
    const model: Network
    var config: Config
    var toBeExpanded: seq<Obj>
    var uids: map<Uid, Obj>
    var parents: map<Uid, Uid>
    var networksToSearch: seq<Network>

    /** The parent index is consistent with the model's tree. */
    ghost predicate IndexValid()
      reads this`parents, this`networksToSearch
    {
      Consistent(model, parents, networksToSearch)
    }

    /** Every network the component holds is part of the model's tree. */
    ghost predicate Held()
      reads this`uids, this`toBeExpanded
    {
      && (forall k | k in uids :: uids[k].NetworkObj? ==> Occurs(model, uids[k].network))
      && (forall i | 0 <= i < |toBeExpanded| :: toBeExpanded[i].NetworkObj? ==> Occurs(model, toBeExpanded[i].network))
    }

    /** `NetGraph(viz, config)`: the model is both the first network to
        send and the first to search. */
    constructor (model: Network, config: Config)
      requires WellFormed(model)
      ensures IndexValid() && Held()
      ensures this.model == model && this.config == config
      ensures toBeExpanded == [NetworkObj(model)] && uids == map[]
      ensures parents == map[] && networksToSearch == [model]
    {
      this.model := model;
      this.config := config;
      toBeExpanded := [NetworkObj(model)];
      uids := map[];
      parents := map[];
      networksToSearch := [model];
      new;
      ConsistentInit(model);
    }

    /** One pass of the `while` loop of `get_parents`: pop the first queued
        network, record it as the parent of its nodes, ensembles and
        sub-networks, and queue the sub-networks. */
    method SearchPass()
      requires networksToSearch != []
      modifies this`parents, this`networksToSearch
      ensures Progress(parents, networksToSearch) == Step(old(parents), old(networksToSearch))
    {
      ghost var p0, q0 := parents, networksToSearch;
      var net := networksToSearch[0];
      networksToSearch := networksToSearch[1..];
      var netUid := net.uid;
      for i := 0 to |net.nodes|
        invariant parents == AdoptAll(p0, NodeUids(net)[..i], netUid)
        invariant networksToSearch == q0[1..]
      {
        assert NodeUids(net)[..i + 1][..i] == NodeUids(net)[..i];
        parents := parents[net.nodes[i].uid := netUid];
      }
      assert NodeUids(net)[..|net.nodes|] == NodeUids(net);
      ghost var p1 := parents;
      for i := 0 to |net.ensembles|
        invariant parents == AdoptAll(p1, EnsembleUids(net)[..i], netUid)
        invariant networksToSearch == q0[1..]
      {
        assert EnsembleUids(net)[..i + 1][..i] == EnsembleUids(net)[..i];
        parents := parents[net.ensembles[i].uid := netUid];
      }
      assert EnsembleUids(net)[..|net.ensembles|] == EnsembleUids(net);
      ghost var p2 := parents;
      assert networksToSearch == q0[1..] + net.networks[..0];
      for i := 0 to |net.networks|
        invariant parents == AdoptAll(p2, NetworkUids(net)[..i], netUid)
        invariant networksToSearch == q0[1..] + net.networks[..i]
      {
        assert NetworkUids(net)[..i + 1][..i] == NetworkUids(net)[..i];
        assert net.networks[..i + 1] == net.networks[..i] + [net.networks[i]];
        parents := parents[net.networks[i].uid := netUid];
        networksToSearch := networksToSearch + [net.networks[i]];
      }
      assert NetworkUids(net)[..|net.networks|] == NetworkUids(net);
      assert net.networks[..|net.networks|] == net.networks;
    }

    /** The second loop of `get_parents`: starting from `uid`, append the
        recorded parent of the last element while it has one. */
    method FollowParents(uid: Uid) returns (chain: seq<Uid>)
      requires Ranked(model, parents)
      ensures chain == Chain(model, parents, uid)
    {
      chain := [uid];
      while chain[|chain| - 1] in parents
        invariant |chain| >= 1 && chain[0] == uid
        invariant Linked(parents, chain)
        decreases if chain[|chain| - 1] in parents then Depth(model, chain[|chain| - 1]) else 0
      {
        var last := chain[|chain| - 1];
        ParentStep(model, parents, last);
        LinkedAppend(parents, chain);
        chain := chain + [parents[last]];
      }
      ChainUnique(model, parents, chain);
    }

    /** `get_parents(uid)`: search breadth-first until `uid` has a recorded
        parent, then follow recorded parents up to the root. Fails, with the
        queue exhausted, exactly when `uid` is not a uid below the root. */
    method GetParents(uid: Uid) returns (r: Result<seq<Uid>>)
      requires IndexValid()
      modifies this`parents, this`networksToSearch
      ensures IndexValid()
      ensures Progress(parents, networksToSearch) == Search(old(parents), old(networksToSearch), uid)
      ensures old(uid in parents) ==> parents == old(parents) && networksToSearch == old(networksToSearch)
      ensures r.Ok? <==> uid in UidSet(model) && uid != model.uid
      ensures r.Err? ==> r.error == IndexError && networksToSearch == [] && uid !in parents
      ensures r.Ok? ==> uid in parents && r.value == Chain(model, parents, uid)
      ensures r.Ok? ==> r.value == Ancestry(model, uid)
    {
      ghost var p0, q0 := parents, networksToSearch;
      while uid !in parents
        invariant Search(parents, networksToSearch, uid) == Search(p0, q0, uid)
        decreases SizeAll(networksToSearch)
      {
        if networksToSearch == [] {
          SearchConsistent(model, p0, q0, uid);
          return Err(IndexError);
        }
        ghost var q1 := networksToSearch;
        SearchPass();
        StepShrinks(q1);
      }
      SearchConsistent(model, p0, q0, uid);
      var chain := FollowParents(uid);
      ChainIsAncestry(model, parents, networksToSearch, uid);
      r := Ok(chain);
    }

    /** `send_pan_and_zoom`: the pan message, then the zoom message, with
        defaults filled in. */
    method SendPanAndZoom(client: Client)
      modifies client
      ensures client.written == old(client.written)
        + [PanInfo(PanOf(config.Get(model.uid))), ZoomInfo(ZoomOf(config.Get(model.uid)))]
    {
      var pan := config.Get(model.uid).pos;
      var p := if pan.None? then Pair(0.0, 0.0) else pan.value;
      var size := config.Get(model.uid).size;
      var zoom := if size.None? then 1.0 else size.value.x;
      client.Write(PanInfo(p));
      client.Write(ZoomInfo(zoom));
    }

    /** `create_object`: fill in a missing position and size, register the
        object under its uid and announce it. */
    method CreateObject(client: Client, obj: Obj, kind: Kind, parent: Option<Uid>, placement: Uid -> Pair)
      requires Held()
      requires !obj.ConnectionObj? && kind == KindOf(obj)
      requires obj.NetworkObj? ==> Occurs(model, obj.network)
      modifies this`config, this`uids, client
      ensures Held()
      ensures config == old(config).Put(ObjUid(obj), Placed(old(config).Get(ObjUid(obj)), placement(ObjUid(obj))))
      ensures uids == old(uids)[ObjUid(obj) := obj]
      ensures client.written == old(client.written) + [Announcement(old(config), obj, parent, placement)]
    {
      var uid := ObjUid(obj);
      var pos := config.Get(uid).pos;
      if pos.None? {
        pos := Some(placement(uid));
        config := config.Put(uid, config.Get(uid).(pos := pos));
      }
      var size := config.Get(uid).size;
      if size.None? {
        size := Some(DefaultSize);
        config := config.Put(uid, config.Get(uid).(size := size));
      }
      uids := uids[uid := obj];
      var expanded := if kind == Net then Some(config.Get(uid).expanded) else None;
      client.Write(ObjectInfo(uid, pos.value, kind, size.value, parent, expanded));
    }

    /** The three `for` loops of `expand_network` that call
        `create_object`, run back to back over ensembles, nodes and
        sub-networks, each with its own type tag. */
    method CreateObjects(client: Client, objs: seq<Obj>, parent: Option<Uid>, placement: Uid -> Pair)
      requires Held()
      requires forall i | 0 <= i < |objs| :: !objs[i].ConnectionObj?
      requires forall i | 0 <= i < |objs| :: objs[i].NetworkObj? ==> Occurs(model, objs[i].network)
      requires Distinct(ObjUids(objs))
      modifies this`config, this`uids, client
      ensures Held()
      ensures client.written == old(client.written) + Announcements(old(config), objs, parent, placement)
      ensures forall v :: config.Get(v) == if v in ObjUids(objs) then Placed(old(config).Get(v), placement(v)) else old(config).Get(v)
      ensures uids == Registered(old(uids), objs)
    {
      for i := 0 to |objs|
        invariant Held()
        invariant client.written == old(client.written) + Announcements(old(config), objs[..i], parent, placement)
        invariant forall v :: config.Get(v) == if v in ObjUids(objs)[..i] then Placed(old(config).Get(v), placement(v)) else old(config).Get(v)
        invariant uids == Registered(old(uids), objs[..i])
      {
        RegisteredSnoc(old(uids), objs, i);
        ghost var c, w := config, client.written;
        PlacedStep(old(config), c, objs, i, placement);
        AnnouncementStep(old(config), c, objs, i, parent, placement, old(client.written), w);
        CreateObject(client, objs[i], KindOf(objs[i]), parent, placement);
      }
      assert objs[..|objs|] == objs;
      assert ObjUids(objs)[..|objs|] == ObjUids(objs);
    }

    /** `create_connection`: register the connection, then report both
        ends' ancestries without the root; a `get_parents` failure
        propagates and nothing is written. */
    method CreateConnection(client: Client, conn: Connection, parent: Option<Uid>) returns (r: Outcome)
      requires IndexValid() && Held()
      modifies this`uids, this`parents, this`networksToSearch, client
      ensures IndexValid()
      ensures Held()
      ensures uids == old(uids)[ConnUid(conn) := ConnectionObj(conn)]
      ensures r.Pass? <==> Linkable(model, conn)
      ensures r.Fail? ==> r.error == IndexError && client.written == old(client.written)
      ensures r.Pass? ==> client.written == old(client.written) + [Link(model, conn, parent)]
      ensures Progress(parents, networksToSearch) == ConnSearch(Progress(old(parents), old(networksToSearch)), conn)
    {
      var uid := ConnUid(conn);
      uids := uids[uid := ConnectionObj(conn)];
      assert Held();
      ghost var registered, queued := uids, toBeExpanded;
      var ends := FindEnds(conn);
      assert uids == registered && toBeExpanded == queued;
      if ends.Err? {
        return Fail(ends.error);
      }
      client.Write(ConnectionInfo(uid, DropLast(ends.value.0), DropLast(ends.value.1), parent));
      r := Pass;
    }

    /** The two `get_parents` calls of `create_connection`: the pre end,
        then, only when that one succeeds, the post end. */
    method FindEnds(conn: Connection) returns (r: Result<(seq<Uid>, seq<Uid>)>)
      requires IndexValid()
      modifies this`parents, this`networksToSearch
      ensures IndexValid()
      ensures Progress(parents, networksToSearch) == ConnSearch(Progress(old(parents), old(networksToSearch)), conn)
      ensures r.Ok? <==> Linkable(model, conn)
      ensures r.Err? ==> r.error == IndexError
      ensures r.Ok? ==> r.value == (Ancestry(model, conn.pre), Ancestry(model, conn.post))
    {
      var pres := GetParents(conn.pre);
      if pres.Err? {
        return Err(pres.error);
      }
      var posts := GetParents(conn.post);
      if posts.Err? {
        return Err(posts.error);
      }
      r := Ok((pres.value, posts.value));
    }

    /** The fourth `for` loop of `expand_network`: announce each connection
        in turn; the first one whose ends `get_parents` cannot place stops
        the expansion. */
    method CreateConnections(client: Client, conns: seq<Connection>, parent: Option<Uid>) returns (r: Outcome)
      requires IndexValid() && Held()
      modifies this`uids, this`parents, this`networksToSearch, client
      ensures IndexValid() && Held()
      ensures r.Pass? <==> forall i | 0 <= i < |conns| :: Linkable(model, conns[i])
      ensures r.Fail? ==> r.error == IndexError && old(client.written) <= client.written
      ensures r.Pass? ==> client.written == old(client.written) + Links(model, conns, parent)
      ensures r.Pass? ==> uids == Registered(old(uids), ConnectionObjs(conns))
      ensures r.Pass? ==> Progress(parents, networksToSearch) == ConnSearches(Progress(old(parents), old(networksToSearch)), conns)
    {
      ghost var w0, u0, s0 := client.written, uids, Progress(parents, networksToSearch);
      for i := 0 to |conns|
        invariant IndexValid() && Held()
        invariant forall j | 0 <= j < i :: Linkable(model, conns[j])
        invariant client.written == w0 + Links(model, conns[..i], parent)
        invariant uids == Registered(u0, ConnectionObjs(conns[..i]))
        invariant Progress(parents, networksToSearch) == ConnSearches(s0, conns[..i])
      {
        ghost var w, u := client.written, uids;
        ConnSearchesSnoc(s0, conns, i);
        var res := CreateConnection(client, conns[i], parent);
        if res.Fail? {
          assert w0 <= w;
          return res;
        }
        LinksStep(model, conns, i, parent, w0, w);
        RegisteredConnStep(conns, i, u0, u);
      }
      assert conns[..|conns|] == conns;
      r := Pass;
    }

    /** `expand_network`: anything but a network fails at once with the
        `AttributeError` of `network.ensembles`. */
    method ExpandNetwork(network: Obj, client: Client, placement: Uid -> Pair) returns (r: Outcome)
      requires IndexValid() && Held()
      requires network.NetworkObj? ==> Occurs(model, network.network)
      modifies this`config, this`uids, this`parents, this`networksToSearch, client
      ensures IndexValid() && Held()
      ensures !network.NetworkObj? ==> r == Fail(AttributeError) && unchanged(this) && client.written == old(client.written)
      ensures network.NetworkObj? ==> (r.Pass? <==> AllLinkable(model, network.network))
      ensures network.NetworkObj? && r.Fail? ==> r.error == IndexError && old(client.written) <= client.written
      ensures network.NetworkObj? && r.Fail? ==> KidsPlaced(old(config), config, network.network, placement)
      ensures network.NetworkObj? && r.Pass? ==>
        && client.written == old(client.written) + ExpansionMessages(model, old(config), network.network, placement)
        && (forall v :: config.Get(v) == ExpandedConfig(old(config), network.network, placement, v))
        && uids == Registered(old(uids), ChildObjs(network.network) + ConnectionObjs(network.network.connections))
        && Progress(parents, networksToSearch) == ConnSearches(Progress(old(parents), old(networksToSearch)), network.network.connections)
    {
      if !network.NetworkObj? {
        return Fail(AttributeError);
      }
      r := ExpandNet(network.network, client, placement);
    }

    /** The three `for` loops of `expand_network` that call
        `create_object`, over the children of a network in the tree. */
    method CreateChildren(client: Client, net: Network, parent: Option<Uid>, placement: Uid -> Pair)
      requires Held() && WellFormed(model) && Occurs(model, net)
      modifies this`config, this`uids, client
      ensures Held()
      ensures client.written == old(client.written) + Announcements(old(config), ChildObjs(net), parent, placement)
      ensures KidsPlaced(old(config), config, net, placement)
      ensures uids == Registered(old(uids), ChildObjs(net))
    {
      ChildrenCreatable(model, net);
      CreateObjects(client, ChildObjs(net), parent, placement);
    }

    /** The four `for` loops of `expand_network`: announce a network's
        ensembles, nodes and sub-networks, then its connections. */
    method AnnounceContents(net: Network, client: Client, parent: Option<Uid>, placement: Uid -> Pair) returns (r: Outcome)
      requires IndexValid() && Held() && Occurs(model, net) && parent == ParentField(model, net)
      modifies this`config, this`uids, this`parents, this`networksToSearch, client
      ensures IndexValid() && Held()
      ensures r.Pass? <==> AllLinkable(model, net)
      ensures r.Fail? ==> r.error == IndexError && old(client.written) <= client.written
      ensures r.Pass? ==> client.written == old(client.written) + ExpansionMessages(model, old(config), net, placement)
      ensures KidsPlaced(old(config), config, net, placement)
      ensures r.Pass? ==> uids == Registered(old(uids), ChildObjs(net) + ConnectionObjs(net.connections))
      ensures r.Pass? ==> Progress(parents, networksToSearch) == ConnSearches(Progress(old(parents), old(networksToSearch)), net.connections)
    {
      ghost var u0, w0 := uids, client.written;
      CreateChildren(client, net, parent, placement);
      ghost var w1, u1 := client.written, uids;
      r := CreateConnections(client, net.connections, parent);
      if r.Fail? {
        return;
      }
      ExpansionLog(model, old(config), net, placement, w0, w1, client.written, u0, u1, uids);
    }

    /** `expand_network` on a network: announce its contents, then mark it
        expanded. */
    method ExpandNet(net: Network, client: Client, placement: Uid -> Pair) returns (r: Outcome)
      requires IndexValid() && Held() && Occurs(model, net)
      modifies this`config, this`uids, this`parents, this`networksToSearch, client
      ensures IndexValid() && Held()
      ensures r.Pass? <==> AllLinkable(model, net)
      ensures r.Fail? ==> r.error == IndexError && old(client.written) <= client.written
      ensures r.Pass? ==> client.written == old(client.written) + ExpansionMessages(model, old(config), net, placement)
      ensures r.Pass? ==> forall v :: config.Get(v) == ExpandedConfig(old(config), net, placement, v)
      ensures r.Fail? ==> KidsPlaced(old(config), config, net, placement)
      ensures r.Pass? ==> uids == Registered(old(uids), ChildObjs(net) + ConnectionObjs(net.connections))
      ensures r.Pass? ==> Progress(parents, networksToSearch) == ConnSearches(Progress(old(parents), old(networksToSearch)), net.connections)
    {
      var parent := if net == model then None else Some(net.uid);
      r := AnnounceContents(net, client, parent, placement);
      if r.Fail? {
        return;
      }
      ghost var c1 := config;
      config := config.Put(net.uid, config.Get(net.uid).(expanded := true));
      ExpansionConfig(model, old(config), c1, net, placement);
    }

    /** `update_client`: expand the network at the head of the queue, and
        after the model itself send the view; with an empty queue, nothing. */
    method UpdateClient(client: Client, placement: Uid -> Pair) returns (r: Outcome)
      requires IndexValid() && Held()
      modifies this`config, this`uids, this`parents, this`networksToSearch, this`toBeExpanded, client
      ensures IndexValid() && Held()
      ensures old(toBeExpanded) == [] ==> r == Pass && unchanged(this) && client.written == old(client.written)
      ensures old(toBeExpanded) != [] ==> toBeExpanded == old(toBeExpanded)[1..]
      ensures old(toBeExpanded) != [] && r.Fail? ==>
        r.error == (if old(toBeExpanded)[0].NetworkObj? then IndexError else AttributeError)
      ensures old(toBeExpanded) != [] && !old(toBeExpanded)[0].NetworkObj? ==>
        && r == Fail(AttributeError) && client.written == old(client.written)
        && config == old(config) && uids == old(uids)
        && parents == old(parents) && networksToSearch == old(networksToSearch)
      ensures old(toBeExpanded) != [] && old(toBeExpanded)[0].NetworkObj? && r.Fail? ==>
        var n := old(toBeExpanded)[0].network;
        && old(client.written) <= client.written
        && KidsPlaced(old(config), config, n, placement)
      ensures old(toBeExpanded) != [] && r.Pass? ==>
        var o := old(toBeExpanded)[0];
        && o.NetworkObj? && AllLinkable(model, o.network) && config.Get(o.network.uid).expanded
        && (forall v :: config.Get(v) == ExpandedConfig(old(config), o.network, placement, v))
        && uids == Registered(old(uids), ChildObjs(o.network) + ConnectionObjs(o.network.connections))
        && Progress(parents, networksToSearch) == ConnSearches(Progress(old(parents), old(networksToSearch)), o.network.connections)
        && client.written == old(client.written) + ExpansionMessages(model, old(config), o.network, placement)
           + (if o.network == model then [PanInfo(PanOf(config.Get(model.uid))), ZoomInfo(ZoomOf(config.Get(model.uid)))] else [])
    {
      if toBeExpanded == [] {
        return Pass;
      }
      var network := toBeExpanded[0];
      toBeExpanded := toBeExpanded[1..];
      r := ExpandNetwork(network, client, placement);
      if r.Fail? {
        return;
      }
      if network == NetworkObj(model) {
        SendPanAndZoom(client);
      }
    }

    /** `config[obj].expanded = flag` when `obj` is a network; the
        configuration refuses the parameter on any other object. */
    method SetExpanded(obj: Obj, flag: bool) returns (r: Outcome)
      modifies this`config
      ensures obj.NetworkObj? ==> r == Pass && config == old(config).Put(obj.network.uid, old(config).Get(obj.network.uid).(expanded := flag))
      ensures !obj.NetworkObj? ==> r == Fail(ConfigError) && config == old(config)
    {
      if !obj.NetworkObj? {
        return Fail(ConfigError);
      }
      config := config.Put(obj.network.uid, config.Get(obj.network.uid).(expanded := flag));
      r := Pass;
    }

    /** `act_expand(uid)`: queue the object, then set its `expanded` flag;
        the queue grows even when the flag is refused. */
    method ActExpand(uid: Uid) returns (r: Outcome)
      requires Held()
      modifies this`toBeExpanded, this`config
      ensures Held()
      ensures uid !in uids ==> r == Fail(KeyError) && toBeExpanded == old(toBeExpanded) && config == old(config)
      ensures uid in uids ==> toBeExpanded == old(toBeExpanded) + [uids[uid]]
      ensures uid in uids && uids[uid].NetworkObj? ==>
        r == Pass && config == old(config).Put(uids[uid].network.uid, old(config).Get(uids[uid].network.uid).(expanded := true))
      ensures uid in uids && !uids[uid].NetworkObj? ==> r == Fail(ConfigError) && config == old(config)
    {
      if uid !in uids {
        return Fail(KeyError);
      }
      var net := uids[uid];
      toBeExpanded := toBeExpanded + [net];
      r := SetExpanded(net, true);
    }

    /** `act_collapse(uid)`: clear the `expanded` flag; the queue is left
        alone. */
    method ActCollapse(uid: Uid) returns (r: Outcome)
      modifies this`config
      ensures toBeExpanded == old(toBeExpanded)
      ensures uid !in uids ==> r == Fail(KeyError) && config == old(config)
      ensures uid in uids && uids[uid].NetworkObj? ==>
        r == Pass && config == old(config).Put(uids[uid].network.uid, old(config).Get(uids[uid].network.uid).(expanded := false))
      ensures uid in uids && !uids[uid].NetworkObj? ==> r == Fail(ConfigError) && config == old(config)
    {
      if uid !in uids {
        return Fail(KeyError);
      }
      r := SetExpanded(uids[uid], false);
    }

    /** `act_pan(x, y)`: the model's position becomes (x, y). */
    method ActPan(x: real, y: real)
      modifies this`config
      ensures config == old(config).Put(model.uid, Panned(old(config).Get(model.uid), x, y))
    {
      config := config.Put(model.uid, config.Get(model.uid).(pos := Some(Pair(x, y))));
    }

    /** `act_zoom(scale, x, y)`: the model's size becomes (scale, scale)
        and its position (x, y). */
    method ActZoom(scale: real, x: real, y: real)
      modifies this`config
      ensures config == old(config).Put(model.uid, Zoomed(old(config).Get(model.uid), scale, x, y))
    {
      config := config.Put(model.uid, config.Get(model.uid).(size := Some(Pair(scale, scale))));
      config := config.Put(model.uid, config.Get(model.uid).(pos := Some(Pair(x, y))));
    }

    /** `act_pos(uid, x, y)`: move an announced object; a connection has no
        layout to set. */
    method ActPos(uid: Uid, x: real, y: real) returns (r: Outcome)
      modifies this`config
      ensures uid !in uids ==> r == Fail(KeyError) && config == old(config)
      ensures uid in uids && uids[uid].ConnectionObj? ==> r == Fail(ConfigError) && config == old(config)
      ensures uid in uids && !uids[uid].ConnectionObj? ==>
        r == Pass && config == old(config).Put(ObjUid(uids[uid]), old(config).Get(ObjUid(uids[uid])).(pos := Some(Pair(x, y))))
    {
      if uid !in uids {
        return Fail(KeyError);
      }
      var obj := uids[uid];
      if obj.ConnectionObj? {
        return Fail(ConfigError);
      }
      config := config.Put(ObjUid(obj), config.Get(ObjUid(obj)).(pos := Some(Pair(x, y))));
      r := Pass;
    }

    /** `act_size(uid, width, height)`: resize an announced object; a
        connection has no layout to set. */
    method ActSize(uid: Uid, width: real, height: real) returns (r: Outcome)
      modifies this`config
      ensures uid !in uids ==> r == Fail(KeyError) && config == old(config)
      ensures uid in uids && uids[uid].ConnectionObj? ==> r == Fail(ConfigError) && config == old(config)
      ensures uid in uids && !uids[uid].ConnectionObj? ==>
        r == Pass && config == old(config).Put(ObjUid(uids[uid]), old(config).Get(ObjUid(uids[uid])).(size := Some(Pair(width, height))))
    {
      if uid !in uids {
        return Fail(KeyError);
      }
      var obj := uids[uid];
      if obj.ConnectionObj? {
        return Fail(ConfigError);
      }
      config := config.Put(ObjUid(obj), config.Get(ObjUid(obj)).(size := Some(Pair(width, height))));
      r := Pass;
    }
  }
}
