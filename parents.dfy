/** The lazy parent index behind `NetGraph.get_parents`: a breadth-first walk
    of the network tree, driven by a FIFO queue of networks still to search,
    that fills a `uid -> parent uid` map only until the queried uid is in it;
    then the ancestor chain read off that map. The functions here are the
    specification the imperative `NetGraph.GetParents` is proved against. */
module ParentIndex {
  import opened Base
  import opened Networks

  /** Record `v` as the parent of every uid in `kids`, one assignment after
      another, as the inner `for` loops of `get_parents` do. */
  function AdoptAll(p: map<Uid, Uid>, kids: seq<Uid>, v: Uid): (r: map<Uid, Uid>)
    ensures r.Keys == p.Keys + (set k | k in kids)
    ensures forall k | k in r :: r[k] == (if k in kids then v else p[k])
    decreases |kids|
  {
    if kids == [] then p
    else
      var init, last := kids[..|kids| - 1], kids[|kids| - 1];
      assert forall k :: k in kids <==> k in init || k == last by {
        assert kids == init + [last];
      }
      AdoptAll(p, init, v)[last := v]
  }

  /** The state the search works on: `self.parents` and `self.networks_to_search`. */
  datatype Progress = Progress(parents: map<Uid, Uid>, queue: seq<Network>)

  /** One pass of the search loop: pop the head network, record it as the
      parent of its nodes, ensembles and sub-networks (in that order), and
      append the sub-networks to the tail of the queue. */
  function Step(p: map<Uid, Uid>, q: seq<Network>): Progress
    requires q != []
  {
    var n := q[0];
    Progress(AdoptAll(AdoptAll(AdoptAll(p, NodeUids(n), n.uid), EnsembleUids(n), n.uid), NetworkUids(n), n.uid),
             q[1..] + n.networks)
  }

  lemma {:induction false} AdoptThree(p: map<Uid, Uid>, a: seq<Uid>, b: seq<Uid>, c: seq<Uid>, v: Uid)
    ensures var r := AdoptAll(AdoptAll(AdoptAll(p, a, v), b, v), c, v);
      && r.Keys == p.Keys + (set k | k in a + b + c)
      && forall k | k in r :: r[k] == if k in a + b + c then v else p[k]
  {
    var p1 := AdoptAll(p, a, v);
    var p2 := AdoptAll(p1, b, v);
    var p3 := AdoptAll(p2, c, v);
    forall k | k in p3 ensures p3[k] == (if k in a + b + c then v else p[k]) {
      if k !in c {
        assert p3[k] == p2[k];
        if k !in b {
          assert p2[k] == p1[k];
        }
      }
    }
  }

  /** After one pass every child of the popped network has it as recorded
      parent, and every other entry is as it was. */
  lemma {:induction false} StepRecords(p: map<Uid, Uid>, q: seq<Network>)
    requires q != []
    ensures Step(p, q).parents.Keys == p.Keys + Kids(q[0])
    ensures forall k | k in Step(p, q).parents :: Step(p, q).parents[k] == (if k in Kids(q[0]) then q[0].uid else p[k])
  {
    var n := q[0];
    AdoptThree(p, NodeUids(n), EnsembleUids(n), NetworkUids(n), n.uid);
  }

  lemma {:induction false} StepShrinks(q: seq<Network>)
    requires q != []
    ensures SizeAll(q[1..] + q[0].networks) + 1 == SizeAll(q)
  {
    SizeAllAppend(q[1..], q[0].networks);
  }

  /** The first loop of `get_parents`: step while `u` has no recorded parent.
      It stops either with `u` recorded or with the queue exhausted, where
      the source's `pop(0)` raises. Recorded entries are never dropped. */
  function Search(p: map<Uid, Uid>, q: seq<Network>, u: Uid): (r: Progress)
    ensures u in r.parents || r.queue == []
    ensures p.Keys <= r.parents.Keys
    ensures u in p ==> r == Progress(p, q)
    decreases SizeAll(q)
  {
    if u in p || q == [] then Progress(p, q)
    else
      StepShrinks(q);
      var s := Step(p, q);
      Search(s.parents, s.queue, u)
  }

  /** `k` passes of the search loop, stopping early on an empty queue. */
  function Run(p: map<Uid, Uid>, q: seq<Network>, k: nat): Progress
    decreases k
  {
    if k == 0 || q == [] then Progress(p, q)
    else
      var s := Step(p, q);
      Run(s.parents, s.queue, k - 1)
  }

  lemma {:induction false} RunStep(p: map<Uid, Uid>, q: seq<Network>, k: nat)
    requires k > 0 && q != []
    ensures Run(p, q, k) == Run(Step(p, q).parents, Step(p, q).queue, k - 1)
  {
  }

  /** Minimal work: the search does exactly the passes it must. It is `k`
      passes of the loop, and before each of them `u` was still missing and
      the queue still non-empty. */
  lemma {:induction false} SearchIsShortestRun(p: map<Uid, Uid>, q: seq<Network>, u: Uid) returns (k: nat)
    ensures Search(p, q, u) == Run(p, q, k)
    ensures forall j | 0 <= j < k :: u !in Run(p, q, j).parents && Run(p, q, j).queue != []
    decreases SizeAll(q)
  {
    if u in p || q == [] {
      k := 0;
      assert Run(p, q, 0) == Progress(p, q);
    } else {
      StepShrinks(q);
      var s := Step(p, q);
      var k' := SearchIsShortestRun(s.parents, s.queue, u);
      k := k' + 1;
      assert Search(p, q, u) == Search(s.parents, s.queue, u);
      RunStep(p, q, k);
      forall j | 0 <= j < k ensures u !in Run(p, q, j).parents && Run(p, q, j).queue != [] {
        if j > 0 {
          RunStep(p, q, j);
        } else {
          assert Run(p, q, 0) == Progress(p, q);
        }
      }
    }
  }

  /** The uids still to be found: everything strictly below a queued network. */
  function Pending(q: seq<Network>): set<Uid> {
    set i, u | 0 <= i < |q| && u in UidSet(q[i]) && u != q[i].uid :: u
  }

  /** Every recorded entry is the true parent in the tree `m`. */
  ghost predicate Ranked(m: Network, p: map<Uid, Uid>) {
    && WellFormed(m)
    && forall k {:trigger p[k]} | k in p :: k in UidSet(m) && k != m.uid && p[k] == ParentUid(m, k)
  }

  /** What the search keeps true of `self.parents` and the queue: entries are
      true parents; a recorded parent is the root or itself recorded; queued
      networks lie in the tree and are the root or recorded; every uid of the
      tree but the root is recorded or still pending below the queue. */
  ghost predicate Consistent(m: Network, p: map<Uid, Uid>, q: seq<Network>) {
    && Ranked(m, p)
    && (forall k | k in p :: p[k] == m.uid || p[k] in p)
    && QueueInTree(m, p, q)
    && UidSet(m) - {m.uid} <= p.Keys + Pending(q)
  }

  /** The state the constructor sets up: nothing recorded, the root queued. */
  lemma {:induction false} ConsistentInit(m: Network)
    requires WellFormed(m)
    ensures Consistent(m, map[], [m])
  {
    forall u | u in UidSet(m) - {m.uid} ensures u in Pending([m]) {
      assert 0 <= 0 < |[m]| && u in UidSet([m][0]) && u != [m][0].uid;
    }
  }

  /** Coverage after one pass: what was pending under the popped network is
      now recorded or pending under its sub-networks. */
  lemma {:induction false} StepCovers(p: map<Uid, Uid>, q: seq<Network>)
    requires q != []
    ensures Pending(q) <= Step(p, q).parents.Keys + Pending(Step(p, q).queue)
  {
    var n := q[0];
    var s := Step(p, q);
    StepRecords(p, q);
    assert s.queue == q[1..] + n.networks;
    forall u | u in Pending(q) ensures u in s.parents.Keys + Pending(s.queue) {
      var i :| 0 <= i < |q| && u in UidSet(q[i]) && u != q[i].uid;
      if i > 0 {
        assert s.queue[i - 1] == q[i];
      } else {
        PendingBelowHead(n, q[1..], u);
      }
    }
  }

  /** A uid strictly below the popped network is one of its children or
      lies strictly below one of the sub-networks now queued. */
  lemma {:induction false} PendingBelowHead(n: Network, rest: seq<Network>, u: Uid)
    requires u in UidSet(n) && u != n.uid
    ensures u in Kids(n) || u in Pending(rest + n.networks)
  {
    if u in LeafUids(n) {
      assert u in NodeUids(n) || u in EnsembleUids(n);
    } else {
      var j :| 0 <= j < |n.networks| && u in UidSet(n.networks[j]);
      var t := rest + n.networks;
      assert t[|rest| + j] == n.networks[j];
      if u == n.networks[j].uid {
        assert NetworkUids(n)[j] == u;
        assert ChildUids(n)[|NodeUids(n)| + |EnsembleUids(n)| + j] == u;
      }
    }
  }

  /** New entries are true parents, and the popped network is already the
      root or recorded. */
  lemma {:induction false} StepRanked(m: Network, p: map<Uid, Uid>, q: seq<Network>)
    requires Consistent(m, p, q) && q != []
    ensures Ranked(m, Step(p, q).parents)
    ensures forall k | k in Step(p, q).parents :: Step(p, q).parents[k] == m.uid || Step(p, q).parents[k] in Step(p, q).parents
  {
    var n := q[0];
    var r := Step(p, q).parents;
    StepRecords(p, q);
    assert Occurs(m, q[0]) && (n.uid == m.uid || n.uid in p);
    forall k | k in r
      ensures k in UidSet(m) && k != m.uid && r[k] == ParentUid(m, k)
      ensures r[k] == m.uid || r[k] in r
    {
      if k in Kids(n) {
        KidParent(m, n, k);
      }
    }
  }

  /** Each sub-network of the popped network is recorded by that pass. */
  lemma {:induction false} ChildRecorded(p: map<Uid, Uid>, q: seq<Network>, j: int)
    requires q != [] && 0 <= j < |q[0].networks|
    ensures q[0].networks[j].uid in Step(p, q).parents
  {
    var n := q[0];
    StepRecords(p, q);
    assert NetworkUids(n)[j] == n.networks[j].uid;
    assert ChildUids(n)[|NodeUids(n)| + |EnsembleUids(n)| + j] == n.networks[j].uid;
  }

  /** Queued networks are in the tree and are the root or recorded. */
  ghost predicate QueueInTree(m: Network, p: map<Uid, Uid>, q: seq<Network>) {
    forall i | 0 <= i < |q| :: Occurs(m, q[i]) && (q[i].uid == m.uid || q[i].uid in p)
  }

  /** The appended sub-networks lie in the tree and were just recorded. */
  lemma {:induction false} StepQueue(m: Network, p: map<Uid, Uid>, q: seq<Network>, s: Progress)
    requires QueueInTree(m, p, q) && q != [] && s == Step(p, q)
    ensures QueueInTree(m, s.parents, s.queue)
  {
    var n := q[0];
    StepRecords(p, q);
    assert s.queue == q[1..] + n.networks;
    forall i | 0 <= i < |s.queue|
      ensures Occurs(m, s.queue[i]) && (s.queue[i].uid == m.uid || s.queue[i].uid in s.parents)
    {
      if i >= |q| - 1 {
        var j := i - (|q| - 1);
        assert s.queue[i] == n.networks[j];
        OccursChild(m, n, j);
        ChildRecorded(p, q, j);
      } else {
        assert s.queue[i] == q[i + 1];
      }
    }
  }

  lemma {:induction false} StepConsistent(m: Network, p: map<Uid, Uid>, q: seq<Network>)
    requires Consistent(m, p, q) && q != []
    ensures Consistent(m, Step(p, q).parents, Step(p, q).queue)
  {
    StepRanked(m, p, q);
    StepQueue(m, p, q, Step(p, q));
    StepCovers(p, q);
    StepRecords(p, q);
  }

  /** The search keeps the index consistent, and it finds `u` exactly when
      `u` is a uid of the tree other than the root; otherwise the queue runs
      dry and the source's `pop(0)` fails. */
  lemma {:induction false} SearchConsistent(m: Network, p: map<Uid, Uid>, q: seq<Network>, u: Uid)
    requires Consistent(m, p, q)
    ensures Consistent(m, Search(p, q, u).parents, Search(p, q, u).queue)
    ensures u in Search(p, q, u).parents <==> u in UidSet(m) && u != m.uid
    decreases SizeAll(q)
  {
    if !(u in p || q == []) {
      StepShrinks(q);
      StepConsistent(m, p, q);
      var s := Step(p, q);
      SearchConsistent(m, s.parents, s.queue, u);
    }
  }

  /** The second loop of `get_parents`: `u`, then the recorded parent of the
      last element, until an element has no entry. */
  function Chain(ghost m: Network, p: map<Uid, Uid>, u: Uid): (r: seq<Uid>)
    requires Ranked(m, p)
    ensures |r| >= 1 && r[0] == u && r[|r| - 1] !in p
    ensures Linked(p, r)
    decreases if u in p then Depth(m, u) else 0
  {
    if u !in p then [u]
    else
      ParentStep(m, p, u);
      var rest := Chain(m, p, p[u]);
      LinkedCons(p, u, rest);
      [u] + rest
  }

  /** A recorded parent is the true parent, one level up. */
  lemma {:induction false} ParentStep(m: Network, p: map<Uid, Uid>, u: Uid)
    requires Ranked(m, p) && u in p
    ensures p[u] == ParentUid(m, u) && p[u] in UidSet(m) && Depth(m, p[u]) < Depth(m, u)
  {
    ParentDepth(m, u);
  }

  /** One step of `Chain`: from a recorded uid the chain goes on from its
      recorded parent. */
  lemma {:induction false} ChainStep(m: Network, p: map<Uid, Uid>, u: Uid)
    requires Ranked(m, p) && u in p
    ensures Chain(m, p, u) == [u] + Chain(m, p, p[u])
  {
    ParentStep(m, p, u);
  }

  /** Each element of `r` but the last is recorded, with the next element
      as its recorded parent. */
  predicate Linked(p: map<Uid, Uid>, r: seq<Uid>) {
    forall i | 0 <= i < |r| - 1 :: r[i] in p && r[i + 1] == p[r[i]]
  }

  lemma {:induction false} LinkedTail(p: map<Uid, Uid>, r: seq<Uid>)
    requires Linked(p, r) && |r| > 1
    ensures Linked(p, r[1..]) && r[0] in p && r[1] == p[r[0]]
  {
    var t := r[1..];
    forall i | 0 <= i < |t| - 1 ensures t[i] in p && t[i + 1] == p[t[i]] {
      assert t[i] == r[i + 1] && t[i + 1] == r[i + 2];
    }
  }

  lemma {:induction false} LinkedCons(p: map<Uid, Uid>, u: Uid, r: seq<Uid>)
    requires Linked(p, r) && |r| >= 1 && u in p && r[0] == p[u]
    ensures Linked(p, [u] + r)
  {
    var t := [u] + r;
    forall i | 0 <= i < |t| - 1 ensures t[i] in p && t[i + 1] == p[t[i]] {
      if i > 0 {
        assert t[i] == r[i - 1] && t[i + 1] == r[i];
      }
    }
  }

  lemma {:induction false} LinkedAppend(p: map<Uid, Uid>, r: seq<Uid>)
    requires Linked(p, r) && |r| >= 1 && r[|r| - 1] in p
    ensures Linked(p, r + [p[r[|r| - 1]]])
  {
    var t := r + [p[r[|r| - 1]]];
    forall i | 0 <= i < |t| - 1 ensures t[i] in p && t[i + 1] == p[t[i]] {
      assert t[i] == r[i];
      if i < |r| - 1 {
        assert t[i + 1] == r[i + 1];
      }
    }
  }

  /** `Chain` is the only sequence that starts at its first element, steps
      to the recorded parent each time, and stops at an unrecorded uid. */
  lemma {:induction false} ChainUnique(m: Network, p: map<Uid, Uid>, r: seq<Uid>)
    requires Ranked(m, p) && |r| >= 1 && r[|r| - 1] !in p && Linked(p, r)
    ensures r == Chain(m, p, r[0])
    decreases |r|
  {
    if |r| > 1 {
      LinkedTail(p, r);
      ChainUnique(m, p, r[1..]);
      ChainStep(m, p, r[0]);
      assert r == [r[0]] + r[1..];
    }
  }

  /** Read off a consistent index, the chain is the true ancestry of `u`
      in the tree, and so ends at the root. */
  lemma {:induction false} ChainIsAncestry(m: Network, p: map<Uid, Uid>, q: seq<Network>, u: Uid)
    requires Consistent(m, p, q)
    requires u in p || u == m.uid
    ensures u in UidSet(m) && Chain(m, p, u) == Ancestry(m, u)
    decreases Depth(m, u)
  {
    if u in p {
      ParentDepth(m, u);
      ChainIsAncestry(m, p, q, p[u]);
    }
  }
}
