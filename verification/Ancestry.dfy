/** Ancestor searches over the parents DAG of manifests. */
module Ancestry {
  import opened Bytes
  import opened Sets

  type Digest = Bytes

  /** Manifests by digest, each with its parents; a digest without manifest ends a branch. */
  type Graph = map<Digest, seq<Digest>>

  function Parents(g: Graph, d: Digest): seq<Digest> {
    if d in g then g[d] else []
  }

  /** `d` is `n` parent steps from `head`. */
  ghost predicate Steps(g: Graph, head: Digest, d: Digest, n: nat)
    decreases n
  {
    if n == 0 then d == head
    else exists u :: Steps(g, head, u, n - 1) && d in Parents(g, u)
  }

  ghost predicate Reaches(g: Graph, head: Digest, d: Digest) {
    exists n: nat :: Steps(g, head, d, n)
  }

  /** `s` holds the whole history of `head`. */
  ghost predicate Covers(g: Graph, head: Digest, s: set<Digest>) {
    head in s && forall d, p :: d in s && p in Parents(g, d) ==> p in s
  }

  /** The history of `head` has at most `n` manifests. */
  ghost predicate Fits(g: Graph, head: Digest, n: nat) {
    exists s :: Covers(g, head, s) && |s| <= n
  }

  lemma {:induction false} CoveredSteps(g: Graph, head: Digest, s: set<Digest>, d: Digest, n: nat)
    requires Covers(g, head, s) && Steps(g, head, d, n)
    ensures d in s
    decreases n
  {
    if n > 0 {
      var u :| Steps(g, head, u, n - 1) && d in Parents(g, u);
      CoveredSteps(g, head, s, u, n - 1);
    }
  }

  lemma CoveredReach(g: Graph, head: Digest, s: set<Digest>, d: Digest)
    requires Covers(g, head, s) && Reaches(g, head, d)
    ensures d in s
  {
    var n: nat :| Steps(g, head, d, n);
    CoveredSteps(g, head, s, d, n);
  }

  lemma StepsExtend(g: Graph, head: Digest, d: Digest, n: nat)
    requires Steps(g, head, d, n)
    ensures forall p :: p in Parents(g, d) ==> Steps(g, head, p, n + 1)
  {
  }

  /** Everything a search may touch. */
  function Universe(g: Graph, head: Digest): set<Digest> {
    {head} + g.Keys + set d, p | d in g && p in g[d] :: p
  }

  // --- isAncestor ------------------------------------------------------------------------

  /** The walk has seen `seen`, owes `queue`, and everything met is reachable. */
  ghost predicate Walked(g: Graph, head: Digest, seen: set<Digest>, queue: seq<Digest>) {
    && (head in seen || head in queue)
    && (forall d :: d in seen || d in queue ==> Reaches(g, head, d) && d in Universe(g, head))
    && (forall d, p :: d in seen && p in Parents(g, d) ==> p in seen || p in queue)
  }

  lemma WalkStep(g: Graph, head: Digest, seen: set<Digest>, queue: seq<Digest>)
    requires queue != [] && Walked(g, head, seen, queue)
    ensures var d := queue[0];
      && (d in seen ==> Walked(g, head, seen, queue[1..]))
      && Walked(g, head, seen + {d}, queue[1..] + Parents(g, d))
  {
    var d := queue[0];
    assert queue == [d] + queue[1..] && d in queue;
    assert Reaches(g, head, d);
    var n: nat :| Steps(g, head, d, n);
    StepsExtend(g, head, d, n);
    forall p | p in Parents(g, d) ensures Reaches(g, head, p) && p in Universe(g, head) { assert Steps(g, head, p, n + 1); }
    hide Reaches, Universe;
  }

  lemma SeenSmall(g: Graph, head: Digest, seen: set<Digest>, queue: seq<Digest>, target: Digest, maxWalk: nat)
    requires Walked(g, head, seen, queue) && target !in seen && Reaches(g, head, target) && Fits(g, head, maxWalk)
    ensures |seen| < maxWalk
  {
    hide Covers, Reaches, Universe;
    var s :| Covers(g, head, s) && |s| <= maxWalk;
    forall d | d in seen + {target}
      ensures d in s
    {
      CoveredReach(g, head, s, d);
    }
    SubsetSize(seen + {target}, s);
    assert |seen + {target}| == |seen| + 1;
  }

  lemma Exhausted(g: Graph, head: Digest, seen: set<Digest>, target: Digest)
    requires Walked(g, head, seen, []) && Reaches(g, head, target)
    ensures target in seen
  {
    var n: nat :| Steps(g, head, target, n);
    CoveredSteps(g, head, seen, target, n);
  }

  /** True only for ancestors; and for every ancestor, when the history fits the walk. */
  method IsAncestor(g: Graph, ancestor: Digest, head: Digest, maxWalk: nat) returns (r: bool)
    ensures r ==> Reaches(g, head, ancestor)
    ensures Fits(g, head, maxWalk) ==> (r <==> Reaches(g, head, ancestor))
  {
    hide *;
    var queue := [head];
    var seen: set<Digest> := {};
    WalkStart(g, head);
    ghost var universe := Universe(g, head);
    while queue != [] && |seen| < maxWalk
      invariant Walked(g, head, seen, queue) && ancestor !in seen && seen <= universe
      decreases universe - seen, |queue|
    {
      WalkedParts(g, head, seen, queue);
      var digest := queue[0];
      WalkStep(g, head, seen, queue);
      if digest == ancestor { return true; }
      if digest in seen {
        queue := queue[1..];
      } else {
        seen := seen + {digest};
        queue := queue[1..] + Parents(g, digest);
      }
    }
    if Fits(g, head, maxWalk) && Reaches(g, head, ancestor) {
      SeenSmall(g, head, seen, queue, ancestor, maxWalk);
      Exhausted(g, head, seen, ancestor);
    }
    r := false;
  }

  lemma WalkStart(g: Graph, head: Digest)
    ensures Walked(g, head, {}, [head])
  {
    assert Steps(g, head, head, 0);
  }

  lemma WalkedParts(g: Graph, head: Digest, seen: set<Digest>, queue: seq<Digest>)
    requires Walked(g, head, seen, queue)
    ensures forall d :: d in queue ==> Reaches(g, head, d) && d in Universe(g, head)
  {
  }

  // --- breadth-first depths ---------------------------------------------------------------------

  type Queue = seq<(Digest, nat)>

  /** `n` is the length of a shortest parent path. */
  ghost predicate Shortest(g: Graph, head: Digest, d: Digest, n: nat) {
    Steps(g, head, d, n) && forall m: nat :: m < n ==> !Steps(g, head, d, m)
  }

  predicate Queued(queue: Queue, d: Digest, n: nat) {
    exists k :: 0 <= k < |queue| && queue[k].0 == d && queue[k].1 <= n
  }

  ghost predicate Layered(queue: Queue) {
    && (forall i, j :: 0 <= i < j < |queue| ==> queue[i].1 <= queue[j].1)
    && (forall i :: 0 <= i < |queue| ==> queue[i].1 <= queue[0].1 + 1)
  }

  ghost predicate Settled(g: Graph, head: Digest, depths: map<Digest, nat>) {
    forall d :: d in depths ==> Shortest(g, head, d, depths[d])
  }

  ghost predicate Sound(g: Graph, head: Digest, queue: Queue) {
    forall k :: 0 <= k < |queue| ==> Steps(g, head, queue[k].0, queue[k].1)
  }

  /** A parent of a settled digest is settled, or waits no further than one step on. */
  ghost predicate Pending(g: Graph, depths: map<Digest, nat>, queue: Queue) {
    forall d, p :: d in depths && p in Parents(g, d) ==> (p in depths && depths[p] <= depths[d] + 1) || Queued(queue, p, depths[d] + 1)
  }

  ghost predicate Ordered(depths: map<Digest, nat>, queue: Queue) {
    queue != [] ==> forall d :: d in depths ==> depths[d] <= queue[0].1
  }

  /** Depths found so far are shortest, and the queue holds what they lead to, nearest first. */
  ghost predicate Breadth(g: Graph, head: Digest, depths: map<Digest, nat>, queue: Queue) {
    && (head in depths || Queued(queue, head, 0))
    && Layered(queue) && Sound(g, head, queue)
    && Settled(g, head, depths) && Pending(g, depths, queue) && Ordered(depths, queue)
  }

  /** Whatever is nearer than the front of the queue has its depth. */
  lemma {:induction false} NearerIsDone(g: Graph, head: Digest, depths: map<Digest, nat>, queue: Queue, d: Digest, n: nat)
    requires Breadth(g, head, depths, queue) && Steps(g, head, d, n)
    requires queue != [] ==> n < queue[0].1
    ensures d in depths
    decreases n
  {
    hide Sound, Layered, Ordered, Shortest, Queued, Parents;
    if n == 0 {
      QueuedFar(queue, d, 0);
    } else {
      var u :| Steps(g, head, u, n - 1) && d in Parents(g, u);
      NearerIsDone(g, head, depths, queue, u, n - 1);
      ShortestBound(g, head, u, depths[u], n - 1);
      QueuedFar(queue, d, depths[u] + 1);
    }
  }

  lemma ShortestBound(g: Graph, head: Digest, d: Digest, m: nat, n: nat)
    requires Shortest(g, head, d, m) && Steps(g, head, d, n)
    ensures m <= n
  {
  }

  /** Nothing in the queue is nearer than its front. */
  lemma QueuedFar(queue: Queue, d: Digest, n: nat)
    requires Layered(queue) && (queue != [] ==> n < queue[0].1)
    ensures !Queued(queue, d, n)
  {
  }

  function Enqueue(ps: seq<Digest>, n: nat): Queue {
    seq(|ps|, i requires 0 <= i < |ps| => (ps[i], n))
  }

  lemma FrontIsShortest(g: Graph, head: Digest, depths: map<Digest, nat>, queue: Queue)
    requires queue != [] && Breadth(g, head, depths, queue) && queue[0].0 !in depths
    ensures Shortest(g, head, queue[0].0, queue[0].1)
  {
    forall m: nat | m < queue[0].1
      ensures !Steps(g, head, queue[0].0, m)
    {
      if Steps(g, head, queue[0].0, m) { NearerIsDone(g, head, depths, queue, queue[0].0, m); }
    }
  }

  lemma BreadthKnown(g: Graph, head: Digest, depths: map<Digest, nat>, queue: Queue)
    requires queue != [] && Breadth(g, head, depths, queue) && queue[0].0 in depths
    ensures Breadth(g, head, depths, queue[1..])
  {
    hide Steps, Shortest, Queued, Parents;
    var rest := queue[1..];
    ShortestBound'(g, head, depths, queue);
    forall d, n: nat | Queued(queue, d, n) && d != queue[0].0
      ensures Queued(rest, d, n)
    {
      QueuedRest(queue, d, n);
    }
  }

  lemma ShortestBound'(g: Graph, head: Digest, depths: map<Digest, nat>, queue: Queue)
    requires queue != [] && Breadth(g, head, depths, queue) && queue[0].0 in depths
    ensures depths[queue[0].0] <= queue[0].1
    ensures forall d :: d in depths && queue[0].0 in Parents(g, d) ==> depths[queue[0].0] <= depths[d] + 1
  {
    forall d | d in depths && queue[0].0 in Parents(g, d)
      ensures depths[queue[0].0] <= depths[d] + 1
    {
      StepsExtend(g, head, d, depths[d]);
      ShortestBound(g, head, queue[0].0, depths[queue[0].0], depths[d] + 1);
    }
  }

  lemma QueuedRest(queue: Queue, d: Digest, n: nat)
    requires Queued(queue, d, n) && queue[0].0 != d
    ensures Queued(queue[1..], d, n)
  {
    var k :| 0 <= k < |queue| && queue[k].0 == d && queue[k].1 <= n;
    assert queue[1..][k - 1] == queue[k];
  }

  lemma BreadthNew(g: Graph, head: Digest, depths: map<Digest, nat>, queue: Queue)
    requires queue != [] && Breadth(g, head, depths, queue) && queue[0].0 !in depths
    ensures var (d, n) := queue[0];
      Breadth(g, head, depths[d := n], queue[1..] + Enqueue(Parents(g, d), n + 1))
  {
    hide Steps, Shortest, Queued, Parents, Layered, Sound, Pending, Ordered, Enqueue;
    var (d, n) := queue[0];
    var queue' := queue[1..] + Enqueue(Parents(g, d), n + 1);
    FrontIsShortest(g, head, depths, queue);
    NewQueue(g, head, queue);
    NewOrder(depths, queue, queue');
    NewPending(g, head, depths, queue);
    if head !in depths && head != d { QueuedRest(queue, head, 0); QueuedMore(queue[1..], Enqueue(Parents(g, d), n + 1), head, 0); }
  }

  lemma NewQueue(g: Graph, head: Digest, queue: Queue)
    requires queue != [] && Layered(queue) && Sound(g, head, queue)
    ensures var (d, n) := queue[0]; var queue' := queue[1..] + Enqueue(Parents(g, d), n + 1);
      Layered(queue') && Sound(g, head, queue') && forall k :: 0 <= k < |queue'| ==> n <= queue'[k].1
  {
    hide Steps, Parents;
    var (d, n) := queue[0];
    StepsExtend(g, head, d, n);
    var ps := Parents(g, d);
    var more := Enqueue(ps, n + 1);
    forall k | 0 <= k < |more|
      ensures more[k].1 == n + 1 && Steps(g, head, more[k].0, more[k].1)
    {
      assert ps[k] in ps;
    }
    hide Enqueue;
    var rest := queue[1..];
    assert forall k :: 0 <= k < |rest| ==> rest[k] == queue[k + 1];
  }

  lemma NewOrder(depths: map<Digest, nat>, queue: Queue, queue': Queue)
    requires queue != [] && Ordered(depths, queue) && forall k :: 0 <= k < |queue'| ==> queue[0].1 <= queue'[k].1
    ensures Ordered(depths[queue[0].0 := queue[0].1], queue')
  {
  }

  lemma NewPending(g: Graph, head: Digest, depths: map<Digest, nat>, queue: Queue)
    requires queue != [] && Breadth(g, head, depths, queue) && queue[0].0 !in depths
    ensures var (d, n) := queue[0];
      Pending(g, depths[d := n], queue[1..] + Enqueue(Parents(g, d), n + 1))
  {
    hide Steps, Shortest, Queued, Parents, Layered, Sound, Ordered, Enqueue;
    var (d, n) := queue[0];
    var more := Enqueue(Parents(g, d), n + 1);
    FrontBound(g, head, depths, queue);
    forall p, m: nat | Queued(queue, p, m) && p != d
      ensures Queued(queue[1..] + more, p, m)
    {
      QueuedRest(queue, p, m);
      QueuedMore(queue[1..], more, p, m);
    }
    forall p | p in Parents(g, d)
      ensures Queued(queue[1..] + more, p, n + 1)
    {
      EnqueuedAt(queue[1..], Parents(g, d), n + 1, p);
    }
  }

  /** Parents of a settled digest that still wait at the front are one step further. */
  lemma FrontBound(g: Graph, head: Digest, depths: map<Digest, nat>, queue: Queue)
    requires queue != [] && Breadth(g, head, depths, queue) && queue[0].0 !in depths
    ensures forall u :: u in depths && queue[0].0 in Parents(g, u) ==> queue[0].1 <= depths[u] + 1
  {
    FrontIsShortest(g, head, depths, queue);
    forall u | u in depths && queue[0].0 in Parents(g, u)
      ensures queue[0].1 <= depths[u] + 1
    {
      StepsExtend(g, head, u, depths[u]);
      ShortestBound(g, head, queue[0].0, queue[0].1, depths[u] + 1);
    }
  }

  lemma QueuedMore(a: Queue, b: Queue, d: Digest, n: nat)
    requires Queued(a, d, n)
    ensures Queued(a + b, d, n)
  {
    var k :| 0 <= k < |a| && a[k].0 == d && a[k].1 <= n;
    assert (a + b)[k] == a[k];
  }

  lemma EnqueuedAt(a: Queue, ps: seq<Digest>, n: nat, p: Digest)
    requires p in ps
    ensures Queued(a + Enqueue(ps, n), p, n)
  {
    var i :| 0 <= i < |ps| && ps[i] == p;
    assert (a + Enqueue(ps, n))[|a| + i] == (p, n);
  }

  /** `order` lists what has a depth, nearest first. */
  ghost predicate OrderOf(order: seq<Digest>, depths: map<Digest, nat>) {
    && (forall d :: d in order <==> d in depths)
    && forall i, j :: 0 <= i < j < |order| ==> depths[order[i]] <= depths[order[j]]
  }

  lemma BreadthStart(g: Graph, head: Digest)
    ensures Breadth(g, head, map[], [(head, 0)])
  {
    assert [(head, 0)][0] == (head, 0);
  }

  lemma BreadthWalked(g: Graph, head: Digest, depths: map<Digest, nat>, queue: Queue)
    requires Breadth(g, head, depths, queue)
    ensures forall d :: d in depths ==> Reaches(g, head, d)
    ensures forall k :: 0 <= k < |queue| ==> Reaches(g, head, queue[k].0)
  {
  }

  lemma {:induction false} ReachedInUniverse(g: Graph, head: Digest, d: Digest, n: nat)
    requires Steps(g, head, d, n)
    ensures d in Universe(g, head)
  {
    if n > 0 {
      var u :| Steps(g, head, u, n - 1) && d in Parents(g, u);
      assert u in g && d in g[u];
    }
  }

  lemma QueueInUniverse(g: Graph, head: Digest, depths: map<Digest, nat>, queue: Queue)
    requires queue != [] && Breadth(g, head, depths, queue)
    ensures queue[0].0 in Universe(g, head)
  {
    ReachedInUniverse(g, head, queue[0].0, queue[0].1);
  }

  lemma BreadthDone(g: Graph, head: Digest, depths: map<Digest, nat>, d: Digest)
    requires Breadth(g, head, depths, []) && Reaches(g, head, d)
    ensures d in depths
  {
    var n: nat :| Steps(g, head, d, n);
    NearerIsDone(g, head, depths, [], d, n);
  }

  lemma DepthsSmall(g: Graph, head: Digest, depths: map<Digest, nat>, queue: Queue, d: Digest, maxWalk: nat)
    requires Breadth(g, head, depths, queue) && d !in depths && Reaches(g, head, d) && Fits(g, head, maxWalk)
    ensures |depths| < maxWalk
  {
    hide Covers, Reaches, Breadth;
    var s :| Covers(g, head, s) && |s| <= maxWalk;
    BreadthWalked(g, head, depths, queue);
    forall x | x in depths.Keys + {d} ensures x in s { CoveredReach(g, head, s, x); }
    SubsetSize(depths.Keys + {d}, s);
    assert |depths.Keys + {d}| == |depths.Keys| + 1;
  }

  lemma DepthsShortest(g: Graph, head: Digest, depths: map<Digest, nat>, queue: Queue)
    requires Breadth(g, head, depths, queue)
    ensures Settled(g, head, depths)
  {
  }

  /** Shortest depths of everything walked; of the whole history when it fits. */
  method Reach(g: Graph, head: Digest, maxWalk: nat) returns (order: seq<Digest>, depths: map<Digest, nat>)
    ensures OrderOf(order, depths) && Settled(g, head, depths)
    ensures Fits(g, head, maxWalk) ==> forall d :: Reaches(g, head, d) ==> d in depths
  {
    hide *;
    order, depths := [], map[];
    var queue := [(head, 0)];
    BreadthStart(g, head);
    OrderStart();
    ghost var universe := Universe(g, head);
    while queue != [] && |depths| < maxWalk
      invariant Breadth(g, head, depths, queue) && OrderOf(order, depths) && depths.Keys <= universe
      decreases universe - depths.Keys, |queue|
    {
      var (digest, depth) := queue[0];
      if digest in depths {
        BreadthKnown(g, head, depths, queue);
        queue := queue[1..];
      } else {
        BreadthNew(g, head, depths, queue);
        QueueInUniverse(g, head, depths, queue);
        DepthsBefore(g, head, depths, queue);
        OrderNext(order, depths, digest, depth);
        assert depths[digest := depth].Keys == depths.Keys + {digest};
        depths := depths[digest := depth];
        order := order + [digest];
        queue := queue[1..] + Enqueue(Parents(g, digest), depth + 1);
      }
    }
    DepthsShortest(g, head, depths, queue);
    if Fits(g, head, maxWalk) {
      forall d | Reaches(g, head, d)
        ensures d in depths
      {
        if queue == [] {
          BreadthDone(g, head, depths, d);
        } else if d !in depths {
          DepthsSmall(g, head, depths, queue, d, maxWalk);
        }
      }
    }
  }

  lemma DepthsBefore(g: Graph, head: Digest, depths: map<Digest, nat>, queue: Queue)
    requires queue != [] && Breadth(g, head, depths, queue)
    ensures forall u :: u in depths ==> depths[u] <= queue[0].1
  {
  }

  lemma OrderStart()
    ensures OrderOf([], map[])
  {
  }

  lemma OrderNext(order: seq<Digest>, depths: map<Digest, nat>, d: Digest, n: nat)
    requires OrderOf(order, depths) && d !in depths && forall u :: u in depths ==> depths[u] <= n
    ensures OrderOf(order + [d], depths[d := n])
  {
  }

  // --- nearest common ancestor ---------------------------------------------------------------------

  function Max(m: nat, n: nat): nat {
    if m < n then n else m
  }

  /** `x` is an ancestor of both heads, the farther one being `w` steps away. */
  ghost predicate Common(g: Graph, a: Digest, b: Digest, x: Digest, w: nat) {
    exists m: nat, n: nat :: Shortest(g, a, x, m) && Shortest(g, b, x, n) && w == Max(m, n)
  }

  ghost predicate Nearest(g: Graph, a: Digest, b: Digest, x: Digest) {
    exists w: nat :: Common(g, a, b, x, w) && forall y, v: nat :: Common(g, a, b, y, v) ==> w <= v
  }

  /** The nearest common ancestor the search settles on: among equals, one closest to the first head. */
  ghost predicate Chosen(g: Graph, a: Digest, b: Digest, x: Digest) {
    exists m: nat, n: nat :: Shortest(g, a, x, m) && Shortest(g, b, x, n)
      && forall y, k: nat, l: nat :: Shortest(g, a, y, k) && Shortest(g, b, y, l) ==>
        Max(m, n) < Max(k, l) || (Max(m, n) == Max(k, l) && m <= k)
  }

  lemma ChosenIsNearest(g: Graph, a: Digest, b: Digest, x: Digest)
    requires Chosen(g, a, b, x)
    ensures Nearest(g, a, b, x)
  {
    hide Shortest;
    var m: nat, n: nat :| Shortest(g, a, x, m) && Shortest(g, b, x, n)
      && forall y, k: nat, l: nat :: Shortest(g, a, y, k) && Shortest(g, b, y, l) ==>
        Max(m, n) < Max(k, l) || (Max(m, n) == Max(k, l) && m <= k);
    assert Common(g, a, b, x, Max(m, n));
  }

  lemma CommonIs(g: Graph, a: Digest, b: Digest, da: map<Digest, nat>, db: map<Digest, nat>, x: Digest, w: nat)
    requires Settled(g, a, da) && Settled(g, b, db) && x in da && x in db
    ensures Common(g, a, b, x, w) <==> w == Max(da[x], db[x])
  {
    assert Shortest(g, a, x, da[x]) && Shortest(g, b, x, db[x]);
    forall m: nat | Shortest(g, a, x, m) ensures m == da[x] { ShortestBound(g, a, x, m, da[x]); ShortestBound(g, a, x, da[x], m); }
    forall n: nat | Shortest(g, b, x, n) ensures n == db[x] { ShortestBound(g, b, x, n, db[x]); ShortestBound(g, b, x, db[x], n); }
    hide Shortest;
  }

  /** A common ancestor whose farther depth is least, or none exactly when there is no common ancestor. */
  method CommonAncestor(g: Graph, a: Digest, b: Digest, maxWalk: nat) returns (r: Option<Digest>)
    ensures r.Some? ==> exists w: nat :: Common(g, a, b, r.value, w)
    ensures Fits(g, a, maxWalk) && Fits(g, b, maxWalk) ==>
      if r.Some? then Chosen(g, a, b, r.value) else forall x, w: nat :: !Common(g, a, b, x, w)
  {
    hide *;
    var order, da := Reach(g, a, maxWalk);
    var _, db := Reach(g, b, maxWalk);
    r := None;
    var best := 0;
    BestStart(da, db);
    assert order[..0] == [];
    for i := 0 to |order|
      invariant BestOf(order[..i], da, db, r, best)
    {
      var digest := order[i];
      BestNext(order, i, da, db, r, best);
      OrderMember(order, da, i);
      if digest in db {
        var worst := Max(da[digest], db[digest]);
        if r.None? || worst < best { r, best := Some(digest), worst; }
      }
    }
    assert order[..|order|] == order;
    BestIsNearest(g, a, b, order, da, db, r, best, maxWalk);
  }

  lemma OrderMember(order: seq<Digest>, depths: map<Digest, nat>, i: nat)
    requires OrderOf(order, depths) && i < |order|
    ensures order[i] in depths
  {
  }

  /** The first of the shared digests seen so far with the least farther depth. */
  ghost predicate BestOf(seen: seq<Digest>, da: map<Digest, nat>, db: map<Digest, nat>, r: Option<Digest>, best: nat) {
    match r
    case None => forall d :: d in seen && d in da ==> d !in db
    case Some(x) =>
      && x in seen && x in da && x in db && best == Max(da[x], db[x])
      && forall d :: d in seen && d in da && d in db ==>
        best < Max(da[d], db[d]) || (best == Max(da[d], db[d]) && da[x] <= da[d])
  }

  lemma BestStart(da: map<Digest, nat>, db: map<Digest, nat>)
    ensures BestOf([], da, db, None, 0)
  {
  }

  lemma BestNext(order: seq<Digest>, i: nat, da: map<Digest, nat>, db: map<Digest, nat>, r: Option<Digest>, best: nat)
    requires i < |order| && BestOf(order[..i], da, db, r, best) && OrderOf(order, da)
    ensures var d := order[i];
      if d in da && d in db && (r.None? || Max(da[d], db[d]) < best) then BestOf(order[..i + 1], da, db, Some(d), Max(da[d], db[d]))
      else BestOf(order[..i + 1], da, db, r, best)
  {
    assert order[..i + 1] == order[..i] + [order[i]];
  }

  lemma BestIsNearest(g: Graph, a: Digest, b: Digest, order: seq<Digest>, da: map<Digest, nat>, db: map<Digest, nat>, r: Option<Digest>, best: nat, maxWalk: nat)
    requires Settled(g, a, da) && Settled(g, b, db) && OrderOf(order, da) && BestOf(order, da, db, r, best)
    requires Fits(g, a, maxWalk) ==> forall d :: Reaches(g, a, d) ==> d in da
    requires Fits(g, b, maxWalk) ==> forall d :: Reaches(g, b, d) ==> d in db
    ensures r.Some? ==> exists w: nat :: Common(g, a, b, r.value, w)
    ensures Fits(g, a, maxWalk) && Fits(g, b, maxWalk) ==>
      if r.Some? then Chosen(g, a, b, r.value) else forall x, w: nat :: !Common(g, a, b, x, w)
  {
    hide Settled, Fits;
    if r.Some? { CommonIs(g, a, b, da, db, r.value, best); }
    if Fits(g, a, maxWalk) && Fits(g, b, maxWalk) {
      forall x, k: nat, l: nat | Shortest(g, a, x, k) && Shortest(g, b, x, l)
        ensures x in da && x in db && k == da[x] && l == db[x]
      {
        CommonReaches(g, a, b, x, Max(k, l));
        DepthIs(g, a, da, x, k);
        DepthIs(g, b, db, x, l);
      }
      if r.Some? { DepthsAre(g, a, da, r.value); DepthsAre(g, b, db, r.value); }
      CommonNeeds(g, a, b);
    }
    hide Common, Reaches, Shortest;
  }

  lemma CommonNeeds(g: Graph, a: Digest, b: Digest)
    ensures forall x, w: nat :: Common(g, a, b, x, w) ==> exists k: nat, l: nat :: Shortest(g, a, x, k) && Shortest(g, b, x, l)
  {
    hide Shortest;
  }

  lemma DepthsAre(g: Graph, head: Digest, depths: map<Digest, nat>, x: Digest)
    requires Settled(g, head, depths) && x in depths
    ensures Shortest(g, head, x, depths[x])
  {
  }

  lemma DepthIs(g: Graph, head: Digest, depths: map<Digest, nat>, x: Digest, k: nat)
    requires Settled(g, head, depths) && x in depths && Shortest(g, head, x, k)
    ensures k == depths[x]
  {
    ShortestBound(g, head, x, k, depths[x]);
    ShortestBound(g, head, x, depths[x], k);
  }

  lemma CommonReaches(g: Graph, a: Digest, b: Digest, x: Digest, w: nat)
    requires Common(g, a, b, x, w)
    ensures Reaches(g, a, x) && Reaches(g, b, x)
  {
  }
}
