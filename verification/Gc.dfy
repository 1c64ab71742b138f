/** Mark and sweep over snapshots, refs, images, audit chains and ciphertext aliases. */
module Gc {
  import opened Bytes

  type Id = nat
  type Digest = nat

  datatype LayerRef = LayerRef(digest: Digest, index: Option<Digest>)

  /** What a blob's bytes parse to; `Opaque` is anything without digests inside. */
  datatype Blob =
    | ImageManifest(config: Digest, layers: seq<LayerRef>, parents: seq<Digest>)
    | ImageConfig(diffIds: seq<Digest>)
    | AuditRecord(prev: Option<Digest>)
    | Opaque(bytes: Bytes)

  datatype Snapshot = Snapshot(parent: Option<Id>, diffId: Digest)
  datatype Ref = Ref(digest: Digest, audit: bool)

  /** The backing files: blobs, ciphertext aliases, uncompressed twins and layer indexes, by digest. */
  datatype Files = Files(
    blobs: map<Digest, Blob>,
    aliases: map<Digest, Digest>,
    twins: map<Digest, Bytes>,
    indexes: map<Digest, Bytes>)

  /** `getBlob`: the file itself, or the ciphertext its alias names, decrypted. */
  function GetBlob(f: Files, d: Digest): Option<Blob> {
    if d in f.blobs then Some(f.blobs[d])
    else if d in f.aliases && f.aliases[d] in f.blobs then Some(f.blobs[f.aliases[d]])
    else None
  }

  // --- what must survive -------------------------------------------------------------------

  predicate IsImage(f: Files, d: Digest) {
    GetBlob(f, d).Some? && GetBlob(f, d).value.ImageManifest?
    && GetBlob(f, GetBlob(f, d).value.config).Some? && GetBlob(f, GetBlob(f, d).value.config).value.ImageConfig?
  }

  predicate IsAudit(f: Files, d: Digest) {
    GetBlob(f, d).Some? && GetBlob(f, d).value.AuditRecord?
  }

  /** The digests an image names directly. */
  predicate Names(f: Files, image: Digest, d: Digest)
    requires IsImage(f, image)
  {
    var m := GetBlob(f, image).value;
    || d == image || d == m.config || d in m.parents
    || (exists l :: l in m.layers && (d == l.digest || l.index == Some(d)))
    || d in GetBlob(f, m.config).value.diffIds
  }

  /** Images and audit records that cannot be lost: closed under parents and predecessors. */
  ghost predicate ClosedRoots(f: Files, refs: seq<Ref>, images: set<Digest>, audits: set<Digest>) {
    && (forall r :: r in refs ==> if r.audit then r.digest in audits else r.digest in images)
    && (forall i :: i in images ==> IsImage(f, i))
    && (forall i, p :: i in images && p in GetBlob(f, i).value.parents ==> p in images)
    && (forall a :: a in audits ==> IsAudit(f, a))
    && (forall a :: a in audits && GetBlob(f, a).value.prev.Some? ==> GetBlob(f, a).value.prev.value in audits)
  }

  /** Everything reachable through those, through snapshots and through aliases. */
  ghost predicate ClosedMarks(f: Files, snapshots: map<Id, Snapshot>, images: set<Digest>, audits: set<Digest>, marks: set<Digest>) {
    && (forall s :: s in snapshots ==> snapshots[s].diffId in marks)
    && audits <= marks
    && (forall i, d :: i in images && IsImage(f, i) && Names(f, i, d) ==> d in marks)
  }

  ghost predicate AliasClosed(f: Files, marks: set<Digest>, all: set<Digest>) {
    marks <= all && forall d :: d in marks && d in f.aliases ==> f.aliases[d] in all
  }

  /** The marked set and nothing besides: contained in every set that is closed in the same way. */
  ghost predicate LeastReach(f: Files, snapshots: map<Id, Snapshot>, refs: seq<Ref>, all: set<Digest>) {
    forall images, audits, marks, any ::
      ClosedRoots(f, refs, images, audits) && ClosedMarks(f, snapshots, images, audits, marks) && AliasClosed(f, marks, any) ==> all <= any
  }

  function Swept(f: Files, keep: set<Digest>): Files {
    Files(
      map d | d in f.blobs && d in keep :: f.blobs[d],
      map d | d in f.aliases && d in keep :: f.aliases[d],
      map d | d in f.twins && d in keep :: f.twins[d],
      map d | d in f.indexes && d in keep :: f.indexes[d])
  }

  /** A marked blob reads the same after the sweep. */
  lemma SweptReads(f: Files, marks: set<Digest>, all: set<Digest>, d: Digest)
    requires AliasClosed(f, marks, all) && d in marks
    ensures GetBlob(Swept(f, all), d) == GetBlob(f, d)
  {
  }

  /** All that loading an image consults, for its whole history. */
  ghost predicate SameImage(f: Files, g: Files, image: Digest)
    requires IsImage(f, image)
  {
    var m := GetBlob(f, image).value;
    var config := GetBlob(f, m.config).value;
    && GetBlob(g, image) == GetBlob(f, image) && GetBlob(g, m.config) == GetBlob(f, m.config)
    && (forall l :: l in m.layers ==> GetBlob(g, l.digest) == GetBlob(f, l.digest))
    && (forall l :: l in m.layers && l.index.Some? ==> GetBlob(g, l.index.value) == GetBlob(f, l.index.value))
    && (forall d :: d in config.diffIds ==> (d in g.twins <==> d in f.twins) && (d in f.twins ==> g.twins[d] == f.twins[d]))
    && (forall d :: d in config.diffIds ==> (d in g.indexes <==> d in f.indexes) && (d in f.indexes ==> g.indexes[d] == f.indexes[d]))
  }

  /** Sweeping to a closed set loses nothing any ref, image parent, audit chain or snapshot can load. */
  lemma SweepIsSafe(f: Files, snapshots: map<Id, Snapshot>, refs: seq<Ref>, images: set<Digest>, audits: set<Digest>, marks: set<Digest>, all: set<Digest>)
    requires ClosedRoots(f, refs, images, audits) && ClosedMarks(f, snapshots, images, audits, marks) && AliasClosed(f, marks, all)
    ensures var g := Swept(f, all);
      && ClosedRoots(g, refs, images, audits)
      && (forall i :: i in images ==> SameImage(f, g, i))
      && (forall a :: a in audits ==> GetBlob(g, a) == GetBlob(f, a))
      && (forall s :: s in snapshots ==> var d := snapshots[s].diffId;
            (d in f.twins ==> d in g.twins && g.twins[d] == f.twins[d]) && (d in f.indexes ==> d in g.indexes && g.indexes[d] == f.indexes[d]))
  {
    var g := Swept(f, all);
    forall d | d in marks ensures GetBlob(g, d) == GetBlob(f, d) { SweptReads(f, marks, all, d); }
    hide GetBlob;
    forall i | i in images
      ensures SameImage(f, g, i) && IsImage(g, i)
    {
      var m := GetBlob(f, i).value;
      assert Names(f, i, i) && Names(f, i, m.config);
      forall l | l in m.layers ensures Names(f, i, l.digest) && (l.index.Some? ==> Names(f, i, l.index.value)) { }
      forall d | d in GetBlob(f, m.config).value.diffIds ensures Names(f, i, d) { }
    }
  }

  // --- following links to their end ----------------------------------------------------------

  type Links = map<nat, Option<nat>>

  /** Following links from `x` reaches an end within `n` steps, all of them present. */
  predicate Ends(next: Links, x: nat, n: nat)
    decreases n
  {
    x in next && (next[x].None? || (n > 0 && Ends(next, next[x].value, n - 1)))
  }

  ghost predicate Terminates(next: Links, x: Option<nat>) {
    x.Some? ==> exists n: nat :: Ends(next, x.value, n)
  }

  lemma {:induction false} EndsLonger(next: Links, x: nat, m: nat, n: nat)
    requires Ends(next, x, m) && m <= n
    ensures Ends(next, x, n)
    decreases m
  {
    if next[x].Some? { EndsLonger(next, next[x].value, m - 1, n - 1); }
  }

  lemma TerminatesStep(next: Links, x: nat)
    requires x in next
    ensures Terminates(next, Some(x)) <==> Terminates(next, next[x])
  {
    if Terminates(next, Some(x)) {
      var n: nat :| Ends(next, x, n);
      if next[x].Some? { assert Ends(next, next[x].value, n - 1); }
    }
    if Terminates(next, next[x]) {
      if next[x].Some? {
        var n: nat :| Ends(next, next[x].value, n);
        assert Ends(next, x, n + 1);
      } else {
        assert Ends(next, x, 0);
      }
    }
  }

  /** Nothing already seen ends as soon as the cursor does, so the cursor is new. */
  ghost predicate Ahead(next: Links, seen: set<nat>, cursor: nat) {
    exists k: nat :: Ends(next, cursor, k) && forall v :: v in seen ==> !Ends(next, v, k)
  }

  lemma AheadStep(next: Links, seen: set<nat>, cursor: nat)
    requires Ahead(next, seen, cursor)
    ensures cursor in next && cursor !in seen
    ensures next[cursor].Some? ==> Ahead(next, seen + {cursor}, next[cursor].value)
  {
    var k: nat :| Ends(next, cursor, k) && forall v :: v in seen ==> !Ends(next, v, k);
    if next[cursor].Some? {
      var j := LeastEnd(next, cursor, k);
      forall v | v in seen + {cursor}
        ensures !Ends(next, v, j - 1)
      {
        if Ends(next, v, j - 1) { EndsLonger(next, v, j - 1, k); }
      }
    }
  }

  lemma {:induction false} LeastEnd(next: Links, x: nat, k: nat) returns (j: nat)
    requires Ends(next, x, k) && next[x].Some?
    ensures 0 < j <= k && Ends(next, x, j) && !Ends(next, x, j - 1)
    decreases k
  {
    if Ends(next, x, k - 1) { j := LeastEnd(next, x, k - 1); } else { j := k; }
  }

  /** Walk one chain of links; refuse a missing end or a cycle. */
  method FollowLinks(next: Links, start: nat) returns (ok: bool, seen: set<nat>)
    ensures ok <==> Terminates(next, Some(start))
    ensures ok ==> start in seen && seen <= next.Keys
    ensures ok ==> forall v :: v in seen && next[v].Some? ==> next[v].value in seen
    ensures ok ==> forall s: set<nat> :: Holding(next, start, s) ==> seen <= s
  {
    seen := {};
    var cursor := Some(start);
    if Terminates(next, cursor) {
      var k: nat :| Ends(next, start, k);
      assert Ahead(next, {}, start);
    }
    while cursor.Some?
      invariant seen <= next.Keys
      invariant Terminates(next, Some(start)) && cursor.Some? ==> Ahead(next, seen, cursor.value)
      invariant Terminates(next, cursor) ==> Terminates(next, Some(start))
      invariant if cursor == Some(start) then true else start in seen
      invariant forall v :: v in seen && next[v].Some? ==> next[v].value in seen || next[v] == cursor
      invariant forall s: set<nat> :: Holding(next, start, s) ==> seen <= s && (cursor.Some? ==> cursor.value in s)
      decreases next.Keys - seen
    {
      if Terminates(next, Some(start)) { AheadStep(next, seen, cursor.value); }
      if cursor.value in seen || cursor.value !in next { return false, seen; }
      TerminatesStep(next, cursor.value);
      seen := seen + {cursor.value};
      cursor := next[cursor.value];
    }
    ok := true;
  }

  ghost predicate Holding(next: Links, start: nat, s: set<nat>) {
    start in s && forall v :: v in s && v in next && next[v].Some? ==> next[v].value in s
  }

  // --- marking ---------------------------------------------------------------------------------

  function ParentLinks(snapshots: map<Id, Snapshot>): Links {
    map s | s in snapshots :: snapshots[s].parent
  }

  function AuditLinks(f: Files): Links {
    map d | d in f.blobs.Keys + f.aliases.Keys && IsAudit(f, d) :: GetBlob(f, d).value.prev
  }

  ghost predicate ParentsPresent(snapshots: map<Id, Snapshot>) {
    forall s :: s in snapshots ==> Terminates(ParentLinks(snapshots), Some(s))
  }

  /** Every saved branch leads down to a first snapshot. */
  method CheckParents(snapshots: map<Id, Snapshot>) returns (ok: bool)
    ensures ok <==> ParentsPresent(snapshots)
  {
    hide Terminates;
    var rest := snapshots.Keys;
    while rest != {}
      invariant rest <= snapshots.Keys
      invariant forall s :: s in snapshots && s !in rest ==> Terminates(ParentLinks(snapshots), Some(s))
      decreases rest
    {
      var id :| id in rest;
      var chain;
      ok, chain := FollowLinks(ParentLinks(snapshots), id);
      if !ok { return; }
      rest := rest - {id};
    }
    ok := true;
  }

  /** The refs can be followed: audit chains end, and images have a closed history. */
  ghost predicate RefsReadable(f: Files, refs: seq<Ref>) {
    && (forall r :: r in refs && r.audit ==> Terminates(AuditLinks(f), Some(r.digest)))
    && exists images :: ImagesClosed(f, ImageRefs(refs), images)
  }

  ghost predicate ImagesClosed(f: Files, start: set<Digest>, images: set<Digest>) {
    && start <= images
    && (forall i :: i in images ==> IsImage(f, i))
    && (forall i, p :: i in images && p in GetBlob(f, i).value.parents ==> p in images)
  }

  function ImageRefs(refs: seq<Ref>): set<Digest> {
    set r | r in refs && !r.audit :: r.digest
  }

  function AuditRefs(refs: seq<Ref>): set<Digest> {
    set r | r in refs && r.audit :: r.digest
  }

  ghost predicate AuditsClosed(f: Files, start: set<Digest>, audits: set<Digest>) {
    && start <= audits
    && (forall a :: a in audits ==> IsAudit(f, a))
    && (forall a :: a in audits && GetBlob(f, a).value.prev.Some? ==> GetBlob(f, a).value.prev.value in audits)
  }

  lemma AuditLinkAt(f: Files, d: Digest)
    ensures d in AuditLinks(f) <==> IsAudit(f, d)
    ensures d in AuditLinks(f) ==> AuditLinks(f)[d] == GetBlob(f, d).value.prev
  {
  }

  lemma AuditChainClosed(f: Files, start: Digest, seen: set<Digest>)
    requires start in seen && seen <= AuditLinks(f).Keys
    requires forall v :: v in seen && AuditLinks(f)[v].Some? ==> AuditLinks(f)[v].value in seen
    requires forall s: set<nat> :: Holding(AuditLinks(f), start, s) ==> seen <= s
    ensures AuditsClosed(f, {start}, seen)
    ensures forall s :: AuditsClosed(f, {start}, s) ==> seen <= s
  {
    forall d { AuditLinkAt(f, d); }
    hide AuditLinks, IsAudit;
    forall s | AuditsClosed(f, {start}, s)
      ensures seen <= s
    {
      assert Holding(AuditLinks(f), start, s);
    }
  }

  method MarkAudits(f: Files, refs: seq<Ref>) returns (ok: bool, audits: set<Digest>)
    ensures ok <==> forall r :: r in refs && r.audit ==> Terminates(AuditLinks(f), Some(r.digest))
    ensures ok ==> AuditsClosed(f, AuditRefs(refs), audits)
    ensures ok ==> forall s :: AuditsClosed(f, AuditRefs(refs), s) ==> audits <= s
  {
    hide Terminates, IsAudit, AuditLinks;
    audits := {};
    for i := 0 to |refs|
      invariant forall k :: 0 <= k < i && refs[k].audit ==> Terminates(AuditLinks(f), Some(refs[k].digest))
      invariant AuditsClosed(f, AuditRefs(refs[..i]), audits)
      invariant forall s :: AuditsClosed(f, AuditRefs(refs[..i]), s) ==> audits <= s
    {
      assert refs[..i + 1] == refs[..i] + [refs[i]];
      if refs[i].audit {
        var chain;
        ok, chain := FollowLinks(AuditLinks(f), refs[i].digest);
        if !ok { return; }
        AuditChainClosed(f, refs[i].digest, chain);
        assert AuditRefs(refs[..i + 1]) == AuditRefs(refs[..i]) + {refs[i].digest};
        forall s | AuditsClosed(f, AuditRefs(refs[..i + 1]), s)
          ensures audits + chain <= s
        {
          assert AuditsClosed(f, AuditRefs(refs[..i]), s) && AuditsClosed(f, {refs[i].digest}, s);
        }
        audits := audits + chain;
      } else {
        assert AuditRefs(refs[..i + 1]) == AuditRefs(refs[..i]);
      }
    }
    assert refs[..|refs|] == refs;
    ok := true;
  }

  // --- images ----------------------------------------------------------------------------------------

  ghost predicate NamedBy(f: Files, images: set<Digest>, d: Digest) {
    exists i :: i in images && IsImage(f, i) && Names(f, i, d)
  }

  function DirectNames(f: Files, image: Digest): (s: set<Digest>)
    requires IsImage(f, image)
    ensures forall d :: d in s <==> Names(f, image, d)
  {
    var m := GetBlob(f, image).value;
    {image, m.config} + (set p | p in m.parents) + (set l | l in m.layers :: l.digest)
    + (set l | l in m.layers && l.index.Some? :: l.index.value)
    + (set d | d in GetBlob(f, m.config).value.diffIds)
  }

  /** The queue loop has visited `images`, still owes `queue`, and has named exactly what `images` name. */
  ghost predicate Visited(f: Files, start: set<Digest>, images: set<Digest>, queue: seq<Digest>, marks: set<Digest>) {
    && (forall d :: d in start ==> d in images || d in queue)
    && (forall i :: i in images ==> IsImage(f, i))
    && (forall i, p :: i in images && p in GetBlob(f, i).value.parents ==> p in images || p in queue)
    && (forall d :: d in marks <==> NamedBy(f, images, d))
    && (forall s :: ImagesClosed(f, start, s) ==> images <= s && forall d :: d in queue ==> d in s)
  }

  lemma VisitKnown(f: Files, start: set<Digest>, images: set<Digest>, queue: seq<Digest>, marks: set<Digest>)
    requires queue != [] && Visited(f, start, images, queue, marks) && queue[|queue| - 1] in images
    ensures Visited(f, start, images, queue[..|queue| - 1], marks)
  {
    hide IsImage, NamedBy, ImagesClosed;
    var rest := queue[..|queue| - 1];
    assert queue == rest + [queue[|queue| - 1]];
  }

  lemma VisitNew(f: Files, start: set<Digest>, images: set<Digest>, queue: seq<Digest>, marks: set<Digest>)
    requires queue != [] && Visited(f, start, images, queue, marks) && IsImage(f, queue[|queue| - 1])
    ensures var d := queue[|queue| - 1];
      Visited(f, start, images + {d}, queue[..|queue| - 1] + GetBlob(f, d).value.parents, marks + DirectNames(f, d))
  {
    var d, rest := queue[|queue| - 1], queue[..|queue| - 1];
    assert queue == rest + [d];
    hide IsImage, GetBlob, Names;
    forall x
      ensures NamedBy(f, images + {d}, x) <==> NamedBy(f, images, x) || Names(f, d, x)
    {
    }
    hide NamedBy;
    var images', queue' := images + {d}, rest + GetBlob(f, d).value.parents;
    assert forall x :: x in queue ==> x in rest || x == d;
  }

  method MarkImages(f: Files, refs: seq<Ref>) returns (ok: bool, images: set<Digest>, marks: set<Digest>)
    ensures ok <==> exists s :: ImagesClosed(f, ImageRefs(refs), s)
    ensures ok ==> ImagesClosed(f, ImageRefs(refs), images) && forall d :: d in marks <==> NamedBy(f, images, d)
    ensures ok ==> forall s :: ImagesClosed(f, ImageRefs(refs), s) ==> images <= s
  {
    hide IsImage, NamedBy, Names;
    ghost var start := ImageRefs(refs);
    var queue := QueueOf(refs);
    images, marks := {}, {};
    ghost var universe := f.blobs.Keys + f.aliases.Keys;
    VisitStart(f, start, queue);
    while queue != []
      invariant Visited(f, start, images, queue, marks)
      invariant images <= universe
      decreases universe - images, |queue|
    {
      var digest := queue[|queue| - 1];
      if digest in images {
        VisitKnown(f, start, images, queue, marks);
        queue := queue[..|queue| - 1];
      } else {
        if !IsImage(f, digest) {
          assert digest in queue;
          return false, images, marks;
        }
        VisitNew(f, start, images, queue, marks);
        ImageStored(f, digest);
        queue := queue[..|queue| - 1] + GetBlob(f, digest).value.parents;
        images := images + {digest};
        marks := marks + DirectNames(f, digest);
      }
    }
    assert ImagesClosed(f, start, images);
    ok := true;
  }

  lemma ImageStored(f: Files, d: Digest)
    requires IsImage(f, d)
    ensures d in f.blobs.Keys + f.aliases.Keys && GetBlob(f, d).Some? && GetBlob(f, d).value.ImageManifest?
  {
  }

  lemma VisitStart(f: Files, start: set<Digest>, queue: seq<Digest>)
    requires forall d :: d in queue <==> d in start
    ensures Visited(f, start, {}, queue, {})
  {
  }

  method QueueOf(refs: seq<Ref>) returns (queue: seq<Digest>)
    ensures forall d :: d in queue <==> d in ImageRefs(refs)
  {
    queue := [];
    for i := 0 to |refs|
      invariant forall d :: d in queue <==> d in ImageRefs(refs[..i])
    {
      assert refs[..i + 1] == refs[..i] + [refs[i]];
      if !refs[i].audit { queue := queue + [refs[i].digest]; }
      assert ImageRefs(refs[..i + 1]) == ImageRefs(refs[..i]) + if refs[i].audit then {} else {refs[i].digest};
    }
    assert refs[..|refs|] == refs;
  }

  // --- aliases and the sweep -----------------------------------------------------------------------------

  function WithAliases(f: Files, marks: set<Digest>): set<Digest> {
    marks + set d | d in marks && d in f.aliases :: f.aliases[d]
  }

  /** Blob refs are plaintext-addressed: keep the ciphertext their aliases name. */
  method MarkAliases(f: Files, marks: set<Digest>) returns (all: set<Digest>)
    ensures all == WithAliases(f, marks)
  {
    all := marks;
    var rest := marks;
    while rest != {}
      invariant rest <= marks
      invariant all == marks + set d | d in marks - rest && d in f.aliases :: f.aliases[d]
      decreases rest
    {
      var d :| d in rest;
      ghost var done := marks - rest;
      rest := rest - {d};
      assert marks - rest == done + {d};
      if d in f.aliases { all := all + {f.aliases[d]}; }
    }
  }

  /** Delete the records of one directory that are not kept, counting them. */
  method SweepDir<T>(m: map<Digest, T>, keep: set<Digest>) returns (out: map<Digest, T>, deleted: nat)
    ensures out == map d | d in m && d in keep :: m[d]
    ensures deleted == |m| - |out|
  {
    out, deleted := m, 0;
    var rest := m.Keys;
    while rest != {}
      invariant rest <= m.Keys
      invariant out == map d | d in m && (d in rest || d in keep) :: m[d]
      invariant deleted == |m| - |out|
      decreases rest
    {
      var d :| d in rest;
      rest := rest - {d};
      if d !in keep {
        assert out.Keys == (out - {d}).Keys + {d};
        out := out - {d};
        deleted := deleted + 1;
      }
    }
  }

  class Store {
    var files: Files
    var refs: seq<Ref>
    var snapshots: map<Id, Snapshot>
    var head: Option<Id>

    constructor (files: Files, refs: seq<Ref>, snapshots: map<Id, Snapshot>, head: Option<Id>)
      ensures this.files == files && this.refs == refs && this.snapshots == snapshots && this.head == head
    {
      this.files, this.refs, this.snapshots, this.head := files, refs, snapshots, head;
    }

    /** The whole graph is known: HEAD exists, no parent is missing, every ref can be followed. */
    ghost predicate Collectable()
      reads this
    {
      (head.Some? ==> head.value in snapshots) && ParentsPresent(snapshots) && RefsReadable(files, refs)
    }

    /** The whole reachability graph, or a refusal. */
    method Mark() returns (ok: bool, all: set<Digest>, ghost images: set<Digest>, ghost audits: set<Digest>)
      ensures ok <==> Collectable()
      ensures ok ==> ClosedRoots(files, refs, images, audits) && all == WithAliases(files, MarksOf(files, snapshots, images, audits))
      ensures ok ==> LeastReach(files, snapshots, refs, all)
    {
      hide *;
      all, images, audits := {}, {}, {};
      CollectableIs();
      if head.Some? && head.value !in snapshots { return false, all, images, audits; }
      ok := CheckParents(snapshots);
      if !ok { return; }
      var chained;
      ok, chained := MarkAudits(files, refs);
      if !ok { return; }
      var visited, named;
      ok, visited, named := MarkImages(files, refs);
      if !ok { return; }
      var diffs := set s | s in snapshots :: snapshots[s].diffId;
      all := MarkAliases(files, diffs + chained + named);
      images, audits := visited, chained;
      MarksAre(files, snapshots, images, audits, diffs, named);
      ClosedSplit(files, refs, images, audits);
      MarksLeast(files, snapshots, refs, images, audits);
    }

    /** Finish the reachability graph first; only then delete. */
    method Collect() returns (ok: bool, deleted: nat, ghost images: set<Digest>, ghost audits: set<Digest>)
      modifies this`files
      ensures ok <==> old(Collectable())
      ensures !ok ==> files == old(files) && deleted == 0
      ensures ok ==> ClosedRoots(old(files), refs, images, audits)
      ensures ok ==>
        var marks := MarksOf(old(files), snapshots, images, audits); var all := WithAliases(old(files), marks);
        && ClosedMarks(old(files), snapshots, images, audits, marks) && AliasClosed(old(files), marks, all)
        && LeastReach(old(files), snapshots, refs, all)
        && files == Swept(old(files), all)
      ensures deleted == FileCount(old(files)) - FileCount(files)
    {
      hide *;
      var all;
      deleted := 0;
      ok, all, images, audits := Mark();
      if !ok { return; }
      MarksClosed(files, snapshots, images, audits);
      files, deleted := SweepFiles(files, all);
    }

    lemma CollectableIs()
      ensures Collectable() <==>
        && (head.Some? ==> head.value in snapshots) && ParentsPresent(snapshots)
        && (forall r :: r in refs && r.audit ==> Terminates(AuditLinks(files), Some(r.digest)))
        && (exists images :: ImagesClosed(files, ImageRefs(refs), images))
      ensures FileCount(files) == |files.blobs| + |files.aliases| + |files.twins| + |files.indexes|
    {
      hide ParentsPresent, Terminates, AuditLinks, ImagesClosed, ImageRefs;
    }
  }

  /** Every object that is not marked goes. */
  method SweepFiles(f: Files, keep: set<Digest>) returns (out: Files, deleted: nat)
    ensures out == Swept(f, keep) && deleted == FileCount(f) - FileCount(out)
  {
    hide *;
    var blobs, n0 := SweepDir(f.blobs, keep);
    var aliases, n1 := SweepDir(f.aliases, keep);
    var twins, n2 := SweepDir(f.twins, keep);
    var indexes, n3 := SweepDir(f.indexes, keep);
    SweptIs(f, keep);
    CountIs(f);
    out := Files(blobs, aliases, twins, indexes);
    CountIs(out);
    deleted := n0 + n1 + n2 + n3;
  }

  function FileCount(f: Files): nat {
    |f.blobs| + |f.aliases| + |f.twins| + |f.indexes|
  }

  lemma CountIs(f: Files)
    ensures FileCount(f) == |f.blobs| + |f.aliases| + |f.twins| + |f.indexes|
  {
  }

  lemma SweptIs(f: Files, keep: set<Digest>)
    ensures Swept(f, keep) == Files(
      map d | d in f.blobs && d in keep :: f.blobs[d], map d | d in f.aliases && d in keep :: f.aliases[d],
      map d | d in f.twins && d in keep :: f.twins[d], map d | d in f.indexes && d in keep :: f.indexes[d])
  {
  }

  /** Snapshot layers, audit records, and what the visited images name. */
  ghost function MarksOf(f: Files, snapshots: map<Id, Snapshot>, images: set<Digest>, audits: set<Digest>): set<Digest> {
    (set s | s in snapshots :: snapshots[s].diffId) + audits + NamedSet(f, images)
  }

  ghost function NamedSet(f: Files, images: set<Digest>): (s: set<Digest>)
    ensures forall d :: d in s <==> NamedBy(f, images, d)
  {
    if images == {} then {} else
      var i :| i in images;
      var rest := NamedSet(f, images - {i});
      assert forall d :: NamedBy(f, images, d) <==> NamedBy(f, images - {i}, d) || (IsImage(f, i) && Names(f, i, d));
      if IsImage(f, i) then rest + DirectNames(f, i) else rest
  }

  lemma MarksAre(f: Files, snapshots: map<Id, Snapshot>, images: set<Digest>, audits: set<Digest>, diffs: set<Digest>, named: set<Digest>)
    requires diffs == set s | s in snapshots :: snapshots[s].diffId
    requires forall d :: d in named <==> NamedBy(f, images, d)
    ensures diffs + audits + named == MarksOf(f, snapshots, images, audits)
  {
    hide IsImage, Names, NamedBy;
    assert named == NamedSet(f, images);
  }

  lemma ClosedSplit(f: Files, refs: seq<Ref>, images: set<Digest>, audits: set<Digest>)
    ensures ImagesClosed(f, ImageRefs(refs), images) && AuditsClosed(f, AuditRefs(refs), audits) <==> ClosedRoots(f, refs, images, audits)
  {
    hide IsImage, IsAudit, GetBlob;
    assert (forall d :: d in ImageRefs(refs) ==> d in images) <==> (forall r :: r in refs && !r.audit ==> r.digest in images);
    assert (forall d :: d in AuditRefs(refs) ==> d in audits) <==> (forall r :: r in refs && r.audit ==> r.digest in audits);
  }

  lemma MarksClosed(f: Files, snapshots: map<Id, Snapshot>, images: set<Digest>, audits: set<Digest>)
    ensures var marks := MarksOf(f, snapshots, images, audits);
      ClosedMarks(f, snapshots, images, audits, marks) && AliasClosed(f, marks, WithAliases(f, marks))
  {
    hide IsImage, Names;
  }

  lemma MarksLeast(f: Files, snapshots: map<Id, Snapshot>, refs: seq<Ref>, images: set<Digest>, audits: set<Digest>)
    requires forall s :: ImagesClosed(f, ImageRefs(refs), s) ==> images <= s
    requires forall s :: AuditsClosed(f, AuditRefs(refs), s) ==> audits <= s
    ensures LeastReach(f, snapshots, refs, WithAliases(f, MarksOf(f, snapshots, images, audits)))
  {
    var least := MarksOf(f, snapshots, images, audits);
    forall images', audits', marks, any |
      ClosedRoots(f, refs, images', audits') && ClosedMarks(f, snapshots, images', audits', marks) && AliasClosed(f, marks, any)
      ensures WithAliases(f, least) <= any
    {
      ClosedSplit(f, refs, images', audits');
      hide IsImage, Names, ClosedRoots, ImagesClosed, AuditsClosed;
      assert least <= marks;
    }
  }
}
