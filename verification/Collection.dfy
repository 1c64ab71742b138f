/** Collection as the snapshot manager sees it: it runs only on intact snapshots, and keeps all of them restorable. */
module Collection {
  import opened Bytes
  import opened Readings
  import opened History
  import opened Snapshots
  import Gc

  /** The manager's snapshots as the collector reads them, digests by the names of their files. */
  ghost function Listed(s: State, name: Digest -> nat): map<Id, Gc.Snapshot> {
    map id | id in s.manifests :: Gc.Snapshot(s.manifests[id].parent, name(s.manifests[id].diffId))
  }

  /** The manager's layers and indexes are the collector's files. */
  ghost predicate Backed(s: State, name: Digest -> nat, f: Gc.Files) {
    && (forall d :: d in s.layers ==> name(d) in f.twins && f.twins[name(d)] == s.layers[d])
    && (forall d :: d in s.layerIndexes ==> name(d) in f.indexes)
  }

  /** The manager when only the files named in `keep` are left. */
  ghost function Remaining(s: State, name: Digest -> nat, keep: set<nat>): State {
    s.(layers := map d | d in s.layers && name(d) in keep :: s.layers[d],
       layerIndexes := map d | d in s.layerIndexes && name(d) in keep :: s.layerIndexes[d])
  }

  /** What a collection leaves: the same snapshots, intact and restorable as before. */
  lemma CollectKeeps(s: State, name: Digest -> nat, f: Gc.Files, images: set<nat>, audits: set<nat>, marks: set<nat>, all: set<nat>)
    requires Kept(s) && Backed(s, name, f)
    requires Gc.ClosedMarks(f, Listed(s, name), images, audits, marks) && Gc.AliasClosed(f, marks, all)
    ensures var u := Remaining(s, name, all);
      && Kept(u) && Backed(u, name, Gc.Swept(f, all))
      && u.manifests == s.manifests && u.walked == s.walked && u.head == s.head
      && forall id :: Opens(u, id) <==> Opens(s, id)
  {
    hide *;
    var u := Remaining(s, name, all);
    RemainingIs(s, name, all);
    KeptParts(s);
    forall id | id in s.manifests ensures Filed(u, id) { FiledStays(s, name, f, images, audits, marks, all, id); }
    KeptFrom(u);
    BackedStays(s, name, f, all);
    forall id ensures Opens(u, id) <==> Opens(s, id) { OpensSame(s, u, id); }
  }

  lemma RemainingIs(s: State, name: Digest -> nat, all: set<nat>)
    ensures var u := Remaining(s, name, all);
      u.cfg == s.cfg && u.manifests == s.manifests && u.indexes == s.indexes && u.walked == s.walked && u.shown == s.shown && u.head == s.head && u.used == s.used
  {
  }

  lemma FiledStays(s: State, name: Digest -> nat, f: Gc.Files, images: set<nat>, audits: set<nat>, marks: set<nat>, all: set<nat>, id: Id)
    requires Filed(s, id) && Gc.ClosedMarks(f, Listed(s, name), images, audits, marks) && Gc.AliasClosed(f, marks, all)
    ensures Filed(Remaining(s, name, all), id)
  {
    assert id in Listed(s, name) && Listed(s, name)[id].diffId in marks;
    hide Recorded, Rewritable, Legible, ParentTree;
  }

  lemma BackedStays(s: State, name: Digest -> nat, f: Gc.Files, all: set<nat>)
    requires Backed(s, name, f)
    ensures Backed(Remaining(s, name, all), name, Gc.Swept(f, all))
  {
  }

  /** What opens does not depend on the layers that are left, but on what they were written as. */
  lemma OpensSame(s: State, u: State, id: Id)
    requires u.cfg == s.cfg && u.manifests == s.manifests && u.indexes == s.indexes && u.walked == s.walked && u.shown == s.shown
    ensures Opens(u, id) <==> Opens(s, id)
  {
    hide Markable, Acceptable, LinksLegible;
    forall x ensures StepOpens(u, x) <==> StepOpens(s, x) { }
    hide StepOpens;
  }

  // --- when it runs ---------------------------------------------------------------------------------------

  lemma {:induction false} EndIsIntact(s: State, name: Digest -> nat, id: Id, n: nat)
    requires Gc.Ends(Gc.ParentLinks(Listed(s, name)), id, n)
    ensures Intact(s.manifests, id)
    decreases n
  {
    var ms := s.manifests;
    assert Listed(s, name)[id].parent == ms[id].parent;
    if ms[id].parent.None? {
      assert IsChain(ms, [id]) && Last([id]) == id;
    } else {
      EndIsIntact(s, name, ms[id].parent.value, n - 1);
      var c :| IsChain(ms, c) && Last(c) == ms[id].parent.value;
      assert IsChain(ms, c + [id]) && Last(c + [id]) == id;
    }
  }

  lemma {:induction false} ChainEnds(s: State, name: Digest -> nat, c: seq<Id>)
    requires IsChain(s.manifests, c)
    ensures Gc.Ends(Gc.ParentLinks(Listed(s, name)), Last(c), |c|)
    decreases |c|
  {
    assert Listed(s, name)[Last(c)].parent == s.manifests[Last(c)].parent;
    if |c| > 1 {
      ChainPrefix(s.manifests, c);
      ChainEnds(s, name, c[..|c| - 1]);
    }
  }

  /** The collector's parent check passes if and only if every saved snapshot is intact. */
  lemma ChecksIntact(s: State, name: Digest -> nat)
    ensures Gc.ParentsPresent(Listed(s, name)) <==> forall id :: id in s.manifests ==> Intact(s.manifests, id)
  {
    var next := Gc.ParentLinks(Listed(s, name));
    forall id | id in s.manifests ensures Gc.Terminates(next, Some(id)) <==> Intact(s.manifests, id) {
      if Gc.Terminates(next, Some(id)) {
        var n: nat :| Gc.Ends(next, id, n);
        EndIsIntact(s, name, id, n);
      }
      if Intact(s.manifests, id) {
        var c :| IsChain(s.manifests, c) && Last(c) == id;
        ChainEnds(s, name, c);
      }
    }
  }
}
