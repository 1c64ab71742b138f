/** Restoring a compacted HEAD against restoring the HEAD it was made of. */
module Compaction {
  import opened Bytes
  import opened Paths
  import opened Filesystem
  import opened Workspace
  import opened RestorePlan
  import opened Restore
  import opened History
  import opened Snapshots

  ghost predicate SameButHead(x: Tree, y: Tree) {
    x.Keys == y.Keys && forall p :: p in x && p != HEAD ==> y[p] == x[p]
  }

  lemma ReachedAlike(plan: Plan, a: Bytes, b: Bytes, x: Tree, y: Tree)
    requires Reached(plan, a, x) && Reached(plan, b, y)
    ensures SameButHead(x, y)
  {
    hide Config.Captures, Written;
    forall p ensures p in x <==> p in y {}
  }

  lemma HeldAlike(plan: Plan, a: Bytes, b: Bytes)
    ensures SameButHead(Held(plan, a), Held(plan, b))
  {
    hide Plan.Settled, Written;
  }

  /**
   * Over every live tree: if the former HEAD could be restored, the compacted one can exactly when no name or link
   * target of its tree is lost, always when its names were legible all along. Both restores then end with the same
   * tree, root modes included, but for the name in HEAD, hold back the same modes and report the same changes.
   */
  lemma CompactRestoresAlike(
      s: State, u: State, before: Id, id: Id, t: Tree, dirMode: Mode, fileMode: Mode, defer: bool,
      text: Bytes, x: Tree, last: map<Path, Mode>, changes: seq<Change>,
      text': Bytes, y: Tree, last': map<Path, Mode>, changes': seq<Change>)
    requires Squashed(s, u, before, id)
    ensures Restorable(s, before, t) ==> (Restorable(u, id, t) <==> NamesLegible(s.walked[before]) && LinksLegible(s.walked[before]))
    ensures Restorable(s, before, t) && before in s.shown ==> Restorable(u, id, t)
    ensures Restored(s, before, text, t, dirMode, fileMode, defer, x, last, changes) ==>
      Restored(u, id, text', t, dirMode, fileMode, defer, y, last', changes') ==>
        SameButHead(x, y) && last' == last && forall c :: c in changes' <==> c in changes
  {
    hide PlanOf, Reached, Held, IsChange, Opens, Intact, NamesLegible, LinksLegible, Walkable, Conflicts, SameButHead;
    if Restored(s, before, text, t, dirMode, fileMode, defer, x, last, changes) && Restored(u, id, text', t, dirMode, fileMode, defer, y, last', changes') {
      var plan := PlanOf(t, s.cfg, s.walked[before], s.manifests[before].rootModes.value, dirMode, fileMode);
      if defer { HeldAlike(plan, text, text'); } else { ReachedAlike(plan, text, text', x, y); }
    }
  }
}
