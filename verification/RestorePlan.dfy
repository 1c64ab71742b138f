/** The pure side of a restore: what it aims at, and why no step of it can be refused. */
module RestorePlan {
  import opened Bytes
  import opened Paths
  import opened Filesystem
  import opened Workspace

  /** `/.artipod/oci/snapshots/HEAD` */
  const HEAD: Path := [META_ROOT, [111, 99, 105], [115, 110, 97, 112, 115, 104, 111, 116, 115], [72, 69, 65, 68]]

  /** The topology preflight: captured paths only, and directories wherever a parent or a root must be. */
  ghost predicate ValidSaved(cfg: Config, saved: Tree) {
    && (forall p :: p in saved ==> cfg.Captures(p))
    && (forall p :: p in saved && cfg.Implicit(p) ==> saved[p].Dir?)
    && (forall p, a :: p in saved && Above(a, p) ==> if a in saved then saved[a].Dir? else cfg.Implicit(a))
  }

  /** An excluded entry lives below something the saved tree holds as a file or link. */
  ghost predicate Conflicts(t: Tree, cfg: Config, saved: Tree) {
    exists a :: a in saved && !saved[a].Dir? && Retained(t, cfg, a)
  }

  /** The saved tree plus the live directories that excluded entries keep in place. */
  ghost function Extended(t: Tree, cfg: Config, saved: Tree): Tree {
    saved + map a | a in t && a !in saved && Retained(t, cfg, a) :: t[a]
  }

  predicate AboveRoot(cfg: Config, p: Path) {
    exists r :: r in cfg.roots && Above(p, r)
  }

  function RootSet(cfg: Config): set<Path> {
    set r | r in cfg.roots
  }

  datatype Plan = Plan(t: Tree, cfg: Config, target: Tree, last: map<Path, Mode>, dirMode: Mode, fileMode: Mode) {

    /** What the walk and the preflight leave established. */
    ghost predicate Fits() {
      && WellFormed(t)
      && (forall r :: r in cfg.roots ==> RealRoot(t, r))
      && ValidSaved(cfg, target)
      && (forall a :: Retained(t, cfg, a) ==> a in target && target[a].Dir?)
      && (forall p :: p in last ==> p in cfg.roots || (p in target && target[p].Dir? && AboveRoot(cfg, p)))
      && (forall r :: r in cfg.roots ==> r in last)
      && (forall p, r :: p in target && target[p].Dir? && r in cfg.roots && Above(p, r) ==> p in last)
      && OwnerAll(dirMode)
    }

    /** Every live root, or ancestor of a root, that the walk would remove is listed in the target. */
    ghost predicate ListsRoots() {
      forall d :: d in t && cfg.Implicit(d) && cfg.Captures(d) ==> d in target
    }

    predicate Keeps(p: Path)
      requires p in t
    {
      p in target && t[p].SameType(target[p]) && (t[p].Dir? || t[p] == target[p])
    }

    predicate Removes(p: Path) {
      p in t && cfg.Captures(p) && !Keeps(p)
    }

    // --- the tree after each phase, `s` being the paths already handled ---------------

    ghost function Widened(s: set<Path>): Tree {
      map p | p in t :: if p in s && t[p].Dir? then Dir(Widen(t[p].mode)) else t[p]
    }

    ghost function Opened(): Tree {
      Widened(RootSet(cfg) + cfg.Captured(t).Keys)
    }

    ghost function Gone(s: set<Path>): set<Path> {
      set p | p in s && Removes(p)
    }

    ghost function Pruned(): Tree {
      Opened() - Gone(t.Keys)
    }

    function Made(p: Path): Node
      requires p in target
    {
      if target[p].Dir? then Dir(dirMode) else target[p]
    }

    ghost function Grown(s: set<Path>): Tree {
      Pruned() + map p | p in target && p in s && p !in Pruned() :: Made(p)
    }

    ghost function Settled(s: set<Path>): Tree {
      Grown(target.Keys) + map p | p in target && p in s && target[p].Dir? && p !in last :: target[p]
    }
  }

  // --- resolving captured paths ---------------------------------------------------------

  lemma AncestorKinds(cfg: Config, p: Path, a: Path)
    requires cfg.Captures(p) && Above(a, p)
    ensures cfg.Captures(a) || cfg.Implicit(a)
  {
    var r :| r in cfg.roots && Above(r, p);
    if |a| < |r| {
      AboveLinear(a, r, p);
    } else if |a| > |r| {
      AboveLinear(r, a, p);
      if cfg.Excluded(a) { cfg.ExcludedBelow(a, p); }
    } else {
      assert a == r;
    }
  }

  lemma ParentKinds(cfg: Config, p: Path)
    requires cfg.Captures(p)
    ensures p != [] && (Parent(p) in cfg.roots || cfg.Captures(Parent(p)))
  {
    var r :| r in cfg.roots && Above(r, p);
    AboveParent(p);
    if r != Parent(p) && cfg.Excluded(Parent(p)) { cfg.ExcludedBelow(Parent(p), p); }
  }

  /** While restore works, roots and captured directories are owner-rwx and nothing else has changed. */
  ghost predicate Open(plan: Plan, u: Tree) {
    && (forall a :: a in u && u[a].Dir? && (a in plan.cfg.roots || plan.cfg.Captures(a)) ==> OwnerAll(u[a].mode))
    && (forall a :: a !in plan.cfg.roots && !plan.cfg.Captures(a) && a in plan.t ==> a in u && u[a] == plan.t[a])
  }

  lemma OwnerAllBits(m: Mode)
    requires OwnerAll(m)
    ensures OwnerR(m) && OwnerW(m) && OwnerX(m)
  {
    assert m & 0x100 == (m & OWNER_RWX) & 0x100;
    assert m & 0x080 == (m & OWNER_RWX) & 0x080;
    assert m & 0x040 == (m & OWNER_RWX) & 0x040;
  }

  lemma StaysOpen(plan: Plan, u: Tree, p: Path)
    requires plan.Fits() && Open(plan, u) && plan.cfg.Captures(p)
    requires forall a :: Above(a, p) ==> a in u && u[a].Dir?
    ensures Resolves(u, p) && WritableParent(u, p)
  {
    forall a | Above(a, p)
      ensures Passable(u, a)
    {
      AncestorKinds(plan.cfg, p, a);
      if a in plan.cfg.roots || plan.cfg.Captures(a) {
        OwnerAllBits(u[a].mode);
      } else {
        var r :| r in plan.cfg.roots && Above(a, r);
        assert Passable(plan.t, a);
      }
    }
    ParentKinds(plan.cfg, p);
    AboveParent(p);
    OwnerAllBits(u[Parent(p)].mode);
  }

  // --- the phases, pointwise ---------------------------------------------------------------

  lemma OpenedAt(plan: Plan, p: Path)
    ensures p in plan.Opened() <==> p in plan.t
    ensures p in plan.t ==> (plan.Opened()[p] ==
      if plan.t[p].Dir? && (p in plan.cfg.roots || plan.cfg.Captures(p)) then Dir(Widen(plan.t[p].mode)) else plan.t[p])
  {
  }

  lemma PrunedAt(plan: Plan, p: Path)
    ensures p in plan.Pruned() <==> p in plan.t && !plan.Removes(p)
    ensures p in plan.Pruned() ==> plan.Pruned()[p] == plan.Opened()[p]
  {
    OpenedAt(plan, p);
  }

  lemma GrownAt(plan: Plan, s: set<Path>, p: Path)
    ensures p in plan.Grown(s) <==> p in plan.Pruned() || (p in plan.target && p in s)
    ensures p in plan.Grown(s) ==> plan.Grown(s)[p] == if p in plan.Pruned() then plan.Pruned()[p] else plan.Made(p)
  {
  }

  lemma SettledAt(plan: Plan, s: set<Path>, p: Path)
    ensures p in plan.Settled(s) <==> p in plan.Grown(plan.target.Keys)
    ensures p in plan.Settled(s) ==> (plan.Settled(s)[p] ==
      if p in plan.target && p in s && plan.target[p].Dir? && p !in plan.last then plan.target[p] else plan.Grown(plan.target.Keys)[p])
  {
    GrownAt(plan, plan.target.Keys, p);
  }

  // --- deletion, deepest first --------------------------------------------------------------

  lemma OpenedIsOpen(plan: Plan)
    requires plan.Fits()
    ensures Open(plan, plan.Opened())
  {
  }

  /** A kept entry's captured parent directory is kept as well. */
  lemma KeptParent(plan: Plan, p: Path, c: Path)
    requires plan.Fits() && plan.ListsRoots()
    requires c in plan.t && plan.cfg.Captures(p) && Above(p, c)
    requires plan.cfg.Excluded(c) || plan.Keeps(c)
    ensures p in plan.t && plan.Keeps(p)
  {
    if plan.cfg.Excluded(c) {
      assert Retained(plan.t, plan.cfg, p);
    } else {
      assert p in plan.target || plan.cfg.Implicit(p);
    }
  }

  ghost predicate Deeper(s: set<Path>, all: set<Path>, p: Path) {
    && p !in s
    && (forall a :: a in s ==> |a| >= |p|)
    && (forall c :: c in all && |c| > |p| ==> c in s)
  }

  lemma MayRemove(plan: Plan, s: set<Path>, p: Path)
    requires plan.Fits() && plan.ListsRoots() && plan.Removes(p)
    requires Deeper(s, plan.cfg.Captured(plan.t).Keys, p)
    ensures var u := plan.Opened() - plan.Gone(s);
            && p in u && u[p].Dir? == plan.t[p].Dir?
            && Resolves(u, p) && WritableParent(u, p) && (u[p].Dir? ==> Empty(u, p))
  {
    hide Plan.Opened, Resolves, WritableParent, Plan.Removes, Retained, ValidSaved, Plan.ListsRoots;
    var u := plan.Opened() - plan.Gone(s);
    OpenedIsOpen(plan);
    OpenedAt(plan, p);
    RemovesCaptured(plan);
    forall a | Above(a, p)
      ensures a in u && u[a].Dir?
    {
      OpenedAt(plan, a);
    }
    assert Open(plan, u);
    StaysOpen(plan, u, p);
    forall c | Above(p, c)
      ensures c !in u
    {
      RemovedAbove(plan, s, p, c);
    }
  }

  lemma RemovesCaptured(plan: Plan)
    ensures forall p :: plan.Removes(p) ==> p in plan.t && plan.cfg.Captures(p)
  {
  }

  lemma RemovedAbove(plan: Plan, s: set<Path>, p: Path, c: Path)
    requires plan.Fits() && plan.ListsRoots() && plan.Removes(p)
    requires Deeper(s, plan.cfg.Captured(plan.t).Keys, p) && Above(p, c)
    ensures c !in plan.Opened() - plan.Gone(s)
  {
    OpenedAt(plan, c);
    hide Plan.Opened;
    if c in plan.t {
      var r :| r in plan.cfg.roots && Above(r, p);
      AboveTransitive(r, p, c);
      if plan.cfg.Excluded(c) || plan.Keeps(c) { KeptParent(plan, p, c); }
      assert plan.cfg.Captures(c);
    }
  }

  // --- creation, shallowest first ------------------------------------------------------------

  ghost predicate Shallower(s: set<Path>, all: set<Path>, p: Path) {
    && p !in s
    && (forall a :: a in all && |a| < |p| ==> a in s)
  }

  lemma PrunedShape(plan: Plan, p: Path)
    requires plan.Fits() && plan.ListsRoots()
    ensures p in plan.Pruned() <==> p in plan.t && !plan.Removes(p)
    ensures p in plan.target ==> (p in plan.Pruned() <==> p in plan.t && plan.Keeps(p))
    ensures p in plan.cfg.roots ==> p in plan.Pruned() && plan.Pruned()[p].Dir?
  {
    if p in plan.cfg.roots && plan.cfg.Captures(p) {
      assert plan.cfg.Implicit(p);
    }
  }

  /** Every ancestor of a target path is a directory by the time the path is due. */
  lemma AncestorsReady(plan: Plan, s: set<Path>, p: Path, a: Path)
    requires plan.Fits() && plan.ListsRoots() && p in plan.target && Above(a, p)
    requires forall b :: b in plan.target && |b| < |p| ==> b in s
    ensures a in plan.Grown(s) && plan.Grown(s)[a].Dir?
  {
    PrunedShape(plan, a);
    PrunedAt(plan, a);
    OpenedAt(plan, a);
    GrownAt(plan, s, a);
    hide Plan.Opened, Plan.Pruned, Plan.Grown, Resolves;
    if a !in plan.target {
      var r :| r in plan.cfg.roots && (a == r || Above(a, r));
      assert a in plan.t && plan.t[a].Dir?;
      if plan.cfg.Captures(a) { assert plan.cfg.Implicit(a); }
    }
  }

  lemma GrownIsOpen(plan: Plan, s: set<Path>)
    requires plan.Fits()
    ensures Open(plan, plan.Grown(s))
  {
    forall a
      ensures a in plan.Grown(s) && plan.Grown(s)[a].Dir? && (a in plan.cfg.roots || plan.cfg.Captures(a)) ==> OwnerAll(plan.Grown(s)[a].mode)
      ensures a !in plan.cfg.roots && !plan.cfg.Captures(a) && a in plan.t ==> a in plan.Grown(s) && plan.Grown(s)[a] == plan.t[a]
    {
      OpenedAt(plan, a);
      PrunedAt(plan, a);
      GrownAt(plan, s, a);
      hide Plan.Opened, Plan.Pruned, Plan.Grown, Resolves, ValidSaved, Retained;
    }
  }

  lemma MayCreate(plan: Plan, s: set<Path>, p: Path)
    requires plan.Fits() && plan.ListsRoots() && p in plan.target
    requires Shallower(s, plan.target.Keys, p)
    ensures forall a :: Above(a, p) ==> Passable(plan.Grown(s), a)
    ensures WritableParent(plan.Grown(s), p) && Resolves(plan.Grown(s), p)
    ensures p in plan.Grown(s) <==> p in plan.t && plan.Keeps(p)
    ensures p in plan.Grown(s) ==> plan.Grown(s)[p].SameType(plan.target[p])
  {
    var u := plan.Grown(s);
    forall a | Above(a, p) ensures a in u && u[a].Dir? { AncestorsReady(plan, s, p, a); }
    GrownIsOpen(plan, s);
    StaysOpen(plan, u, p);
    PrunedShape(plan, p);
  }

  // --- final modes, deepest first --------------------------------------------------------------

  lemma ReachesAgree(u: Tree, v: Tree, p: Path)
    requires Resolves(u, p)
    requires forall a :: Above(a, p) && a in u ==> a in v && v[a] == u[a]
    ensures Resolves(v, p)
  {
  }

  lemma MaySettle(plan: Plan, s: set<Path>, p: Path)
    requires plan.Fits() && plan.ListsRoots() && p in plan.target && plan.target[p].Dir? && p !in plan.last
    requires Deeper(s, plan.target.Keys, p)
    ensures Resolves(plan.Settled(s), p) && p in plan.Settled(s) && plan.Settled(s)[p].Dir?
  {
    var g, u := plan.Grown(plan.target.Keys), plan.Settled(s);
    forall a | Above(a, p) ensures a in g && g[a].Dir? { AncestorsReady(plan, plan.target.Keys, p, a); }
    GrownIsOpen(plan, plan.target.Keys);
    StaysOpen(plan, g, p);
    forall a | Above(a, p) ensures a in g ==> a in u && u[a] == g[a] { SettledAt(plan, s, a); }
    MayCreate(plan, (set q | q in plan.target && |q| < |p|), p);
    SettledAt(plan, s, p);
    GrownAt(plan, plan.target.Keys, p);
    PrunedAt(plan, p);
    OpenedAt(plan, p);
    hide Plan.Opened, Plan.Pruned, Plan.Grown, Plan.Settled, Resolves, Plan.Fits;
    ReachesAgree(g, u, p);
  }

  // --- HEAD, and the modes that come last -------------------------------------------------------

  lemma HeadIsReserved()
    ensures Reserved(HEAD) && forall a :: Above(a, HEAD) && a != [] ==> Reserved(a)
  {
    assert Lower(META_ROOT) == META_ROOT;
  }

  /** Paths outside the capture keep their node; only a root's mode may be widened. */
  lemma OutsideAt(plan: Plan, p: Path)
    requires plan.Fits() && !plan.cfg.Captures(p)
    ensures var u := plan.Settled(plan.target.Keys);
            && (p in u <==> p in plan.t)
            && (p in plan.t ==> u[p] == if plan.t[p].Dir? && p in plan.cfg.roots then Dir(Widen(plan.t[p].mode)) else plan.t[p])
  {
    hide Plan.Opened, Plan.Pruned, Plan.Grown, Plan.Settled, Resolves;
    SettledAt(plan, plan.target.Keys, p);
    GrownAt(plan, plan.target.Keys, p);
    PrunedAt(plan, p);
    OpenedAt(plan, p);
  }

  lemma MayWriteHead(plan: Plan)
    requires plan.Fits() && CanWrite(plan.t, HEAD)
    ensures HEAD !in plan.cfg.roots && HEAD !in plan.target && HEAD !in plan.last
    ensures var u := plan.Settled(plan.target.Keys);
            && CanWrite(u, HEAD) && (HEAD in u <==> HEAD in plan.t) && (HEAD in u ==> u[HEAD] == plan.t[HEAD])
  {
    hide Plan.Settled;
    HeadIsReserved();
    var u := plan.Settled(plan.target.Keys);
    OutsideAt(plan, HEAD);
    AboveParent(HEAD);
    forall a | Above(a, HEAD)
      ensures Passable(u, a) && (OwnerW(plan.t[a].mode) ==> OwnerW(u[a].mode))
    {
      assert Passable(plan.t, a);
      OutsideAt(plan, a);
    }
  }

  /** With its roots listed, a restore never loses an ancestor of a root. */
  lemma AboveRootStays(plan: Plan, s: set<Path>, a: Path)
    requires plan.Fits() && plan.ListsRoots() && (AboveRoot(plan.cfg, a) || a in plan.cfg.roots)
    ensures a in plan.t && plan.t[a].Dir? && (plan.cfg.Captures(a) ==> a in plan.target)
    ensures a in plan.Grown(s) && plan.Grown(s)[a].Dir?
    ensures AboveRoot(plan.cfg, a) ==> Passable(plan.Grown(s), a)
  {
    hide Plan.Opened, Plan.Pruned, Plan.Grown, Resolves;
    var r :| r in plan.cfg.roots && (a == r || Above(a, r));
    assert RealRoot(plan.t, r);
    OpenedAt(plan, a);
    PrunedAt(plan, a);
    GrownAt(plan, s, a);
    if plan.cfg.Captures(a) { assert plan.cfg.Implicit(a); }
    if AboveRoot(plan.cfg, a) {
      var q :| q in plan.cfg.roots && Above(a, q);
      assert RealRoot(plan.t, q) && Passable(plan.t, a);
    }
  }

  lemma MayFinish(plan: Plan, u: Tree, p: Path)
    requires plan.Fits() && plan.ListsRoots() && p in plan.last
    requires forall a :: Above(a, p) && a in plan.Settled(plan.target.Keys) ==> a in u && u[a] == plan.Settled(plan.target.Keys)[a]
    ensures Resolves(u, p)
    ensures p in plan.Settled(plan.target.Keys) && plan.Settled(plan.target.Keys)[p].Dir?
  {
    hide Plan.Opened, Plan.Pruned, Plan.Grown, Plan.Settled, Plan.ListsRoots;
    forall a | Above(a, p)
      ensures Passable(u, a)
    {
      var r :| r in plan.cfg.roots && (p == r || Above(p, r));
      if p != r { AboveTransitive(a, p, r); }
      AboveRootStays(plan, plan.target.Keys, a);
      SettledAt(plan, plan.target.Keys, a);
      assert a in plan.target ==> a in plan.last;
    }
    AboveRootStays(plan, plan.target.Keys, p);
    SettledAt(plan, plan.target.Keys, p);
  }

  /** The finished tree, path by path: `u` is `t` with the captured slice replaced by the target. */
  ghost predicate Reached(plan: Plan, id: Bytes, u: Tree) {
    && (forall p :: p in u <==> p in plan.target || p == HEAD || (p in plan.t && !plan.cfg.Captures(p)))
    && (forall p :: p in u && p in plan.last ==> u[p] == Dir(plan.last[p]))
    && (forall p :: p in plan.target && p !in plan.last ==> p in u && u[p] == plan.target[p])
    && (HEAD in u && u[HEAD] == Written(plan.t, HEAD, id, plan.fileMode))
    && (forall p :: p in plan.t && !plan.cfg.Captures(p) && p !in plan.last && p != HEAD ==> p in u && u[p] == plan.t[p])
  }

  ghost function Held(plan: Plan, id: Bytes): Tree {
    plan.Settled(plan.target.Keys)[HEAD := Written(plan.t, HEAD, id, plan.fileMode)]
  }

  ghost function Finished(plan: Plan, id: Bytes, s: set<Path>): Tree {
    var u := Held(plan, id);
    map p | p in u :: if p in s && p in plan.last then Dir(plan.last[p]) else u[p]
  }

  lemma KeptNode(plan: Plan, p: Path)
    requires plan.Fits() && plan.ListsRoots() && p in plan.target
    ensures p in plan.Settled(plan.target.Keys)
    ensures p !in plan.last ==> plan.Settled(plan.target.Keys)[p] == plan.target[p]
  {
    hide Plan.Settled, Plan.Grown, Plan.Pruned, Plan.Opened, Resolves;
    SettledAt(plan, plan.target.Keys, p);
    GrownAt(plan, plan.target.Keys, p);
    PrunedAt(plan, p);
    OpenedAt(plan, p);
  }

  lemma FinishedIsReached(plan: Plan, id: Bytes)
    requires plan.Fits() && plan.ListsRoots() && CanWrite(plan.t, HEAD)
    ensures Reached(plan, id, Finished(plan, id, plan.last.Keys))
  {
    hide Plan.Settled, Resolves, CanWrite, Plan.ListsRoots, ValidSaved;
    MayWriteHead(plan);
    HeadIsReserved();
    forall p
      ensures var u := Finished(plan, id, plan.last.Keys);
        && (p in u <==> p in plan.target || p == HEAD || (p in plan.t && !plan.cfg.Captures(p)))
        && (p in plan.target && p !in plan.last ==> p in u && u[p] == plan.target[p])
        && (p in plan.t && !plan.cfg.Captures(p) && p !in plan.last && p != HEAD ==> p in u && u[p] == plan.t[p])
    {
      TargetCaptured(plan, p);
      if p in plan.target {
        KeptNode(plan, p);
      } else if !plan.cfg.Captures(p) {
        OutsideAt(plan, p);
      } else {
        CapturedGone(plan, p);
      }
    }
  }

  lemma TargetCaptured(plan: Plan, p: Path)
    requires plan.Fits()
    ensures p in plan.target ==> plan.cfg.Captures(p)
  {
  }

  lemma CapturedGone(plan: Plan, p: Path)
    requires plan.Fits() && plan.cfg.Captures(p) && p !in plan.target
    ensures p !in plan.Settled(plan.target.Keys) && p != HEAD
  {
    hide Plan.Settled, Plan.Grown, Plan.Pruned, Plan.Opened, Resolves;
    SettledAt(plan, plan.target.Keys, p);
    GrownAt(plan, plan.target.Keys, p);
    PrunedAt(plan, p);
    HeadIsReserved();
  }
}
