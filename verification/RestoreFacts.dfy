/** What a finished restore means for the user, and the one configuration it cannot serve. */
module RestoreFacts {
  import opened Bytes
  import opened Paths
  import opened Filesystem
  import opened Workspace
  import opened RestorePlan
  import opened Restore

  lemma LastIsImplicit(plan: Plan, p: Path)
    requires plan.Fits() && p in plan.last
    ensures plan.cfg.Implicit(p) && (p in plan.target ==> plan.target[p].Dir?)
  {
    hide WellFormed, Retained;
  }

  /** One path of a reached tree. */
  lemma ReachedAt(plan: Plan, id: Bytes, u: Tree, p: Path)
    requires plan.Fits() && Reached(plan, id, u) && p != HEAD
    ensures p in plan.target ==> p in u && (if p in plan.last then u[p].Dir? && plan.target[p].Dir? else u[p] == plan.target[p])
    ensures p in u && plan.cfg.Captures(p) ==> p in plan.target
    ensures p in plan.t && !plan.cfg.Captures(p) && p !in plan.last ==> p in u && u[p] == plan.t[p]
  {
    if p in plan.last { LastIsImplicit(plan, p); }
    hide Plan.Fits, Config.Captures;
  }

  lemma CapturedIsNotHead(cfg: Config, p: Path)
    requires cfg.Captures(p)
    ensures p != HEAD && !cfg.Excluded(p)
  {
    HeadIsReserved();
    hide Config.UnderRoot;
  }

  lemma TargetIs(t: Tree, cfg: Config, saved: Tree, p: Path)
    ensures p in saved ==> p in Extended(t, cfg, saved) && Extended(t, cfg, saved)[p] == saved[p]
    ensures p in Extended(t, cfg, saved) && p !in saved ==> Retained(t, cfg, p) && p in t
  {
    hide Retained;
  }

  lemma SavedIsCaptured(plan: Plan, p: Path)
    requires plan.Fits() && p in plan.target
    ensures plan.cfg.Captures(p)
  {
    hide WellFormed, Retained, Config.Captures, Config.Implicit;
  }

  lemma RetainedIsDir(plan: Plan, p: Path)
    requires plan.Fits() && Retained(plan.t, plan.cfg, p)
    ensures p in plan.target && plan.target[p].Dir?
  {
    hide WellFormed, Retained, Config.Captures, Config.Implicit;
  }

  /** Saved entries are back, nothing else is left inside the capture but what excluded entries need, and those are untouched. */
  lemma ReachedMeans(t: Tree, cfg: Config, saved: Tree, rootModes: map<Path, Mode>, id: Bytes, dirMode: Mode, fileMode: Mode, u: Tree, p: Path)
    requires forall r :: r in cfg.roots ==> r in t && t[r].Dir?
    requires var plan := PlanOf(t, cfg, saved, rootModes, dirMode, fileMode); plan.Fits() && Reached(plan, id, u)
    ensures p in saved ==> p in u && (if cfg.Implicit(p) then u[p].SameType(saved[p]) else u[p] == saved[p])
    ensures p in u && cfg.Captures(p) && p !in saved ==> Retained(t, cfg, p) && p in t && u[p].Dir?
    ensures p in t && cfg.Excluded(p) && !cfg.Implicit(p) && p != HEAD ==> p in u && u[p] == t[p]
  {
    var plan := PlanOf(t, cfg, saved, rootModes, dirMode, fileMode);
    assert plan.t == t && plan.cfg == cfg && plan.target == Extended(t, cfg, saved);
    assert cfg.Excluded(p) ==> !cfg.Captures(p);
    hide *;
    TargetIs(t, cfg, saved, p);
    if p in plan.target { SavedIsCaptured(plan, p); }
    if cfg.Captures(p) { CapturedIsNotHead(cfg, p); }
    if p in plan.last { LastIsImplicit(plan, p); }
    if Retained(t, cfg, p) { RetainedIsDir(plan, p); }
    if p != HEAD {
      ReachedAt(plan, id, u, p);
      if p in saved && p in u && u[p].Dir? && saved[p].Dir? { DirsAlike(u[p], saved[p]); }
      if p in saved && p in u && u[p] == saved[p] { SelfAlike(u[p]); }
    }
  }

  lemma DirsAlike(a: Node, b: Node)
    requires a.Dir? && b.Dir?
    ensures a.SameType(b)
  {
  }

  lemma SelfAlike(a: Node)
    ensures a.SameType(a)
  {
  }

  /** The reported changes are exactly the captured paths that came out different. */
  lemma ChangesAreTheDifference(plan: Plan, rootModes: map<Path, Mode>, id: Bytes, u: Tree, p: Path)
    requires plan.Fits() && Reached(plan, id, u) && plan.cfg.Captures(p) && !plan.cfg.Implicit(p)
    ensures (exists c :: IsChange(plan, rootModes, c) && c.path == p) <==> !(p in plan.t && p in u && plan.t[p] == u[p]) && (p in plan.t || p in u)
  {
    hide *;
    CapturedIsNotHead(plan.cfg, p);
    if p in plan.last { LastIsImplicit(plan, p); }
    ReachedAt(plan, id, u, p);
    ChangeAt(plan, rootModes, p);
  }

  /** A captured path is reported exactly when the target treats it differently. */
  lemma ChangeAt(plan: Plan, rootModes: map<Path, Mode>, p: Path)
    requires plan.cfg.Captures(p) && !plan.cfg.Implicit(p)
    ensures (exists c :: IsChange(plan, rootModes, c) && c.path == p)
      <==> !(p in plan.t && p in plan.target && plan.t[p] == plan.target[p]) && (p in plan.t || p in plan.target)
  {
    assert p in plan.t <==> p in plan.cfg.Captured(plan.t);
    assert p !in plan.cfg.roots;
    hide Config.Captures, Config.Implicit;
    if p in plan.t && p !in plan.target { assert IsChange(plan, rootModes, Change(p, Deleted, KindOf(plan.t[p]))); }
    if p !in plan.t && p in plan.target { assert IsChange(plan, rootModes, Change(p, Created, KindOf(plan.target[p]))); }
    if p in plan.t && p in plan.target && plan.t[p] != plan.target[p] {
      assert IsChange(plan, rootModes, Change(p, if plan.t[p].SameType(plan.target[p]) then Changed else Created, KindOf(plan.target[p])));
    }
    if p in plan.t && p in plan.target && plan.t[p] == plan.target[p] { SelfAlike(plan.t[p]); }
  }

  // --- roots listed more than once ------------------------------------------------------------------------

  /** The comparison of entries lists the path. */
  predicate Listed(plan: Plan, p: Path) {
    plan.cfg.Captures(p) && p in plan.t && !(p in plan.target && plan.target[p] == plan.t[p])
  }

  /** Opened on its first turn, a root that was not owner-rwx is found wider when it is looked at again. */
  predicate SeenWider(plan: Plan, r: Path)
    requires r in plan.t && plan.t[r].Dir?
  {
    Repeated(plan.cfg.roots, r) && !OwnerAll(plan.t[r].mode)
  }

  /**
   * The report on any root against the mode it ends with. A root with a saved mode is reported wrongly exactly when
   * it had that mode and was seen wider or is listed as an entry; one without, exactly when only one of the two holds.
   */
  lemma RootReport(t: Tree, cfg: Config, saved: Tree, rootModes: map<Path, Mode>, dirMode: Mode, fileMode: Mode, r: Path)
    requires PlanOf(t, cfg, saved, rootModes, dirMode, fileMode).Fits() && r in cfg.roots
    ensures var plan := PlanOf(t, cfg, saved, rootModes, dirMode, fileMode);
      && plan.t == t && r in t && t[r].Dir? && r in plan.last
      && (((exists c :: IsChange(plan, rootModes, c) && c.path == r) <==> t[r].mode != plan.last[r])
          <==> if r in rootModes then !(rootModes[r] == t[r].mode && (SeenWider(plan, r) || Listed(plan, r)))
               else SeenWider(plan, r) <==> Listed(plan, r))
  {
    hide *;
    var plan := PlanOf(t, cfg, saved, rootModes, dirMode, fileMode);
    PlanParts(t, cfg, saved, rootModes, dirMode, fileMode);
    RootLive(plan, r);
    RootLast(t, rootModes, cfg.roots, r);
    WidenedDiffers(t[r].mode);
    RootSeen(plan, r);
    if r in plan.target { SavedIsCaptured(plan, r); }
    RootReported(plan, rootModes, r);
  }

  lemma WidenedDiffers(m: Mode)
    ensures Widen(m) == m <==> OwnerAll(m)
  {
  }

  lemma RootLive(plan: Plan, r: Path)
    requires plan.Fits() && r in plan.cfg.roots
    ensures r in plan.t && plan.t[r].Dir? && r in RootSet(plan.cfg)
  {
    hide WellFormed, Retained, ValidSaved;
  }

  lemma RootLast(t: Tree, rootModes: map<Path, Mode>, roots: seq<Path>, r: Path)
    requires r in roots && r in t && t[r].Dir?
    ensures r in LastModes(t, rootModes, roots)
    ensures LastModes(t, rootModes, roots)[r] ==
      if r in rootModes then rootModes[r] else if Repeated(roots, r) then Widen(t[r].mode) else t[r].mode
  {
    hide Repeated, Widen;
  }

  lemma RootSeen(plan: Plan, r: Path)
    requires r in plan.t && plan.t[r].Dir?
    ensures SeenWider(plan, r) <==> Repeated(plan.cfg.roots, r) && !OwnerAll(plan.t[r].mode)
  {
    hide Repeated, OwnerAll;
  }

  /** A root is reported by the comparison of entries, or on one of its turns. */
  lemma RootReported(plan: Plan, rootModes: map<Path, Mode>, r: Path)
    requires r in plan.cfg.roots && r in plan.t && plan.t[r].Dir? && (r in plan.target ==> plan.cfg.Captures(r))
    ensures (exists c :: IsChange(plan, rootModes, c) && c.path == r) <==>
      Listed(plan, r) || (r in rootModes && (plan.t[r].mode != rootModes[r] || (Repeated(plan.cfg.roots, r) && Widen(plan.t[r].mode) != rootModes[r])))
  {
    ListedIs(plan, r);
    hide Listed, Differs, Repeated, Widen;
    if Listed(plan, r) {
      var c :| Differs(plan.cfg.Captured(plan.t), plan.target, c) && c.path == r;
      assert IsChange(plan, rootModes, c);
    }
    var c := Change(r, Changed, DirectoryKind);
    if RootDiffers(plan.t, plan.cfg.roots, rootModes, c) { assert IsChange(plan, rootModes, c); }
  }

  lemma ListedIs(plan: Plan, r: Path)
    requires r in plan.t && plan.t[r].Dir? && (r in plan.target ==> plan.cfg.Captures(r))
    ensures Listed(plan, r) <==> exists c :: Differs(plan.cfg.Captured(plan.t), plan.target, c) && c.path == r
  {
    assert r in plan.cfg.Captured(plan.t) <==> plan.cfg.Captures(r);
    hide Config.Captures;
    if Listed(plan, r) {
      if r !in plan.target {
        assert Differs(plan.cfg.Captured(plan.t), plan.target, Change(r, Deleted, KindOf(plan.t[r])));
      } else {
        assert Differs(plan.cfg.Captured(plan.t), plan.target,
          Change(r, if plan.t[r].SameType(plan.target[r]) then Changed else Created, KindOf(plan.target[r])));
      }
    } else if r in plan.target {
      SelfAlike(plan.t[r]);
    }
  }

  // --- the nodes a restore ends with, roots and HEAD included -------------------------------------------

  /** The mode a root ends with: the saved one, else its own, widened if the root is listed twice. */
  function RootEnds(t: Tree, cfg: Config, rootModes: map<Path, Mode>, r: Path): Mode
    requires r in t && t[r].Dir?
  {
    if r in rootModes then rootModes[r] else if Repeated(cfg.roots, r) then Widen(t[r].mode) else t[r].mode
  }

  /** Every root has its mode, every other saved entry is exactly as saved, what is not captured is untouched, and HEAD holds the name. */
  lemma NodesAre(t: Tree, cfg: Config, saved: Tree, rootModes: map<Path, Mode>, id: Bytes, dirMode: Mode, fileMode: Mode, u: Tree, p: Path)
    requires var plan := PlanOf(t, cfg, saved, rootModes, dirMode, fileMode); plan.Fits() && plan.ListsRoots() && Reached(plan, id, u)
    ensures p in cfg.roots ==> p in t && t[p].Dir? && p in u && u[p] == Dir(RootEnds(t, cfg, rootModes, p))
    ensures p in saved && p !in cfg.roots ==> p in u && u[p] == saved[p]
    ensures p in t && !cfg.Captures(p) && p !in cfg.roots && p != HEAD ==> p in u && u[p] == t[p]
    ensures HEAD in u && u[HEAD] == File(id, if HEAD in t && t[HEAD].File? then t[HEAD].mode else fileMode)
  {
    hide *;
    var plan := PlanOf(t, cfg, saved, rootModes, dirMode, fileMode);
    PlanParts(t, cfg, saved, rootModes, dirMode, fileMode);
    if p in cfg.roots {
      RootLive(plan, p);
      RootLast(t, rootModes, cfg.roots, p);
      RootEndsIs(t, cfg, rootModes, p);
      LastReached(plan, id, u, p);
    } else {
      if p in saved { SavedReached(plan, saved, rootModes, id, u, p); }
      if p in t && !cfg.Captures(p) && p != HEAD { OutsideReached(plan, id, u, p); }
    }
    HeadReached(plan, id, u);
  }

  lemma RootEndsIs(t: Tree, cfg: Config, rootModes: map<Path, Mode>, r: Path)
    requires r in t && t[r].Dir?
    ensures RootEnds(t, cfg, rootModes, r) == if r in rootModes then rootModes[r] else if Repeated(cfg.roots, r) then Widen(t[r].mode) else t[r].mode
  {
    hide Repeated, Widen;
  }

  /** A root is in the reached tree, with the mode that comes last. */
  lemma LastReached(plan: Plan, id: Bytes, u: Tree, r: Path)
    requires plan.Fits() && plan.ListsRoots() && Reached(plan, id, u) && r in plan.cfg.roots && r in plan.last
    ensures r in u && u[r] == Dir(plan.last[r])
  {
    RootLive(plan, r);
    assert plan.cfg.Implicit(r);
    assert plan.cfg.Captures(r) ==> r in plan.target;
    hide Plan.Fits, Plan.ListsRoots, Config.Captures, Config.Implicit;
  }

  /** An entry above a root ends with its saved mode, any other as it was saved. */
  lemma SavedReached(plan: Plan, saved: Tree, rootModes: map<Path, Mode>, id: Bytes, u: Tree, p: Path)
    requires plan.Fits() && Reached(plan, id, u) && p in saved && p !in plan.cfg.roots
    requires plan.target == Extended(plan.t, plan.cfg, saved)
    requires plan.last == (map q | q in plan.target && plan.target[q].Dir? && AboveRoot(plan.cfg, q) :: plan.target[q].mode) + LastModes(plan.t, rootModes, plan.cfg.roots)
    ensures p in u && u[p] == saved[p]
  {
    TargetIs(plan.t, plan.cfg, saved, p);
    LastAbove(plan, rootModes, p);
    hide Extended, LastModes, Config.Captures, Plan.Fits, AboveRoot;
  }

  lemma LastAbove(plan: Plan, rootModes: map<Path, Mode>, p: Path)
    requires p !in plan.cfg.roots
    requires plan.last == (map q | q in plan.target && plan.target[q].Dir? && AboveRoot(plan.cfg, q) :: plan.target[q].mode) + LastModes(plan.t, rootModes, plan.cfg.roots)
    ensures p in plan.last ==> p in plan.target && plan.target[p] == Dir(plan.last[p])
  {
    hide AboveRoot, LastMode;
  }

  lemma OutsideReached(plan: Plan, id: Bytes, u: Tree, p: Path)
    requires plan.Fits() && Reached(plan, id, u) && p in plan.t && !plan.cfg.Captures(p) && p !in plan.cfg.roots && p != HEAD
    ensures p in u && u[p] == plan.t[p]
  {
    hide WellFormed, Retained, Config.Captures;
  }

  lemma HeadReached(plan: Plan, id: Bytes, u: Tree)
    requires Reached(plan, id, u)
    ensures HEAD in u && u[HEAD] == File(id, if HEAD in plan.t && plan.t[HEAD].File? then plan.t[HEAD].mode else plan.fileMode)
  {
    hide Config.Captures;
  }

  /** Restored with the root modes of its creation, a snapshot of `t0` gives every root its mode of that time back. */
  lemma RootsComeBack(t0: Tree, t: Tree, cfg: Config, saved: Tree, id: Bytes, dirMode: Mode, fileMode: Mode, u: Tree, r: Path)
    requires r in cfg.roots && r in t0 && t0[r].Dir?
    requires var plan := PlanOf(t, cfg, saved, RootModes(t0, map[], RootSet(cfg)), dirMode, fileMode);
      plan.Fits() && plan.ListsRoots() && Reached(plan, id, u)
    ensures r in u && u[r] == t0[r]
  {
    var modes := RootModes(t0, map[], RootSet(cfg));
    assert r in modes && modes[r] == t0[r].mode;
    hide *;
    NodesAre(t, cfg, saved, modes, id, dirMode, fileMode, u, r);
    RootEndsIs(t, cfg, modes, r);
    assert t0[r] == Dir(t0[r].mode);
  }

  // --- a nested root the saved tree does not list -------------------------------------------------------

  const OUTER: Path := [[97]]
  const INNER: Path := [[97], [98]]
  const NESTED: Config := Config([OUTER, INNER], {})
  const ALL: Mode := 511

  /** A live tree where root "/a/b" lies inside root "/a". */
  const NESTED_TREE: Tree := map[[] := Dir(ALL), OUTER := Dir(ALL), INNER := Dir(ALL)]

  lemma NestedAncestors(p: Path)
    requires p in NESTED_TREE
    ensures forall a :: Above(a, p) ==> a == [] || a == OUTER
  {
    forall a | Above(a, p) ensures a == [] || a == OUTER {
      if |a| == 1 { assert a[0] == p[0]; }
    }
  }

  lemma NestedNotExcluded(p: Path)
    requires p in NESTED_TREE
    ensures !NESTED.Excluded(p)
  {
    if p != [] { assert |Lower(p[0])| == 1 && |META_ROOT| == 8 && |PROC_ROOT| == 4; }
  }

  lemma NestedShape()
    ensures WellFormed(NESTED_TREE) && forall p :: p in NESTED_TREE ==> Resolves(NESTED_TREE, p) && !NESTED.Excluded(p)
    ensures OwnerR(ALL) && OwnerX(ALL)
  {
    assert OwnerR(ALL) && OwnerX(ALL);
    forall p | p in NESTED_TREE ensures (forall a :: Above(a, p) ==> Passable(NESTED_TREE, a)) && !NESTED.Excluded(p) {
      NestedAncestors(p);
      NestedNotExcluded(p);
    }
    hide OwnerR, OwnerX;
  }

  /** Restoring the empty tree passes every preflight and would have to remove a root: the restore cannot reach its target. */
  lemma NestedRootUnlisted(rootModes: map<Path, Mode>, dirMode: Mode, fileMode: Mode)
    ensures WellFormed(NESTED_TREE) && Walkable(NESTED_TREE, NESTED, true)
    ensures ValidSaved(NESTED, map[]) && !Conflicts(NESTED_TREE, NESTED, map[])
    ensures !PlanOf(NESTED_TREE, NESTED, map[], rootModes, dirMode, fileMode).ListsRoots()
  {
    NestedShape();
    NestedWalks();
    NestedIsValid();
    hide *;
    InnerDropped(rootModes, dirMode, fileMode);
  }

  lemma NestedIsValid()
    ensures ValidSaved(NESTED, map[]) && !Conflicts(NESTED_TREE, NESTED, map[])
  {
    hide Config.Captures, Config.Implicit, Retained;
  }

  lemma NestedWalks()
    ensures Walkable(NESTED_TREE, NESTED, true)
  {
    NestedShape();
    hide Resolves, WellFormed, Config.Excluded, OwnerR, OwnerX;
    forall p | p in NESTED_TREE && NESTED.Captures(p) ensures AcceptsEntry(NESTED_TREE, p, true) {
      assert p != [];
      assert AcceptsName(p);
    }
  }

  lemma InnerDropped(rootModes: map<Path, Mode>, dirMode: Mode, fileMode: Mode)
    ensures !PlanOf(NESTED_TREE, NESTED, map[], rootModes, dirMode, fileMode).ListsRoots()
  {
    var plan := PlanOf(NESTED_TREE, NESTED, map[], rootModes, dirMode, fileMode);
    NestedNotExcluded(INNER);
    assert NESTED.roots[0] == OUTER && NESTED.roots[1] == INNER && Above(OUTER, INNER);
    assert INNER in NESTED_TREE && NESTED.Implicit(INNER) && NESTED.Captures(INNER);
    assert INNER !in plan.target by { InnerFree(); TargetIs(NESTED_TREE, NESTED, map[], INNER); }
  }

  /** Nothing excluded lies below the inner root. */
  lemma InnerFree()
    ensures !Retained(NESTED_TREE, NESTED, INNER)
  {
    forall x | x in NESTED_TREE && Above(INNER, x) ensures !NESTED.Excluded(x) { NestedNotExcluded(x); }
    hide Config.Excluded, Config.UnderRoot;
  }
}
