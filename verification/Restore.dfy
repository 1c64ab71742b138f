/** In-place restore: the ordered chmod / unlink / rmdir / mkdir / write steps on the live tree. */
module Restore {
  import opened Bytes
  import opened Paths
  import opened Filesystem
  import opened Workspace
  import opened RestorePlan

  function Done'(order: seq<Path>, i: nat): set<Path>
    requires i <= |order|
  {
    set p | p in order[..i]
  }

  lemma NextDone(order: seq<Path>, i: nat)
    requires i < |order|
    ensures Done'(order, i + 1) == Done'(order, i) + {order[i]}
  {
    assert order[..i + 1] == order[..i] + [order[i]];
  }

  lemma NoneDone(order: seq<Path>)
    ensures Done'(order, 0) == {}
  {
  }

  lemma AllDone(order: seq<Path>, all: set<Path>)
    requires Lists(order, all)
    ensures Done'(order, |order|) == all
    ensures forall p :: p in order ==> p in all
  {
    assert order[..|order|] == order;
  }

  lemma DeepOrderDeeper(order: seq<Path>, all: set<Path>, i: nat)
    requires Lists(order, all) && DeepOrder(order) && i < |order|
    ensures Deeper(Done'(order, i), all, order[i])
  {
    forall c | c in all && |c| > |order[i]|
      ensures c in order[..i]
    {
      var j :| 0 <= j < |order| && order[j] == c;
      assert j < i;
      assert order[..i][j] == c;
    }
  }

  lemma ShallowOrderShallower(order: seq<Path>, all: set<Path>, i: nat)
    requires Lists(order, all) && ShallowOrder(order) && i < |order|
    ensures Shallower(Done'(order, i), all, order[i])
  {
    forall a | a in all && |a| < |order[i]|
      ensures a in order[..i]
    {
      var j :| 0 <= j < |order| && order[j] == a;
      assert j < i;
      assert order[..i][j] == a;
    }
  }

  /** `dir` is there, or only its last component is missing. */
  ghost predicate Makeable(t: Tree, dir: Path) {
    && (forall a :: Above(a, dir) ==> Passable(t, a))
    && if dir in t then t[dir].Dir? else WritableParent(t, dir)
  }

  /** Create the components of `dir` that are missing, never through a link. */
  method EnsureDirectory(live: Live, dir: Path) returns (s: Status)
    requires live.Valid()
    modifies live
    ensures live.Valid()
    ensures s.Done? ==> dir in live.tree && live.tree[dir].Dir? && Resolves(live.tree, dir)
    ensures s.Done? ==> forall a :: Above(a, dir) ==> a in live.tree && live.tree[a].Dir?
    ensures forall p :: p in old(live.tree) ==> p in live.tree && live.tree[p] == old(live.tree)[p]
    ensures forall p :: p in live.tree && p !in old(live.tree) ==> live.tree[p] == Dir(live.dirMode) && (p == dir || Above(p, dir))
    ensures Makeable(old(live.tree), dir) ==> s.Done?
  {
    for k := 1 to |dir| + 1
      invariant live.Valid()
      invariant forall p :: p in old(live.tree) ==> p in live.tree && live.tree[p] == old(live.tree)[p]
      invariant forall p :: p in live.tree && p !in old(live.tree) ==> live.tree[p] == Dir(live.dirMode) && (p == dir || Above(p, dir))
      invariant forall p :: p in live.tree && p !in old(live.tree) ==> |p| < k
      invariant Resolves(live.tree, dir[..k - 1]) && dir[..k - 1] in live.tree && live.tree[dir[..k - 1]].Dir?
    {
      var prefix := dir[..k];
      assert Parent(prefix) == dir[..k - 1];
      assert forall a :: Above(a, prefix) ==> Above(a, dir) by {
        forall a | Above(a, prefix) ensures Above(a, dir) { assert dir[..|a|] == prefix[..|a|]; }
      }
      assert if k < |dir| then Above(prefix, dir) else prefix == dir;
      ghost var before := live.tree;
      var made := live.Mkdir(prefix);
      if Resolves(before, prefix) { ReachesAgree(before, live.tree, prefix); }
      if made.Refused? { return Refused; }
      if !(Resolves(live.tree, prefix) && prefix in live.tree && live.tree[prefix].Dir?) { return Refused; }
    }
    assert dir[..|dir|] == dir;
    return Done;
  }

  // --- the plan's changes ---------------------------------------------------------------

  datatype Effect = Created | Changed | Deleted
  datatype Kind = FileKind | DirectoryKind | SymlinkKind
  datatype Change = Change(path: Path, effect: Effect, kind: Kind)

  function KindOf(n: Node): Kind {
    match n
    case File(_, _) => FileKind
    case Dir(_) => DirectoryKind
    case Symlink(_) => SymlinkKind
  }

  /** `c` is a difference between the live capture and the target. */
  predicate Differs(current: Tree, target: Tree, c: Change) {
    match c.effect
    case Deleted =>
      c.path in current && c.kind == KindOf(current[c.path])
      && (c.path in target ==> !current[c.path].SameType(target[c.path]))
    case Created =>
      c.path in target && c.kind == KindOf(target[c.path])
      && (c.path in current ==> !current[c.path].SameType(target[c.path]))
    case Changed =>
      c.path in current && c.path in target && c.kind == KindOf(target[c.path])
      && current[c.path].SameType(target[c.path]) && current[c.path] != target[c.path]
  }

  /** Listed more than once. */
  predicate Repeated(roots: seq<Path>, r: Path) {
    exists i, j :: 0 <= i < j < |roots| && roots[i] == r && roots[j] == r
  }

  /** A root of the list whose saved mode is not the live one, or, when its turn comes again, not the widened one. */
  predicate RootDiffers(t: Tree, roots: seq<Path>, rootModes: map<Path, Mode>, c: Change) {
    && c.effect.Changed? && c.kind.DirectoryKind? && c.path in roots
    && c.path in rootModes && c.path in t && t[c.path].Dir?
    && (t[c.path].mode != rootModes[c.path] || (Repeated(roots, c.path) && Widen(t[c.path].mode) != rootModes[c.path]))
  }

  method ListChanges(current: Tree, target: Tree) returns (changes: seq<Change>)
    ensures forall c :: c in changes <==> Differs(current, target, c)
    ensures forall i, j :: 0 <= i < j < |changes| ==> changes[i] != changes[j]
  {
    changes := [];
    var rest := current.Keys;
    while rest != {}
      invariant rest <= current.Keys
      invariant forall c :: c in changes <==> c.effect.Deleted? && c.path !in rest && Differs(current, target, c)
      invariant forall i, j :: 0 <= i < j < |changes| ==> changes[i] != changes[j]
      decreases rest
    {
      var path :| path in rest;
      rest := rest - {path};
      if path !in target || !current[path].SameType(target[path]) {
        changes := changes + [Change(path, Deleted, KindOf(current[path]))];
      }
    }
    rest := target.Keys;
    while rest != {}
      invariant rest <= target.Keys
      invariant forall c :: c in changes <==> (c.effect.Deleted? || c.path !in rest) && Differs(current, target, c)
      invariant forall i, j :: 0 <= i < j < |changes| ==> changes[i] != changes[j]
      decreases rest
    {
      var path :| path in rest;
      rest := rest - {path};
      if path !in current || !current[path].SameType(target[path]) {
        changes := changes + [Change(path, Created, KindOf(target[path]))];
      } else if current[path] != target[path] {
        changes := changes + [Change(path, Changed, KindOf(target[path]))];
      }
    }
  }

  // --- opening up ---------------------------------------------------------------------------

  /** The saved mode of a root, else the live one. */
  function RootMode(t: Tree, saved: map<Path, Mode>, r: Path): Mode {
    if r in saved then saved[r] else if r in t && t[r].Dir? then t[r].mode else 0x1FF
  }

  ghost function RootModes(t: Tree, saved: map<Path, Mode>, s: set<Path>): map<Path, Mode> {
    map r | r in s :: RootMode(t, saved, r)
  }

  /** What a restore ends with: a root without saved mode that is listed twice is found widened the second time. */
  function LastMode(t: Tree, saved: map<Path, Mode>, roots: seq<Path>, r: Path): Mode {
    var m := RootMode(t, saved, r);
    if r !in saved && Repeated(roots, r) then Widen(m) else m
  }

  ghost function LastModes(t: Tree, saved: map<Path, Mode>, roots: seq<Path>): map<Path, Mode> {
    map r | r in roots :: LastMode(t, saved, roots, r)
  }

  lemma RepeatedNext(roots: seq<Path>, i: nat, r: Path)
    requires i < |roots|
    ensures Repeated(roots[..i + 1], r) <==> Repeated(roots[..i], r) || (r == roots[i] && r in roots[..i])
  {
    var q, q' := roots[..i], roots[..i + 1];
    if Repeated(q', r) && !Repeated(q, r) {
      var k, j :| 0 <= k < j < |q'| && q'[k] == r && q'[j] == r;
      assert j == i && q[k] == r;
    }
    if Repeated(q, r) {
      var k, j :| 0 <= k < j < |q| && q[k] == r && q[j] == r;
      assert q'[k] == r && q'[j] == r;
    }
    if r == roots[i] && r in q {
      var k :| 0 <= k < |q| && q[k] == r;
      assert q'[k] == r && q'[i] == r;
    }
  }

  lemma LastModesNext(t: Tree, saved: map<Path, Mode>, roots: seq<Path>, i: nat)
    requires i < |roots|
    ensures var r := roots[i];
      LastModes(t, saved, roots[..i + 1]) == LastModes(t, saved, roots[..i])[r := LastMode(t, saved, roots[..i + 1], r)]
    ensures Repeated(roots[..i + 1], roots[i]) <==> roots[i] in roots[..i]
  {
    var r := roots[i];
    hide Repeated;
    forall x ensures Repeated(roots[..i + 1], x) <==> Repeated(roots[..i], x) || (x == r && r in roots[..i]) { RepeatedNext(roots, i, x); }
    assert roots[..i + 1] == roots[..i] + [r];
    if Repeated(roots[..i], r) { RepeatedListed(roots[..i], r); }
  }

  lemma RepeatedListed(roots: seq<Path>, r: Path)
    requires Repeated(roots, r)
    ensures r in roots
  {
  }

  lemma WidenedReaches(plan: Plan, s: set<Path>, p: Path)
    requires Resolves(plan.t, p)
    ensures Resolves(plan.Widened(s), p)
  {
  }

  lemma WidenedNext(plan: Plan, s: set<Path>, p: Path)
    requires p in plan.t && plan.t[p].Dir?
    ensures plan.Widened(s + {p}) == plan.Widened(s)[p := Dir(Widen(plan.t[p].mode))]
    ensures OwnerAll(plan.t[p].mode) ==> plan.Widened(s + {p}) == plan.Widened(s)
  {
  }

  lemma WidenedSkip(plan: Plan, s: set<Path>, p: Path)
    requires p in plan.t ==> !plan.t[p].Dir?
    ensures plan.Widened(s + {p}) == plan.Widened(s)
  {
  }

  method OpenRoots(live: Live, cfg: Config, saved: map<Path, Mode>, ghost plan: Plan)
    returns (s: Status, modes: map<Path, Mode>, changes: seq<Change>)
    requires live.Valid() && plan.t == live.tree && plan.cfg == cfg
    requires forall r :: r in cfg.roots ==> RealRoot(plan.t, r)
    modifies live
    ensures live.Valid() && s.Done?
    ensures live.tree == plan.Widened(RootSet(cfg))
    ensures modes == LastModes(plan.t, saved, cfg.roots)
    ensures forall c :: c in changes <==> RootDiffers(plan.t, cfg.roots, saved, c)
  {
    hide *;
    modes, changes := map[], [];
    NoRootsYet(plan, saved);
    for i := 0 to |cfg.roots|
      invariant live.Valid()
      invariant live.tree == plan.Widened(Done'(cfg.roots, i))
      invariant modes == LastModes(plan.t, saved, cfg.roots[..i])
      invariant forall c :: c in changes <==> RootDiffers(plan.t, cfg.roots[..i], saved, c)
    {
      var root := cfg.roots[i];
      ghost var done := Done'(cfg.roots, i);
      NextDone(cfg.roots, i);
      RootDue(plan, saved, cfg.roots, i);
      var mode := live.tree[root].mode;
      modes := modes[root := if root in saved then saved[root] else mode];
      LastModesNext(plan.t, saved, cfg.roots, i);
      RootDiffersNext(plan.t, saved, cfg.roots, i, changes, mode);
      if mode != modes[root] {
        changes := changes + [Change(root, Changed, DirectoryKind)];
      }
      WidenedNext(plan, done, root);
      if !OwnerAll(mode) {
        s := live.Chmod(root, Widen(mode));
      }
    }
    assert Done'(cfg.roots, |cfg.roots|) == RootSet(cfg) by { AllRootsDone(cfg); }
    assert cfg.roots[..|cfg.roots|] == cfg.roots;
    s := Done;
  }

  lemma NoRootsYet(plan: Plan, saved: map<Path, Mode>)
    ensures Done'(plan.cfg.roots, 0) == {} && plan.t == plan.Widened({})
    ensures map[] == LastModes(plan.t, saved, plan.cfg.roots[..0])
    ensures forall c :: !RootDiffers(plan.t, plan.cfg.roots[..0], saved, c)
  {
  }

  lemma AllRootsDone(cfg: Config)
    ensures Done'(cfg.roots, |cfg.roots|) == RootSet(cfg)
    ensures forall r :: r in RootSet(cfg) <==> r in cfg.roots
  {
    assert cfg.roots[..|cfg.roots|] == cfg.roots;
  }

  /** The root whose turn it is still has its live mode, the widened one if it had a turn before. */
  lemma RootDue(plan: Plan, saved: map<Path, Mode>, roots: seq<Path>, i: nat)
    requires i < |roots| && RealRoot(plan.t, roots[i])
    ensures var r, u := roots[i], plan.Widened(Done'(roots, i));
      && r in plan.t && plan.t[r].Dir? && r in u && Resolves(u, r)
      && u[r] == Dir(if r in roots[..i] then Widen(plan.t[r].mode) else plan.t[r].mode)
      && u[r].WithMode(Widen(u[r].mode)) == Dir(Widen(u[r].mode)) && Widen(u[r].mode) == Widen(plan.t[r].mode)
      && (OwnerAll(u[r].mode) && r !in roots[..i] ==> OwnerAll(plan.t[r].mode))
      && LastMode(plan.t, saved, roots[..i + 1], r) == if r in saved then saved[r] else u[r].mode
  {
    LastModesNext(plan.t, saved, roots, i);
    WidenedReaches(plan, Done'(roots, i), roots[i]);
    WidenTwice(plan.t[roots[i]].mode);
  }

  lemma WidenTwice(m: Mode)
    ensures Widen(Widen(m)) == Widen(m) && OwnerAll(Widen(m))
  {
  }

  lemma RootDiffersNext(t: Tree, saved: map<Path, Mode>, roots: seq<Path>, i: nat, changes: seq<Change>, mode: Mode)
    requires i < |roots| && forall c :: c in changes <==> RootDiffers(t, roots[..i], saved, c)
    requires roots[i] in t && t[roots[i]].Dir?
    requires mode == if roots[i] in roots[..i] then Widen(t[roots[i]].mode) else t[roots[i]].mode
    ensures var r := roots[i];
      var next := if r in saved && mode != saved[r] then changes + [Change(r, Changed, DirectoryKind)] else changes;
      forall c :: c in next <==> RootDiffers(t, roots[..i + 1], saved, c)
  {
    var r := roots[i];
    assert roots[..i + 1] == roots[..i] + [r];
    hide Repeated;
    forall x ensures Repeated(roots[..i + 1], x) <==> Repeated(roots[..i], x) || (x == r && r in roots[..i]) { RepeatedNext(roots, i, x); }
    if Repeated(roots[..i], r) { RepeatedListed(roots[..i], r); }
  }

  /** A captured path resolves once the roots and all shallower captured directories are open. */
  lemma OpenPath(plan: Plan, s: set<Path>, p: Path)
    requires plan.Fits() && p in plan.t && plan.cfg.Captures(p) && RootSet(plan.cfg) <= s
    requires forall a :: a in plan.t && plan.cfg.Captures(a) && |a| < |p| ==> a in s
    ensures Resolves(plan.Widened(s), p)
  {
    var u := plan.Widened(s);
    forall a | Above(a, p)
      ensures Passable(u, a)
    {
      AncestorKinds(plan.cfg, p, a);
      if a !in s {
        var r :| r in plan.cfg.roots && (a == r || Above(a, r));
        assert r in s && Passable(plan.t, a);
      }
    }
  }

  method OpenDirectories(live: Live, current: Tree, ghost plan: Plan) returns (s: Status)
    requires live.Valid() && plan.Fits() && current == plan.cfg.Captured(plan.t)
    requires live.tree == plan.Widened(RootSet(plan.cfg))
    modifies live
    ensures live.Valid() && s.Done?
    ensures live.tree == plan.Opened()
  {
    hide *;
    var order := ShallowFirst(current.Keys);
    ghost var roots := RootSet(plan.cfg);
    NoneDone(order);
    assert roots + {} == roots;
    AllDone(order, current.Keys);
    for i := 0 to |order|
      invariant live.Valid()
      invariant live.tree == plan.Widened(roots + Done'(order, i))
    {
      var path := order[i];
      ghost var done := roots + Done'(order, i);
      NextDone(order, i);
      assert roots + Done'(order, i + 1) == done + {path};
      CurrentAt(plan, current, path);
      if current[path].Dir? {
        WidenedNext(plan, done, path);
        if !OwnerAll(current[path].mode) {
          OpenDue(plan, order, i);
          s := live.Chmod(path, Widen(current[path].mode));
          if !s.Done? { return; }
        }
      } else {
        WidenedSkip(plan, done, path);
      }
    }
    assert live.tree == plan.Opened() by { OpenedDone(plan, order); }
    s := Done;
  }

  lemma CurrentAt(plan: Plan, current: Tree, p: Path)
    requires current == plan.cfg.Captured(plan.t) && p in current
    ensures p in plan.t && current[p] == plan.t[p] && plan.cfg.Captures(p)
  {
  }

  lemma OpenedDone(plan: Plan, order: seq<Path>)
    requires Done'(order, |order|) == plan.cfg.Captured(plan.t).Keys
    ensures plan.Widened(RootSet(plan.cfg) + Done'(order, |order|)) == plan.Opened()
  {
  }

  lemma OpenDue(plan: Plan, order: seq<Path>, i: nat)
    requires plan.Fits() && Lists(order, plan.cfg.Captured(plan.t).Keys) && ShallowOrder(order) && i < |order|
    ensures var u := plan.Widened(RootSet(plan.cfg) + Done'(order, i));
            && Resolves(u, order[i]) && order[i] in u && order[i] in plan.t
            && (plan.t[order[i]].Dir? ==> u[order[i]].WithMode(Widen(plan.t[order[i]].mode)) == Dir(Widen(plan.t[order[i]].mode)) && !u[order[i]].Symlink?)
  {
    hide ShallowOrder, Resolves;
    ShallowOrderShallower(order, plan.cfg.Captured(plan.t).Keys, i);
    assert order[i] in order;
    OpenPath(plan, RootSet(plan.cfg) + Done'(order, i), order[i]);
  }

  // --- deleting, creating, settling modes ---------------------------------------------------

  lemma GoneNext(plan: Plan, s: set<Path>, p: Path)
    ensures plan.Removes(p) ==> plan.Opened() - plan.Gone(s + {p}) == (plan.Opened() - plan.Gone(s)) - {p}
    ensures !plan.Removes(p) ==> plan.Gone(s + {p}) == plan.Gone(s)
    ensures plan.Opened() - plan.Gone({}) == plan.Opened()
  {
  }

  lemma RemoveDue(plan: Plan, order: seq<Path>, i: nat)
    requires plan.Fits() && plan.ListsRoots()
    requires Lists(order, plan.cfg.Captured(plan.t).Keys) && DeepOrder(order) && i < |order| && plan.Removes(order[i])
    ensures var u, p := plan.Opened() - plan.Gone(Done'(order, i)), order[i];
            && p in u && u[p].Dir? == plan.t[p].Dir?
            && Resolves(u, p) && WritableParent(u, p) && (u[p].Dir? ==> Empty(u, p))
  {
    hide *;
    DeepOrderDeeper(order, plan.cfg.Captured(plan.t).Keys, i);
    MayRemove(plan, Done'(order, i), order[i]);
  }

  lemma RemovesIs(plan: Plan, p: Path)
    requires p in plan.t && plan.cfg.Captures(p)
    ensures plan.Removes(p) <==>
      p !in plan.target || !plan.t[p].SameType(plan.target[p]) || (!plan.t[p].Dir? && plan.t[p] != plan.target[p])
  {
  }

  lemma PrunedDone(plan: Plan, order: seq<Path>)
    requires Done'(order, |order|) == plan.cfg.Captured(plan.t).Keys
    ensures plan.Opened() - plan.Gone(Done'(order, |order|)) == plan.Pruned()
  {
    assert plan.Gone(Done'(order, |order|)) == plan.Gone(plan.t.Keys);
  }

  /** Unlink or remove whatever the target does not keep, children before parents. */
  method Delete(live: Live, current: Tree, target: Tree, ghost plan: Plan) returns (s: Status)
    requires live.Valid() && plan.Fits() && current == plan.cfg.Captured(plan.t) && target == plan.target
    requires live.tree == plan.Opened()
    modifies live
    ensures live.Valid()
    ensures plan.ListsRoots() ==> s.Done? && live.tree == plan.Pruned()
  {
    hide *;
    var order := DeepFirst(current.Keys);
    NoneDone(order);
    AllDone(order, current.Keys);
    GoneNext(plan, {}, []);
    for i := 0 to |order|
      invariant live.Valid()
      invariant plan.ListsRoots() ==> live.tree == plan.Opened() - plan.Gone(Done'(order, i))
    {
      var path := order[i];
      NextDone(order, i);
      CurrentAt(plan, current, path);
      RemovesIs(plan, path);
      GoneNext(plan, Done'(order, i), path);
      var found := current[path];
      if path !in target || !found.SameType(target[path]) || (!found.Dir? && found != target[path]) {
        if plan.ListsRoots() { RemoveDue(plan, order, i); }
        if found.Dir? {
          s := live.Rmdir(path);
        } else {
          s := live.Unlink(path);
        }
        if !s.Done? { return; }
      }
    }
    PrunedDone(plan, order);
    s := Done;
  }

  lemma GrownNext(plan: Plan, s: set<Path>, p: Path)
    requires p in plan.target && p !in s
    ensures p in plan.Grown(s) ==> plan.Grown(s + {p}) == plan.Grown(s)
    ensures p !in plan.Grown(s) ==> plan.Grown(s + {p}) == plan.Grown(s)[p := plan.Made(p)]
  {
    GrownAt(plan, s, p);
  }

  lemma GrownStart(plan: Plan)
    ensures plan.Grown({}) == plan.Pruned()
  {
  }

  lemma CreateDue(plan: Plan, order: seq<Path>, i: nat)
    requires plan.Fits() && plan.ListsRoots()
    requires Lists(order, plan.target.Keys) && ShallowOrder(order) && i < |order|
    ensures var u, p := plan.Grown(Done'(order, i)), order[i];
            && p in plan.target && p !in Done'(order, i)
            && (forall a :: Above(a, p) ==> Passable(u, a)) && Resolves(u, p) && WritableParent(u, p)
            && (p in u <==> p in plan.t && plan.Keeps(p)) && (p in u ==> u[p].SameType(plan.target[p]))
            && (plan.target[p].Dir? ==> Makeable(u, p) && plan.Made(p) == Dir(plan.dirMode) && (p in u ==> u[p].Dir?))
            && Makeable(u, Parent(p))
            && (!plan.target[p].Dir? ==> plan.Made(p) == plan.target[p])
  {
    hide Resolves, Plan.Grown, Plan.Fits, Plan.ListsRoots, Plan.Keeps, Lists, ShallowOrder, Done';
    ShallowOrderShallower(order, plan.target.Keys, i);
    AllDone(order, plan.target.Keys);
    MayCreate(plan, Done'(order, i), order[i]);
    AboveParent(order[i]);
    assert Shallower(Done'(order, i), plan.target.Keys, order[i]);
  }

  lemma KeepsIs(plan: Plan, current: Tree, p: Path)
    requires plan.Fits() && current == plan.cfg.Captured(plan.t) && p in plan.target && !plan.target[p].Dir?
    ensures (p in plan.t && plan.Keeps(p)) <==> (p in current && current[p] == plan.target[p])
  {
  }

  lemma Remade(n: Node, m: Mode)
    requires !n.Dir?
    ensures n.File? ==> !n.WithMode(m).Symlink? && n.WithMode(m).WithMode(n.mode) == n
    ensures n.Symlink? ==> n.WithMode(m) == n
  {
  }

  /** Nothing was missing, or exactly the last component was. */
  lemma EnsuredOne(t: Tree, u: Tree, dir: Path, m: Mode)
    requires Makeable(t, dir)
    requires forall p :: p in t ==> p in u && u[p] == t[p]
    requires forall p :: p in u && p !in t ==> u[p] == Dir(m) && (p == dir || Above(p, dir))
    requires dir in u
    ensures u == if dir in t then t else t[dir := Dir(m)]
  {
  }

  /** Create what the target adds, parents before children. */
  method Populate(live: Live, current: Tree, target: Tree, ghost plan: Plan) returns (s: Status)
    requires live.Valid() && plan.Fits() && current == plan.cfg.Captured(plan.t) && target == plan.target
    requires live.dirMode == plan.dirMode
    requires plan.ListsRoots() ==> live.tree == plan.Pruned()
    modifies live
    ensures live.Valid()
    ensures plan.ListsRoots() ==> s.Done? && live.tree == plan.Grown(target.Keys)
  {
    hide *;
    var order := ShallowFirst(target.Keys);
    NoneDone(order);
    AllDone(order, target.Keys);
    GrownStart(plan);
    for i := 0 to |order|
      invariant live.Valid()
      invariant plan.ListsRoots() ==> live.tree == plan.Grown(Done'(order, i))
    {
      var path := order[i];
      var next := target[path];
      ghost var before := live.tree;
      NextDone(order, i);
      if plan.ListsRoots() {
        CreateDue(plan, order, i);
        GrownNext(plan, Done'(order, i), path);
      }
      if next.Dir? {
        s := EnsureDirectory(live, path);
        if !s.Done? { return; }
        if plan.ListsRoots() { EnsuredOne(before, live.tree, path, live.dirMode); }
      } else {
        KeepsIs(plan, current, path);
        if path !in current || current[path] != next {
          CapturedNotRoot(plan, path);
          s := EnsureDirectory(live, Parent(path));
          if !s.Done? { return; }
          if plan.ListsRoots() { EnsuredParent(before, live.tree, path, live.dirMode); }
          s := live.Create(path, next);
          if !s.Done? { return; }
          Remade(next, live.fileMode);
          if next.File? {
            if plan.ListsRoots() { ReachesStill(before, live.tree, path); }
            s := live.Chmod(path, next.mode);
            if !s.Done? { return; }
          }
        }
      }
    }
    s := Done;
  }

  lemma CapturedNotRoot(plan: Plan, p: Path)
    requires plan.Fits() && p in plan.target
    ensures p != []
  {
  }

  lemma EnsuredParent(t: Tree, u: Tree, p: Path, m: Mode)
    requires p != [] && Makeable(t, Parent(p)) && WritableParent(t, p)
    requires forall q :: q in t ==> q in u && u[q] == t[q]
    requires forall q :: q in u && q !in t ==> u[q] == Dir(m) && (q == Parent(p) || Above(q, Parent(p)))
    requires Parent(p) in u
    ensures u == t
  {
    EnsuredOne(t, u, Parent(p), m);
  }

  lemma ReachesStill(t: Tree, u: Tree, p: Path)
    requires Resolves(t, p) && forall q :: q in t && q != p ==> q in u && u[q] == t[q]
    ensures Resolves(u, p)
  {
    ReachesAgree(t, u, p);
  }

  // --- final modes -------------------------------------------------------------------------------

  lemma SettledNext(plan: Plan, s: set<Path>, p: Path)
    requires p in plan.target
    ensures plan.target[p].Dir? && p !in plan.last && p in plan.Settled(s) ==> plan.Settled(s + {p}) == plan.Settled(s)[p := plan.target[p]]
    ensures !(plan.target[p].Dir? && p !in plan.last) ==> plan.Settled(s + {p}) == plan.Settled(s)
    ensures plan.Settled({}) == plan.Grown(plan.target.Keys)
  {
    hide Plan.Grown;
  }

  lemma SettleDue(plan: Plan, order: seq<Path>, i: nat)
    requires plan.Fits() && plan.ListsRoots()
    requires Lists(order, plan.target.Keys) && DeepOrder(order) && i < |order|
    requires plan.target[order[i]].Dir? && order[i] !in plan.last
    ensures var u, p := plan.Settled(Done'(order, i)), order[i];
            Resolves(u, p) && p in u && u[p].Dir? && u[p].WithMode(plan.target[p].mode) == plan.target[p]
  {
    hide Plan.Settled, Resolves, Plan.Fits, Plan.ListsRoots;
    DeepOrderDeeper(order, plan.target.Keys, i);
    MaySettle(plan, Done'(order, i), order[i]);
  }

  /** Exact modes for target directories, children before parents; roots and what is above them wait. */
  method Settle(live: Live, target: Tree, last: map<Path, Mode>, ghost plan: Plan) returns (s: Status)
    requires live.Valid() && plan.Fits() && target == plan.target && last == plan.last
    requires plan.ListsRoots() ==> live.tree == plan.Grown(target.Keys)
    modifies live
    ensures live.Valid()
    ensures plan.ListsRoots() ==> s.Done? && live.tree == plan.Settled(target.Keys)
  {
    hide *;
    var order := DeepFirst(target.Keys);
    NoneDone(order);
    AllDone(order, target.Keys);
    if order != [] { SettledNext(plan, {}, order[0]); } else { SettledNone(plan); }
    for i := 0 to |order|
      invariant live.Valid()
      invariant plan.ListsRoots() ==> live.tree == plan.Settled(Done'(order, i))
    {
      var path := order[i];
      NextDone(order, i);
      SettledNext(plan, Done'(order, i), path);
      if target[path].Dir? && path !in last {
        if plan.ListsRoots() { SettleDue(plan, order, i); }
        s := live.Chmod(path, target[path].mode);
        if !s.Done? { return; }
      }
    }
    s := Done;
  }

  lemma SettledNone(plan: Plan)
    ensures plan.Settled({}) == plan.Grown(plan.target.Keys)
  {
  }

  lemma FinishedNext(plan: Plan, id: Bytes, s: set<Path>, p: Path)
    requires p in plan.last && p in Held(plan, id)
    ensures Finished(plan, id, s + {p}) == Finished(plan, id, s)[p := Dir(plan.last[p])]
  {
    hide Held;
  }

  lemma FinishedStart(plan: Plan, id: Bytes)
    ensures Finished(plan, id, {}) == Held(plan, id)
  {
    hide Held;
  }

  lemma FinishDue(plan: Plan, id: Bytes, order: seq<Path>, i: nat)
    requires plan.Fits() && plan.ListsRoots() && CanWrite(plan.t, HEAD)
    requires Lists(order, plan.last.Keys) && DeepOrder(order) && i < |order|
    ensures var u, p := Finished(plan, id, Done'(order, i)), order[i];
            Resolves(u, p) && p in u && u[p].Dir? && u[p].WithMode(plan.last[p]) == Dir(plan.last[p]) && p in Held(plan, id)
  {
    hide Plan.Settled, Resolves, Plan.Fits, Plan.ListsRoots, CanWrite;
    var u, p := Finished(plan, id, Done'(order, i)), order[i];
    DeepOrderDeeper(order, plan.last.Keys, i);
    MayWriteHead(plan);
    forall a | Above(a, p) && a in plan.Settled(plan.target.Keys)
      ensures a in u && u[a] == plan.Settled(plan.target.Keys)[a]
    {
      NotHead(plan, p, a);
    }
    MayFinish(plan, u, p);
  }

  lemma NotHead(plan: Plan, p: Path, a: Path)
    requires plan.Fits() && plan.ListsRoots() && CanWrite(plan.t, HEAD) && p in plan.last && Above(a, p)
    ensures a != HEAD
  {
    hide Resolves, Plan.ListsRoots;
    var r :| r in plan.cfg.roots && (p == r || Above(p, r));
    if p != r { AboveTransitive(a, p, r); }
    assert RealRoot(plan.t, r);
  }

  /** Apply the modes that were held back, deepest first. */
  method ApplyModes(live: Live, order: seq<Path>, modes: map<Path, Mode>, ghost plan: Plan, ghost id: Bytes) returns (s: Status)
    requires live.Valid() && plan.Fits() && modes == plan.last
    requires Lists(order, modes.Keys) && DeepOrder(order)
    requires CanWrite(plan.t, HEAD) && plan.ListsRoots() ==> live.tree == Held(plan, id)
    modifies live
    ensures live.Valid()
    ensures s.Done? ==> forall p :: p in modes ==> p in live.tree
    ensures CanWrite(plan.t, HEAD) && plan.ListsRoots() ==> s.Done? && live.tree == Finished(plan, id, modes.Keys)
  {
    hide *;
    NoneDone(order);
    AllDone(order, modes.Keys);
    FinishedStart(plan, id);
    for i := 0 to |order|
      invariant live.Valid()
      invariant forall p :: p in Done'(order, i) ==> p in live.tree
      invariant CanWrite(plan.t, HEAD) && plan.ListsRoots() ==> live.tree == Finished(plan, id, Done'(order, i))
    {
      var path := order[i];
      NextDone(order, i);
      if CanWrite(plan.t, HEAD) && plan.ListsRoots() {
        FinishDue(plan, id, order, i);
        FinishedNext(plan, id, Done'(order, i), path);
      }
      s := live.Chmod(path, modes[path]);
      if !s.Done? { return; }
    }
    s := Done;
  }

  // --- the restore ------------------------------------------------------------------------------------

  method HoldModes(target: Tree, cfg: Config, rootModes: map<Path, Mode>) returns (last: map<Path, Mode>)
    requires rootModes.Keys == RootSet(cfg)
    ensures last == (map p | p in target && target[p].Dir? && AboveRoot(cfg, p) :: target[p].mode) + rootModes
  {
    hide AboveRoot;
    last := rootModes;
    var rest := target.Keys;
    while rest != {}
      invariant rest <= target.Keys
      invariant forall p :: p in last <==> p in rootModes || (p in target && p !in rest && target[p].Dir? && AboveRoot(cfg, p))
      invariant forall p :: p in last ==> last[p] == if p in rootModes then rootModes[p] else target[p].mode
      decreases rest
    {
      var path :| path in rest;
      rest := rest - {path};
      if target[path].Dir? && path !in last && AboveRoot(cfg, path) {
        last := last[path := target[path].mode];
      }
    }
  }

  method ExtendTarget(current: Tree, retained: set<Path>, saved: Tree) returns (ok: bool, target: Tree)
    ensures ok <==> forall a :: a in retained && a in saved ==> saved[a].Dir?
    ensures ok ==> target == saved + map a | a in retained && a in current && a !in saved && current[a].Dir? :: current[a]
  {
    target := saved;
    var rest := retained;
    while rest != {}
      invariant rest <= retained
      invariant forall a :: a in retained && a !in rest && a in saved ==> saved[a].Dir?
      invariant forall p :: p in target <==> p in saved || (p in retained && p !in rest && p in current && current[p].Dir?)
      invariant forall p :: p in target ==> target[p] == if p in saved then saved[p] else current[p]
      decreases rest
    {
      var path :| path in rest;
      rest := rest - {path};
      if path in saved && !saved[path].Dir? { return false, target; }
      if path !in target && path in current && current[path].Dir? {
        target := target[path := current[path]];
      }
    }
    ok := true;
  }

  ghost function PlanOf(t: Tree, cfg: Config, saved: Tree, rootModes: map<Path, Mode>, dirMode: Mode, fileMode: Mode): Plan {
    var target := Extended(t, cfg, saved);
    Plan(t, cfg, target,
         (map p | p in target && target[p].Dir? && AboveRoot(cfg, p) :: target[p].mode) + LastModes(t, rootModes, cfg.roots),
         dirMode, fileMode)
  }

  lemma ExtendedIsValid(t: Tree, cfg: Config, saved: Tree)
    requires WellFormed(t) && ValidSaved(cfg, saved) && !Conflicts(t, cfg, saved)
    ensures ValidSaved(cfg, Extended(t, cfg, saved))
    ensures forall a :: Retained(t, cfg, a) ==> a in Extended(t, cfg, saved) && Extended(t, cfg, saved)[a].Dir?
  {
    var target := Extended(t, cfg, saved);
    RetainedStays(t, cfg, saved);
    forall p | p in target ensures cfg.Captures(p) && (cfg.Implicit(p) ==> target[p].Dir?) { ExtendedAt(t, cfg, saved, p); }
    hide Config.Captures, Config.Implicit, Extended, Retained, Conflicts;
    forall p, a | p in target && Above(a, p)
      ensures if a in target then target[a].Dir? else cfg.Implicit(a)
    {
      ExtendedAbove(t, cfg, saved, p, a);
    }
  }

  lemma RetainedStays(t: Tree, cfg: Config, saved: Tree)
    requires WellFormed(t) && !Conflicts(t, cfg, saved)
    ensures forall a :: Retained(t, cfg, a) ==> a in Extended(t, cfg, saved) && Extended(t, cfg, saved)[a].Dir?
  {
    forall a | Retained(t, cfg, a) ensures a in t && t[a].Dir? { RetainedLive(t, cfg, a); }
    hide Retained, WellFormed;
  }

  lemma ExtendedAt(t: Tree, cfg: Config, saved: Tree, p: Path)
    requires WellFormed(t) && ValidSaved(cfg, saved) && p in Extended(t, cfg, saved)
    ensures cfg.Captures(p) && (cfg.Implicit(p) ==> Extended(t, cfg, saved)[p].Dir?)
  {
    if p !in saved { RetainedLive(t, cfg, p); }
    hide Config.Implicit, WellFormed, Retained;
  }

  lemma ExtendedAbove(t: Tree, cfg: Config, saved: Tree, p: Path, a: Path)
    requires WellFormed(t) && ValidSaved(cfg, saved) && p in Extended(t, cfg, saved) && Above(a, p)
    requires forall a :: Retained(t, cfg, a) ==> a in Extended(t, cfg, saved) && Extended(t, cfg, saved)[a].Dir?
    ensures if a in Extended(t, cfg, saved) then Extended(t, cfg, saved)[a].Dir? else cfg.Implicit(a)
  {
    if a in Extended(t, cfg, saved) && a !in saved { RetainedLive(t, cfg, a); }
    if p !in saved {
      var x :| x in t && Above(p, x) && cfg.Excluded(x);
      AboveTransitive(a, p, x);
      AncestorKinds(cfg, p, a);
      assert cfg.Captures(a) ==> Retained(t, cfg, a);
    }
    hide WellFormed, Config.Excluded, Config.UnderRoot, Config.Implicit;
  }

  lemma PlanFits(t: Tree, cfg: Config, saved: Tree, rootModes: map<Path, Mode>, dirMode: Mode, fileMode: Mode)
    requires WellFormed(t) && ValidSaved(cfg, saved) && !Conflicts(t, cfg, saved) && OwnerAll(dirMode)
    requires forall r :: r in cfg.roots ==> RealRoot(t, r)
    ensures PlanOf(t, cfg, saved, rootModes, dirMode, fileMode).Fits()
  {
    hide ValidSaved, Retained, Resolves, WellFormed;
    ExtendedIsValid(t, cfg, saved);
    hide Extended;
  }

  lemma RetainedLive(t: Tree, cfg: Config, a: Path)
    requires WellFormed(t) && Retained(t, cfg, a)
    ensures a in cfg.Captured(t) && t[a].Dir? && cfg.Captured(t)[a] == t[a] && cfg.Captures(a)
  {
  }

  lemma ExtendedIs(t: Tree, cfg: Config, saved: Tree, current: Tree, retained: set<Path>)
    requires WellFormed(t) && ValidSaved(cfg, saved) && current == cfg.Captured(t)
    requires forall a :: cfg.Captures(a) ==> (a in retained <==> Retained(t, cfg, a))
    ensures Conflicts(t, cfg, saved) <==> exists a :: a in retained && a in saved && !saved[a].Dir?
    ensures saved + (map a | a in retained && a in current && a !in saved && current[a].Dir? :: current[a]) == Extended(t, cfg, saved)
  {
    hide Retained, WellFormed, Config.Captures;
    assert forall a :: a in current ==> a in t && current[a] == t[a] && cfg.Captures(a);
    assert forall a :: a in saved ==> cfg.Captures(a);
    forall a | Retained(t, cfg, a)
      ensures a in current && a in t && t[a].Dir? && cfg.Captures(a)
    {
      RetainedLive(t, cfg, a);
    }
    hide ValidSaved, Config.Captured;
    var extra := map a | a in retained && a in current && a !in saved && current[a].Dir? :: current[a];
    assert extra == map a | a in t && a !in saved && Retained(t, cfg, a) :: t[a];
  }

  ghost predicate IsChange(plan: Plan, rootModes: map<Path, Mode>, c: Change) {
    Differs(plan.cfg.Captured(plan.t), plan.target, c) || RootDiffers(plan.t, plan.cfg.roots, rootModes, c)
  }

  lemma ListedIfReached(plan: Plan, id: Bytes, u: Tree)
    requires plan.Fits() && WellFormed(u) && Reached(plan, id, u)
    requires forall p :: p in plan.last ==> p in u
    ensures plan.ListsRoots()
  {
    HeadIsReserved();
    forall d | d in plan.t && plan.cfg.Implicit(d) && plan.cfg.Captures(d)
      ensures d in plan.target
    {
      var r :| r in plan.cfg.roots && (d == r || Above(d, r));
      assert r in plan.last;
      assert d in u && d != HEAD;
    }
  }

  lemma ValidIsWellFormed(live: Live)
    ensures live.Valid() <==> WellFormed(live.tree)
  {
  }

  lemma WalkableRoots(t: Tree, cfg: Config)
    requires Walkable(t, cfg, true)
    ensures forall r :: r in cfg.roots ==> RealRoot(t, r)
  {
    hide AcceptsEntry, RealRoot;
  }

  lemma PlanParts(t: Tree, cfg: Config, saved: Tree, rootModes: map<Path, Mode>, dirMode: Mode, fileMode: Mode)
    ensures var plan := PlanOf(t, cfg, saved, rootModes, dirMode, fileMode); var target := Extended(t, cfg, saved);
      && plan.t == t && plan.cfg == cfg && plan.target == target && plan.dirMode == dirMode && plan.fileMode == fileMode
      && plan.last == (map p | p in target && target[p].Dir? && AboveRoot(cfg, p) :: target[p].mode) + LastModes(t, rootModes, cfg.roots)
    ensures LastModes(t, rootModes, cfg.roots).Keys == RootSet(cfg)
  {
    hide Extended, AboveRoot, Repeated;
  }

  lemma ChangesAre(plan: Plan, rootModes: map<Path, Mode>, current: Tree, listed: seq<Change>, roots: seq<Change>)
    requires current == plan.cfg.Captured(plan.t)
    requires forall c :: c in listed <==> Differs(current, plan.target, c)
    requires forall c :: c in roots <==> RootDiffers(plan.t, plan.cfg.roots, rootModes, c)
    ensures forall c :: c in listed + roots <==> IsChange(plan, rootModes, c)
  {
    hide Differs, RootDiffers;
  }

  lemma HeldIs(plan: Plan, id: Bytes)
    requires plan.Fits() && CanWrite(plan.t, HEAD)
    ensures var u := plan.Settled(plan.target.Keys);
      CanWrite(u, HEAD) && u[HEAD := Written(u, HEAD, id, plan.fileMode)] == Held(plan, id)
  {
    hide Plan.Settled, Plan.Fits, CanWrite;
    MayWriteHead(plan);
  }

  /**
   * Restore a saved tree over the live one. With `defer`, the modes of the roots and of what lies
   * above them are left for the caller, who applies `last` in the order `order`.
   */
  method RestoreInPlace(live: Live, cfg: Config, saved: Tree, rootModes: map<Path, Mode>, id: Bytes, defer: bool)
    returns (ok: bool, changes: seq<Change>, last: map<Path, Mode>, order: seq<Path>)
    requires live.Valid() && OwnerAll(live.dirMode)
    requires ValidSaved(cfg, saved)
    modifies live
    ensures live.Valid()
    ensures !Walkable(old(live.tree), cfg, true) || Conflicts(old(live.tree), cfg, saved) ==> !ok && live.tree == old(live.tree)
    ensures Walkable(old(live.tree), cfg, true) && !Conflicts(old(live.tree), cfg, saved) && CanWrite(old(live.tree), HEAD) ==>
      var plan := PlanOf(old(live.tree), cfg, saved, rootModes, live.dirMode, live.fileMode);
      && plan.Fits()
      && (plan.ListsRoots() ==> ok && live.tree == if defer then Held(plan, id) else Finished(plan, id, plan.last.Keys))
      && (!defer ==> (ok && Reached(plan, id, live.tree) <==> plan.ListsRoots()))
      && (ok ==> last == plan.last && Lists(order, last.Keys) && DeepOrder(order))
      && (ok ==> forall c :: c in changes <==> IsChange(plan, rootModes, c))
  {
    hide *;
    changes, last, order := [], map[], [];
    ghost var t := live.tree;
    ValidIsWellFormed(live);
    var walk;
    ok, walk := WalkTree(live.tree, cfg, true);
    if !ok { return; }
    var current := walk.entries;
    ExtendedIs(t, cfg, saved, current, walk.retained);
    var target;
    ok, target := ExtendTarget(current, walk.retained, saved);
    if !ok { return; }
    WalkableRoots(t, cfg);
    PlanFits(t, cfg, saved, rootModes, live.dirMode, live.fileMode);
    ghost var plan := PlanOf(t, cfg, saved, rootModes, live.dirMode, live.fileMode);
    PlanParts(t, cfg, saved, rootModes, live.dirMode, live.fileMode);
    changes := ListChanges(current, target);
    var s, modes, rootChanges := OpenRoots(live, cfg, rootModes, plan);
    ChangesAre(plan, rootModes, current, changes, rootChanges);
    changes := changes + rootChanges;
    last := HoldModes(target, cfg, modes);
    s := OpenDirectories(live, current, plan);
    s := Delete(live, current, target, plan);
    if !s.Done? { ok := false; return; }
    s := Populate(live, current, target, plan);
    if !s.Done? { ok := false; return; }
    s := Settle(live, target, last, plan);
    if !s.Done? { ok := false; return; }
    if CanWrite(t, HEAD) { HeldIs(plan, id); }
    s := live.Write(HEAD, id);
    if !s.Done? { ok := false; return; }
    order := DeepFirst(last.Keys);
    if !defer {
      s := ApplyModes(live, order, last, plan, id);
      if !s.Done? { ok := false; return; }
      if CanWrite(t, HEAD) && plan.ListsRoots() { FinishedIsReached(plan, id); }
      ValidIsWellFormed(live);
      if Reached(plan, id, live.tree) { ListedIfReached(plan, id, live.tree); }
    }
    ok := true;
  }
}
