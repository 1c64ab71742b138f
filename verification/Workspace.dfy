/** What a snapshot captures of the live tree, and the recursive walk that collects it. */
module Workspace {
  import opened Bytes
  import opened Paths
  import opened Filesystem

  // --- capture boundary -----------------------------------------------------------

  const DOT: byte := 46
  const SLASH: byte := 47
  const BACKSLASH: byte := 92
  const WHITEOUT_PREFIX: Bytes := [46, 119, 104, 46]             // ".wh."
  const META_ROOT: Name := [46, 97, 114, 116, 105, 112, 111, 100] // ".artipod"
  const PROC_ROOT: Name := [112, 114, 111, 99]                    // "proc"

  function LowerByte(b: byte): byte {
    if 65 <= b <= 90 then b + 32 else b
  }

  function Lower(n: Name): Name {
    seq(|n|, i requires 0 <= i < |n| => LowerByte(n[i]))
  }

  /** Metadata and runtime roots, in any letter case. */
  predicate Reserved(p: Path) {
    p != [] && (Lower(p[0]) == META_ROOT || Lower(p[0]) == PROC_ROOT)
  }

  predicate ValidName(n: Name) {
    n != [] && n != [DOT] && n != [DOT, DOT] && SLASH !in n && BACKSLASH !in n && 0 !in n
  }

  predicate ValidTarget(target: Bytes, allowEmpty: bool) {
    (target != [] || allowEmpty) && 0 !in target
  }

  /** On the excluded list or below an entry of it. */
  predicate Excludes(exclude: set<Path>, p: Path) {
    Reserved(p) || exists e :: e in exclude && e != [] && (e == p || Above(e, p))
  }

  datatype Config = Config(roots: seq<Path>, exclude: set<Path>) {

    predicate Excluded(p: Path) {
      Excludes(exclude, p)
    }

    predicate UnderRoot(p: Path) {
      exists r :: r in roots && Above(r, p)
    }

    /** Inside a captured root and not excluded. */
    predicate Captures(p: Path) {
      UnderRoot(p) && !Excluded(p)
    }

    /** A captured root or an ancestor of one. */
    predicate Implicit(p: Path) {
      exists r :: r in roots && (p == r || Above(p, r))
    }

    lemma ExcludedBelow(a: Path, p: Path)
      requires Excluded(a) && Above(a, p)
      ensures Excluded(p)
    {
      if Reserved(a) {
        assert p[0] == p[..|a|][0];
      } else {
        var e :| e in exclude && e != [] && (e == a || Above(e, a));
        if e != a { AboveTransitive(e, a, p); }
      }
    }

    /** The slice of a tree that a snapshot records. */
    ghost function Captured(t: Tree): Tree {
      map p | p in t && Captures(p) :: t[p]
    }
  }

  // --- what the walk accepts ---------------------------------------------------------

  predicate WhiteoutName(n: Name) { |n| >= 4 && n[..4] == WHITEOUT_PREFIX }

  predicate AcceptsName(p: Path) {
    && p != []
    && (forall i :: 0 <= i < |p| ==> ValidName(p[i]))
    && !WhiteoutName(p[|p| - 1])
  }

  predicate Readable(n: Node, allowEmpty: bool) {
    match n
    case File(_, m) => OwnerR(m)
    case Dir(m) => OwnerR(m)
    case Symlink(target) => ValidTarget(target, allowEmpty)
  }

  predicate AcceptsEntry(t: Tree, p: Path, allowEmpty: bool)
    requires p in t
  {
    AcceptsName(p) && Resolves(t, p) && Readable(t[p], allowEmpty)
  }

  predicate RealRoot(t: Tree, r: Path) {
    r in t && t[r].Dir? && Resolves(t, r)
  }

  /** The walk of `t` completes. */
  ghost predicate Walkable(t: Tree, cfg: Config, allowEmpty: bool) {
    && (forall r :: r in cfg.roots ==> RealRoot(t, r))
    && (forall r :: r in cfg.roots ==> OwnerR(t[r].mode))
    && (forall p :: p in t && cfg.Captures(p) ==> AcceptsEntry(t, p, allowEmpty))
  }

  /** Directories that must stay because an excluded entry lives below them. */
  ghost predicate Retained(t: Tree, cfg: Config, a: Path) {
    cfg.Captures(a) && exists x :: x in t && Above(a, x) && cfg.Excluded(x)
  }

  // --- the walk ----------------------------------------------------------------------

  datatype Walk = Walk(entries: Tree, retained: set<Path>)

  function Ancestors(p: Path): (s: set<Path>)
    ensures forall a :: a in s <==> Above(a, p) && a != []
  {
    set k | 0 < k < |p| :: p[..k]
  }

  function Child(dir: Path, p: Path): Path
    requires Above(dir, p)
  {
    p[..|dir| + 1]
  }

  function Children(t: Tree, dir: Path): set<Path> {
    set p | p in t && p != [] && Parent(p) == dir
  }

  /** `p` lies at or below one of the children `done` of `dir`. */
  predicate In(dir: Path, done: set<Path>, p: Path) {
    Above(dir, p) && Child(dir, p) in done
  }

  ghost function Region(t: Tree, cfg: Config, dir: Path, done: set<Path>): Tree {
    map p | p in t && In(dir, done, p) && !cfg.Excluded(p) :: t[p]
  }

  /** Walking the children `done` of `dir` took `w` to `v`. */
  ghost predicate Collected(t: Tree, cfg: Config, dir: Path, done: set<Path>, w: Walk, v: Walk) {
    && v.entries == w.entries + Region(t, cfg, dir, done)
    && w.retained <= v.retained
    && (forall a, x :: x in t && In(dir, done, x) && cfg.Excluded(x) && Above(a, x) && cfg.Captures(a) ==> a in v.retained)
    && (forall a :: a in v.retained && a !in w.retained ==> exists x :: x in t && Above(a, x) && cfg.Excluded(x))
  }

  ghost predicate Accepted(t: Tree, cfg: Config, allowEmpty: bool, dir: Path, done: set<Path>) {
    forall p :: p in t && In(dir, done, p) && !cfg.Excluded(p) ==> AcceptsEntry(t, p, allowEmpty)
  }

  ghost predicate VisitAccepts(t: Tree, cfg: Config, allowEmpty: bool, dir: Path)
    requires dir in t && t[dir].Dir?
  {
    OwnerR(t[dir].mode) && Accepted(t, cfg, allowEmpty, dir, Children(t, dir))
  }

  ghost predicate Deepest(t: Tree, bound: nat) {
    forall p :: p in t ==> |p| <= bound
  }

  lemma DeepestExists(t: Tree)
    ensures exists n: nat :: Deepest(t, n)
  {
    if t == map[] {
      assert Deepest(t, 0);
    } else {
      var p :| p in t;
      var rest := t - {p};
      DeepestExists(rest);
      var n: nat :| Deepest(rest, n);
      assert forall q :: q in t ==> q == p || q in rest;
      assert Deepest(t, if n < |p| then |p| else n);
    }
  }

  /** Splitting off one child. */
  lemma InSplit(dir: Path, done: set<Path>, c: Path, p: Path)
    requires c != [] && Parent(c) == dir
    ensures In(dir, done + {c}, p) <==> In(dir, done, p) || p == c || Above(c, p)
  {
    if p == c || Above(c, p) {
      assert p[..|dir|] == p[..|c|][..|dir|] == dir;
      assert Child(dir, p) == c;
    }
  }

  method Visit(t: Tree, cfg: Config, allowEmpty: bool, dir: Path, w: Walk, ghost bound: nat) returns (ok: bool, v: Walk)
    requires WellFormed(t) && dir in t && t[dir].Dir? && Deepest(t, bound)
    ensures ok <==> VisitAccepts(t, cfg, allowEmpty, dir)
    ensures ok ==> Collected(t, cfg, dir, Children(t, dir), w, v)
    decreases bound - |dir|
  {
    hide Collected, AcceptsEntry, Accepted, WellFormed;
    v := w;
    if !OwnerR(t[dir].mode) { return false, v; }
    var names := Children(t, dir);
    var rest := names;
    NothingCollected(t, cfg, allowEmpty, dir, w);
    assert names - rest == {};
    while rest != {}
      invariant rest <= names
      invariant Accepted(t, cfg, allowEmpty, dir, names - rest)
      invariant Collected(t, cfg, dir, names - rest, w, v)
      decreases rest
    {
      var path :| path in rest;
      ghost var before, done := v, names - rest;
      assert names - (rest - {path}) == done + {path};
      forall p { InSplit(dir, done, path, p); }
      if cfg.Excluded(path) {
        v := v.(retained := v.retained + Ancestors(path));
        ExcludedStep(t, cfg, allowEmpty, dir, done, path, w, before, v);
      } else {
        if !AcceptsEntry(t, path, allowEmpty) {
          RefusedHere(t, cfg, allowEmpty, dir, path);
          return false, v;
        }
        v := v.(entries := v.entries[path := t[path]]);
        if t[path].Dir? {
          var inner;
          inner, v := Visit(t, cfg, allowEmpty, path, v, bound);
          if !inner {
            RefusedBelow(t, cfg, allowEmpty, dir, path);
            return false, v;
          }
        }
        IncludedStep(t, cfg, allowEmpty, dir, done, path, w, before, v);
      }
      rest := rest - {path};
    }
    ok := true;
    assert names - rest == names;
  }

  lemma NothingCollected(t: Tree, cfg: Config, allowEmpty: bool, dir: Path, w: Walk)
    ensures Accepted(t, cfg, allowEmpty, dir, {}) && Collected(t, cfg, dir, {}, w, w)
  {
    assert Region(t, cfg, dir, {}) == map[];
  }

  /** Everything below a present path lies at or below one of its children. */
  lemma BelowIsIn(t: Tree, dir: Path, p: Path)
    requires WellFormed(t) && p in t && Above(dir, p)
    ensures t[dir].Dir? && In(dir, Children(t, dir), p)
  {
    var c := Child(dir, p);
    assert Parent(c) == dir;
    if c != p { assert Above(c, p); }
  }

  lemma RefusedHere(t: Tree, cfg: Config, allowEmpty: bool, dir: Path, path: Path)
    requires dir in t && t[dir].Dir? && path in Children(t, dir) && !cfg.Excluded(path) && !AcceptsEntry(t, path, allowEmpty)
    ensures !VisitAccepts(t, cfg, allowEmpty, dir)
  {
    assert Child(dir, path) == path;
    assert In(dir, Children(t, dir), path);
  }

  lemma RefusedBelow(t: Tree, cfg: Config, allowEmpty: bool, dir: Path, path: Path)
    requires WellFormed(t) && dir in t && t[dir].Dir? && path in Children(t, dir) && t[path].Dir?
    requires !cfg.Excluded(path) && AcceptsEntry(t, path, allowEmpty)
    requires !VisitAccepts(t, cfg, allowEmpty, path)
    ensures !VisitAccepts(t, cfg, allowEmpty, dir)
  {
    var p :| p in t && In(path, Children(t, path), p) && !cfg.Excluded(p) && !AcceptsEntry(t, p, allowEmpty);
    AboveTransitive(dir, path, p);
    BelowIsIn(t, dir, p);
  }

  /** Adding child `path` to the region adds `path` and what lies below it. */
  lemma GrowRegion(t: Tree, dir: Path, done: set<Path>, path: Path)
    requires WellFormed(t) && path in t && path != [] && Parent(path) == dir
    ensures forall p :: p in t ==> (In(dir, done + {path}, p) <==> In(dir, done, p) || p == path || In(path, Children(t, path), p))
    ensures forall p :: p in t && In(path, Children(t, path), p) ==> t[path].Dir?
  {
    forall p | p in t
      ensures In(dir, done + {path}, p) <==> In(dir, done, p) || p == path || In(path, Children(t, path), p)
      ensures In(path, Children(t, path), p) ==> t[path].Dir?
    {
      InSplit(dir, done, path, p);
      if Above(path, p) { BelowIsIn(t, path, p); }
    }
  }

  lemma GrowEntries(t: Tree, cfg: Config, dir: Path, done: set<Path>, path: Path)
    requires WellFormed(t) && path in t && path != [] && Parent(path) == dir && !cfg.Excluded(path)
    ensures Region(t, cfg, dir, done + {path})
         == Region(t, cfg, dir, done)[path := t[path]] + Region(t, cfg, path, Children(t, path))
    ensures !t[path].Dir? ==> Region(t, cfg, path, Children(t, path)) == map[]
  {
    GrowRegion(t, dir, done, path);
  }

  lemma IncludedStep(t: Tree, cfg: Config, allowEmpty: bool, dir: Path, done: set<Path>, path: Path, w: Walk, before: Walk, v: Walk)
    requires WellFormed(t) && path in t && path != [] && Parent(path) == dir && !cfg.Excluded(path)
    requires AcceptsEntry(t, path, allowEmpty)
    requires Accepted(t, cfg, allowEmpty, dir, done) && Collected(t, cfg, dir, done, w, before)
    requires var mid := before.(entries := before.entries[path := t[path]]);
             if t[path].Dir? then VisitAccepts(t, cfg, allowEmpty, path) && Collected(t, cfg, path, Children(t, path), mid, v)
             else v == mid
    ensures Accepted(t, cfg, allowEmpty, dir, done + {path}) && Collected(t, cfg, dir, done + {path}, w, v)
  {
    hide AcceptsEntry, WellFormed, Region, In, Children, Above;
    GrowRegion(t, dir, done, path);
    GrowEntries(t, cfg, dir, done, path);
    var part, wider, sub := Region(t, cfg, dir, done), Region(t, cfg, dir, done + {path}), Region(t, cfg, path, Children(t, path));
    assert v.entries == w.entries + wider by {
      assert before.entries[path := t[path]] == w.entries + part[path := t[path]];
    }
  }

  lemma ExcludedStep(t: Tree, cfg: Config, allowEmpty: bool, dir: Path, done: set<Path>, path: Path, w: Walk, before: Walk, v: Walk)
    requires WellFormed(t) && path in t && path != [] && Parent(path) == dir && cfg.Excluded(path)
    requires Accepted(t, cfg, allowEmpty, dir, done) && Collected(t, cfg, dir, done, w, before)
    requires v == before.(retained := before.retained + Ancestors(path))
    ensures Accepted(t, cfg, allowEmpty, dir, done + {path}) && Collected(t, cfg, dir, done + {path}, w, v)
  {
    forall p
      ensures In(dir, done + {path}, p) && !In(dir, done, p) ==> cfg.Excluded(p)
      ensures In(dir, done, p) ==> In(dir, done + {path}, p)
    {
      InSplit(dir, done, path, p);
      if Above(path, p) { cfg.ExcludedBelow(path, p); }
    }
    assert Region(t, cfg, dir, done + {path}) == Region(t, cfg, dir, done);
    forall a, x | x in t && In(dir, done + {path}, x) && cfg.Excluded(x) && Above(a, x) && cfg.Captures(a)
      ensures a in v.retained
    {
      if !In(dir, done, x) {
        InSplit(dir, done, path, x);
        if !Above(a, path) {
          if a != path { AboveLinear(path, a, x); cfg.ExcludedBelow(path, a); }
          assert false;
        }
        assert a != [];
      }
    }
  }

  // --- the whole walk -------------------------------------------------------------------

  function UpTo(cfg: Config, i: nat): Config
    requires i <= |cfg.roots|
  {
    cfg.(roots := cfg.roots[..i])
  }

  ghost predicate RetainedSoFar(t: Tree, cfg: Config, i: nat, retained: set<Path>)
    requires i <= |cfg.roots|
  {
    && (forall a, x :: x in t && UpTo(cfg, i).UnderRoot(x) && cfg.Excluded(x) && Above(a, x) && cfg.Captures(a) ==> a in retained)
    && (forall a :: a in retained ==> exists x :: x in t && Above(a, x) && cfg.Excluded(x))
  }

  ghost predicate AcceptedSoFar(t: Tree, cfg: Config, allowEmpty: bool, i: nat)
    requires i <= |cfg.roots|
  {
    forall p :: p in t && UpTo(cfg, i).Captures(p) ==> AcceptsEntry(t, p, allowEmpty)
  }

  /** What the first `i` roots contributed. */
  ghost predicate WalkedRoots(t: Tree, cfg: Config, allowEmpty: bool, i: nat, w: Walk)
    requires i <= |cfg.roots|
  {
    && w.entries == UpTo(cfg, i).Captured(t)
    && RetainedSoFar(t, cfg, i, w.retained)
    && AcceptedSoFar(t, cfg, allowEmpty, i)
  }

  lemma NextRoot(t: Tree, cfg: Config, i: nat)
    requires WellFormed(t) && i < |cfg.roots|
    ensures forall p :: p in t ==>
      (UpTo(cfg, i + 1).UnderRoot(p) <==> UpTo(cfg, i).UnderRoot(p) || In(cfg.roots[i], Children(t, cfg.roots[i]), p))
    ensures UpTo(cfg, i + 1).Captured(t) == UpTo(cfg, i).Captured(t) + Region(t, cfg, cfg.roots[i], Children(t, cfg.roots[i]))
  {
    hide WellFormed, Excludes, Children;
    var r, low, high := cfg.roots[i], cfg.roots[..i], cfg.roots[..i + 1];
    forall p | p in t
      ensures UpTo(cfg, i + 1).UnderRoot(p) <==> UpTo(cfg, i).UnderRoot(p) || In(r, Children(t, r), p)
    {
      assert high == low + [r];
      if Above(r, p) { BelowIsIn(t, r, p); }
    }
    hide Above, In, Config.UnderRoot, Excludes;
    assert UpTo(cfg, i + 1).Captured(t) == UpTo(cfg, i).Captured(t) + Region(t, cfg, r, Children(t, r));
  }

  lemma RootStep(t: Tree, cfg: Config, allowEmpty: bool, i: nat, w: Walk, v: Walk)
    requires WellFormed(t) && i < |cfg.roots| && cfg.roots[i] in t && t[cfg.roots[i]].Dir?
    requires WalkedRoots(t, cfg, allowEmpty, i, w) && VisitAccepts(t, cfg, allowEmpty, cfg.roots[i])
    requires Collected(t, cfg, cfg.roots[i], Children(t, cfg.roots[i]), w, v)
    ensures WalkedRoots(t, cfg, allowEmpty, i + 1, v)
  {
    NextRoot(t, cfg, i);
    hide WellFormed, In, Above, AcceptsEntry, Config.UnderRoot, Config.Excluded, Children;
    assert AcceptedSoFar(t, cfg, allowEmpty, i + 1);
    assert RetainedSoFar(t, cfg, i + 1, v.retained);
  }

  /** The walk of a live tree collects exactly the captured slice. */
  method WalkTree(t: Tree, cfg: Config, allowEmpty: bool) returns (ok: bool, w: Walk)
    requires WellFormed(t)
    ensures ok <==> Walkable(t, cfg, allowEmpty)
    ensures ok ==> w.entries == cfg.Captured(t)
    ensures ok ==> forall a :: cfg.Captures(a) ==> (a in w.retained <==> Retained(t, cfg, a))
  {
    hide AcceptsEntry, WellFormed, Collected, Accepted, Resolves, WalkedRoots, Retained, Config.Captured, Config.Captures;
    w := Walk(map[], {});
    assert WalkedRoots(t, cfg, allowEmpty, 0, w) by { NoRoots(t, cfg, allowEmpty); }
    for i := 0 to |cfg.roots|
      invariant forall k :: 0 <= k < i ==> RealRoot(t, cfg.roots[k])
    {
      if !RealRoot(t, cfg.roots[i]) { return false, w; }
    }
    ghost var bound: nat :| Deepest(t, bound) by { DeepestExists(t); }
    for i := 0 to |cfg.roots|
      invariant WalkedRoots(t, cfg, allowEmpty, i, w)
      invariant forall k :: 0 <= k < i ==> OwnerR(t[cfg.roots[k]].mode)
    {
      ghost var before := w;
      ok, w := Visit(t, cfg, allowEmpty, cfg.roots[i], w, bound);
      if !ok {
        RefusedRoot(t, cfg, allowEmpty, cfg.roots[i]);
        return;
      }
      RootStep(t, cfg, allowEmpty, i, before, w);
    }
    ok := true;
    AllRoots(t, cfg, allowEmpty, w);
  }

  lemma NoRoots(t: Tree, cfg: Config, allowEmpty: bool)
    ensures WalkedRoots(t, cfg, allowEmpty, 0, Walk(map[], {}))
  {
    assert UpTo(cfg, 0).Captured(t) == map[];
  }

  lemma AllRoots(t: Tree, cfg: Config, allowEmpty: bool, w: Walk)
    requires WalkedRoots(t, cfg, allowEmpty, |cfg.roots|, w)
    requires forall r :: r in cfg.roots ==> RealRoot(t, r) && OwnerR(t[r].mode)
    ensures Walkable(t, cfg, allowEmpty) && w.entries == cfg.Captured(t)
    ensures forall a :: cfg.Captures(a) ==> (a in w.retained <==> Retained(t, cfg, a))
  {
    assert UpTo(cfg, |cfg.roots|) == cfg;
    forall a | cfg.Captures(a)
      ensures a in w.retained <==> Retained(t, cfg, a)
    {
      RetainedWhole(t, cfg, a, w.retained);
    }
  }

  lemma RefusedRoot(t: Tree, cfg: Config, allowEmpty: bool, r: Path)
    requires r in cfg.roots && RealRoot(t, r) && !VisitAccepts(t, cfg, allowEmpty, r)
    ensures !Walkable(t, cfg, allowEmpty)
  {
    if OwnerR(t[r].mode) {
      var p :| p in t && In(r, Children(t, r), p) && !cfg.Excluded(p) && !AcceptsEntry(t, p, allowEmpty);
      assert cfg.Captures(p);
    }
  }

  lemma RetainedWhole(t: Tree, cfg: Config, a: Path, retained: set<Path>)
    requires UpTo(cfg, |cfg.roots|) == cfg && RetainedSoFar(t, cfg, |cfg.roots|, retained) && cfg.Captures(a)
    ensures a in retained <==> Retained(t, cfg, a)
  {
    if Retained(t, cfg, a) {
      var x :| x in t && Above(a, x) && cfg.Excluded(x);
      var r :| r in cfg.roots && Above(r, a);
      AboveTransitive(r, a, x);
    }
  }
}
