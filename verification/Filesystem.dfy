/** A file tree with owner permissions, and the primitive steps a restore takes on it. */
module Filesystem {
  import opened Bytes
  import opened Paths

  // --- modes --------------------------------------------------------------------

  type Mode = bv9
  const OWNER_RWX: Mode := 0x1C0

  predicate OwnerR(m: Mode) { m & 0x100 != 0 }
  predicate OwnerW(m: Mode) { m & 0x080 != 0 }
  predicate OwnerX(m: Mode) { m & 0x040 != 0 }
  predicate OwnerAll(m: Mode) { m & OWNER_RWX == OWNER_RWX }

  function Widen(m: Mode): (w: Mode)
    ensures OwnerR(w) && OwnerW(w) && OwnerX(w)
    ensures OwnerAll(m) ==> w == m
  {
    m | OWNER_RWX
  }

  // --- trees --------------------------------------------------------------------

  datatype Node =
    | File(bytes: Bytes, mode: Mode)
    | Dir(mode: Mode)
    | Symlink(target: Bytes)
  {
    predicate SameType(o: Node) {
      File? == o.File? && Dir? == o.Dir?
    }
    function WithMode(m: Mode): Node {
      match this
      case File(b, _) => File(b, m)
      case Dir(_) => Dir(m)
      case Symlink(t) => this
    }
  }

  type Tree = map<Path, Node>

  /** Every proper ancestor of a present path is a present directory. */
  ghost predicate WellFormed(t: Tree) {
    && [] in t && t[[]].Dir?
    && forall p, a :: p in t && Above(a, p) ==> a in t && t[a].Dir?
  }

  predicate Passable(t: Tree, a: Path) {
    a in t && t[a].Dir? && OwnerX(t[a].mode)
  }

  /** The path resolves through real directories that the owner may search. */
  predicate Resolves(t: Tree, p: Path): (r: bool)
    ensures r <==> forall a :: Above(a, p) ==> Passable(t, a)
    decreases |p|
  {
    if p == [] then true
    else
      AboveParent(p);
      Passable(t, Parent(p)) && Resolves(t, Parent(p))
  }

  predicate WritableParent(t: Tree, p: Path) {
    p != [] && Parent(p) in t && t[Parent(p)].Dir? && OwnerW(t[Parent(p)].mode)
  }

  ghost predicate Empty(t: Tree, p: Path) {
    forall c :: c in t ==> !Above(p, c)
  }

  predicate HasChildren(t: Tree, p: Path): (r: bool)
    ensures r <==> !Empty(t, p)
  {
    exists c :: c in t && Above(p, c)
  }

  datatype Status = Done | AlreadyExists | Refused

  /** The live tree. Every step either takes full effect or leaves the tree as it was. */
  class Live {
    var tree: Tree
    const dirMode: Mode   // what a fresh directory gets from the process umask
    const fileMode: Mode

    ghost predicate Valid()
      reads this
    {
      WellFormed(tree)
    }

    method Chmod(p: Path, m: Mode) returns (s: Status)
      requires Valid()
      modifies this
      ensures Valid()
      ensures s.Done? <==> Resolves(old(tree), p) && p in old(tree) && !old(tree)[p].Symlink?
      ensures tree == if s.Done? then old(tree)[p := old(tree)[p].WithMode(m)] else old(tree)
    {
      if Resolves(tree, p) && p in tree && !tree[p].Symlink? {
        tree := tree[p := tree[p].WithMode(m)];
        return Done;
      }
      return Refused;
    }

    method Mkdir(p: Path) returns (s: Status)
      requires Valid()
      modifies this
      ensures Valid()
      ensures s.AlreadyExists? <==> Resolves(old(tree), p) && p in old(tree)
      ensures s.Done? <==> Resolves(old(tree), p) && p !in old(tree) && WritableParent(old(tree), p)
      ensures tree == if s.Done? then old(tree)[p := Dir(dirMode)] else old(tree)
    {
      if !Resolves(tree, p) { return Refused; }
      if p in tree { return AlreadyExists; }
      if !WritableParent(tree, p) { return Refused; }
      tree := tree[p := Dir(dirMode)];
      return Done;
    }

    method Rmdir(p: Path) returns (s: Status)
      requires Valid()
      modifies this
      ensures Valid()
      ensures s.Done? <==> Resolves(old(tree), p) && p in old(tree) && old(tree)[p].Dir?
                           && WritableParent(old(tree), p) && Empty(old(tree), p)
      ensures tree == if s.Done? then old(tree) - {p} else old(tree)
    {
      if Resolves(tree, p) && p in tree && tree[p].Dir? && WritableParent(tree, p) && !HasChildren(tree, p) {
        tree := tree - {p};
        return Done;
      }
      return Refused;
    }

    method Unlink(p: Path) returns (s: Status)
      requires Valid()
      modifies this
      ensures Valid()
      ensures s.Done? <==> Resolves(old(tree), p) && p in old(tree) && !old(tree)[p].Dir?
                           && WritableParent(old(tree), p)
      ensures tree == if s.Done? then old(tree) - {p} else old(tree)
    {
      if Resolves(tree, p) && p in tree && !tree[p].Dir? && WritableParent(tree, p) {
        tree := tree - {p};
        return Done;
      }
      return Refused;
    }

    /** Symlink creation, or a file write with the exclusive `wx` flag. */
    method Create(p: Path, n: Node) returns (s: Status)
      requires Valid() && !n.Dir?
      modifies this
      ensures Valid()
      ensures s.Done? <==> Resolves(old(tree), p) && p !in old(tree) && WritableParent(old(tree), p)
      ensures tree == if s.Done? then old(tree)[p := n.WithMode(fileMode)] else old(tree)
    {
      if Resolves(tree, p) && p !in tree && WritableParent(tree, p) {
        tree := tree[p := n.WithMode(fileMode)];
        return Done;
      }
      return Refused;
    }

    /** An overwriting write of a regular file. */
    method Write(p: Path, bytes: Bytes) returns (s: Status)
      requires Valid()
      modifies this
      ensures Valid()
      ensures s.Done? <==> CanWrite(old(tree), p)
      ensures tree == if s.Done? then old(tree)[p := Written(old(tree), p, bytes, fileMode)] else old(tree)
    {
      if CanWrite(tree, p) {
        tree := tree[p := Written(tree, p, bytes, fileMode)];
        return Done;
      }
      return Refused;
    }
  }

  predicate CanWrite(t: Tree, p: Path) {
    Resolves(t, p) && if p in t then t[p].File? && OwnerW(t[p].mode) else WritableParent(t, p)
  }

  function Written(t: Tree, p: Path, bytes: Bytes, initial: Mode): Node {
    File(bytes, if p in t && t[p].File? then t[p].mode else initial)
  }
}
