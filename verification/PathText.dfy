/** Paths as slash-separated strings, and why reasoning on components is the same. */
module PathText {
  import opened Bytes
  import opened Paths
  import opened Workspace
  import opened Tar
  import opened TarRoundTrip

  /** `"/a/b"` for `[a, b]`; the empty string for the root. */
  function Render(p: Path): Bytes {
    if p == [] then [] else Render(p[..|p| - 1]) + [SLASH] + p[|p| - 1]
  }

  /** `s.lastIndexOf('/')` */
  function LastSlash(s: Bytes): (i: int)
    ensures -1 <= i < |s|
    ensures i >= 0 ==> s[i] == SLASH
    ensures forall k :: i < k < |s| ==> s[k] != SLASH
  {
    if s == [] then -1
    else if s[|s| - 1] == SLASH then |s| - 1
    else LastSlash(s[..|s| - 1])
  }

  function Split(s: Bytes): Path {
    var i := LastSlash(s);
    if s == [] then [] else if i == -1 then [s] else Split(s[..i]) + [s[i + 1..]]
  }

  predicate ValidPath(p: Path) {
    forall i :: 0 <= i < |p| ==> ValidName(p[i])
  }

  /** After the last slash of `pre + "/" + name` there is only `name`. */
  lemma TailIsName(pre: Bytes, name: Bytes, j: nat)
    requires SLASH !in name && |pre| < j < |pre| + 1 + |name|
    ensures (pre + [SLASH] + name)[j] != SLASH
  {
    assert (pre + [SLASH] + name)[j] == name[j - |pre| - 1];
  }

  lemma SlashBefore(pre: Bytes, name: Bytes, j: nat)
    requires SLASH !in name && j < |pre| + 1 + |name| && (pre + [SLASH] + name)[j] == SLASH
    ensures j <= |pre|
  {
    if |pre| < j { TailIsName(pre, name, j); }
  }

  lemma {:induction false} LastSlashUnique(t: Bytes, i: nat)
    requires i < |t| && t[i] == SLASH && forall k :: i < k < |t| ==> t[k] != SLASH
    ensures LastSlash(t) == i
  {
  }

  lemma LastSlashIs(s: Bytes, name: Bytes)
    requires SLASH !in name
    ensures LastSlash(s + [SLASH] + name) == |s|
  {
    hide LastSlash;
    var t := s + [SLASH] + name;
    assert t[|s|] == SLASH;
    forall k | |s| < k < |t| ensures t[k] != SLASH { TailIsName(s, name, k); }
    LastSlashUnique(t, |s|);
  }

  lemma {:induction false} SplitRender(p: Path)
    requires ValidPath(p)
    ensures Split(Render(p)) == p
  {
    if p != [] {
      var pre, name := p[..|p| - 1], p[|p| - 1];
      LastSlashIs(Render(pre), name);
      var s := Render(p);
      assert s[..|Render(pre)|] == Render(pre) && s[|Render(pre)| + 1..] == name;
      SplitRender(pre);
      assert p == pre + [name];
    }
  }

  /** The string prefix test of the source is the component test. */
  lemma {:induction false} PrefixIsAbove(q: Path, p: Path)
    requires ValidPath(q) && ValidPath(p)
    ensures Render(q) + [SLASH] <= Render(p) <==> Above(q, p)
  {
    if p != [] {
      var pre, name := p[..|p| - 1], p[|p| - 1];
      PrefixIsAbove(q, pre);
      AboveParent(p);
      var s, t := Render(p), Render(q) + [SLASH];
      assert s == Render(pre) + [SLASH] + name;
      if t <= s {
        assert s[|t| - 1] == SLASH;
        SlashBefore(Render(pre), name, |t| - 1);
        if |t| == |Render(pre)| + 1 {
          assert Render(q) == s[..|Render(q)|] == Render(pre);
          SplitRender(q);
          SplitRender(pre);
        } else {
          assert t == s[..|t|] == Render(pre)[..|t|];
        }
      }
      if Above(q, p) {
        if q == pre {
          assert s[..|t|] == t;
        } else {
          assert s[..|t|] == Render(pre)[..|t|];
        }
      }
    }
  }

  /** Valid nonempty paths are stored by the tar writer and reported unchanged. */
  lemma RenderIsNormal(p: Path)
    requires ValidPath(p) && p != []
    ensures NormalPath(Render(p))
  {
    var pre, name := p[..|p| - 1], p[|p| - 1];
    RenderNoNul(p);
    RenderHead(p);
    assert name[|name| - 1] in name;
    assert Render(p)[|Render(p)| - 1] == name[|name| - 1];
  }

  lemma {:induction false} RenderNoNul(p: Path)
    requires ValidPath(p)
    ensures 0 !in Render(p)
  {
    if p != [] { RenderNoNul(p[..|p| - 1]); }
  }

  /** The first component follows the leading slash. */
  lemma {:induction false} RenderHead(p: Path)
    requires ValidPath(p) && p != []
    ensures |Render(p)| >= 1 + |p[0]| && Render(p)[..1 + |p[0]|] == [SLASH] + p[0]
    ensures |Render(p)| == 1 + |p[0]| || Render(p)[1 + |p[0]|] == SLASH
    ensures Render(p)[0] == SLASH && Render(p)[1] == p[0][0] && p[0][0] != SLASH
    ensures p[0][0] != DOT || (|p[0]| >= 2 && Render(p)[2] == p[0][1] && p[0][1] != SLASH)
  {
    var pre, name := p[..|p| - 1], p[|p| - 1];
    assert p[0][0] in p[0];
    if |p[0]| >= 2 { assert p[0][1] in p[0]; }
    if pre == [] {
      assert Render(p) == [SLASH] + p[0];
    } else {
      RenderHead(pre);
      assert pre[0] == p[0];
      assert Render(p)[..1 + |p[0]|] == Render(pre)[..1 + |p[0]|];
    }
    assert Render(p)[1] == Render(p)[..1 + |p[0]|][1];
    if |p[0]| >= 2 { assert Render(p)[2] == Render(p)[..1 + |p[0]|][2]; }
  }
}
