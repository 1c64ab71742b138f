/** What an overlay push keeps, repeats and shows. */
module OverlayFacts {
  import opened Bytes
  import opened Paths
  import opened View
  import opened Order
  import opened Overlay

  // --- re-push -----------------------------------------------------------------------------------------

  lemma {:induction false} KeptConcat(e: Edit, a: seq<Slot>, b: seq<Slot>)
    ensures Kept(e, a + b) == Kept(e, a) + Kept(e, b)
    decreases |b|
  {
    hide Dropped;
    if b == [] {
      assert a + b == a;
    } else {
      assert (a + b)[..|a + b| - 1] == a + b[..|b| - 1];
      KeptConcat(e, a, b[..|b| - 1]);
    }
  }

  lemma {:induction false} KeptTwice(e: Edit, s: seq<Slot>)
    ensures Kept(e, Kept(e, s)) == Kept(e, s)
  {
    hide Dropped;
    if s != [] {
      var n := |s| - 1;
      KeptTwice(e, s[..n]);
      KeptConcat(e, Kept(e, s[..n]), if Dropped(e, s[n].layer) then [] else [s[n]]);
      assert [s[n]][..0] == [];
    }
  }

  lemma {:induction false} FilesDropped(t: Tools, e: Edit, q: seq<Path>)
    requires forall p :: p in q ==> p in e.upper
    ensures Kept(e, FileSlots(t, e, q)) == if Unannotated(e) then FileSlots(t, e, q) else []
    ensures |FileSlots(t, e, q)| == |q|
  {
    if q != [] {
      FilesDropped(t, e, q[..|q| - 1]);
      assert q[|q| - 1] in q;
    }
  }

  lemma MarkersDropped(t: Tools, e: Edit, slot: Slot)
    requires Sortable(e) && e.deletions != map[] && slot == Built(t, MarkerLayer(e, InOrder(e.deletions.Keys)))
    ensures Kept(e, [slot]) == if Unannotated(e) then [slot] else []
  {
    hide InOrder, NoSlash, PathLess;
    assert [slot][..0] == [];
    assert Dropped(e, slot.layer) <==> !Unannotated(e);
  }

  /** The next push replaces what this one appended, unless it carries no annotation. */
  lemma AppendedDropped(t: Tools, e: Edit)
    requires Sortable(e)
    ensures Kept(e, Appended(t, e)) == if Unannotated(e) then Appended(t, e) else []
    ensures e.upper != map[] || e.deletions != map[] ==> Appended(t, e) != []
  {
    hide InOrder, FileSlots, NoSlash, PathLess;
    var q := InOrder(e.upper.Keys);
    FilesDropped(t, e, q);
    ListsEmpty(q, e.upper.Keys);
    if e.deletions != map[] {
      var slot := Built(t, MarkerLayer(e, InOrder(e.deletions.Keys)));
      KeptConcat(e, FileSlots(t, e, q), [slot]);
      MarkersDropped(t, e, slot);
    } else {
      assert FileSlots(t, e, q) + [] == FileSlots(t, e, q);
    }
  }

  lemma SlotsBack(s: seq<Slot>, m: Manifest)
    requires m.layers == LayersIn(s) && m.diffIds == DiffIdsIn(s)
    ensures Slots(m) == s
  {
  }

  /** Pushing the same edit again changes the head exactly when the first push did and its layers are permanent or its actor has no name. */
  lemma RePush(t: Tools, s: State, ref: Bytes, e: Edit)
    requires Sortable(e)
    requires var (s1, o1) := Push(t, s, ref, e); o1.Pushed? && (o1.changed ==> s1.manifests[o1.digest] == NewHead(t, s.refs[ref], s.manifests[s.refs[ref]], e))
    ensures var (s1, o1) := Push(t, s, ref, e); var (s2, o2) := Push(t, s1, ref, e);
      o2.Pushed? && (o2.changed <==> (e.permanent || e.actor == []) && o1.changed) && (!o2.changed ==> s2 == s1 && o2.digest == o1.digest)
  {
    hide Kept, Appended, SameHead, NewSlots, Slots, LayersIn, DiffIdsIn, NoSlash;
    var (s1, o1) := Push(t, s, ref, e);
    if o1.changed {
      var m := s.manifests[s.refs[ref]];
      var m1 := NewHead(t, s.refs[ref], m, e);
      SecondSlots(t, s.refs[ref], m, e);
      if Unannotated(e) { LongerDiffers(m1, NewSlots(t, m1, e)); } else { SameAgain(m1, NewSlots(t, m1, e)); }
    }
  }

  /** An actor without a name never recognises its own layers: the file is pushed, and pushed again. */
  lemma NamelessRePush(t: Tools, s: State, ref: Bytes, f: UpperFile, p: Path)
    requires NoSlash(p) && ref in s.refs && s.refs[ref] in s.manifests && s.manifests[s.refs[ref]] == Manifest([], [], false, [], [])
    requires t.hash(NewHead(t, s.refs[ref], Manifest([], [], false, [], []), Edit(map[p := f], map[], [], false))) !in s.manifests
    ensures var e := Edit(map[p := f], map[], [], false);
      Sortable(e) && var (s1, o1) := Push(t, s, ref, e); var (s2, o2) := Push(t, s1, ref, e);
      o1.Pushed? && o1.changed && o2.Pushed? && o2.changed
  {
    var e := Edit(map[p := f], map[], [], false);
    assert p in e.upper;
    hide InOrder, Kept, Appended, LayersIn, DiffIdsIn, NoSlash, SameHead, NewSlots, Slots;
    NeverSame(Manifest([], [], false, [], []), NewSlots(t, Manifest([], [], false, [], []), e));
    RePush(t, s, ref, e);
  }

  lemma NeverSame(m: Manifest, s: seq<Slot>)
    requires !m.overlayConfig
    ensures !SameHead(m, s)
  {
  }

  lemma SecondSlots(t: Tools, d: Digest, m: Manifest, e: Edit)
    requires Sortable(e) && (e.upper != map[] || e.deletions != map[])
    ensures var m1 := NewHead(t, d, m, e);
      && m1.layers == LayersIn(NewSlots(t, m, e)) && m1.diffIds == DiffIdsIn(NewSlots(t, m, e)) && m1.overlayConfig
      && if Unannotated(e) then |NewSlots(t, m1, e)| > |NewSlots(t, m, e)| == |m1.layers| else NewSlots(t, m1, e) == NewSlots(t, m, e)
  {
    var m1 := NewHead(t, d, m, e);
    SlotsBack(NewSlots(t, m, e), m1);
    AppendedDropped(t, e);
    KeptConcat(e, Kept(e, Slots(m)), Appended(t, e));
    KeptTwice(e, Slots(m));
    Lengths(NewSlots(t, m, e));
    var k, a := Kept(e, Slots(m)), Appended(t, e);
    assert NewSlots(t, m1, e) == Kept(e, k + a) + a;
    hide *;
    if Unannotated(e) { assert Kept(e, k + a) == k + a; } else { assert Kept(e, k + a) == k + [] == k; }
  }

  lemma Lengths(s: seq<Slot>)
    ensures |LayersIn(s)| == |s|
  {
  }

  lemma SameAgain(m: Manifest, s: seq<Slot>)
    requires m.layers == LayersIn(s) && m.diffIds == DiffIdsIn(s) && m.overlayConfig
    ensures SameHead(m, s)
  {
  }

  lemma LongerDiffers(m: Manifest, s: seq<Slot>)
    requires |s| > |m.layers|
    ensures !SameHead(m, s)
  {
  }

  // --- other actors' layers -------------------------------------------------------------------------------

  function Others(e: Edit, s: seq<Slot>): seq<Slot> {
    if s == [] then []
    else Others(e, s[..|s| - 1]) + if Own(e, s[|s| - 1].layer) then [] else [s[|s| - 1]]
  }

  lemma {:induction false} OthersConcat(e: Edit, a: seq<Slot>, b: seq<Slot>)
    ensures Others(e, a + b) == Others(e, a) + Others(e, b)
    decreases |b|
  {
    if b == [] {
      assert a + b == a;
    } else {
      assert (a + b)[..|a + b| - 1] == a + b[..|b| - 1];
      OthersConcat(e, a, b[..|b| - 1]);
    }
  }

  /** Layers of other actors and unannotated layers keep their order and diff ids; own layers go only when superseded. */
  lemma {:induction false} OthersKept(e: Edit, s: seq<Slot>)
    ensures Others(e, Kept(e, s)) == Others(e, s)
    ensures forall x :: x in Kept(e, s) <==> x in s && !Dropped(e, x.layer)
  {
    hide Own;
    if s != [] {
      var n := |s| - 1;
      OthersKept(e, s[..n]);
      assert s == s[..n] + [s[n]];
      if !Dropped(e, s[n].layer) {
        OthersConcat(e, Kept(e, s[..n]), [s[n]]);
        assert [s[n]][..0] == [];
      } else {
        OwnDropped(e, s[n].layer);
        assert Kept(e, s) == Kept(e, s[..n]);
      }
    }
  }

  lemma OwnDropped(e: Edit, l: Layer)
    requires Dropped(e, l)
    ensures Own(e, l)
  {
  }

  // --- the whiteout layer ---------------------------------------------------------------------------------

  /** The layer of whiteouts has one marker per deletion, stamped with its clock, and carries the latest clock. */
  lemma {:induction false} MarkersAre(e: Edit, q: seq<Path>)
    requires forall p :: p in q ==> p in e.deletions
    ensures |MarkerItems(e, q)| == |q| && forall i :: 0 <= i < |q| ==> MarkerItems(e, q)[i] == Marker(q[i], e.deletions[q[i]])
    ensures forall p :: p in q ==> e.deletions[p] <= LatestStamp(e, q)
    ensures q != [] ==> exists p :: p in q && e.deletions[p] == LatestStamp(e, q)
  {
    StampIsLast(e, q);
    MarkersListed(e, q);
    hide *;
    if q != [] { StampIsOne(e, q); }
  }

  lemma {:induction false} MarkersListed(e: Edit, q: seq<Path>)
    requires forall p :: p in q ==> p in e.deletions
    ensures |MarkerItems(e, q)| == |q| && forall i :: 0 <= i < |q| ==> MarkerItems(e, q)[i] == Marker(q[i], e.deletions[q[i]])
  {
    hide Marker;
    if q != [] {
      assert q[|q| - 1] in q;
      MarkersListed(e, q[..|q| - 1]);
    }
  }

  lemma {:induction false} StampIsLast(e: Edit, q: seq<Path>)
    requires forall p :: p in q ==> p in e.deletions
    ensures forall p :: p in q ==> e.deletions[p] <= LatestStamp(e, q)
  {
    if q != [] {
      var rest, p := q[..|q| - 1], q[|q| - 1];
      assert p in q && q == rest + [p];
      StampIsLast(e, rest);
      forall x | x in q ensures e.deletions[x] <= LatestStamp(e, q) { if x != p { assert x in rest; } }
    }
  }

  lemma {:induction false} StampIsOne(e: Edit, q: seq<Path>)
    requires q != [] && forall p :: p in q ==> p in e.deletions
    ensures exists p :: p in q && e.deletions[p] == LatestStamp(e, q)
  {
    var rest, p := q[..|q| - 1], q[|q| - 1];
    assert p in q;
    if rest != [] && LatestStamp(e, q) != e.deletions[p] {
      StampIsOne(e, rest);
      var x :| x in rest && e.deletions[x] == LatestStamp(e, rest);
      assert x in q && e.deletions[x] == LatestStamp(e, q);
    } else {
      assert e.deletions[p] == LatestStamp(e, q);
    }
  }

  // --- what a push appends ---------------------------------------------------------------------------------

  /** The push's annotations: its actor and clock, and the actor once more unless the layer is permanent or nobody's. */
  ghost predicate Signed(e: Edit, l: Layer, mtimeMs: nat) {
    l.actor == e.actor && l.mtimeMs == mtimeMs && l.overlay == if e.permanent || e.actor == [] then None else Some(e.actor)
  }

  /** One file at `p` with the upper's content, mode and whole seconds, annotated with the path and the full clock. */
  ghost predicate Holds(t: Tools, e: Edit, s: Slot, p: Path)
    requires p in e.upper
  {
    var f := e.upper[p];
    && Signed(e, s.layer, f.mtimeMs) && s.layer.mark == For(p) && s.diffId == Some(t.diffId(s.layer.items))
    && s.layer.items == [Item(p, false, File(f.content, f.mode % 4096, f.mtimeMs / 1000))]
  }

  /** A marker for every deletion, annotated with the latest of their clocks. */
  ghost predicate MarksAll(t: Tools, e: Edit, s: Slot) {
    && Signed(e, s.layer, s.layer.mtimeMs) && s.layer.mark == Whiteouts && s.diffId == Some(t.diffId(s.layer.items))
    && (forall p :: p in e.deletions ==> Marker(p, e.deletions[p]) in s.layer.items && e.deletions[p] <= s.layer.mtimeMs)
    && (exists p :: p in e.deletions && e.deletions[p] == s.layer.mtimeMs)
    && |s.layer.items| == |e.deletions|
  }

  /** One layer per upper file in path order and then, if anything was deleted, one layer of markers; nothing else. */
  lemma AppendedAre(t: Tools, e: Edit)
    requires Sortable(e)
    ensures var a, q := Appended(t, e), InOrder(e.upper.Keys);
      && |q| == |e.upper| && |a| == |q| + (if e.deletions == map[] then 0 else 1)
      && (forall i :: 0 <= i < |q| ==> q[i] in e.upper && Holds(t, e, a[i], q[i]))
      && (e.deletions != map[] ==> MarksAll(t, e, a[|q|]))
  {
    hide InOrder, NoSlash, PathLess, Marker, FileLayer, MarkerItems, LatestStamp;
    var q := InOrder(e.upper.Keys);
    FilesAppended(t, e, q);
    ListedSize(q, e.upper.Keys);
    if e.deletions != map[] { MarkersAppended(t, e, InOrder(e.deletions.Keys)); }
  }

  lemma ListedSize(q: seq<Path>, s: set<Path>)
    requires Lists(q, s)
    ensures |q| == |s|
    decreases |q|
  {
    ListsEmpty(q, s);
    if q != [] {
      ListsTail(q, s);
      assert q[0] in s;
      ListedSize(q[1..], s - {q[0]});
    }
  }

  lemma {:induction false} FilesAppended(t: Tools, e: Edit, q: seq<Path>)
    requires forall p :: p in q ==> p in e.upper
    ensures |FileSlots(t, e, q)| == |q| && forall i :: 0 <= i < |q| ==> q[i] in e.upper && Holds(t, e, FileSlots(t, e, q)[i], q[i])
  {
    if q != [] {
      var n := |q| - 1;
      FilesAppended(t, e, q[..n]);
      assert q[n] in q;
      forall i | 0 <= i < |q| ensures q[i] in e.upper && Holds(t, e, FileSlots(t, e, q)[i], q[i]) {
        if i < n { assert q[..n][i] == q[i]; }
      }
    }
  }

  lemma MarkersAppended(t: Tools, e: Edit, q: seq<Path>)
    requires Lists(q, e.deletions.Keys) && e.deletions != map[] && forall p :: p in q ==> p in e.deletions
    ensures MarksAll(t, e, Built(t, MarkerLayer(e, q)))
  {
    hide *;
    MarkersAre(e, q);
    ListsEmpty(q, e.deletions.Keys);
    ListedSize(q, e.deletions.Keys);
    ListsMembers(q, e.deletions.Keys);
    assert e.deletions.Keys != {};
    forall p | p in e.deletions ensures Marker(p, e.deletions[p]) in MarkerItems(e, q) {
      assert p in e.deletions.Keys;
      var i :| 0 <= i < |q| && q[i] == p;
      assert MarkerItems(e, q)[i] == Marker(p, e.deletions[p]);
    }
    MarksAllIs(t, e, q);
  }

  lemma MarksAllIs(t: Tools, e: Edit, q: seq<Path>)
    requires (forall p :: p in q <==> p in e.deletions) && |MarkerItems(e, q)| == |e.deletions|
    requires forall p :: p in e.deletions ==> Marker(p, e.deletions[p]) in MarkerItems(e, q) && e.deletions[p] <= LatestStamp(e, q)
    requires exists p :: p in q && e.deletions[p] == LatestStamp(e, q)
    ensures MarksAll(t, e, Built(t, MarkerLayer(e, q)))
  {
    hide Marker, MarkerItems, LatestStamp;
  }
}
