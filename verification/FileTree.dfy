/** A library folder as a tree of paths, and what renaming does to it. */
module FileTree {
  import opened Names

  type Path = seq<string>

  /** Folders and files keep their identity when they are renamed. */
  datatype Item = Folder(node: nat) | File(node: nat, data: string)

  type Tree = map<Path, Item>

  function At(t: Tree, p: Path): Option<Item> {
    if p in t then Some(t[p]) else None
  }

  predicate IsFolder(t: Tree, p: Path) {
    p in t && t[p].Folder?
  }

  function Parent(p: Path): Path
    requires p != []
  {
    p[..|p| - 1]
  }

  predicate WellFormed(t: Tree) {
    IsFolder(t, []) && forall p | p in t && p != [] :: IsFolder(t, Parent(p))
  }

  /** The file system's own conditions; it may also fail for reasons of its own. */
  predicate CanRename(t: Tree, s: Path, d: Path) {
    s != [] && s in t && d != [] && d !in t && IsFolder(t, Parent(d)) && !(s <= d)
  }

  function Place(s: Path, d: Path, p: Path): Path {
    if s <= p then d + p[|s|..] else p
  }

  /** Everything at or under the source is found at or under the target. */
  function Rename(t: Tree, s: Path, d: Path): Tree
    requires WellFormed(t) && CanRename(t, s, d)
  {
    map q | q in (set p | p in t :: Place(s, d, p)) :: if d <= q then PlaceBack(t, s, d, q); t[s + q[|d|..]] else t[q]
  }

  // ---------------------------------------------------------------- prefixes

  lemma {:induction false} PrefixIn(t: Tree, p: Path, q: Path)
    requires WellFormed(t) && q in t && p <= q
    ensures p in t && (p != q ==> IsFolder(t, p))
    decreases |q|
  {
    if p != q {
      assert q != [] && p <= Parent(q);
      PrefixIn(t, p, Parent(q));
    }
  }

  lemma PrefixesMeet(a: Path, b: Path, q: Path)
    requires a <= q && b <= q
    ensures a <= b || b <= a
  {
    assert a == q[..|a|] && b == q[..|b|];
  }

  lemma PlaceBack(t: Tree, s: Path, d: Path, q: Path)
    requires WellFormed(t) && CanRename(t, s, d) && d <= q && exists p | p in t :: q == Place(s, d, p)
    ensures s + q[|d|..] in t
  {
    var p :| p in t && q == Place(s, d, p);
    if s <= p {
      assert s + q[|d|..] == p;
    } else {
      PrefixIn(t, d, p);
      assert false;
    }
  }

  // ---------------------------------------------------------------- renaming

  lemma RenameAt(t: Tree, s: Path, d: Path, q: Path)
    requires WellFormed(t) && CanRename(t, s, d)
    ensures At(Rename(t, s, d), q) == if d <= q then At(t, s + q[|d|..]) else if s <= q then None else At(t, q)
  {
    hide WellFormed;
    var r := Rename(t, s, d);
    if d <= q {
      var p := s + q[|d|..];
      assert p[|s|..] == q[|d|..];
      if p in t { assert Place(s, d, p) == q; }
      if q in r { PlaceBack(t, s, d, q); }
    } else {
      forall p | p in t && Place(s, d, p) == q ensures p == q && !(s <= q) { }
      if q in t && !(s <= q) { assert Place(s, d, q) == q; }
    }
  }

  lemma ParentOf(d: Path, q: Path)
    requires q != [] && d <= q && d != q
    ensures d <= Parent(q)
  {
  }

  lemma RenameWellFormed(t: Tree, s: Path, d: Path)
    requires WellFormed(t) && CanRename(t, s, d)
    ensures WellFormed(Rename(t, s, d))
  {
    hide Rename;
    var r := Rename(t, s, d);
    RenameAt(t, s, d, []);
    forall q | q in r && q != [] ensures IsFolder(r, Parent(q)) { RenameParent(t, s, d, q); }
  }

  lemma RenameParent(t: Tree, s: Path, d: Path, q: Path)
    requires WellFormed(t) && CanRename(t, s, d) && q in Rename(t, s, d) && q != []
    ensures IsFolder(Rename(t, s, d), Parent(q))
  {
    hide Rename;
    RenameAt(t, s, d, q);
    RenameAt(t, s, d, Parent(q));
    if d <= q && d != q {
      ParentOf(d, q);
      var p := s + q[|d|..];
      assert Parent(p) == s + Parent(q)[|d|..];
    } else if d == q {
      assert !(d <= Parent(d)) && !(s <= Parent(d));
    } else {
      assert !(d <= Parent(q));
      assert !(s <= Parent(q));
    }
  }

  /** The rename can be undone, and undoing it restores the tree. */
  lemma RenameBack(t: Tree, s: Path, d: Path)
    requires WellFormed(t) && CanRename(t, s, d)
    ensures WellFormed(Rename(t, s, d)) && CanRename(Rename(t, s, d), d, s)
    ensures Rename(Rename(t, s, d), d, s) == t
  {
    hide Rename, WellFormed;
    var r := Rename(t, s, d);
    RenameWellFormed(t, s, d);
    CanRenameBack(t, s, d);
    var b := Rename(r, d, s);
    forall q ensures At(b, q) == At(t, q) {
      RenameAt(r, d, s, q);
      if s <= q {
        RenameAt(t, s, d, d + q[|s|..]);
        assert (d + q[|s|..])[|d|..] == q[|s|..] && s + q[|s|..] == q;
      } else if d <= q {
        if q in t { PrefixIn(t, d, q); }
      } else {
        RenameAt(t, s, d, q);
      }
    }
    SameTree(b, t);
  }

  lemma CanRenameBack(t: Tree, s: Path, d: Path)
    requires WellFormed(t) && CanRename(t, s, d)
    ensures CanRename(Rename(t, s, d), d, s)
  {
    hide Rename;
    assert !(d <= s) by { if d <= s { PrefixIn(t, d, s); } }
    RenameAt(t, s, d, d);
    assert s + d[|d|..] == s;
    RenameAt(t, s, d, s);
    RenameAt(t, s, d, Parent(s));
    assert !(s <= Parent(s));
    assert !(d <= Parent(s));
  }

  lemma SameTree(a: Tree, b: Tree)
    requires forall q :: At(a, q) == At(b, q)
    ensures a == b
  {
    forall q ensures q in a <==> q in b { assert At(a, q) == At(b, q); }
    forall q | q in a ensures a[q] == b[q] { assert At(a, q) == At(b, q); }
  }

  // ---------------------------------------------------------------- several renames

  datatype Move = Move(source: Path, target: Path)

  /**
   * Moves that do not get in each other's way: no source or target lies in another, and no source holds a
   * target's folder.
   */
  ghost predicate Compatible(t: Tree, ms: seq<Move>) {
    && (forall m | m in ms ::
      m.source != [] && m.source in t && m.target != [] && m.target !in t && IsFolder(t, Parent(m.target)))
    && (forall i, j | 0 <= i < |ms| && 0 <= j < |ms| && i != j ::
      !(ms[i].source <= ms[j].source) && !(ms[i].target <= ms[j].target))
    && (forall a, b | a in ms && b in ms :: !(a.source <= Parent(b.target)))
  }

  lemma CompatibleFirst(t: Tree, ms: seq<Move>)
    requires WellFormed(t) && Compatible(t, ms) && ms != []
    ensures CanRename(t, ms[0].source, ms[0].target)
  {
    var m := ms[0];
    assert m in ms;
    if m.source <= m.target { ParentOf(m.source, m.target); }
  }

  lemma CompatibleRest(t: Tree, ms: seq<Move>)
    requires WellFormed(t) && Compatible(t, ms) && ms != [] && CanRename(t, ms[0].source, ms[0].target)
    ensures Compatible(Rename(t, ms[0].source, ms[0].target), ms[1..])
  {
    hide Rename, WellFormed, Compatible, CanRename;
    var r := Rename(t, ms[0].source, ms[0].target);
    forall i | 0 < i < |ms| ensures Placed(r, ms[i]) { StaysCompatible(t, ms, i); }
    RestCompatible(t, r, ms);
  }

  ghost predicate Placed(t: Tree, m: Move) {
    m.source != [] && m.source in t && m.target != [] && m.target !in t && IsFolder(t, Parent(m.target))
  }

  lemma RestCompatible(t: Tree, r: Tree, ms: seq<Move>)
    requires Compatible(t, ms) && ms != [] && forall i | 0 < i < |ms| :: Placed(r, ms[i])
    ensures Compatible(r, ms[1..])
  {
    hide IsFolder;
    var rest := ms[1..];
    forall i | 0 <= i < |rest| ensures rest[i] == ms[i + 1] && rest[i] in ms { }
    forall m | m in rest ensures m in ms && Placed(r, m) {
      var i :| 0 <= i < |rest| && rest[i] == m;
      assert ms[i + 1] == m;
    }
    forall i, j | 0 <= i < |rest| && 0 <= j < |rest| && i != j
      ensures !(rest[i].source <= rest[j].source) && !(rest[i].target <= rest[j].target)
    {
      assert rest[i] == ms[i + 1] && rest[j] == ms[j + 1];
    }
  }

  lemma StaysCompatible(t: Tree, ms: seq<Move>, i: nat)
    requires WellFormed(t) && Compatible(t, ms) && 0 < i < |ms| && CanRename(t, ms[0].source, ms[0].target)
    ensures Placed(Rename(t, ms[0].source, ms[0].target), ms[i])
  {
    hide Rename;
    var s, d, m := ms[0].source, ms[0].target, ms[i];
    assert ms[0] in ms && m in ms;
    RenameAt(t, s, d, m.source);
    assert !(d <= m.source) by { if d <= m.source { PrefixIn(t, d, m.source); } }
    RenameAt(t, s, d, m.target);
    RenameAt(t, s, d, Parent(m.target));
    assert !(d <= Parent(m.target)) by { if d <= Parent(m.target) { PrefixIn(t, d, Parent(m.target)); } }
  }

  /** All renames, one after the other. */
  ghost function RenameAll(t: Tree, ms: seq<Move>): Tree
    requires WellFormed(t) && Compatible(t, ms)
    decreases |ms|
  {
    if ms == [] then t
    else
      CompatibleFirst(t, ms);
      CompatibleRest(t, ms);
      RenameWellFormed(t, ms[0].source, ms[0].target);
      RenameAll(Rename(t, ms[0].source, ms[0].target), ms[1..])
  }

  lemma {:induction false} RenameAllWellFormed(t: Tree, ms: seq<Move>)
    requires WellFormed(t) && Compatible(t, ms)
    ensures WellFormed(RenameAll(t, ms))
    decreases |ms|
  {
    hide Rename, WellFormed, Compatible;
    if ms != [] {
      CompatibleFirst(t, ms);
      CompatibleRest(t, ms);
      RenameWellFormed(t, ms[0].source, ms[0].target);
      RenameAllWellFormed(Rename(t, ms[0].source, ms[0].target), ms[1..]);
    }
  }

  lemma CompatiblePrefix(t: Tree, ms: seq<Move>, n: nat)
    requires Compatible(t, ms) && n <= |ms|
    ensures Compatible(t, ms[..n])
  {
    hide IsFolder;
    assert forall m | m in ms[..n] :: m in ms;
  }

  /** One more rename after the first `n`. */
  lemma {:induction false} RenameMore(t: Tree, ms: seq<Move>, n: nat)
    requires WellFormed(t) && Compatible(t, ms) && n < |ms|
    ensures Compatible(t, ms[..n]) && Compatible(t, ms[..n + 1])
    ensures var r := RenameAll(t, ms[..n]);
            && WellFormed(r) && CanRename(r, ms[n].source, ms[n].target)
            && RenameAll(t, ms[..n + 1]) == Rename(r, ms[n].source, ms[n].target)
    decreases |ms|
  {
    hide Rename, WellFormed, Compatible, CanRename;
    CompatiblePrefix(t, ms, n);
    CompatiblePrefix(t, ms, n + 1);
    RenameAllWellFormed(t, ms[..n]);
    CompatibleFirst(t, ms);
    var one := ms[..n + 1];
    assert one[0] == ms[0];
    if n == 0 {
      assert one[1..] == [] && ms[..0] == [];
    } else {
      CompatibleRest(t, ms);
      RenameWellFormed(t, ms[0].source, ms[0].target);
      RenameMore(Rename(t, ms[0].source, ms[0].target), ms[1..], n - 1);
      assert one[1..] == ms[1..][..n] && ms[..n][1..] == ms[1..][..n - 1] && ms[..n][0] == ms[0]
        && ms[1..][n - 1] == ms[n];
    }
  }

  /** Under a target one finds what was under its source. */
  lemma {:induction false} FoundAtTarget(t: Tree, ms: seq<Move>, k: nat, q: Path)
    requires WellFormed(t) && Compatible(t, ms) && k < |ms| && ms[k].target <= q
    ensures At(RenameAll(t, ms), q) == At(t, ms[k].source + q[|ms[k].target|..])
    decreases |ms|
  {
    hide Rename, WellFormed;
    CompatibleFirst(t, ms);
    CompatibleRest(t, ms);
    var s, d := ms[0].source, ms[0].target;
    RenameWellFormed(t, s, d);
    var r := Rename(t, s, d);
    if k == 0 {
      forall m | m in ms[1..] ensures !(m.target <= q) && !(m.source <= q) { Elsewhere(t, ms, m, q); }
      FoundInPlace(r, ms[1..], q);
      RenameAt(t, s, d, q);
    } else {
      FoundAtTarget(r, ms[1..], k - 1, q);
      var p := ms[k].source + q[|ms[k].target|..];
      RenameAt(t, s, d, p);
      NotDisturbed(t, ms, k, p);
    }
  }

  /** A path under the first target is under no other move's source or target. */
  lemma Elsewhere(t: Tree, ms: seq<Move>, m: Move, q: Path)
    requires WellFormed(t) && Compatible(t, ms) && ms != [] && m in ms[1..] && ms[0].target <= q
    ensures !(m.target <= q) && !(m.source <= q)
  {
    hide WellFormed;
    var d := ms[0].target;
    var i :| 0 <= i < |ms[1..]| && ms[1..][i] == m;
    assert ms[i + 1] == m && m in ms && ms[0] in ms;
    if m.target <= q { PrefixesMeet(m.target, d, q); assert false; }
    if m.source <= q {
      PrefixesMeet(m.source, d, q);
      if m.source <= d {
        ParentOf(m.source, d);
      } else {
        PrefixIn(t, d, m.source);
      }
      assert false;
    }
  }

  /** A path under a later source is under neither the first source nor the first target. */
  lemma NotDisturbed(t: Tree, ms: seq<Move>, k: nat, p: Path)
    requires WellFormed(t) && Compatible(t, ms) && 0 < k < |ms| && ms[k].source <= p
    ensures !(ms[0].target <= p) && !(ms[0].source <= p)
  {
    hide WellFormed;
    var d, s := ms[0].target, ms[k].source;
    assert ms[k] in ms && ms[0] in ms;
    if ms[0].source <= p { PrefixesMeet(s, ms[0].source, p); assert false; }
    if d <= p {
      PrefixesMeet(s, d, p);
      if s <= d {
        ParentOf(s, d);
      } else {
        PrefixIn(t, d, s);
      }
      assert false;
    }
  }

  /** Away from all sources and targets nothing changes. */
  lemma {:induction false} FoundInPlace(t: Tree, ms: seq<Move>, q: Path)
    requires WellFormed(t) && Compatible(t, ms) && forall m | m in ms :: !(m.target <= q) && !(m.source <= q)
    ensures At(RenameAll(t, ms), q) == At(t, q)
    decreases |ms|
  {
    hide Rename, WellFormed, Compatible;
    if ms != [] {
      CompatibleFirst(t, ms);
      CompatibleRest(t, ms);
      RenameWellFormed(t, ms[0].source, ms[0].target);
      assert ms[0] in ms && forall m | m in ms[1..] :: m in ms;
      FoundInPlace(Rename(t, ms[0].source, ms[0].target), ms[1..], q);
      RenameAt(t, ms[0].source, ms[0].target, q);
    }
  }

  /** Nothing is left at or under a source. */
  lemma {:induction false} GoneFromSource(t: Tree, ms: seq<Move>, k: nat, q: Path)
    requires WellFormed(t) && Compatible(t, ms) && k < |ms| && ms[k].source <= q
    requires forall m | m in ms :: !(m.target <= q)
    ensures At(RenameAll(t, ms), q) == None
    decreases |ms|
  {
    hide Rename, WellFormed, Compatible;
    CompatibleFirst(t, ms);
    CompatibleRest(t, ms);
    var s, d := ms[0].source, ms[0].target;
    RenameWellFormed(t, s, d);
    var r := Rename(t, s, d);
    assert ms[0] in ms && forall m | m in ms[1..] :: m in ms;
    if k == 0 {
      forall m | m in ms[1..] ensures !(m.source <= q) { OtherSource(t, ms, m, q); }
      FoundInPlace(r, ms[1..], q);
      RenameAt(t, s, d, q);
    } else {
      assert ms[1..][k - 1] == ms[k];
      GoneFromSource(r, ms[1..], k - 1, q);
    }
  }

  lemma OtherSource(t: Tree, ms: seq<Move>, m: Move, q: Path)
    requires Compatible(t, ms) && ms != [] && m in ms[1..] && ms[0].source <= q
    ensures !(m.source <= q)
  {
    var i :| 0 <= i < |ms[1..]| && ms[1..][i] == m;
    assert ms[i + 1] == m;
    if m.source <= q { PrefixesMeet(m.source, ms[0].source, q); assert false; }
  }
}
