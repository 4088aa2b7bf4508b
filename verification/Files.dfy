/** The data library: batch moves and deletions that either happen as a whole or leave everything as it was. */
module Files {
  import opened Names
  import opened FileTree
  import opened LibraryNames
  import opened Numbering

  datatype Outcome = Completed | Refused | Failed

  // ---------------------------------------------------------------- what a batch does

  /** Where a path ends up in a folder. */
  function TargetIn(folder: Path, c: Path): Path
    requires c != []
  {
    folder + [c[|c| - 1]]
  }

  ghost predicate AllSelectable(t: Tree, names: seq<string>) {
    names != [] && forall n | n in names :: Selectable(t, n)
  }

  /** The request makes sense: the files exist, the folder exists and is not moved into itself, and no name clashes. */
  ghost predicate Movable(t: Tree, names: seq<string>, folder: Path) {
    && AllSelectable(t, names) && IsFolder(t, folder)
    && (forall c | Kept(names, c) ::
      c != [] && !(c <= folder) && (TargetIn(folder, c) == c || TargetIn(folder, c) !in t))
    && (forall c, d | Kept(names, c) && Kept(names, d) && c != [] && d != [] && c != d ::
      TargetIn(folder, c) != TargetIn(folder, d))
  }

  /** One of the files that have to move cannot be renamed. */
  ghost predicate SomeFails(names: seq<string>, folder: Path, fails: Path -> bool) {
    exists c :: Kept(names, c) && c != [] && TargetIn(folder, c) != c && fails(c)
  }

  ghost predicate UnderKept(names: seq<string>, q: Path) {
    exists c :: Kept(names, c) && c <= q
  }

  ghost predicate UnderTarget(names: seq<string>, folder: Path, q: Path) {
    exists c :: Kept(names, c) && c != [] && TargetIn(folder, c) <= q
  }

  /** Every kept selection sits in the folder with all it held, and everything else is where it was. */
  ghost predicate MovedInto(before: Tree, after: Tree, names: seq<string>, folder: Path) {
    && (forall c, q | Kept(names, c) && c != [] && TargetIn(folder, c) <= q ::
      At(after, q) == At(before, c + q[|folder| + 1..]))
    && (forall q | !UnderTarget(names, folder, q) :: At(after, q) == if UnderKept(names, q) then None
      else At(before, q))
  }

  /** These renames were made, and everything else is where it was. */
  ghost predicate MovedSome(before: Tree, after: Tree, ms: seq<Move>) {
    && (forall k, q | 0 <= k < |ms| && ms[k].target <= q ::
      At(after, q) == At(before, ms[k].source + q[|ms[k].target|..]))
    && (forall q | !Targets(ms, q) :: At(after, q) == if Sources(ms, q) then None else At(before, q))
  }

  ghost predicate Targets(ms: seq<Move>, q: Path) {
    exists m | m in ms :: m.target <= q
  }

  ghost predicate Sources(ms: seq<Move>, q: Path) {
    exists m | m in ms :: m.source <= q
  }

  /** Renames of kept selections into the folder. */
  ghost predicate MovesInto(names: seq<string>, folder: Path, ms: seq<Move>) {
    forall m | m in ms ::
      Kept(names, m.source) && m.source != [] && m.target == TargetIn(folder, m.source) && m.target != m.source
  }

  /** Only some kept selections sit in the folder, at whose last one undoing failed; none, if it did not fail. */
  ghost predicate MovedPart(before: Tree, after: Tree, names: seq<string>, folder: Path, stuck: Path -> bool) {
    exists ms: seq<Move> ::
      MovesInto(names, folder, ms) && MovedSome(before, after, ms) && (ms != [] ==> stuck(ms[|ms| - 1].target))
  }

  /** These paths are gone with all they held, and everything else is where it was. */
  ghost predicate DeletedSome(before: Tree, after: Tree, cs: seq<Path>) {
    forall q :: At(after, q) == if UnderSome(cs, q) then None else At(before, q)
  }

  /** Only some kept selections are gone, at whose last one undoing failed; none, if it did not fail. */
  ghost predicate DeletedPart(before: Tree, after: Tree, names: seq<string>, trash: string, stuck: Path -> bool) {
    exists cs: seq<Path> ::
      && (forall c | c in cs :: Kept(names, c)) && DeletedSome(before, after, cs)
      && (cs != [] ==> stuck([trash, Digits(|cs| - 1)]))
  }

  ghost predicate UnderSome(cs: seq<Path>, q: Path) {
    exists c | c in cs :: c <= q
  }

  /** Every selection is gone with all it held, and everything else is where it was. */
  ghost predicate DeletedFrom(before: Tree, after: Tree, names: seq<string>) {
    forall q :: At(after, q) == if UnderKept(names, q) then None else At(before, q)
  }

  // ---------------------------------------------------------------- planning a move

  ghost predicate Antichain(ps: seq<Path>) {
    forall i, j | 0 <= i < |ps| && 0 <= j < |ps| && i != j :: !(ps[i] <= ps[j])
  }

  /** The moves for the paths looked at so far; a path that is already in the folder is skipped. */
  ghost predicate Planned(t: Tree, folder: Path, ps: seq<Path>, ms: seq<Move>) {
    && (forall p | p in ps :: p != [] && p in t && !(p <= folder))
    && (forall m | m in ms ::
      m.source in ps && m.target == TargetIn(folder, m.source) && m.target != m.source && m.target !in t)
    && (forall p | p in ps :: TargetIn(folder, p) == p || Move(p, TargetIn(folder, p)) in ms)
    && (forall i, j | 0 <= i < |ms| && 0 <= j < |ms| && i != j ::
      ms[i].target != ms[j].target && !(ms[i].source <= ms[j].source))
  }

  lemma PlanStay(t: Tree, folder: Path, ps: seq<Path>, ms: seq<Move>, p: Path)
    requires Planned(t, folder, ps, ms) && p != [] && p in t && !(p <= folder) && TargetIn(folder, p) == p
    ensures Planned(t, folder, ps + [p], ms)
  {
  }

  lemma PlanMove(t: Tree, folder: Path, ps: seq<Path>, ms: seq<Move>, p: Path)
    requires Planned(t, folder, ps, ms) && Antichain(ps + [p]) && p != [] && p in t && !(p <= folder)
    requires TargetIn(folder, p) != p && TargetIn(folder, p) !in t
               && forall m | m in ms :: m.target != TargetIn(folder, p)
    ensures Planned(t, folder, ps + [p], ms + [Move(p, TargetIn(folder, p))])
  {
    var d := TargetIn(folder, p);
    var after := ms + [Move(p, d)];
    forall m | m in ms ensures !(m.source <= p) && !(p <= m.source) {
      var i :| 0 <= i < |ps| && ps[i] == m.source;
      assert (ps + [p])[i] == m.source && (ps + [p])[|ps|] == p;
    }
    assert Move(p, d) in after && forall m | m in ms :: m in after;
  }

  lemma PlanCompatible(t: Tree, folder: Path, ps: seq<Path>, ms: seq<Move>)
    requires WellFormed(t) && IsFolder(t, folder) && Planned(t, folder, ps, ms)
    ensures Compatible(t, ms)
  {
    hide WellFormed;
    forall m | m in ms ensures m.target != [] && Parent(m.target) == folder { }
    forall i, j | 0 <= i < |ms| && 0 <= j < |ms| && i != j
      ensures !(ms[i].source <= ms[j].source) && !(ms[i].target <= ms[j].target)
    {
      assert ms[i] in ms && ms[j] in ms;
      assert |ms[i].target| == |ms[j].target|;
    }
  }

  /** What the planned renames do, in terms of the selection. */
  lemma PlanMoves(t: Tree, names: seq<string>, folder: Path, ps: seq<Path>, ms: seq<Move>)
    requires WellFormed(t) && IsFolder(t, folder) && Planned(t, folder, ps, ms) && Compatible(t, ms)
    requires forall p :: p in ps <==> Kept(names, p)
    requires Movable(t, names, folder)
    ensures MovedInto(t, RenameAll(t, ms), names, folder)
  {
    hide WellFormed, Compatible, Kept, RenameAll, Movable;
    forall c, q | Kept(names, c) && c != [] && TargetIn(folder, c) <= q
      ensures At(RenameAll(t, ms), q) == At(t, c + q[|folder| + 1..])
    {
      PlanAtTarget(t, names, folder, ps, ms, c, q);
    }
    forall q | !UnderTarget(names, folder, q)
      ensures At(RenameAll(t, ms), q) == if UnderKept(names, q) then None else At(t, q)
    {
      PlanElsewhere(t, names, folder, ps, ms, q);
    }
  }

  lemma PlanAtTarget(t: Tree, names: seq<string>, folder: Path, ps: seq<Path>, ms: seq<Move>, c: Path, q: Path)
    requires WellFormed(t) && IsFolder(t, folder) && Planned(t, folder, ps, ms) && Compatible(t, ms)
    requires (forall p :: p in ps <==> Kept(names, p)) && Movable(t, names, folder)
    requires c in ps && TargetIn(folder, c) <= q
    ensures At(RenameAll(t, ms), q) == At(t, c + q[|folder| + 1..])
  {
    hide WellFormed, Compatible, Kept, RenameAll;
    var d := TargetIn(folder, c);
    if d == c {
      forall m | m in ms ensures !(m.target <= q) && !(m.source <= q) {
        assert m.source in ps && m.source != c && Kept(names, m.source) && Kept(names, c);
        KeptNotUnder(names, m.source, c, q);
        SameDepth(folder, m.source, c, q);
      }
      FoundInPlace(t, ms, q);
      assert c + q[|folder| + 1..] == q;
    } else {
      var k :| 0 <= k < |ms| && ms[k] == Move(c, d);
      FoundAtTarget(t, ms, k, q);
    }
  }

  lemma KeptNotUnder(names: seq<string>, c: Path, d: Path, q: Path)
    requires Kept(names, c) && Kept(names, d) && c != d && d <= q
    ensures !(c <= q)
  {
    hide Kept;
    if c <= q {
      PrefixesMeet(c, d, q);
      if c <= d { KeptApart(names, c, d); } else { KeptApart(names, d, c); }
      assert false;
    }
  }

  lemma SameDepth(folder: Path, c: Path, d: Path, q: Path)
    requires c != [] && d != [] && TargetIn(folder, c) != TargetIn(folder, d) && TargetIn(folder, d) <= q
    ensures !(TargetIn(folder, c) <= q)
  {
    var k := |folder|;
    assert q[k] == TargetIn(folder, d)[k] == d[|d| - 1];
    assert c[|c| - 1] != d[|d| - 1];
    assert TargetIn(folder, c)[k] != q[k];
  }

  lemma PlanElsewhere(t: Tree, names: seq<string>, folder: Path, ps: seq<Path>, ms: seq<Move>, q: Path)
    requires WellFormed(t) && IsFolder(t, folder) && Planned(t, folder, ps, ms) && Compatible(t, ms)
    requires (forall p :: p in ps <==> Kept(names, p)) && !UnderTarget(names, folder, q)
    ensures At(RenameAll(t, ms), q) == if UnderKept(names, q) then None else At(t, q)
  {
    hide WellFormed, Compatible, Kept, RenameAll;
    forall m | m in ms ensures !(m.target <= q) { assert Kept(names, m.source); }
    if UnderKept(names, q) {
      var c :| Kept(names, c) && c <= q;
      assert c in ps && TargetIn(folder, c) != c;
      var k :| 0 <= k < |ms| && ms[k] == Move(c, TargetIn(folder, c));
      GoneFromSource(t, ms, k, q);
    } else {
      forall m | m in ms ensures !(m.source <= q) { assert Kept(names, m.source); }
      FoundInPlace(t, ms, q);
    }
  }

  // ---------------------------------------------------------------- what is left of a failed batch

  function FirstFailing(moves: seq<Move>, fails: Path -> bool): (r: nat)
    ensures r <= |moves|
  {
    if moves == [] || fails(moves[0].source) then 0 else 1 + FirstFailing(moves[1..], fails)
  }

  /** How many of the first `n` renames stay, undone from the last one until undoing one fails. */
  function Left(moves: seq<Move>, n: nat, stuck: Path -> bool): (r: nat)
    requires n <= |moves|
    ensures r <= n && (r > 0 ==> stuck(moves[r - 1].target))
  {
    if n == 0 || stuck(moves[n - 1].target) then n else Left(moves, n - 1, stuck)
  }

  /** The renames that are in place in the end. */
  function Made(moves: seq<Move>, fails: Path -> bool, stuck: Path -> bool): (r: seq<Move>)
    ensures r <= moves && forall m | m in r :: m in moves
    ensures r != [] && r != moves ==> stuck(r[|r| - 1].target)
  {
    var n := FirstFailing(moves, fails);
    if n == |moves| then moves else moves[..Left(moves, n, stuck)]
  }

  lemma LeftStep(moves: seq<Move>, n: nat, stuck: Path -> bool)
    requires n <= |moves|
    ensures Left(moves, n, stuck) == if n == 0 || stuck(moves[n - 1].target) then n else Left(moves, n - 1, stuck)
  {
  }

  lemma {:induction false} FirstIs(moves: seq<Move>, fails: Path -> bool, i: nat)
    requires i < |moves| && fails(moves[i].source) && forall k | 0 <= k < i :: !fails(moves[k].source)
    ensures FirstFailing(moves, fails) == i
  {
    if i > 0 { FirstIs(moves[1..], fails, i - 1); }
  }

  lemma {:induction false} NoneFails(moves: seq<Move>, fails: Path -> bool)
    requires forall k | 0 <= k < |moves| :: !fails(moves[k].source)
    ensures FirstFailing(moves, fails) == |moves|
  {
    if moves != [] { NoneFails(moves[1..], fails); }
  }

  lemma LeftMade(moves: seq<Move>, fails: Path -> bool, stuck: Path -> bool, i: nat)
    requires i < |moves| && fails(moves[i].source) && forall k | 0 <= k < i :: !fails(moves[k].source)
    ensures Made(moves, fails, stuck) == moves[..Left(moves, i, stuck)]
  {
    FirstIs(moves, fails, i);
  }

  lemma AllMade(moves: seq<Move>, fails: Path -> bool, stuck: Path -> bool)
    requires forall k | 0 <= k < |moves| :: !fails(moves[k].source)
    ensures Made(moves, fails, stuck) == moves == moves[..|moves|]
  {
    NoneFails(moves, fails);
  }

  lemma {:induction false} SomeFailing(moves: seq<Move>, fails: Path -> bool)
    requires exists m | m in moves :: fails(m.source)
    ensures FirstFailing(moves, fails) < |moves|
  {
    var m :| m in moves && fails(m.source);
    var k :| 0 <= k < |moves| && moves[k] == m;
    if !fails(moves[0].source) {
      assert moves[1..][k - 1] == m;
      SomeFailing(moves[1..], fails);
    }
  }

  lemma SomeMade(moves: seq<Move>, fails: Path -> bool, stuck: Path -> bool)
    requires exists m | m in moves :: fails(m.source)
    ensures |Made(moves, fails, stuck)| < |moves|
    ensures var r := Made(moves, fails, stuck); r != [] ==> stuck(r[|r| - 1].target)
  {
    SomeFailing(moves, fails);
  }

  /** What renames do to the tree, path by path. */
  lemma MadeMoves(t: Tree, ms: seq<Move>)
    requires WellFormed(t) && Compatible(t, ms)
    ensures MovedSome(t, RenameAll(t, ms), ms)
    ensures ms == [] ==> RenameAll(t, ms) == t
  {
    hide WellFormed, Compatible, RenameAll;
    forall k, q | 0 <= k < |ms| && ms[k].target <= q
      ensures At(RenameAll(t, ms), q) == At(t, ms[k].source + q[|ms[k].target|..])
    {
      FoundAtTarget(t, ms, k, q);
    }
    forall q | !Targets(ms, q) ensures At(RenameAll(t, ms), q) == if Sources(ms, q) then None else At(t, q) {
      if Sources(ms, q) {
        var m :| m in ms && m.source <= q;
        var k :| 0 <= k < |ms| && ms[k] == m;
        GoneFromSource(t, ms, k, q);
      } else {
        FoundInPlace(t, ms, q);
      }
    }
    if ms == [] { NoneMade(t, ms); }
  }

  /** How a move ends. */
  lemma MoveEnds(t: Tree, names: seq<string>, folder: Path, ps: seq<Path>, ms: seq<Move>, fails: Path -> bool,
                 stuck: Path -> bool, u: Tree)
    requires WellFormed(t) && IsFolder(t, folder) && Planned(t, folder, ps, ms) && Compatible(t, ms)
    requires (forall p :: p in ps <==> Kept(names, p)) && Movable(t, names, folder)
    requires Compatible(t, Made(ms, fails, stuck)) && u == RenameAll(t, Made(ms, fails, stuck))
    ensures (exists m | m in ms :: fails(m.source)) <==> SomeFails(names, folder, fails)
    ensures if SomeFails(names, folder, fails)
            then MovedPart(t, u, names, folder, stuck) && ((forall p :: !stuck(p)) ==> u == t)
            else MovedInto(t, u, names, folder)
  {
    hide WellFormed, Compatible, RenameAll, Made, Kept, Movable, SomeFails, MovedSome, MovedInto;
    PlannedSources(t, names, folder, ps, ms, fails);
    if exists m | m in ms :: fails(m.source) {
      SomeMade(ms, fails, stuck);
      var made := Made(ms, fails, stuck);
      MadeMoves(t, made);
      PlannedInto(t, names, folder, ps, ms, made);
    } else {
      AllMade(ms, fails, stuck);
      PlanMoves(t, names, folder, ps, ms);
    }
  }

  lemma PlannedInto(t: Tree, names: seq<string>, folder: Path, ps: seq<Path>, ms: seq<Move>, part: seq<Move>)
    requires Planned(t, folder, ps, ms) && (forall p :: p in ps <==> Kept(names, p)) && forall m | m in part :: m in ms
    ensures MovesInto(names, folder, part)
  {
    hide Kept;
  }

  lemma NoneDeleted(t: Tree, u: Tree)
    requires DeletedSome(t, u, [])
    ensures u == t
  {
    forall q ensures At(u, q) == At(t, q) { assert !UnderSome([], q); }
    SameTree(u, t);
  }

  lemma NoneMade(t: Tree, moves: seq<Move>)
    requires WellFormed(t) && Compatible(t, moves)
    ensures Compatible(t, []) && RenameAll(t, []) == t
  {
  }

  // ---------------------------------------------------------------- planning a deletion

  function TrashMoves(trash: string, ps: seq<Path>): (ms: seq<Move>)
    ensures |ms| == |ps|
  {
    seq(|ps|, i requires 0 <= i < |ps| => Move(ps[i], [trash, Digits(i)]))
  }

  lemma TrashCompatible(t: Tree, trash: string, ps: seq<Path>)
    requires WellFormed(t) && IsFolder(t, [trash]) && Antichain(ps)
    requires forall p | p in t :: [trash] <= p ==> p == [trash]
    requires forall p | p in ps :: p != [] && p in t && p != [trash]
    ensures Compatible(t, TrashMoves(trash, ps))
  {
    hide WellFormed, Digits;
    var ms := TrashMoves(trash, ps);
    forall i | 0 <= i < |ms| ensures ms[i].source == ps[i] && ps[i] in ps && Parent(ms[i].target) == [trash] { }
    forall m | m in ms
      ensures m.source != [] && m.source in t && m.source != [trash] && [trash] <= m.target && |m.target| == 2
    {
    }
    forall i, j | 0 <= i < |ms| && 0 <= j < |ms| && i != j
      ensures !(ms[i].source <= ms[j].source) && !(ms[i].target <= ms[j].target)
    {
      TrashApart(trash, i, j);
    }
    forall a, b | a in ms && b in ms ensures !(a.source <= Parent(b.target)) {
      assert Parent(b.target) == [trash];
    }
  }

  lemma TrashApart(trash: string, i: nat, j: nat)
    requires i != j
    ensures !([trash, Digits(i)] <= [trash, Digits(j)])
  {
    hide Digits;
    var a, b := [trash, Digits(i)], [trash, Digits(j)];
    if a <= b {
      assert a[1] == b[1];
      DigitsInjective(i, j);
      assert false;
    }
  }

  /** The tree without the given folder. */
  function RemoveFolder(t: Tree, p: Path): Tree {
    map q | q in t && !(p <= q) :: t[q]
  }

  lemma RemoveWellFormed(t: Tree, p: Path)
    requires WellFormed(t) && p != []
    ensures WellFormed(RemoveFolder(t, p))
  {
  }

  lemma TrashDeletes(t: Tree, u: Tree, trash: string, ps: seq<Path>)
    requires WellFormed(t) && [trash] !in t && WellFormed(u) && u.Keys == t.Keys + {[trash]}
               && forall q | q in t :: u[q] == t[q]
    requires Compatible(u, TrashMoves(trash, ps)) && forall p | p in ps :: p in t && p != []
    ensures DeletedSome(t, RemoveFolder(RenameAll(u, TrashMoves(trash, ps)), [trash]), ps)
  {
    hide WellFormed, Compatible, RenameAll;
    var ms := TrashMoves(trash, ps);
    var final := RemoveFolder(RenameAll(u, ms), [trash]);
    forall q ensures At(final, q) == if UnderSome(ps, q) then None else At(t, q) {
      if [trash] <= q {
        if q in t { PrefixIn(t, [trash], q); }
        assert At(final, q) == None;
      } else {
        TrashAt(t, u, trash, ps, q);
        assert At(final, q) == At(RenameAll(u, ms), q);
      }
    }
  }

  lemma TrashAt(t: Tree, u: Tree, trash: string, ps: seq<Path>, q: Path)
    requires WellFormed(u) && u.Keys == t.Keys + {[trash]} && forall q | q in t :: u[q] == t[q]
    requires Compatible(u, TrashMoves(trash, ps)) && !([trash] <= q)
    ensures At(RenameAll(u, TrashMoves(trash, ps)), q) == if UnderSome(ps, q) then None else At(t, q)
  {
    hide WellFormed, Compatible, RenameAll;
    var ms := TrashMoves(trash, ps);
    forall m | m in ms ensures !(m.target <= q) && m.source in ps { }
    if UnderSome(ps, q) {
      var c :| c in ps && c <= q;
      var k :| 0 <= k < |ps| && ps[k] == c;
      GoneFromSource(u, ms, k, q);
    } else {
      FoundInPlace(u, ms, q);
    }
  }

  /** The trash folder is removed with what is in it. */
  lemma Emptied(t: Tree, trash: string, node: nat, ps: seq<Path>, ms: seq<Move>)
    requires WellFormed(t) && [trash] !in t && ms <= TrashMoves(trash, ps) && forall p | p in ps :: p in t && p != []
    requires WellFormed(t[[trash] := Folder(node)]) && Compatible(t[[trash] := Folder(node)], ms)
    ensures var u := RemoveFolder(RenameAll(t[[trash] := Folder(node)], ms), [trash]);
            WellFormed(u) && DeletedSome(t, u, ps[..|ms|]) && (ms == [] ==> u == t)
  {
    hide WellFormed, Compatible, RenameAll, RemoveFolder, DeletedSome, TrashMoves, Digits;
    var full := t[[trash] := Folder(node)];
    TrashPart(trash, ps, ms);
    assert forall p | p in ps[..|ms|] :: p in ps;
    TrashDeletes(t, full, trash, ps[..|ms|]);
    RenameAllWellFormed(full, ms);
    RemoveWellFormed(RenameAll(full, ms), [trash]);
    if ms == [] { NoneDeleted(t, RemoveFolder(RenameAll(full, ms), [trash])); }
  }

  /** How a deletion ends. */
  lemma DeleteEnds(t: Tree, names: seq<string>, trash: string, node: nat, ps: seq<Path>, fails: Path -> bool,
                   stuck: Path -> bool, u: Tree)
    requires WellFormed(t) && [trash] !in t && (forall p :: p in ps <==> Kept(names, p))
    requires WellFormed(t[[trash] := Folder(node)]) && forall p | p in ps :: p in t && p != []
    requires var made := Made(TrashMoves(trash, ps), fails, stuck);
             && Compatible(t[[trash] := Folder(node)], made)
             && u == RemoveFolder(RenameAll(t[[trash] := Folder(node)], made), [trash])
    ensures WellFormed(u)
    ensures (exists m | m in TrashMoves(trash, ps) :: fails(m.source)) <==> exists c :: Kept(names, c) && fails(c)
    ensures if exists c :: Kept(names, c) && fails(c)
            then DeletedPart(t, u, names, trash, stuck) && ((forall p :: !stuck(p)) ==> u == t)
            else DeletedFrom(t, u, names)
  {
    hide WellFormed, Compatible, RenameAll, RemoveFolder, DeletedSome, DeletedFrom, Made, TrashMoves, Kept, Digits;
    var moves := TrashMoves(trash, ps);
    var made := Made(moves, fails, stuck);
    TrashSources(trash, ps);
    TrashPart(trash, ps, made);
    Emptied(t, trash, node, ps, made);
    if exists m | m in moves :: fails(m.source) {
      SomeMade(moves, fails, stuck);
      var cs := ps[..|made|];
      assert forall c | c in cs :: c in ps;
      assert DeletedSome(t, u, cs) && (cs != [] ==> stuck([trash, Digits(|cs| - 1)]));
    } else {
      AllMade(moves, fails, stuck);
      assert ps[..|ps|] == ps;
      DeletedAll(t, u, names, ps);
    }
  }

  const TWO_FILES: Tree := map[[] := Folder(0), ["a"] := File(1, "x"), ["b"] := File(2, "y")]
  const BOTH: seq<Path> := [["a"], ["b"]]

  /** Deleting `a` and `b`, where `b` cannot be renamed and undoing the rename of `a` fails: `a` is lost. */
  lemma FailedDeletionLoses(trash: string, node: nat, fails: Path -> bool, stuck: Path -> bool)
    requires trash != "a" && trash != "b" && !fails(["a"]) && fails(["b"]) && stuck([trash, Digits(0)])
    ensures WellFormed(TWO_FILES) && WellFormed(TWO_FILES[[trash] := Folder(node)])
    ensures var full, made := TWO_FILES[[trash] := Folder(node)], Made(TrashMoves(trash, BOTH), fails, stuck);
            && Compatible(full, made)
            && RemoveFolder(RenameAll(full, made), [trash]) == TWO_FILES - {["a"]}
  {
    hide Compatible, RenameAll, RemoveFolder, DeletedSome, Digits, WellFormed;
    var full, moves := TWO_FILES[[trash] := Folder(node)], TrashMoves(trash, BOTH);
    TwoFilesFormed();
    AddTrash(TWO_FILES, trash, node);
    BothApart();
    forall p | p in BOTH ensures p in full && p != [trash] { assert p == ["a"] || p == ["b"]; assert p[0] != trash; }
    TrashCompatible(full, trash, BOTH);
    FirstIs(moves, fails, 1);
    var made := Made(moves, fails, stuck);
    assert made == moves[..1];
    CompatiblePrefix(full, moves, 1);
    Emptied(TWO_FILES, trash, node, BOTH, made);
    OneDeleted(TWO_FILES, RemoveFolder(RenameAll(full, made), [trash]), BOTH[..1]);
  }

  lemma BothApart()
    ensures Antichain(BOTH)
  {
    assert BOTH[0][0] == "a" && BOTH[1][0] == "b";
    assert "a"[0] != "b"[0];
  }

  lemma TwoFilesFormed()
    ensures WellFormed(TWO_FILES)
  {
    assert Parent(["a"]) == [] && Parent(["b"]) == [];
  }

  lemma OneDeleted(t: Tree, u: Tree, cs: seq<Path>)
    requires t == TWO_FILES && cs == [["a"]] && DeletedSome(t, u, cs)
    ensures u == t - {["a"]}
  {
    forall q ensures At(u, q) == At(t - {["a"]}, q) {
      assert cs[0] == ["a"] && forall c | c in cs :: c == ["a"];
      assert UnderSome(cs, q) <==> ["a"] <= q by { if ["a"] <= q { assert ["a"] in cs; } }
      if ["a"] <= q && q in t { assert q == ["a"]; }
    }
    SameTree(u, t - {["a"]});
  }

  lemma TrashSources(trash: string, ps: seq<Path>)
    ensures forall m | m in TrashMoves(trash, ps) :: m.source in ps
    ensures forall p | p in ps :: exists m | m in TrashMoves(trash, ps) :: m.source == p
  {
    hide Digits;
    var ms := TrashMoves(trash, ps);
    forall p | p in ps ensures exists m | m in ms :: m.source == p {
      var k :| 0 <= k < |ps| && ps[k] == p;
      assert ms[k] in ms;
    }
  }

  lemma DeletedAll(t: Tree, u: Tree, names: seq<string>, ps: seq<Path>)
    requires DeletedSome(t, u, ps) && forall p :: p in ps <==> Kept(names, p)
    ensures DeletedFrom(t, u, names)
  {
    hide Kept;
    forall q ensures UnderSome(ps, q) <==> UnderKept(names, q) { }
  }

  /** Part of the renames into the trash folder are those of part of the paths. */
  lemma TrashPart(trash: string, ps: seq<Path>, ms: seq<Move>)
    requires ms <= TrashMoves(trash, ps)
    ensures ms == TrashMoves(trash, ps[..|ms|])
    ensures ms != [] ==> ms[|ms| - 1].target == [trash, Digits(|ms| - 1)]
  {
    hide Digits;
    var all, part := TrashMoves(trash, ps), TrashMoves(trash, ps[..|ms|]);
    forall i | 0 <= i < |ms| ensures ms[i] == part[i] && ms[i].target == [trash, Digits(i)] {
      assert ms[i] == all[i] && ps[..|ms|][i] == ps[i];
    }
  }

  // ---------------------------------------------------------------- the library

  class Files {
    var tree: Tree

    ghost predicate Valid()
      reads this
    {
      WellFormed(tree)
    }

    constructor ()
      ensures Valid() && tree == map[[] := Folder(0)]
    {
      tree := map[[] := Folder(0)];
    }

    /** Sorted, without duplicates, and without anything inside another selected folder. */
    method Selections(names: seq<string>) returns (r: Option<seq<Path>>)
      requires Valid()
      ensures r.Some? <==> AllSelectable(tree, names)
      ensures r.Some? ==> Antichain(r.value) && forall p :: p in r.value <==> Kept(names, p)
    {
      hide WellFormed, Selectable, Sort, Dedup, Split;
      if names == [] { return None; }
      var i := 0;
      while i < |names|
        invariant i <= |names| && forall n | n in names[..i] :: Selectable(tree, n)
      {
        if !Selectable(tree, names[i]) { assert names[i] in names; return None; }
        i := i + 1;
      }
      assert names[..i] == names;
      var sorted := Sort(names);
      SortSorts(names);
      var chosen := Dedup(sorted);
      DedupSorted(sorted);
      var kept := [];
      i := 0;
      while i < |chosen|
        invariant i <= |chosen| && Chose(names, chosen[..i], kept)
      {
        var p := Split(chosen[i]);
        assert chosen[..i + 1] == chosen[..i] + [chosen[i]];
        DropsInner(tree, names, chosen, chosen[i]);
        if exists n | n in chosen :: IsFolder(tree, Split(n)) && p != Split(n) && Split(n) <= p {
          ChoseNot(names, chosen[..i], kept, chosen[i]);
        } else {
          ChoseOne(names, chosen, i, kept);
          kept := kept + [p];
        }
        i := i + 1;
      }
      assert chosen[..i] == chosen;
      ChoseAll(names, chosen, kept);
      return Some(kept);
    }

    /** The system renames; it may fail, but is only asked to do what is possible. */
    method TryRename(s: Path, d: Path, fails: bool) returns (ok: bool)
      requires Valid() && CanRename(tree, s, d)
      modifies this
      ensures Valid() && ok == !fails
      ensures tree == if ok then Rename(old(tree), s, d) else old(tree)
    {
      if fails { return false; }
      RenameWellFormed(tree, s, d);
      tree := Rename(tree, s, d);
      return true;
    }

    /** Undo the first `n` renames in reverse order, until undoing one fails. */
    method UndoMoves(ghost before: Tree, moves: seq<Move>, n: nat, stuck: Path -> bool)
      requires Valid() && n <= |moves| && WellFormed(before) && Compatible(before, moves)
      requires Compatible(before, moves[..n]) && tree == RenameAll(before, moves[..n])
      modifies this
      ensures Valid() && Compatible(before, moves[..Left(moves, n, stuck)])
      ensures tree == RenameAll(before, moves[..Left(moves, n, stuck)])
    {
      hide WellFormed, CanRename, Rename, Compatible, RenameAll, Left;
      var i := n;
      while i > 0 && !stuck(moves[i - 1].target)
        invariant Valid() && 0 <= i <= n && Compatible(before, moves[..i])
        invariant tree == RenameAll(before, moves[..i]) && Left(moves, n, stuck) == Left(moves, i, stuck)
      {
        i := i - 1;
        LeftStep(moves, i + 1, stuck);
        RenameMore(before, moves, i);
        RenameBack(RenameAll(before, moves[..i]), moves[i].source, moves[i].target);
        var _ := TryRename(moves[i].target, moves[i].source, false);
      }
      LeftStep(moves, i, stuck);
    }

    /** Rename one after the other; when one fails, undo those before it. */
    method RunMoves(moves: seq<Move>, fails: Path -> bool, stuck: Path -> bool) returns (ok: bool)
      requires Valid() && Compatible(tree, moves)
      modifies this
      ensures Valid()
      ensures ok <==> forall m | m in moves :: !fails(m.source)
      ensures Compatible(old(tree), Made(moves, fails, stuck))
                && tree == RenameAll(old(tree), Made(moves, fails, stuck))
    {
      hide WellFormed, CanRename, Rename, Compatible, RenameAll, Left, Made;
      ghost var before := tree;
      var i := 0;
      assert moves[..0] == [];
      NoneMade(tree, moves);
      while i < |moves|
        invariant Valid() && i <= |moves| && Compatible(before, moves[..i])
        invariant tree == RenameAll(before, moves[..i])
        invariant forall k | 0 <= k < i :: !fails(moves[k].source)
      {
        RenameMore(before, moves, i);
        var done := TryRename(moves[i].source, moves[i].target, fails(moves[i].source));
        if !done {
          assert moves[i] in moves;
          UndoMoves(before, moves, i, stuck);
          LeftMade(moves, fails, stuck, i);
          return false;
        }
        i := i + 1;
      }
      AllMade(moves, fails, stuck);
      return true;
    }

    /** Moves all selected files and folders into the destination, or none. */
    method MoveFiles(names: seq<string>, destination: string, fails: Path -> bool, stuck: Path -> bool)
      returns (r: Outcome)
      requires Valid()
      modifies this
      ensures Valid()
      ensures r.Refused? <==>
                !(Resolve(old(tree), destination).Some?
                  && Movable(old(tree), names, Resolve(old(tree), destination).value))
      ensures !r.Refused? ==> (r.Failed? <==> SomeFails(names, Resolve(old(tree), destination).value, fails))
      ensures r.Completed? ==> MovedInto(old(tree), tree, names, Resolve(old(tree), destination).value)
      ensures r.Failed? ==> MovedPart(old(tree), tree, names, Resolve(old(tree), destination).value, stuck)
      ensures r.Refused? || (r.Failed? && forall p :: !stuck(p)) ==> tree == old(tree)
    {
      hide WellFormed, Kept, Resolve, AllSelectable, MovedInto, MovedPart, Compatible, RenameAll, Made;
      var selected := Selections(names);
      if selected.None? { return Refused; }
      var ps := selected.value;
      var place := Resolve(tree, destination);
      if place.None? || !IsFolder(tree, place.value) { return Refused; }
      var folder := place.value;
      var moves, targets := [], {};
      var i := 0;
      while i < |ps|
        invariant tree == old(tree) && Valid() && i <= |ps| && Planned(tree, folder, ps[..i], moves)
        invariant targets == set m | m in moves :: m.target
      {
        var source := ps[i];
        assert Kept(names, source);
        KeptSelectable(tree, names, source);
        assert ps[..i + 1] == ps[..i] + [source];
        AntichainPart(ps, i + 1);
        if source <= folder { return Refused; }
        var target := TargetIn(folder, source);
        if target != source {
          if target in tree || target in targets {
            if target !in tree { ClashRefused(tree, names, folder, ps, i, moves); }
            return Refused;
          }
          PlanMove(tree, folder, ps[..i], moves, source);
          moves := moves + [Move(source, target)];
          targets := targets + {target};
        } else {
          PlanStay(tree, folder, ps[..i], moves, source);
        }
        i := i + 1;
      }
      assert ps[..i] == ps;
      PlanCompatible(tree, folder, ps, moves);
      PlanMovable(tree, names, folder, ps, moves);
      var ok := RunMoves(moves, fails, stuck);
      MoveEnds(old(tree), names, folder, ps, moves, fails, stuck, tree);
      r := if ok then Completed else Failed;
    }

    /**
     * Moves all selected files and folders into a fresh trash folder and removes that; when a rename fails,
     * undoes those before it.  What undoing leaves in the trash folder is removed with it.
     */
    method DeleteFiles(names: seq<string>, trash: string, node: nat, fails: Path -> bool, stuck: Path -> bool)
      returns (r: Outcome)
      requires Valid() && [trash] !in tree
      modifies this
      ensures Valid()
      ensures r.Refused? <==> !AllSelectable(old(tree), names)
      ensures r.Failed? <==> AllSelectable(old(tree), names) && exists c :: Kept(names, c) && fails(c)
      ensures r.Completed? ==> DeletedFrom(old(tree), tree, names)
      ensures r.Failed? ==> DeletedPart(old(tree), tree, names, trash, stuck)
      ensures r.Refused? || (r.Failed? && forall p :: !stuck(p)) ==> tree == old(tree)
    {
      hide WellFormed, Kept, AllSelectable, DeletedFrom, Antichain, Compatible, RenameAll, RemoveFolder,
        TrashMoves, Made,
        DeletedPart;
      var selected := Selections(names);
      if selected.None? { return Refused; }
      var ps := selected.value;
      forall p | p in ps ensures p in tree && p != [] { KeptSelectable(tree, names, p); }
      AddTrash(tree, trash, node);
      tree := tree[[trash] := Folder(node)];
      var moves := TrashMoves(trash, ps);
      TrashCompatible(tree, trash, ps);
      var ok := RunMoves(moves, fails, stuck);
      tree := RemoveFolder(tree, [trash]);
      DeleteEnds(old(tree), names, trash, node, ps, fails, stuck, tree);
      r := if ok then Completed else Failed;
    }

    method CreateFolder(name: string, node: nat) returns (ok: bool)
      requires Valid()
      modifies this
      ensures Valid()
      ensures ok <==> name != "" && Resolve(old(tree), name).Some? && Split(name) !in old(tree)
      ensures tree == if ok then old(tree)[Split(name) := Folder(node)] else old(tree)
    {
      if name == "" { return false; }
      var p := Resolve(tree, name);
      if p.None? || p.value in tree { return false; }
      ResolvedParent(tree, name);
      tree := tree[p.value := Folder(node)];
      return true;
    }
  }

  lemma AddTrash(t: Tree, trash: string, node: nat)
    requires WellFormed(t) && [trash] !in t
    ensures var u := t[[trash] := Folder(node)];
            WellFormed(u) && IsFolder(u, [trash]) && forall p | p in u :: [trash] <= p ==> p == [trash]
  {
    forall p | p in t ensures !([trash] <= p) { if [trash] <= p { PrefixIn(t, [trash], p); } }
    assert Parent([trash]) == [];
  }

  lemma RemoveTrash(t: Tree, trash: string, node: nat)
    requires WellFormed(t) && [trash] !in t
    ensures RemoveFolder(t[[trash] := Folder(node)], [trash]) == t
  {
    hide WellFormed;
    forall p | p in t ensures !([trash] <= p) { if [trash] <= p { PrefixIn(t, [trash], p); } }
  }

  ghost predicate Renamed(a: Tree, m: Move, b: Tree) {
    WellFormed(a) && CanRename(a, m.source, m.target) && b == Rename(a, m.source, m.target)
  }

  lemma ResolvedParent(t: Tree, name: string)
    requires WellFormed(t) && name != "" && Resolve(t, name).Some?
    ensures IsFolder(t, Parent(Split(name)))
  {
    var p := Split(name);
    if |p| == 1 { assert Parent(p) == []; }
  }

  lemma KeptSelectable(t: Tree, names: seq<string>, p: Path)
    requires AllSelectable(t, names) && Kept(names, p)
    ensures p in t && p != []
  {
  }

  lemma AntichainPart(ps: seq<Path>, n: nat)
    requires Antichain(ps) && n <= |ps|
    ensures Antichain(ps[..n])
  {
  }

  // ---------------------------------------------------------------- steps of the selection

  /** The paths kept among the names looked at so far. */
  ghost predicate Chose(names: seq<string>, done: seq<string>, kept: seq<Path>) {
    && Antichain(kept)
    && forall p :: p in kept <==> Kept(names, p) && exists n | n in done :: Split(n) == p
  }

  lemma DropsInner(t: Tree, names: seq<string>, chosen: seq<string>, n: string)
    requires WellFormed(t) && AllSelectable(t, names) && n in names && forall x :: x in chosen <==> x in names
    ensures (exists m | m in chosen :: IsFolder(t, Split(m)) && Split(n) != Split(m) && Split(m) <= Split(n)) <==>
              !Kept(names, Split(n))
  {
    hide WellFormed, Split;
    assert Requested(names, Split(n));
    forall m | m in names && Split(n) != Split(m) && Split(m) <= Split(n) ensures IsFolder(t, Split(m)) {
      assert Selectable(t, n);
      PrefixIn(t, Split(m), Split(n));
    }
  }

  lemma ChoseNot(names: seq<string>, done: seq<string>, kept: seq<Path>, n: string)
    requires Chose(names, done, kept) && !Kept(names, Split(n))
    ensures Chose(names, done + [n], kept)
  {
    hide Kept, Split, Antichain;
    var all := done + [n];
    assert n in all && forall m | m in done :: m in all;
    forall p ensures p in kept <==> Kept(names, p) && exists m | m in all :: Split(m) == p { }
  }

  lemma ChoseOne(names: seq<string>, chosen: seq<string>, i: nat, kept: seq<Path>)
    requires i < |chosen| && Distinct(chosen) && Chose(names, chosen[..i], kept) && Kept(names, Split(chosen[i]))
    ensures Chose(names, chosen[..i] + [chosen[i]], kept + [Split(chosen[i])])
  {
    hide Kept, Split, Antichain;
    var p, done, after := Split(chosen[i]), chosen[..i] + [chosen[i]], kept + [Split(chosen[i])];
    forall c | c in kept ensures c != p {
      var n :| n in chosen[..i] && Split(n) == c;
      if c == p { SplitInjective(n, chosen[i]); assert false; }
    }
    AntichainOne(names, kept, p);
    forall x ensures x in after <==> Kept(names, x) && exists n | n in done :: Split(n) == x {
      if x in kept {
        var n :| n in chosen[..i] && Split(n) == x;
        assert n in done;
      }
      assert chosen[i] in done;
    }
  }

  lemma AntichainOne(names: seq<string>, kept: seq<Path>, p: Path)
    requires Antichain(kept) && Kept(names, p) && forall c | c in kept :: Kept(names, c) && c != p
    ensures Antichain(kept + [p])
  {
    hide Kept;
    forall c | c in kept ensures !(c <= p) && !(p <= c) {
      if c <= p { KeptApart(names, c, p); }
      if p <= c { KeptApart(names, p, c); }
    }
    var after := kept + [p];
    forall i, j | 0 <= i < |after| && 0 <= j < |after| && i != j ensures !(after[i] <= after[j]) {
      if i < |kept| { assert after[i] in kept; }
      if j < |kept| { assert after[j] in kept; }
    }
  }

  lemma ChoseAll(names: seq<string>, chosen: seq<string>, kept: seq<Path>)
    requires Chose(names, chosen, kept) && forall x :: x in chosen <==> x in names
    ensures Antichain(kept) && forall p :: p in kept <==> Kept(names, p)
  {
    hide Split, Antichain;
    forall p | Kept(names, p) ensures p in kept {
      var n :| n in names && Split(n) == p;
      assert n in chosen;
    }
  }

  // ---------------------------------------------------------------- steps of the move

  lemma ClashRefused(t: Tree, names: seq<string>, folder: Path, ps: seq<Path>, i: nat, ms: seq<Move>)
    requires i < |ps| && Antichain(ps) && Planned(t, folder, ps[..i], ms) && forall p :: p in ps <==> Kept(names, p)
    requires ps[i] != [] && exists m | m in ms :: m.target == TargetIn(folder, ps[i])
    ensures !Movable(t, names, folder)
  {
    hide Kept;
    var m :| m in ms && m.target == TargetIn(folder, ps[i]);
    var k :| 0 <= k < i && ps[k] == m.source;
    assert !(ps[k] <= ps[i]);
    assert Kept(names, ps[k]) && Kept(names, ps[i]);
  }

  lemma PlanMovable(t: Tree, names: seq<string>, folder: Path, ps: seq<Path>, ms: seq<Move>)
    requires AllSelectable(t, names) && IsFolder(t, folder) && Antichain(ps) && Planned(t, folder, ps, ms)
    requires forall p :: p in ps <==> Kept(names, p)
    ensures Movable(t, names, folder)
  {
    hide Kept, AllSelectable;
    forall c, d | Kept(names, c) && Kept(names, d) && c != [] && d != [] && c != d
      ensures TargetIn(folder, c) != TargetIn(folder, d)
    {
      assert c in ps && d in ps;
      var x, y := TargetIn(folder, c), TargetIn(folder, d);
      if x != c && y != d {
        var i :| 0 <= i < |ms| && ms[i] == Move(c, x);
        var j :| 0 <= j < |ms| && ms[j] == Move(d, y);
        assert i != j;
      }
    }
  }

  lemma PlannedSources(t: Tree, names: seq<string>, folder: Path, ps: seq<Path>, ms: seq<Move>, fails: Path -> bool)
    requires Planned(t, folder, ps, ms) && forall p :: p in ps <==> Kept(names, p)
    ensures SomeFails(names, folder, fails) <==> exists m | m in ms :: fails(m.source)
  {
    hide Kept;
    if SomeFails(names, folder, fails) {
      var c :| Kept(names, c) && c != [] && TargetIn(folder, c) != c && fails(c);
      assert Move(c, TargetIn(folder, c)) in ms;
    }
    if m :| m in ms && fails(m.source) {
      assert m.source in ps && Kept(names, m.source);
    }
  }
}
