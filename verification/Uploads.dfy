/** Uploads, and the mutations of the library that must not take an upload's folder away. */
module Uploads {
  import opened Names
  import opened FileTree
  import opened LibraryNames
  import opened Files
  import opened Numbering

  /** The library and the receiving folder of every upload in progress. */
  datatype Store = Store(tree: Tree, uploads: map<nat, Path>)

  /** What happens while the gate is held. */
  datatype Action =
    | Register(id: nat, folder: Path)
    | PublishFile(id: nat, name: string, item: Item)
    | Unregister(id: nat)
    | CreateFolder(path: Path, node: nat)
    | MoveInto(names: seq<string>, destination: Path)
    | MoveSome(names: seq<string>, destination: Path, moves: seq<Move>)
    | DeleteAll(names: seq<string>)
    | DeleteSome(names: seq<string>, gone: seq<Path>)
    | Nothing

  /** No upload goes to a selected folder or to one inside it. */
  ghost predicate Unused(s: Store, names: seq<string>) {
    forall c, id | Kept(names, c) && id in s.uploads :: !(c <= s.uploads[id])
  }

  ghost predicate Next(s: Store, a: Action, u: Store) {
    match a
    case Register(id, folder) => id !in s.uploads && IsFolder(s.tree, folder)
      && u == Store(s.tree, s.uploads[id := folder])
    case PublishFile(id, name, item) =>
      && id in s.uploads && s.uploads[id] + [name] !in s.tree
      && u == Store(s.tree[s.uploads[id] + [name] := item], s.uploads)
    case Unregister(id) => u == Store(s.tree, s.uploads - {id})
    case CreateFolder(path, node) =>
      && path != [] && path !in s.tree && IsFolder(s.tree, Parent(path))
      && u == Store(s.tree[path := Folder(node)], s.uploads)
    case MoveInto(names, folder) =>
      && Unused(s, names) && Movable(s.tree, names, folder)
      && WellFormed(u.tree) && MovedInto(s.tree, u.tree, names, folder) && u.uploads == s.uploads
    case MoveSome(names, folder, ms) =>
      && Unused(s, names) && Movable(s.tree, names, folder) && MovesInto(names, folder, ms)
      && WellFormed(u.tree) && MovedSome(s.tree, u.tree, ms) && u.uploads == s.uploads
    case DeleteSome(names, cs) =>
      && Unused(s, names) && (forall c | c in cs :: Kept(names, c))
      && WellFormed(u.tree) && DeletedSome(s.tree, u.tree, cs) && u.uploads == s.uploads
    case DeleteAll(names) =>
      && Unused(s, names) && WellFormed(u.tree) && DeletedFrom(s.tree, u.tree, names) && u.uploads == s.uploads
    case Nothing => u == s
  }

  ghost predicate Inv(s: Store) {
    WellFormed(s.tree) && forall id | id in s.uploads :: IsFolder(s.tree, s.uploads[id])
  }

  // ---------------------------------------------------------------- one step

  lemma MoveKeeps(s: Store, u: Store, names: seq<string>, folder: Path, id: nat)
    requires Inv(s) && Next(s, MoveInto(names, folder), u) && id in s.uploads
    ensures At(u.tree, s.uploads[id]) == At(s.tree, s.uploads[id])
  {
    hide WellFormed, Kept;
    var f := s.uploads[id];
    if UnderTarget(names, folder, f) {
      var c :| Kept(names, c) && c != [] && TargetIn(folder, c) <= f;
      PrefixIn(s.tree, TargetIn(folder, c), f);
      assert false;
    }
    assert !UnderKept(names, f);
  }

  lemma AddKeeps(t: Tree, p: Path, item: Item)
    requires WellFormed(t) && p != [] && p !in t && IsFolder(t, Parent(p))
    ensures WellFormed(t[p := item])
  {
  }

  /** A folder that receives an upload stays where it is, the same folder, and what was started stays registered. */
  lemma StepKeeps(s: Store, a: Action, u: Store)
    requires Inv(s) && Next(s, a, u)
    ensures Inv(u)
    ensures forall id | id in s.uploads :: At(u.tree, s.uploads[id]) == At(s.tree, s.uploads[id])
    ensures forall id | id in s.uploads && id in u.uploads :: u.uploads[id] == s.uploads[id]
  {
    hide WellFormed, MovedInto, MovedSome, MovesInto, Movable, DeletedFrom, DeletedSome, Unused;
    match a
    case PublishFile(id, name, item) =>
      var p := s.uploads[id] + [name];
      assert Parent(p) == s.uploads[id];
      AddKeeps(s.tree, p, item);
    case CreateFolder(path, node) => AddKeeps(s.tree, path, Folder(node));
    case MoveInto(names, folder) =>
      forall id | id in s.uploads ensures At(u.tree, s.uploads[id]) == At(s.tree, s.uploads[id]) {
        MoveKeeps(s, u, names, folder, id);
      }
    case DeleteAll(names) =>
      forall id | id in s.uploads ensures At(u.tree, s.uploads[id]) == At(s.tree, s.uploads[id]) {
        DeleteKeeps(s, u, names, id);
      }
    case MoveSome(names, folder, ms) =>
      forall id | id in s.uploads ensures At(u.tree, s.uploads[id]) == At(s.tree, s.uploads[id]) {
        MoveSomeKeeps(s, u, names, folder, ms, id);
      }
    case DeleteSome(names, cs) =>
      forall id | id in s.uploads ensures At(u.tree, s.uploads[id]) == At(s.tree, s.uploads[id]) {
        DeleteSomeKeeps(s, u, names, cs, id);
      }
    case _ =>
  }

  lemma MoveSomeKeeps(s: Store, u: Store, names: seq<string>, folder: Path, ms: seq<Move>, id: nat)
    requires Inv(s) && Next(s, MoveSome(names, folder, ms), u) && id in s.uploads
    ensures At(u.tree, s.uploads[id]) == At(s.tree, s.uploads[id])
  {
    hide WellFormed, Kept;
    var f := s.uploads[id];
    forall m | m in ms ensures !(m.target <= f) && !(m.source <= f) {
      if m.target <= f { PrefixIn(s.tree, m.target, f); }
    }
    assert !Targets(ms, f) && !Sources(ms, f);
  }

  lemma DeleteSomeKeeps(s: Store, u: Store, names: seq<string>, cs: seq<Path>, id: nat)
    requires Next(s, DeleteSome(names, cs), u) && id in s.uploads
    ensures At(u.tree, s.uploads[id]) == At(s.tree, s.uploads[id])
  {
    hide WellFormed, Kept;
    assert !UnderSome(cs, s.uploads[id]);
  }

  lemma DeleteKeeps(s: Store, u: Store, names: seq<string>, id: nat)
    requires Next(s, DeleteAll(names), u) && id in s.uploads
    ensures At(u.tree, s.uploads[id]) == At(s.tree, s.uploads[id])
  {
    hide WellFormed, Kept;
    assert !UnderKept(names, s.uploads[id]);
  }

  /** A deletion leaves every folder that receives an upload where it is exactly if it is clear of them. */
  lemma DeletionNeedsUnused(s: Store, u: Tree, names: seq<string>)
    requires Inv(s) && DeletedFrom(s.tree, u, names)
    ensures Unused(s, names) <==> forall id | id in s.uploads :: At(u, s.uploads[id]) == At(s.tree, s.uploads[id])
  {
    hide WellFormed, Kept;
    forall id | id in s.uploads
      ensures At(u, s.uploads[id]) == At(s.tree, s.uploads[id]) <==> !UnderKept(names, s.uploads[id])
    {
      assert IsFolder(s.tree, s.uploads[id]);
    }
    if Unused(s, names) {
      forall id | id in s.uploads ensures !UnderKept(names, s.uploads[id]) { }
    } else {
      var c, id :| Kept(names, c) && id in s.uploads && c <= s.uploads[id];
      assert UnderKept(names, s.uploads[id]);
    }
  }

  /** A move takes a folder that receives an upload away if it lies at or under a selection that is not there yet. */
  lemma MoveNeedsUnused(s: Store, u: Tree, names: seq<string>, folder: Path, c: Path, id: nat)
    requires Inv(s) && Movable(s.tree, names, folder) && MovedInto(s.tree, u, names, folder)
    requires Kept(names, c) && c != [] && TargetIn(folder, c) != c && id in s.uploads && c <= s.uploads[id]
    ensures !Unused(s, names) && At(u, s.uploads[id]) == None
  {
    hide WellFormed, Kept;
    var f := s.uploads[id];
    if UnderTarget(names, folder, f) {
      var d :| Kept(names, d) && d != [] && TargetIn(folder, d) <= f;
      PrefixIn(s.tree, TargetIn(folder, d), f);
      PrefixesMeet(c, d, f);
      if c <= d { KeptApart(names, c, d); } else { KeptApart(names, d, c); }
      assert false;
    }
    assert UnderKept(names, f);
  }

  // ---------------------------------------------------------------- whole runs

  ghost predicate Trace(states: seq<Store>, acts: seq<Action>) {
    |states| == |acts| + 1 && forall k | 0 <= k < |acts| :: Next(states[k], acts[k], states[k + 1])
  }

  lemma {:induction false} TraceInv(states: seq<Store>, acts: seq<Action>, k: nat)
    requires Trace(states, acts) && Inv(states[0]) && k < |states|
    ensures Inv(states[k])
  {
    hide Inv, Next;
    if k > 0 {
      TraceInv(states, acts, k - 1);
      StepKeeps(states[k - 1], acts[k - 1], states[k]);
    }
  }

  /**
   * While an upload is registered, whatever else is moved, deleted, created or uploaded, its folder is there,
   * and it is the folder that was there when the upload began.
   */
  lemma {:induction false} FolderStays(states: seq<Store>, acts: seq<Action>, i: nat, j: nat, id: nat)
    requires Trace(states, acts) && Inv(states[0]) && i <= j < |states|
    requires forall k | i <= k <= j :: id in states[k].uploads
    ensures states[j].uploads[id] == states[i].uploads[id]
    ensures IsFolder(states[j].tree, states[j].uploads[id])
    ensures At(states[j].tree, states[j].uploads[id]) == At(states[i].tree, states[i].uploads[id])
    decreases j
  {
    hide Next;
    TraceInv(states, acts, j);
    if i < j {
      FolderStays(states, acts, i, j - 1, id);
      TraceInv(states, acts, j - 1);
      StepKeeps(states[j - 1], acts[j - 1], states[j]);
    }
  }

  // ---------------------------------------------------------------- names for published files

  function LastDot(name: string): (r: nat)
    ensures r <= |name| && (r < |name| ==> name[r] == '.' && '.' !in name[r + 1..])
    ensures r == |name| ==> '.' !in name
  {
    if '.' !in name then |name|
    else if name[|name| - 1] == '.' then |name| - 1
    else
      assert name == name[..|name| - 1] + [name[|name| - 1]];
      var r := LastDot(name[..|name| - 1]);
      assert name[r + 1..] == name[..|name| - 1][r + 1..] + [name[|name| - 1]];
      r
  }

  /** The name itself, and then the name with a number before its extension. */
  function Candidate(name: string, number: nat): string {
    Numbered(name[..LastDot(name)], name[LastDot(name)..], number)
  }

  /** A name in two parts: what comes before its last dot and the rest, or all of it if there is no dot. */
  predicate DotParts(name: string, stem: string, extension: string) {
    && name == stem + extension
    && if '.' in name then extension != "" && extension[0] == '.' && '.' !in extension[1..] else extension == ""
  }

  /** The first candidate is the name itself; later ones have a decimal number before the last dot, or at the end. */
  lemma CandidateExactly(name: string, number: nat) returns (stem: string, extension: string, digits: string)
    requires number >= 1
    ensures Candidate(name, 1) == name
    ensures DotParts(name, stem, extension) && Numeral(digits) && ValueOf(digits) == number
    ensures number >= 2 ==> Candidate(name, number) == stem + "_" + digits + extension
  {
    hide Digits, LastDot, Numeral, ValueOf;
    var k := LastDot(name);
    stem, extension, digits := name[..k], name[k..], Digits(number);
    assert name == stem + extension;
    DigitsRead(number);
    if '.' in name && k < |name| { assert extension[1..] == name[k + 1..]; }
  }

  /** The names that are taken in a folder. */
  ghost function Taken(t: Tree, folder: Path): set<string> {
    set p | p in t && |p| == |folder| + 1 && folder <= p :: p[|folder|]
  }

  lemma IsTaken(t: Tree, folder: Path, name: string)
    requires folder + [name] in t
    ensures name in Taken(t, folder)
  {
    var p := folder + [name];
    assert p[|folder|] == name && folder <= p;
  }

  lemma EnoughNames(taken: set<string>, name: string, number: nat)
    requires number >= 1 && forall i | 1 <= i < number :: Candidate(name, i) in taken
    ensures number - 1 <= |taken|
  {
    hide Numbered, LastDot;
    forall i | 1 <= i < number ensures Numbered(name[..LastDot(name)], name[LastDot(name)..], i) in taken {
      assert Candidate(name, i) in taken;
    }
    TriedAll(taken, name[..LastDot(name)], name[LastDot(name)..], number);
  }

  // ---------------------------------------------------------------- numbered names are valid

  lemma {:induction false} FirstPartOf(a: string, b: string)
    ensures '.' in a ==> FirstPart(a + b) == FirstPart(a)
    ensures '.' !in a ==> FirstPart(a + b) == FirstPart(a) + FirstPart(b) && |FirstPart(a)| == |a|
  {
    if a == [] {
      assert a + b == b;
    } else if a[0] != '.' {
      assert (a + b)[1..] == a[1..] + b;
      FirstPartOf(a[1..], b);
    }
  }

  lemma UnderscoreNotReserved(part: string, k: nat)
    requires k < |part| && part[k] == '_'
    ensures !Reserved(part)
  {
    if k < 3 && |part| == 4 { assert part[..3][k] == '_'; }
  }

  lemma {:induction false} DigitsValid(n: nat)
    ensures |Digits(n)| > 0 && forall c | c in Digits(n) :: '0' <= c <= '9'
  {
    if n >= 10 { DigitsValid(n / 10); }
  }

  /** A number never makes a valid name invalid. */
  lemma CandidateValid(name: string, number: nat)
    requires ValidName(name)
    ensures ValidName(Candidate(name, number))
  {
    hide Reserved, FirstPart, Digits, LastDot;
    assert name == name[..LastDot(name)] + name[LastDot(name)..];
    if number > 1 {
      var k, d := LastDot(name), Digits(number);
      var stem, ext := name[..k], name[k..];
      assert name == stem + ext;
      assert stem != [];
      DigitsValid(number);
      var c := Candidate(name, number);
      assert c == stem + ("_" + d + ext);
      assert c[|c| - 1] == if ext == [] then d[|d| - 1] else name[|name| - 1];
      NumberedPart(stem, d, ext);
      forall x | x in c ensures x in name || x == '_' || '0' <= x <= '9' {
        assert x in stem || x in "_" || x in d || x in ext;
      }
      assert c[0] == name[0];
      assert d[|d| - 1] in d && c[|c| - 1] !in {'.', ' '};
      assert !Reserved(FirstPart(c));
      assert forall x | x in c :: x !in {'/', '\\', ':', '*', '?', '"', '<', '>', '|'} && !Control(x);
    }
  }

  lemma NumberedPart(stem: string, d: string, ext: string)
    requires !Reserved(FirstPart(stem + ext))
    ensures !Reserved(FirstPart(stem + ("_" + d + ext)))
  {
    FirstPartOf(stem, ext);
    FirstPartOf(stem, "_" + d + ext);
    if '.' !in stem {
      var tail := "_" + d + ext;
      assert FirstPart(tail) == ['_'] + FirstPart(tail[1..]);
      UnderscoreNotReserved(FirstPart(stem + tail), |stem|);
    }
  }

  // ---------------------------------------------------------------- the handlers

  class Host {
    const files: Files
    var uploads: map<nat, Path>

    ghost function State(): Store
      reads this, files
    {
      Store(files.tree, uploads)
    }

    ghost predicate Valid()
      reads this, files
    {
      Inv(State())
    }

    constructor (files: Files)
      requires files.Valid()
      ensures Valid() && this.files == files && uploads == map[]
    {
      this.files := files;
      uploads := map[];
    }

    /** Refuses to touch a folder that an upload is using. */
    method Preflight(names: seq<string>) returns (ok: bool)
      requires Valid()
      ensures ok <==> AllSelectable(files.tree, names) && Unused(State(), names)
    {
      hide Kept, AllSelectable, WellFormed;
      var selected := files.Selections(names);
      if selected.None? { return false; }
      ok := !exists p, id | p in selected.value && id in uploads :: p <= uploads[id];
    }

    /** `sawFolder`: before taking the gate, the name was found to be a folder's. */
    method BeginUpload(id: nat, name: string, sawFolder: bool) returns (ok: bool)
      requires Valid() && id !in uploads
      modifies this
      ensures Valid() && ok == (name != "" && !sawFolder && Resolve(old(files.tree), name).Some?)
      ensures ok ==> Next(old(State()), Register(id, Parent(Split(name))), State())
      ensures !ok ==> Next(old(State()), Nothing, State())
    {
      if name == "" || sawFolder { return false; }
      var p := Resolve(files.tree, name);
      if p.None? { return false; }
      ResolvedParent(files.tree, name);
      uploads := uploads[id := Parent(p.value)];
      return true;
    }

    /** The upload appears in its folder under the first free name; nothing is overwritten. */
    method Publish(id: nat, name: string, item: Item) returns (ghost number: nat)
      requires Valid() && id in uploads && ValidName(name)
      modifies files
      ensures Valid() && number >= 1
      ensures Next(old(State()), PublishFile(id, Candidate(name, number), item), State())
                && ValidName(Candidate(name, number))
      ensures forall i | 1 <= i < number :: uploads[id] + [Candidate(name, i)] in old(files.tree)
    {
      hide Candidate, WellFormed;
      var folder, n := uploads[id], 1;
      while folder + [Candidate(name, n)] in files.tree
        invariant files.tree == old(files.tree) && n >= 1
                    && forall i | 1 <= i < n :: folder + [Candidate(name, i)] in files.tree
        decreases |Taken(files.tree, folder)| + 1 - n
      {
        n := n + 1;
        forall i | 1 <= i < n ensures Candidate(name, i) in Taken(files.tree, folder) {
          IsTaken(files.tree, folder, Candidate(name, i));
        }
        EnoughNames(Taken(files.tree, folder), name, n);
      }
      number := n;
      CandidateValid(name, n);
      ghost var before := State();
      files.tree := files.tree[folder + [Candidate(name, n)] := item];
      StepKeeps(before, PublishFile(id, Candidate(name, n), item), State());
    }

    /** However the upload ended, its protection goes last. */
    method EndUpload(id: nat)
      requires Valid()
      modifies this
      ensures Valid() && Next(old(State()), Unregister(id), State())
    {
      uploads := uploads - {id};
    }

    method MoveFiles(names: seq<string>, destination: string, fails: Path -> bool, stuck: Path -> bool)
      returns (r: Outcome)
      requires Valid()
      modifies files
      ensures Valid()
      ensures !r.Refused? ==> Resolve(old(files.tree), destination).Some?
      ensures r.Completed? ==>
                Next(old(State()), MoveInto(names, Resolve(old(files.tree), destination).value), State())
      ensures r.Failed? ==> exists ms ::
                Next(old(State()), MoveSome(names, Resolve(old(files.tree), destination).value, ms), State())
      ensures r.Refused? || (r.Failed? && forall p :: !stuck(p)) ==> Next(old(State()), Nothing, State())
    {
      hide WellFormed, Resolve, Kept, Movable, MovedInto, MovedSome, MovesInto, Unused;
      var clear := Preflight(names);
      if !clear { return Refused; }
      ghost var before := State();
      r := files.MoveFiles(names, destination, fails, stuck);
      if r.Refused? { return; }
      ghost var folder := Resolve(before.tree, destination).value;
      if r.Completed? {
        StepKeeps(before, MoveInto(names, folder), State());
      } else {
        ghost var ms :| MovesInto(names, folder, ms) && MovedSome(before.tree, files.tree, ms);
        StepKeeps(before, MoveSome(names, folder, ms), State());
      }
    }

    method DeleteFiles(names: seq<string>, trash: string, node: nat, fails: Path -> bool, stuck: Path -> bool)
      returns (r: Outcome)
      requires Valid() && [trash] !in files.tree
      modifies files
      ensures Valid()
      ensures r.Completed? ==> Next(old(State()), DeleteAll(names), State())
      ensures r.Failed? ==> exists cs :: Next(old(State()), DeleteSome(names, cs), State())
      ensures r.Refused? || (r.Failed? && forall p :: !stuck(p)) ==> Next(old(State()), Nothing, State())
    {
      hide WellFormed, Kept, DeletedFrom, DeletedSome, Unused;
      var clear := Preflight(names);
      if !clear { return Refused; }
      ghost var before := State();
      r := files.DeleteFiles(names, trash, node, fails, stuck);
      if r.Completed? {
        StepKeeps(before, DeleteAll(names), State());
      } else if r.Failed? {
        ghost var cs :| (forall c | c in cs :: Kept(names, c)) && DeletedSome(before.tree, files.tree, cs);
        StepKeeps(before, DeleteSome(names, cs), State());
      }
    }

    method MakeFolder(name: string, node: nat) returns (ok: bool)
      requires Valid()
      modifies files
      ensures Valid()
      ensures ok ==> Next(old(State()), CreateFolder(Split(name), node), State())
      ensures !ok ==> Next(old(State()), Nothing, State())
    {
      hide WellFormed;
      ghost var before := State();
      if name != "" && Resolve(files.tree, name).Some? { ResolvedParent(files.tree, name); }
      ok := files.CreateFolder(name, node);
      if ok { StepKeeps(before, CreateFolder(Split(name), node), State()); }
    }
  }
}
