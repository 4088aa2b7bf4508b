/**
 * The cache across threads and processes.
 *
 * A call holds a shared lease from before its lookup until after its store: first its process's
 * read-write lock, then a shared lock on the lease file.  Each table access also takes the process's
 * operation mutex and then an exclusive lock on the lock file.  Clearing only tries for an exclusive
 * lease, in the same order, and gives up when anyone holds one.
 *
 * An action names the actor that takes its next step; an actor whose lock is not free stays put.
 */
module CacheProtocol {
  import opened Names
  import opened VectorCodec
  import opened TextCache

  /** A read-write lock and an exclusive lock, by holder. */
  datatype ReadWrite = ReadWrite(readers: set<nat>, writer: Option<nat>)

  const FREE := ReadWrite({}, None)

  datatype Phase =
    // a call
    | Start | LocalLease | Leased
    | LookupLocal | LookupFile
    | Looked(seen: Rows) | Computing(seen: Rows)
    | StoreLocal(seen: Rows) | StoreFile(seen: Rows)
    | Ready(seen: Rows) | Done(values: seq<Vector>) | Failed
    // a clear attempt
    | TryLocal | TryFile | ClearLocal | ClearFile | Clearing | Cleared | GaveUp

  datatype Actor = Actor(process: nat, scope: CacheScope, texts: seq<string>, phase: Phase)

  datatype State = State(
    actors: seq<Actor>,
    lease: map<nat, ReadWrite>,
    fileLease: ReadWrite,
    operation: map<nat, nat>,
    fileOperation: Option<nat>,
    rows: Rows)

  datatype Action = Action(actor: nat, computeFails: bool)

  function LeaseOf(s: State, process: nat): ReadWrite {
    if process in s.lease then s.lease[process] else FREE
  }

  predicate IsClear(p: Phase) {
    p.TryLocal? || p.TryFile? || p.ClearLocal? || p.ClearFile? || p.Clearing? || p.Cleared? || p.GaveUp?
  }

  predicate IsAnswer(p: Phase) {
    p.Looked? || p.Computing? || p.StoreLocal? || p.StoreFile? || p.Ready?
  }

  // Which locks a phase holds.

  predicate SharesLocal(p: Phase) {
    p.LocalLease? || SharesFile(p)
  }

  predicate SharesFile(p: Phase) {
    || p.Leased? || p.LookupLocal? || p.LookupFile? || p.Looked? || p.Computing?
    || p.StoreLocal? || p.StoreFile? || p.Ready?
  }

  predicate OwnsLocal(p: Phase) {
    p.TryFile? || OwnsFile(p)
  }

  predicate OwnsFile(p: Phase) {
    p.ClearLocal? || p.ClearFile? || p.Clearing?
  }

  predicate HasOperation(p: Phase) {
    p.LookupLocal? || p.StoreLocal? || p.ClearFile? || HasFileOperation(p)
  }

  predicate HasFileOperation(p: Phase) {
    p.LookupFile? || p.StoreFile? || p.Clearing?
  }

  // ---------------------------------------------------------------- steps

  function Move(s: State, a: nat, p: Phase): State
    requires a < |s.actors|
  {
    s.(actors := s.actors[a := s.actors[a].(phase := p)])
  }

  /** Dropping both guards of a lease. */
  function DropLease(s: State, a: nat): State
    requires a < |s.actors|
  {
    var process := s.actors[a].process;
    var l := LeaseOf(s, process);
    s.(lease := s.lease[process := ReadWrite(l.readers - {a}, if l.writer == Some(a) then None else l.writer)],
       fileLease := ReadWrite(s.fileLease.readers - {a}, if s.fileLease.writer == Some(a) then None
         else s.fileLease.writer))
  }

  function DropOperation(s: State, a: nat): State
    requires a < |s.actors|
  {
    s.(operation := s.operation - {s.actors[a].process}, fileOperation := None)
  }

  /** Take the process's operation mutex. */
  function TakeOperation(s: State, a: nat, p: Phase): State
    requires a < |s.actors|
  {
    var process := s.actors[a].process;
    if process in s.operation then s else Move(s.(operation := s.operation[process := a]), a, p)
  }

  function TakeFileOperation(s: State, a: nat, p: Phase): State
    requires a < |s.actors|
  {
    if s.fileOperation.Some? then s else Move(s.(fileOperation := Some(a)), a, p)
  }

  /** The misses a call stores, given the rows it looked up. */
  function Store(enc: Encoder, rows: Rows, x: Actor, seen: Rows): Rows {
    var m := Missing(enc, x.scope, x.texts, seen);
    InsertOrIgnore(rows, x.scope, Hashes(enc, m), Computed(enc, x.scope, m))
  }

  function Values(enc: Encoder, x: Actor, seen: Rows): seq<Vector> {
    var all := Answer(enc, x.scope, x.texts, seen);
    seq(|x.texts|, i requires 0 <= i < |x.texts| => if enc.hash(x.texts[i]) in all then all[enc.hash(x.texts[i])]
      else [])
  }

  function Step(enc: Encoder, s: State, act: Action): State {
    if act.actor >= |s.actors| then s
    else if IsClear(s.actors[act.actor].phase) then ClearStep(s, act.actor)
    else if IsAnswer(s.actors[act.actor].phase) then AnswerStep(enc, s, act.actor, act.computeFails)
    else LookupStep(s, act.actor)
  }

  /** From the start of a call to its lookup. */
  function LookupStep(s: State, a: nat): State
    requires a < |s.actors|
  {
    var x := s.actors[a];
    var local := LeaseOf(s, x.process);
    match x.phase
    case Start =>
      if local.writer.Some? then s
      else Move(s.(lease := s.lease[x.process := local.(readers := local.readers + {a})]), a, LocalLease)
    case LocalLease =>
      if s.fileLease.writer.Some? then s
      else Move(s.(fileLease := s.fileLease.(readers := s.fileLease.readers + {a})), a, Leased)
    case Leased =>
      if x.texts == [] then Move(DropLease(s, a), a, Done([])) else TakeOperation(s, a, LookupLocal)
    case LookupLocal => TakeFileOperation(s, a, LookupFile)
    case LookupFile => Move(DropOperation(s, a), a, Looked(s.rows))
    case _ => s
  }

  /** From the lookup to the answer. */
  function AnswerStep(enc: Encoder, s: State, a: nat, fails: bool): State
    requires a < |s.actors|
  {
    var x := s.actors[a];
    match x.phase
    case Looked(seen) =>
      if Missing(enc, x.scope, x.texts, seen) == [] then Move(s, a, Ready(seen))
      else if fails then Move(DropLease(s, a), a, Failed)
      else Move(s, a, Computing(seen))
    case Computing(seen) => TakeOperation(s, a, StoreLocal(seen))
    case StoreLocal(seen) => TakeFileOperation(s, a, StoreFile(seen))
    case StoreFile(seen) => Move(DropOperation(s.(rows := Store(enc, s.rows, x, seen)), a), a, Ready(seen))
    case Ready(seen) => Move(DropLease(s, a), a, Done(Values(enc, x, seen)))
    case _ => s
  }

  /** A clear attempt. */
  function ClearStep(s: State, a: nat): State
    requires a < |s.actors|
  {
    var x := s.actors[a];
    var local := LeaseOf(s, x.process);
    match x.phase
    case TryLocal =>
      if local.writer.Some? || local.readers != {} then Move(s, a, GaveUp)
      else Move(s.(lease := s.lease[x.process := local.(writer := Some(a))]), a, TryFile)
    case TryFile =>
      if s.fileLease.writer.Some? || s.fileLease.readers != {} then Move(DropLease(s, a), a, GaveUp)
      else Move(s.(fileLease := s.fileLease.(writer := Some(a))), a, ClearLocal)
    case ClearLocal => TakeOperation(s, a, ClearFile)
    case ClearFile => TakeFileOperation(s, a, Clearing)
    case Clearing => Move(DropLease(DropOperation(s.(rows := map[]), a), a), a, Cleared)
    case _ => s
  }

  function Run(enc: Encoder, s: State, acts: seq<Action>): State {
    if acts == [] then s else Step(enc, Run(enc, s, acts[..|acts| - 1]), acts[|acts| - 1])
  }

  // ---------------------------------------------------------------- invariant

  /** Lease locks are held exactly by the actors whose phase says so, and never both ways. */
  ghost predicate LeasesKept(s: State) {
    && (forall a | 0 <= a < |s.actors| ::
          var x := s.actors[a];
          && (a in LeaseOf(s, x.process).readers <==> SharesLocal(x.phase))
          && (LeaseOf(s, x.process).writer == Some(a) <==> OwnsLocal(x.phase))
          && (a in s.fileLease.readers <==> SharesFile(x.phase))
          && (s.fileLease.writer == Some(a) <==> OwnsFile(x.phase)))
    && (forall a | a in s.fileLease.readers :: a < |s.actors|)
    && (s.fileLease.writer.Some? ==> s.fileLease.readers == {})
  }

  /** The lock file and each process's operation mutex have at most one holder. */
  ghost predicate OperationsKept(s: State) {
    forall a | 0 <= a < |s.actors| ::
      var x := s.actors[a];
      && (HasOperation(x.phase) <==> x.process in s.operation && s.operation[x.process] == a)
      && (HasFileOperation(x.phase) <==> s.fileOperation == Some(a))
  }

  function Seen(p: Phase): Rows {
    match p
    case Looked(seen) => seen
    case Computing(seen) => seen
    case StoreLocal(seen) => seen
    case StoreFile(seen) => seen
    case Ready(seen) => seen
    case _ => map[]
  }

  /** What one actor relies on: the rows it looked up are faithful and still there. */
  ghost predicate Steady(enc: Encoder, play: set<string>, rows: Rows, x: Actor) {
    && (forall t | t in x.texts :: t in play)
    && Faithful(enc, play, Seen(x.phase))
    && (forall k | k in Seen(x.phase) :: k in rows && rows[k] == Seen(x.phase)[k])
    && (x.phase.Done? ==> x.phase.values == Computed(enc, x.scope, x.texts))
  }

  ghost predicate Inv(enc: Encoder, play: set<string>, s: State) {
    && Collisionless(enc, play) && Faithful(enc, play, s.rows)
    && LeasesKept(s) && OperationsKept(s)
    && forall a | 0 <= a < |s.actors| :: Steady(enc, play, s.rows, s.actors[a])
  }

  /** Nobody has started; the stored rows are faithful or undecodable. */
  ghost predicate Init(enc: Encoder, play: set<string>, s: State) {
    && Collisionless(enc, play) && Faithful(enc, play, s.rows)
    && s.lease == map[] && s.fileLease == FREE && s.operation == map[] && s.fileOperation == None
    && forall a | 0 <= a < |s.actors| ::
         && (s.actors[a].phase.Start? || s.actors[a].phase.TryLocal?)
         && forall t | t in s.actors[a].texts :: t in play
  }

  lemma InitInv(enc: Encoder, play: set<string>, s: State)
    requires Init(enc, play, s)
    ensures Inv(enc, play, s)
  {
  }

  /** While anyone holds a lease, no clear is under way. */
  lemma LeaseExcludesClear(s: State, a: nat, b: nat)
    requires LeasesKept(s) && a < |s.actors| && b < |s.actors| && SharesFile(s.actors[a].phase)
    ensures !OwnsFile(s.actors[b].phase)
  {
  }

  // ---------------------------------------------------------------- every step keeps the locks

  predicate SameLeases(p: Phase, q: Phase) {
    SharesLocal(p) == SharesLocal(q) && SharesFile(p) == SharesFile(q) && OwnsLocal(p) == OwnsLocal(q)
      && OwnsFile(p) == OwnsFile(q)
  }

  predicate SameOperations(p: Phase, q: Phase) {
    HasOperation(p) == HasOperation(q) && HasFileOperation(p) == HasFileOperation(q)
  }

  /** A step that takes and drops no lease. */
  lemma QuietLeases(s: State, t: State, a: nat, p: Phase)
    requires LeasesKept(s) && a < |s.actors| && SameLeases(s.actors[a].phase, p)
    requires t.lease == s.lease && t.fileLease == s.fileLease && t.actors == s.actors[a := s.actors[a].(phase := p)]
    ensures LeasesKept(t)
  {
    forall b | 0 <= b < |t.actors|
      ensures t.actors[b].process == s.actors[b].process && SameLeases(s.actors[b].phase, t.actors[b].phase)
    {
    }
  }

  lemma QuietOperations(s: State, t: State, a: nat, p: Phase)
    requires OperationsKept(s) && a < |s.actors| && SameOperations(s.actors[a].phase, p)
    requires t.operation == s.operation && t.fileOperation == s.fileOperation
               && t.actors == s.actors[a := s.actors[a].(phase := p)]
    ensures OperationsKept(t)
  {
    forall b | 0 <= b < |t.actors|
      ensures t.actors[b].process == s.actors[b].process && SameOperations(s.actors[b].phase, t.actors[b].phase)
    {
    }
  }

  lemma TakeLocalLease(s: State, a: nat, own: bool)
    requires LeasesKept(s) && a < |s.actors|
    requires var l := LeaseOf(s, s.actors[a].process); l.writer.None? && (own ==> l.readers == {})
    requires s.actors[a].phase == if own then TryLocal else Start
    ensures var process, l := s.actors[a].process, LeaseOf(s, s.actors[a].process);
            var l1 := if own then l.(writer := Some(a)) else l.(readers := l.readers + {a});
            LeasesKept(Move(s.(lease := s.lease[process := l1]), a, if own then TryFile else LocalLease))
  {
  }

  lemma TakeFileLease(s: State, a: nat, own: bool)
    requires LeasesKept(s) && a < |s.actors| && s.fileLease.writer.None? && (own ==> s.fileLease.readers == {})
    requires s.actors[a].phase == if own then TryFile else LocalLease
    ensures var f := s.fileLease;
            var f1 := if own then f.(writer := Some(a)) else f.(readers := f.readers + {a});
            LeasesKept(Move(s.(fileLease := f1), a, if own then ClearLocal else Leased))
  {
  }

  lemma DropKeeps(s: State, a: nat, p: Phase)
    requires LeasesKept(s) && a < |s.actors| && !SharesLocal(p) && !OwnsLocal(p)
    ensures LeasesKept(Move(DropLease(s, a), a, p))
  {
  }

  lemma TakeKeeps(s: State, a: nat, p: Phase)
    requires OperationsKept(s) && a < |s.actors| && !HasOperation(s.actors[a].phase) && HasOperation(p)
               && !HasFileOperation(p)
    ensures OperationsKept(TakeOperation(s, a, p))
  {
  }

  lemma TakeFileKeeps(s: State, a: nat, p: Phase)
    requires OperationsKept(s) && a < |s.actors|
    requires HasOperation(s.actors[a].phase) && !HasFileOperation(s.actors[a].phase) && HasFileOperation(p)
    ensures OperationsKept(TakeFileOperation(s, a, p))
  {
  }

  lemma DropOperationKeeps(s: State, a: nat, p: Phase)
    requires OperationsKept(s) && a < |s.actors| && HasFileOperation(s.actors[a].phase) && !HasOperation(p)
    ensures OperationsKept(Move(DropOperation(s, a), a, p))
  {
  }

  lemma StepLeases(enc: Encoder, s: State, act: Action)
    requires LeasesKept(s)
    ensures LeasesKept(Step(enc, s, act))
  {
    hide LeasesKept, LookupStep, AnswerStep, ClearStep;
    if act.actor < |s.actors| {
      var p := s.actors[act.actor].phase;
      if IsClear(p) { ClearLeases(s, act.actor); }
      else if IsAnswer(p) { AnswerLeases(enc, s, act.actor, act.computeFails); }
      else { LookupLeases(s, act.actor); }
    }
  }

  lemma LookupLeases(s: State, a: nat)
    requires LeasesKept(s) && a < |s.actors|
    ensures LeasesKept(LookupStep(s, a))
  {
    hide LeasesKept, LeaseOf;
    var x, t := s.actors[a], LookupStep(s, a);
    if t != s {
      match x.phase
      case Start => TakeLocalLease(s, a, false);
      case LocalLease => TakeFileLease(s, a, false);
      case Leased => if x.texts == [] { DropKeeps(s, a, Done([])); } else { QuietLeases(s, t, a, LookupLocal); }
      case LookupLocal => QuietLeases(s, t, a, LookupFile);
      case LookupFile => QuietLeases(s, t, a, Looked(s.rows));
    }
  }

  lemma AnswerLeases(enc: Encoder, s: State, a: nat, fails: bool)
    requires LeasesKept(s) && a < |s.actors|
    ensures LeasesKept(AnswerStep(enc, s, a, fails))
  {
    hide LeasesKept, LeaseOf, Missing, Values, Store;
    var x, t := s.actors[a], AnswerStep(enc, s, a, fails);
    if t != s {
      match x.phase
      case Looked(seen) => if t.actors[a].phase.Failed? { DropKeeps(s, a, Failed); }
        else { QuietLeases(s, t, a, t.actors[a].phase); }
      case Computing(seen) => QuietLeases(s, t, a, StoreLocal(seen));
      case StoreLocal(seen) => QuietLeases(s, t, a, StoreFile(seen));
      case StoreFile(seen) => QuietLeases(s, t, a, Ready(seen));
      case Ready(seen) => DropKeeps(s, a, Done(Values(enc, x, seen)));
    }
  }

  lemma ClearLeases(s: State, a: nat)
    requires LeasesKept(s) && a < |s.actors|
    ensures LeasesKept(ClearStep(s, a))
  {
    hide LeasesKept, LeaseOf;
    var x, t := s.actors[a], ClearStep(s, a);
    if t != s {
      match x.phase
      case TryLocal => if t.actors[a].phase.TryFile? { TakeLocalLease(s, a, true); }
        else { QuietLeases(s, t, a, GaveUp); }
      case TryFile => if t.actors[a].phase.ClearLocal? { TakeFileLease(s, a, true); } else { DropKeeps(s, a, GaveUp); }
      case ClearLocal => QuietLeases(s, t, a, ClearFile);
      case ClearFile => QuietLeases(s, t, a, Clearing);
      case Clearing =>
        var u := DropOperation(s.(rows := map[]), a);
        SameLeaseState(s, u);
        DropKeeps(u, a, Cleared);
    }
  }

  /** The new actors of a step that moves actor `a`. */
  predicate Moves(s: State, t: State, a: nat)
    requires a < |s.actors|
  {
    |t.actors| == |s.actors| && t.actors == s.actors[a := s.actors[a].(phase := t.actors[a].phase)]
  }

  /** A step moves one actor; rows change only when a call stores or a clear clears. */
  lemma StepShape(enc: Encoder, s: State, act: Action)
    requires act.actor < |s.actors|
    ensures var a, t := act.actor, Step(enc, s, act);
            && Moves(s, t, a)
            && (s.actors[a].phase.StoreFile? ==> t.rows == Store(enc, s.rows, s.actors[a], s.actors[a].phase.seen))
            && (s.actors[a].phase.Clearing? ==> t.rows == map[] && t.actors[a].phase.Cleared?)
            && (!s.actors[a].phase.StoreFile? && !s.actors[a].phase.Clearing? ==> t.rows == s.rows)
  {
    hide LookupStep, AnswerStep, ClearStep, Store;
    LookupShape(enc, s, act.actor);
    AnswerShape(enc, s, act.actor, act.computeFails);
    if IsClear(s.actors[act.actor].phase) { ClearShape(s, act.actor); }
  }

  /** What a moved actor remembers: nothing, the rows as they are, or what it remembered. */
  predicate Remembers(enc: Encoder, s: State, x: Actor, q: Phase) {
    && (Seen(q) == map[] || Seen(q) == s.rows || Seen(q) == Seen(x.phase))
    && (q.Done? ==>
      q == x.phase || (x.texts == [] && q.values == []) || (x.phase.Ready? && q.values == Values(enc, x, x.phase.seen)))
  }

  lemma LookupShape(enc: Encoder, s: State, a: nat)
    requires a < |s.actors|
    ensures var t := LookupStep(s, a); Moves(s, t, a) && t.rows == s.rows
    ensures Remembers(enc, s, s.actors[a], LookupStep(s, a).actors[a].phase)
  {
    hide LeaseOf;
    assert s.actors == s.actors[a := s.actors[a]];
  }

  lemma AnswerShape(enc: Encoder, s: State, a: nat, fails: bool)
    requires a < |s.actors|
    ensures var t, x := AnswerStep(enc, s, a, fails), s.actors[a];
            Moves(s, t, a) && t.rows == if x.phase.StoreFile? then Store(enc, s.rows, x, x.phase.seen) else s.rows
    ensures Remembers(enc, s, s.actors[a], AnswerStep(enc, s, a, fails).actors[a].phase)
  {
    hide LeaseOf, Missing, Store, Values, Remembers, Moves, DropLease, DropOperation, Move, TakeOperation,
      TakeFileOperation;
    var x := s.actors[a];
    match x.phase
    case Looked(seen) => MoveShape(s, a, Ready(seen)); MoveShape(s, a, Computing(seen)); DropShape(s, a, Failed);
      AnswerRemembers(enc, s, x);
    case Computing(seen) => TakeShape(s, a, StoreLocal(seen)); AnswerRemembers(enc, s, x);
    case StoreLocal(seen) => TakeShape(s, a, StoreFile(seen)); AnswerRemembers(enc, s, x);
    case StoreFile(seen) =>
      StoreShape(s, Store(enc, s.rows, x, seen), a, Ready(seen));
      AnswerRemembers(enc, s, x);
    case Ready(seen) => DropShape(s, a, Done(Values(enc, x, seen))); AnswerRemembers(enc, s, x);
    case _ => MoveShape(s, a, x.phase); AnswerRemembers(enc, s, x);
  }

  lemma MoveShape(s: State, a: nat, p: Phase)
    requires a < |s.actors|
    ensures var t := Move(s, a, p); Moves(s, t, a) && t.rows == s.rows && t.actors[a].phase == p
    ensures Moves(s, s, a)
  {
    assert s.actors == s.actors[a := s.actors[a]];
  }

  lemma DropShape(s: State, a: nat, p: Phase)
    requires a < |s.actors|
    ensures var t := Move(DropLease(s, a), a, p); Moves(s, t, a) && t.rows == s.rows && t.actors[a].phase == p
  {
    hide LeaseOf;
  }

  lemma StoreShape(s: State, rows: Rows, a: nat, p: Phase)
    requires a < |s.actors|
    ensures var t := Move(DropOperation(s.(rows := rows), a), a, p);
              Moves(s, t, a) && t.rows == rows && t.actors[a].phase == p
  {
  }

  lemma TakeShape(s: State, a: nat, p: Phase)
    requires a < |s.actors|
    ensures Took(s, TakeOperation(s, a, p), a, p) && Took(s, TakeFileOperation(s, a, p), a, p)
  {
    hide Move, Moves;
    var process := s.actors[a].process;
    LeaseShape(s, s.(operation := s.operation[process := a]), a, p);
    LeaseShape(s, s.(fileOperation := Some(a)), a, p);
    MoveShape(s, a, s.actors[a].phase);
  }

  /** The actor moved to the phase, or nothing happened. */
  predicate Took(s: State, t: State, a: nat, p: Phase)
    requires a < |s.actors|
  {
    Moves(s, t, a) && t.rows == s.rows && (t.actors[a].phase == p || t.actors[a].phase == s.actors[a].phase)
  }

  /** Every phase that a step can lead to is remembered rightly. */
  lemma AnswerRemembers(enc: Encoder, s: State, x: Actor)
    ensures Remembers(enc, s, x, x.phase) && Remembers(enc, s, x, Failed)
    ensures forall q: Phase | (q.Computing? || q.StoreLocal? || q.StoreFile? || q.Ready?)
              && Seen(q) == Seen(x.phase) :: Remembers(enc, s, x, q)
    ensures x.phase.Ready? ==> Remembers(enc, s, x, Done(Values(enc, x, x.phase.seen)))
  {
    hide Values;
  }

  lemma ClearShape(s: State, a: nat)
    requires a < |s.actors| && IsClear(s.actors[a].phase)
    ensures var t := ClearStep(s, a); Moves(s, t, a) && (!s.actors[a].phase.Clearing? ==> t.rows == s.rows)
    ensures s.actors[a].phase.Clearing? ==> ClearStep(s, a).rows == map[] && ClearStep(s, a).actors[a].phase.Cleared?
  {
    hide LeaseOf, Moves, DropLease, DropOperation, Move, TakeOperation, TakeFileOperation;
    var x := s.actors[a];
    match x.phase {
      case TryLocal =>
        MoveShape(s, a, GaveUp);
        var local := LeaseOf(s, x.process);
        LeaseShape(s, s.(lease := s.lease[x.process := local.(writer := Some(a))]), a, TryFile);
      case TryFile =>
        DropShape(s, a, GaveUp);
        LeaseShape(s, s.(fileLease := s.fileLease.(writer := Some(a))), a, ClearLocal);
      case ClearLocal => TakeShape(s, a, ClearFile);
      case ClearFile => TakeShape(s, a, Clearing);
      case Clearing => WipeShape(s, a);
      case _ => MoveShape(s, a, x.phase);
    }
  }

  lemma LeaseShape(s: State, u: State, a: nat, p: Phase)
    requires a < |s.actors| && u.actors == s.actors && u.rows == s.rows
    ensures var t := Move(u, a, p); Moves(s, t, a) && t.rows == s.rows && t.actors[a].phase == p
  {
  }

  lemma WipeShape(s: State, a: nat)
    requires a < |s.actors|
    ensures var t := Move(DropLease(DropOperation(s.(rows := map[]), a), a), a, Cleared);
            Moves(s, t, a) && t.rows == map[] && t.actors[a].phase == Cleared
  {
    hide LeaseOf;
  }

  lemma ClearRemembers(enc: Encoder, s: State, x: Actor, q: Phase)
    requires IsClear(q)
    ensures Remembers(enc, s, x, q)
  {
  }

  lemma StepRemembers(enc: Encoder, s: State, act: Action)
    requires act.actor < |s.actors|
    ensures act.actor < |Step(enc, s, act).actors|
    ensures Remembers(enc, s, s.actors[act.actor], Step(enc, s, act).actors[act.actor].phase)
  {
    hide LookupStep, AnswerStep, ClearStep, Remembers;
    LookupShape(enc, s, act.actor);
    AnswerShape(enc, s, act.actor, act.computeFails);
    if IsClear(s.actors[act.actor].phase) {
      ClearShape(s, act.actor);
      ClearPhase(s, act.actor);
      ClearRemembers(enc, s, s.actors[act.actor], ClearStep(s, act.actor).actors[act.actor].phase);
    }
  }

  lemma SameLeaseState(s: State, u: State)
    requires LeasesKept(s) && u.actors == s.actors && u.lease == s.lease && u.fileLease == s.fileLease
    ensures LeasesKept(u)
  {
  }

  lemma StepOperations(enc: Encoder, s: State, act: Action)
    requires OperationsKept(s)
    ensures OperationsKept(Step(enc, s, act))
  {
    hide OperationsKept, LookupStep, AnswerStep, ClearStep;
    if act.actor < |s.actors| {
      var p := s.actors[act.actor].phase;
      if IsClear(p) { ClearOperations(s, act.actor); }
      else if IsAnswer(p) { AnswerOperations(enc, s, act.actor, act.computeFails); }
      else { LookupOperations(s, act.actor); }
    }
  }

  lemma LookupOperations(s: State, a: nat)
    requires OperationsKept(s) && a < |s.actors|
    ensures OperationsKept(LookupStep(s, a))
  {
    hide OperationsKept, LeaseOf;
    var x, t := s.actors[a], LookupStep(s, a);
    if t != s {
      match x.phase
      case Start => QuietOperations(s, t, a, LocalLease);
      case LocalLease => QuietOperations(s, t, a, Leased);
      case Leased => if x.texts == [] { QuietOperations(s, t, a, Done([])); } else { TakeKeeps(s, a, LookupLocal); }
      case LookupLocal => TakeFileKeeps(s, a, LookupFile);
      case LookupFile => DropOperationKeeps(s, a, Looked(s.rows));
    }
  }

  lemma AnswerOperations(enc: Encoder, s: State, a: nat, fails: bool)
    requires OperationsKept(s) && a < |s.actors|
    ensures OperationsKept(AnswerStep(enc, s, a, fails))
  {
    hide OperationsKept, LeaseOf, Missing, Values, Store;
    var x, t := s.actors[a], AnswerStep(enc, s, a, fails);
    if t != s {
      match x.phase
      case Looked(seen) => QuietOperations(s, t, a, t.actors[a].phase);
      case Computing(seen) => TakeKeeps(s, a, StoreLocal(seen));
      case StoreLocal(seen) => TakeFileKeeps(s, a, StoreFile(seen));
      case StoreFile(seen) =>
        var u := s.(rows := Store(enc, s.rows, x, seen));
        SameOperationState(s, u);
        DropOperationKeeps(u, a, Ready(seen));
      case Ready(seen) => QuietOperations(s, t, a, t.actors[a].phase);
    }
  }

  lemma ClearOperations(s: State, a: nat)
    requires OperationsKept(s) && a < |s.actors|
    ensures OperationsKept(ClearStep(s, a))
  {
    hide OperationsKept, LeaseOf;
    var x, t := s.actors[a], ClearStep(s, a);
    if t != s {
      match x.phase
      case TryLocal => QuietOperations(s, t, a, t.actors[a].phase);
      case TryFile => QuietOperations(s, t, a, t.actors[a].phase);
      case ClearLocal => TakeKeeps(s, a, ClearFile);
      case ClearFile => TakeFileKeeps(s, a, Clearing);
      case Clearing =>
        var u := s.(rows := map[]);
        SameOperationState(s, u);
        DropOperationKeeps(u, a, Cleared);
        SameOperationState(Move(DropOperation(u, a), a, Cleared), t);
    }
  }

  lemma SameOperationState(s: State, u: State)
    requires OperationsKept(s) && u.actors == s.actors && u.operation == s.operation
               && u.fileOperation == s.fileOperation
    ensures OperationsKept(u)
  {
  }

  // ---------------------------------------------------------------- every step keeps the data

  lemma StoreGrows(enc: Encoder, play: set<string>, rows: Rows, x: Actor, seen: Rows)
    requires Collisionless(enc, play) && Faithful(enc, play, rows) && forall t | t in x.texts :: t in play
    ensures Faithful(enc, play, Store(enc, rows, x, seen))
    ensures forall k | k in rows :: k in Store(enc, rows, x, seen) && Store(enc, rows, x, seen)[k] == rows[k]
    ensures forall t | t in x.texts && enc.hash(t) !in Found(enc, x.scope, x.texts, seen) ::
              Key(x.scope, enc.hash(t)) in Store(enc, rows, x, seen)
  {
    StoreMisses(enc, play, x.scope, x.texts, seen, rows);
  }

  lemma SteadyGrows(enc: Encoder, play: set<string>, rows: Rows, more: Rows, x: Actor)
    requires Steady(enc, play, rows, x) && forall k | k in rows :: k in more && more[k] == rows[k]
    ensures Steady(enc, play, more, x)
  {
  }

  lemma SteadyCleared(enc: Encoder, play: set<string>, rows: Rows, x: Actor)
    requires Steady(enc, play, rows, x) && !SharesFile(x.phase)
    ensures Steady(enc, play, map[], x)
  {
  }

  /** What the acting actor itself relies on after its step. */
  lemma OwnSteady(enc: Encoder, play: set<string>, s: State, act: Action)
    requires act.actor < |s.actors| && Collisionless(enc, play) && Faithful(enc, play, s.rows)
    requires Steady(enc, play, s.rows, s.actors[act.actor]) && act.actor < |Step(enc, s, act).actors|
    ensures Steady(enc, play, s.rows, s.actors[act.actor].(phase := Step(enc, s, act).actors[act.actor].phase))
  {
    hide Step, Missing, Store, Answer, Faithful, Collisionless, Seen;
    var x := s.actors[act.actor];
    NoRows(enc, play);
    StepRemembers(enc, s, act);
    if x.phase.Ready? {
      SeenReady(x.phase);
      AnswerIsEncoded(enc, play, x.scope, x.texts, x.phase.seen);
      assert Values(enc, x, x.phase.seen) == Computed(enc, x.scope, x.texts);
    }
    if x.texts == [] {
      assert [] == Computed(enc, x.scope, x.texts);
    }
  }

  lemma SeenReady(p: Phase)
    requires p.Ready?
    ensures Seen(p) == p.seen
  {
  }

  lemma NoRows(enc: Encoder, play: set<string>)
    ensures Faithful(enc, play, map[])
  {
  }

  lemma StepInv(enc: Encoder, play: set<string>, s: State, act: Action)
    requires Inv(enc, play, s)
    ensures Inv(enc, play, Step(enc, s, act))
  {
    hide Step, LeasesKept, OperationsKept, Store, Faithful, Collisionless, Steady;
    StepLeases(enc, s, act);
    StepOperations(enc, s, act);
    if act.actor < |s.actors| {
      StepData(enc, play, s, act);
    } else {
      Nobody(enc, s, act);
    }
  }

  lemma Nobody(enc: Encoder, s: State, act: Action)
    requires act.actor >= |s.actors|
    ensures Step(enc, s, act) == s
  {
  }

  lemma StepData(enc: Encoder, play: set<string>, s: State, act: Action)
    requires Inv(enc, play, s) && act.actor < |s.actors|
    ensures var t := Step(enc, s, act);
            Faithful(enc, play, t.rows) && forall b | 0 <= b < |t.actors| :: Steady(enc, play, t.rows, t.actors[b])
  {
    hide Step, LeasesKept, OperationsKept, Store, Faithful, Collisionless, Steady;
    var a, t := act.actor, Step(enc, s, act);
    var x := s.actors[a];
    StepShape(enc, s, act);
    OwnSteady(enc, play, s, act);
    TextsInPlay(enc, play, s.rows, x);
    if x.phase.StoreFile? { StoreGrows(enc, play, s.rows, x, x.phase.seen); }
    if x.phase.Clearing? { NoRows(enc, play); }
    forall b | 0 <= b < |t.actors| ensures Steady(enc, play, t.rows, t.actors[b]) {
      assert Steady(enc, play, s.rows, t.actors[b]);
      if x.phase.StoreFile? {
        SteadyGrows(enc, play, s.rows, t.rows, t.actors[b]);
      } else if x.phase.Clearing? {
        ClearingAlone(s, a, b);
        SteadyCleared(enc, play, s.rows, t.actors[b]);
      }
    }
  }

  lemma TextsInPlay(enc: Encoder, play: set<string>, rows: Rows, x: Actor)
    requires Steady(enc, play, rows, x)
    ensures forall t | t in x.texts :: t in play
  {
  }

  lemma ClearingAlone(s: State, a: nat, b: nat)
    requires LeasesKept(s) && a < |s.actors| && b < |s.actors| && s.actors[a].phase.Clearing?
    ensures !SharesFile(s.actors[b].phase)
  {
  }

  // ---------------------------------------------------------------- over every interleaving

  lemma {:induction false} RunInv(enc: Encoder, play: set<string>, s: State, acts: seq<Action>)
    requires Init(enc, play, s)
    ensures Inv(enc, play, Run(enc, s, acts))
  {
    hide Inv, Init, Step;
    if acts == [] {
      InitInv(enc, play, s);
    } else {
      RunInv(enc, play, s, acts[..|acts| - 1]);
      StepInv(enc, play, Run(enc, s, acts[..|acts| - 1]), acts[|acts| - 1]);
    }
  }

  /** In every interleaving, a completed call answers with the encoder mapped over its texts, in order. */
  lemma CallsAnswerEncoder(enc: Encoder, play: set<string>, s: State, acts: seq<Action>, a: nat)
    requires Init(enc, play, s) && a < |Run(enc, s, acts).actors| && Run(enc, s, acts).actors[a].phase.Done?
    ensures var x := Run(enc, s, acts).actors[a]; x.phase.values == Computed(enc, x.scope, x.texts)
  {
    RunInv(enc, play, s, acts);
  }

  /** In every interleaving, stored rows agree with the encoder or do not decode. */
  lemma RowsStayFaithful(enc: Encoder, play: set<string>, s: State, acts: seq<Action>)
    requires Init(enc, play, s)
    ensures Faithful(enc, play, Run(enc, s, acts).rows)
  {
    RunInv(enc, play, s, acts);
  }

  /** In every interleaving, no row that a call found vanishes or changes before the call has stored its own. */
  lemma LookupSurvives(enc: Encoder, play: set<string>, s: State, acts: seq<Action>, a: nat)
    requires Init(enc, play, s) && a < |Run(enc, s, acts).actors|
    ensures var t := Run(enc, s, acts);
            forall k | k in Seen(t.actors[a].phase) :: k in t.rows && t.rows[k] == Seen(t.actors[a].phase)[k]
  {
    RunInv(enc, play, s, acts);
  }

  /** In every interleaving, when rows are removed no call holds a lease, in any process. */
  lemma ClearsOnlyWhenIdle(enc: Encoder, play: set<string>, s: State, acts: seq<Action>, act: Action, k: Key, a: nat)
    requires Init(enc, play, s)
    requires var t := Run(enc, s, acts); k in t.rows && k !in Step(enc, t, act).rows && a < |t.actors|
    ensures !SharesFile(Run(enc, s, acts).actors[a].phase)
  {
    hide Step, Store, Faithful, Collisionless, LeasesKept, OperationsKept, Steady;
    RunInv(enc, play, s, acts);
    var t := Run(enc, s, acts);
    if act.actor >= |t.actors| {
      Nobody(enc, t, act);
    } else {
      var x := t.actors[act.actor];
      StepShape(enc, t, act);
      TextsInPlay(enc, play, t.rows, x);
      if x.phase.StoreFile? {
        StoreGrows(enc, play, t.rows, x, x.phase.seen);
      } else {
        ClearingAlone(t, act.actor, a);
      }
    }
  }

  // ---------------------------------------------------------------- what is encoded

  /** The texts that a step hands to the encoder, whether or not it fails: one call of it, or none. */
  function EncoderCalls(enc: Encoder, s: State, act: Action): seq<seq<string>> {
    if act.actor >= |s.actors| || !s.actors[act.actor].phase.Looked? then []
    else
      var x := s.actors[act.actor];
      var m := Missing(enc, x.scope, x.texts, x.phase.seen);
      if m == [] then [] else [m]
  }

  /** All calls of the encoder that one actor makes in a run. */
  function Log(enc: Encoder, s: State, acts: seq<Action>, a: nat): seq<seq<string>> {
    if acts == [] then []
    else
      var before, last := acts[..|acts| - 1], acts[|acts| - 1];
      Log(enc, s, before, a) + if last.actor == a then EncoderCalls(enc, Run(enc, s, before), last) else []
  }

  /** Distinct texts of the call. */
  ghost predicate DistinctTexts(enc: Encoder, x: Actor, m: seq<string>) {
    (forall i, j | 0 <= i < j < |m| :: enc.hash(m[i]) != enc.hash(m[j])) && forall t | t in m :: t in x.texts
  }

  function MissingCalls(enc: Encoder, x: Actor, seen: Rows): seq<seq<string>> {
    var m := Missing(enc, x.scope, x.texts, seen);
    if m == [] then [] else [m]
  }

  /** All tables of a run, the first one included. */
  function Tables(enc: Encoder, s: State, acts: seq<Action>): seq<Rows> {
    if acts == [] then [s.rows] else Tables(enc, s, acts[..|acts| - 1]) + [Run(enc, s, acts).rows]
  }

  /** The one call of the encoder that a call needs, for some table of these. */
  ghost predicate LoggedFor(enc: Encoder, x: Actor, log: seq<seq<string>>, tables: seq<Rows>) {
    exists seen | seen in tables :: log == MissingCalls(enc, x, seen)
  }

  /** What the log of an actor holds at each phase; what it looked up was one of these tables. */
  ghost predicate Logged(enc: Encoder, x: Actor, log: seq<seq<string>>, tables: seq<Rows>) {
    match x.phase
    case Looked(seen) => log == [] && seen in tables
    case Computing(seen) => log == MissingCalls(enc, x, seen) && seen in tables
    case StoreLocal(seen) => log == MissingCalls(enc, x, seen) && seen in tables
    case StoreFile(seen) => log == MissingCalls(enc, x, seen) && seen in tables
    case Ready(seen) => log == MissingCalls(enc, x, seen) && seen in tables
    case Done(_) => (x.texts == [] && log == []) || LoggedFor(enc, x, log, tables)
    case Failed => log != [] && LoggedFor(enc, x, log, tables)
    case _ => log == []
  }

  lemma MissingDistinct(enc: Encoder, x: Actor, seen: Rows)
    ensures |MissingCalls(enc, x, seen)| <= 1 && forall m | m in MissingCalls(enc, x, seen) :: DistinctTexts(enc, x, m)
  {
    MissesCover(enc, x.texts, Found(enc, x.scope, x.texts, seen).Keys);
  }

  /**
   * A phase before the lookup leads to one like it, to the lookup of the table as it is, or at once to an
   * empty answer; a clear stays one.
   */
  lemma QuietPhase(enc: Encoder, s: State, a: nat)
    requires a < |s.actors|
    ensures var q := LookupStep(s, a).actors[a].phase;
              q == s.actors[a].phase || (!IsAnswer(q) && !IsClear(q)) || q == Looked(s.rows)
    ensures var q := LookupStep(s, a).actors[a].phase; q.Failed? ==> s.actors[a].phase.Failed?
    ensures var q := LookupStep(s, a).actors[a].phase; q.Done? ==> s.actors[a].phase.Done? || s.actors[a].texts == []
  {
    hide LeaseOf;
  }

  lemma ClearPhase(s: State, a: nat)
    requires a < |s.actors| && IsClear(s.actors[a].phase)
    ensures IsClear(ClearStep(s, a).actors[a].phase)
  {
    hide LeaseOf;
  }

  /** From the lookup on, the phases follow one another and keep what was looked up. */
  ghost predicate NextPhase(enc: Encoder, x: Actor, q: Phase) {
    match x.phase
    case Looked(seen) =>
      if Missing(enc, x.scope, x.texts, seen) == [] then q == Ready(seen) else q == Failed || q == Computing(seen)
    case Computing(seen) => q == x.phase || q == StoreLocal(seen)
    case StoreLocal(seen) => q == x.phase || q == StoreFile(seen)
    case StoreFile(seen) => q == Ready(seen)
    case Ready(_) => q.Done?
    case _ => q == x.phase
  }

  lemma AnswerPhase(enc: Encoder, s: State, a: nat, fails: bool)
    requires a < |s.actors|
    ensures NextPhase(enc, s.actors[a], AnswerStep(enc, s, a, fails).actors[a].phase)
  {
    hide LeaseOf, DropLease, DropOperation, Missing, Store, Values;
    DropsKeep(s, a);
    var x := s.actors[a];
    if x.phase.StoreFile? { DropsKeep(s.(rows := Store(enc, s.rows, x, x.phase.seen)), a); }
  }

  lemma DropsKeep(s: State, a: nat)
    requires a < |s.actors|
    ensures DropLease(s, a).actors == s.actors && DropOperation(s, a).actors == s.actors
  {
  }

  /** The log after the lookup: one call with the misses, and no other. */
  lemma AnswerLogged(enc: Encoder, x: Actor, q: Phase, log: seq<seq<string>>, tables: seq<Rows>)
    requires IsAnswer(x.phase) && Logged(enc, x, log, tables) && NextPhase(enc, x, q)
    ensures var more := if x.phase.Looked? then MissingCalls(enc, x, x.phase.seen) else [];
            Logged(enc, x.(phase := q), log + more, tables)
  {
    hide Missing;
    SameActor(enc, x, q, Seen(x.phase));
    if !x.phase.Looked? { assert log + [] == log; }
  }

  lemma SameActor(enc: Encoder, x: Actor, q: Phase, seen: Rows)
    ensures MissingCalls(enc, x.(phase := q), seen) == MissingCalls(enc, x, seen)
  {
  }

  lemma OtherLogged(enc: Encoder, x: Actor, q: Phase, log: seq<seq<string>>, tables: seq<Rows>)
    requires !IsAnswer(x.phase) && Logged(enc, x, log, tables)
    requires IsClear(x.phase) ==> IsClear(q)
    requires !IsClear(x.phase) ==>
               q == x.phase || (!IsAnswer(q) && !IsClear(q) && (q.Failed? ==> x.phase.Failed?))
               || (q.Looked? && q.seen in tables)
    requires q.Done? ==> x.phase.Done? || x.texts == []
    requires x.phase.Done? || x.phase.Failed? ==> q == x.phase
    ensures Logged(enc, x.(phase := q), log, tables)
  {
    hide LoggedFor;
    if x.phase.Done? || x.phase.Failed? { assert x.(phase := q) == x; }
  }

  /** More tables, and the actor as it was. */
  lemma MoreTables(enc: Encoder, x: Actor, log: seq<seq<string>>, tables: seq<Rows>, more: seq<Rows>)
    requires Logged(enc, x, log, tables) && forall t | t in tables :: t in more
    ensures Logged(enc, x, log, more)
  {
    hide MissingCalls;
  }

  lemma StepLogged(enc: Encoder, s: State, act: Action, log: seq<seq<string>>, tables: seq<Rows>)
    requires act.actor < |s.actors| && Logged(enc, s.actors[act.actor], log, tables) && s.rows in tables
    ensures act.actor < |Step(enc, s, act).actors|
    ensures Logged(enc, Step(enc, s, act).actors[act.actor], log + EncoderCalls(enc, s, act), tables)
  {
    hide Logged, Missing, LookupStep, AnswerStep, ClearStep, NextPhase;
    var a, x := act.actor, s.actors[act.actor];
    StepShape(enc, s, act);
    var q := Step(enc, s, act).actors[a].phase;
    assert Step(enc, s, act).actors[a] == x.(phase := q);
    if IsAnswer(x.phase) {
      AnswerPhase(enc, s, a, act.computeFails);
      AnswerLogged(enc, x, q, log, tables);
    } else {
      if IsClear(x.phase) { ClearPhase(s, a); } else { QuietPhase(enc, s, a); FinishedStays(s, a); }
      OtherLogged(enc, x, q, log, tables);
      assert log + [] == log;
    }
  }

  lemma FinishedStays(s: State, a: nat)
    requires a < |s.actors|
    ensures s.actors[a].phase.Done? || s.actors[a].phase.Failed? ==> LookupStep(s, a) == s
  {
  }

  lemma {:induction false} RunLogged(enc: Encoder, play: set<string>, s: State, acts: seq<Action>, a: nat)
    requires Init(enc, play, s) && a < |s.actors|
    ensures |Run(enc, s, acts).actors| == |s.actors| && Run(enc, s, acts).rows in Tables(enc, s, acts)
    ensures Logged(enc, Run(enc, s, acts).actors[a], Log(enc, s, acts, a), Tables(enc, s, acts))
  {
    hide Logged, EncoderCalls, Step;
    if acts == [] {
      StartLogged(enc, play, s, a);
    } else {
      var before, last := acts[..|acts| - 1], acts[|acts| - 1];
      var t, tables := Run(enc, s, before), Tables(enc, s, before);
      RunLogged(enc, play, s, before, a);
      if last.actor < |t.actors| { StepShape(enc, t, last); } else { Nobody(enc, t, last); }
      if last.actor == a {
        StepLogged(enc, t, last, Log(enc, s, before, a), tables);
      } else {
        assert Log(enc, s, before, a) + [] == Log(enc, s, before, a);
      }
      MoreTables(enc, Run(enc, s, acts).actors[a], Log(enc, s, acts, a), tables, Tables(enc, s, acts));
    }
  }

  lemma StartLogged(enc: Encoder, play: set<string>, s: State, a: nat)
    requires Init(enc, play, s) && a < |s.actors|
    ensures Logged(enc, s.actors[a], [], [s.rows])
  {
  }

  lemma LoggedDistinct(enc: Encoder, x: Actor, log: seq<seq<string>>, tables: seq<Rows>)
    requires Logged(enc, x, log, tables)
    ensures |log| <= 1 && forall m | m in log :: DistinctTexts(enc, x, m)
  {
    hide MissingCalls, DistinctTexts;
    forall seen { MissingDistinct(enc, x, seen); }
  }

  /**
   * In every interleaving a call asks the encoder at most once, for distinct texts of its own, and by the
   * time it stores these are exactly the texts that it did not find.
   */
  lemma MissesEncodedOnce(enc: Encoder, play: set<string>, s: State, acts: seq<Action>, a: nat)
    requires Init(enc, play, s) && a < |s.actors|
    ensures |Run(enc, s, acts).actors| == |s.actors|
    ensures var log, x := Log(enc, s, acts, a), Run(enc, s, acts).actors[a];
            && |log| <= 1 && (forall m | m in log :: DistinctTexts(enc, x, m))
            && (x.phase.StoreFile? ==> log == MissingCalls(enc, x, x.phase.seen))
  {
    hide MissingCalls, DistinctTexts;
    RunLogged(enc, play, s, acts, a);
    LoggedDistinct(enc, Run(enc, s, acts).actors[a], Log(enc, s, acts, a), Tables(enc, s, acts));
  }

  lemma {:induction false} TablesAt(enc: Encoder, s: State, acts: seq<Action>, rows: Rows)
    ensures rows in Tables(enc, s, acts) <==>
            exists k: nat :: k <= |acts| && Run(enc, s, acts[..k]).rows == rows
  {
    hide Run;
    var n := |acts|;
    assert acts[..n] == acts;
    if acts == [] {
      assert acts[..0] == [] && Run(enc, s, []) == s by { NothingRun(enc, s); }
      if rows in Tables(enc, s, acts) { assert Run(enc, s, acts[..0]).rows == rows; }
    } else {
      var before := acts[..n - 1];
      TablesAt(enc, s, before, rows);
      if rows in Tables(enc, s, before) {
        var k: nat :| k <= |before| && Run(enc, s, before[..k]).rows == rows;
        assert before[..k] == acts[..k];
      } else if rows in Tables(enc, s, acts) {
        assert Run(enc, s, acts[..n]).rows == rows;
      }
      if k: nat :| k <= |acts| && Run(enc, s, acts[..k]).rows == rows {
        if k < n { assert before[..k] == acts[..k]; }
      }
    }
  }

  lemma NothingRun(enc: Encoder, s: State)
    ensures Run(enc, s, []) == s
  {
  }

  /** The encoder has been asked: a call is past its lookup and had texts to look up. */
  predicate PastEncoding(x: Actor) {
    x.texts != [] && (x.phase.Computing? || x.phase.StoreLocal? || x.phase.StoreFile? || x.phase.Ready? || x.phase.Done?
                      || x.phase.Failed?)
  }

  /** The encoder was handed the misses of this table in one call, or nothing if there are none. */
  ghost predicate AskedFor(enc: Encoder, x: Actor, rows: Rows, log: seq<seq<string>>) {
    exists m :: AreMisses(enc, x.scope, x.texts, rows, m) && log == if m == [] then [] else [m]
  }

  /**
   * In every interleaving, for a call past its encoding there was a table in the run such that the encoder has
   * been handed exactly the first texts of the hashes whose rows were absent from it or of another length, in
   * order, in one call; or has not been asked if there are none.
   * Before that it has not been asked.
   */
  lemma EncodesWhatIsNotStored(enc: Encoder, play: set<string>, s: State, acts: seq<Action>, a: nat)
    requires Init(enc, play, s) && a < |s.actors|
    ensures |Run(enc, s, acts).actors| == |s.actors|
    ensures var log, x := Log(enc, s, acts, a), Run(enc, s, acts).actors[a];
            if PastEncoding(x) then exists k: nat :: k <= |acts| && AskedFor(enc, x, Run(enc, s, acts[..k]).rows, log)
            else log == []
  {
    hide AreMisses, Missing, Run, Tables;
    RunLogged(enc, play, s, acts, a);
    var log, x := Log(enc, s, acts, a), Run(enc, s, acts).actors[a];
    if PastEncoding(x) {
      var seen :| seen in Tables(enc, s, acts) && log == MissingCalls(enc, x, seen);
      TablesAt(enc, s, acts, seen);
      var k: nat :| k <= |acts| && Run(enc, s, acts[..k]).rows == seen;
      CallsAsked(enc, x, seen);
    } else {
      EmptyLog(enc, x, log, Tables(enc, s, acts));
    }
  }

  lemma CallsAsked(enc: Encoder, x: Actor, seen: Rows)
    ensures AskedFor(enc, x, seen, MissingCalls(enc, x, seen))
  {
    hide AreMisses, Missing;
    var m := Missing(enc, x.scope, x.texts, seen);
    MissingExactly(enc, x.scope, x.texts, seen, m);
    assert AreMisses(enc, x.scope, x.texts, seen, m);
  }

  lemma EmptyLog(enc: Encoder, x: Actor, log: seq<seq<string>>, tables: seq<Rows>)
    requires Logged(enc, x, log, tables) && !PastEncoding(x)
    ensures log == []
  {
    if x.texts == [] { forall seen ensures MissingCalls(enc, x, seen) == [] { NoMisses(enc, x.scope, seen); } }
  }
}
