/**
 * What the cache protocol gets done: a call leaves all its rows behind, a clear gives up only before a lease
 * that somebody else holds, nobody waits for ever, and every call that the encoder does not fail completes.
 */
module CacheProgress {
  import opened Names
  import opened VectorCodec
  import opened TextCache
  import opened CacheProtocol

  // ---------------------------------------------------------------- rows are stored

  /** A call that is ready to answer has a row for each of its texts. */
  ghost predicate RowsThere(enc: Encoder, rows: Rows, x: Actor) {
    x.phase.Ready? ==> forall t | t in x.texts :: Key(x.scope, enc.hash(t)) in rows
  }

  ghost predicate AllRowsThere(enc: Encoder, s: State) {
    forall a | 0 <= a < |s.actors| :: RowsThere(enc, s.rows, s.actors[a])
  }

  lemma NothingMissed(enc: Encoder, x: Actor, rows: Rows, seen: Rows)
    requires Missing(enc, x.scope, x.texts, seen) == [] && forall k | k in seen :: k in rows
    ensures forall t | t in x.texts :: Key(x.scope, enc.hash(t)) in rows
  {
    hide Misses, Stored;
    MissesCover(enc, x.texts, Found(enc, x.scope, x.texts, seen).Keys);
    assert Hashes(enc, []) == [];
    forall t | t in x.texts ensures Key(x.scope, enc.hash(t)) in rows {
      FoundExactly(enc, x.scope, x.texts, seen, t);
    }
  }

  /** Rows that were there for a call are there among more rows. */
  lemma MoreRows(enc: Encoder, rows: Rows, more: Rows, x: Actor)
    requires RowsThere(enc, rows, x) && forall k | k in rows :: k in more
    ensures RowsThere(enc, more, x)
  {
  }

  /** The rows of the call that has just looked up, or just stored. */
  lemma OwnRows(enc: Encoder, play: set<string>, s: State, act: Action)
    requires Inv(enc, play, s) && act.actor < |s.actors| && RowsThere(enc, s.rows, s.actors[act.actor])
    ensures var t := Step(enc, s, act); act.actor < |t.actors| && RowsThere(enc, t.rows, t.actors[act.actor])
  {
    hide Missing, Store, Faithful, Collisionless, LeasesKept, OperationsKept, LookupStep, AnswerStep, ClearStep,
      NextPhase;
    var a, x, t := act.actor, s.actors[act.actor], Step(enc, s, act);
    StepShape(enc, s, act);
    assert Steady(enc, play, s.rows, x);
    if t.actors[a].phase.Ready? {
      ReadyFrom(enc, s, act);
      if x.phase.Looked? {
        NothingMissed(enc, x, s.rows, x.phase.seen);
      } else {
        StoreGrows(enc, play, s.rows, x, x.phase.seen);
        forall u | u in x.texts ensures Key(x.scope, enc.hash(u)) in t.rows {
          FoundExactly(enc, x.scope, x.texts, x.phase.seen, u);
        }
      }
    }
  }

  lemma ReadyFrom(enc: Encoder, s: State, act: Action)
    requires act.actor < |s.actors| && act.actor < |Step(enc, s, act).actors|
    requires Step(enc, s, act).actors[act.actor].phase.Ready?
    ensures var x := s.actors[act.actor];
            x.phase.StoreFile? || (x.phase.Looked? && Missing(enc, x.scope, x.texts, x.phase.seen) == [])
  {
    hide LookupStep, AnswerStep, ClearStep, Missing;
    var a, p := act.actor, s.actors[act.actor].phase;
    if IsClear(p) {
      ClearPhase(s, a);
    } else if IsAnswer(p) {
      AnswerPhase(enc, s, a, act.computeFails);
    } else {
      NotReady(s, a);
    }
  }

  lemma NotReady(s: State, a: nat)
    requires a < |s.actors| && !IsAnswer(s.actors[a].phase)
    ensures !LookupStep(s, a).actors[a].phase.Ready?
  {
    hide LeaseOf;
  }

  lemma StepRows(enc: Encoder, play: set<string>, s: State, act: Action)
    requires Inv(enc, play, s) && AllRowsThere(enc, s)
    ensures AllRowsThere(enc, Step(enc, s, act))
  {
    hide Step, Store, Faithful, Collisionless, LeasesKept, OperationsKept, Steady, RowsThere;
    if act.actor >= |s.actors| {
      Nobody(enc, s, act);
    } else {
      var a, t := act.actor, Step(enc, s, act);
      var x := s.actors[a];
      StepShape(enc, s, act);
      OwnRows(enc, play, s, act);
      TextsInPlay(enc, play, s.rows, x);
      if x.phase.StoreFile? { StoreGrows(enc, play, s.rows, x, x.phase.seen); }
      forall b | 0 <= b < |t.actors| ensures RowsThere(enc, t.rows, t.actors[b]) {
        if b != a {
          if x.phase.Clearing? {
            ClearingAlone(s, a, b);
            NotSharing(enc, t.rows, t.actors[b]);
          } else {
            MoreRows(enc, s.rows, t.rows, t.actors[b]);
          }
        }
      }
    }
  }

  lemma NotSharing(enc: Encoder, rows: Rows, x: Actor)
    requires !SharesFile(x.phase)
    ensures RowsThere(enc, rows, x)
  {
  }

  lemma {:induction false} RunRows(enc: Encoder, play: set<string>, s: State, acts: seq<Action>)
    requires Init(enc, play, s)
    ensures AllRowsThere(enc, Run(enc, s, acts))
  {
    hide Step, Inv, RowsThere;
    if acts == [] {
      forall a | 0 <= a < |s.actors| ensures RowsThere(enc, s.rows, s.actors[a]) { StartsUnready(enc, play, s, a); }
    } else {
      RunInv(enc, play, s, acts[..|acts| - 1]);
      RunRows(enc, play, s, acts[..|acts| - 1]);
      StepRows(enc, play, Run(enc, s, acts[..|acts| - 1]), acts[|acts| - 1]);
    }
  }

  lemma StartsUnready(enc: Encoder, play: set<string>, s: State, a: nat)
    requires Init(enc, play, s) && a < |s.actors|
    ensures RowsThere(enc, s.rows, s.actors[a])
  {
  }

  /**
   * In every interleaving, when a call is about to answer there is a row for every one of its texts, found or
   * stored by then, and it holds what the encoder gives unless it was already there and does not decode.
   */
  lemma RowsLeftBehind(enc: Encoder, play: set<string>, s: State, acts: seq<Action>, a: nat, t: string)
    requires Init(enc, play, s) && a < |Run(enc, s, acts).actors|
    requires Run(enc, s, acts).actors[a].phase.Ready? && t in Run(enc, s, acts).actors[a].texts
    ensures var rows, k := Run(enc, s, acts).rows, Key(Run(enc, s, acts).actors[a].scope, enc.hash(t));
            k in rows && (Stored(rows, k) ==> rows[k] == Encode(enc.encode(k.scope, t)))
  {
    hide Run;
    RunRows(enc, play, s, acts);
    RunInv(enc, play, s, acts);
    var r := Run(enc, s, acts);
    var x := r.actors[a];
    assert RowsThere(enc, r.rows, x) && Steady(enc, play, r.rows, x);
    var k := Key(x.scope, enc.hash(t));
    if Stored(r.rows, k) { EncodeDecode(r.rows[k]); }
  }

  // ---------------------------------------------------------------- who holds what

  predicate RunsIn(xs: seq<Actor>, b: nat, process: nat) {
    b < |xs| && xs[b].process == process
  }

  /** Every lock is held by actors, the locks of a process by its own. */
  ghost predicate Held(s: State) {
    && (forall p | p in s.lease :: LeaseHeld(s.actors, p, s.lease[p]))
    && (s.fileLease.writer.Some? ==> s.fileLease.writer.value < |s.actors|)
    && (forall p | p in s.operation :: RunsIn(s.actors, s.operation[p], p))
    && (s.fileOperation.Some? ==> s.fileOperation.value < |s.actors|)
  }

  ghost predicate LeaseHeld(xs: seq<Actor>, process: nat, l: ReadWrite) {
    && (forall b | b in l.readers :: RunsIn(xs, b, process))
    && (l.writer.Some? ==> RunsIn(xs, l.writer.value, process))
  }

  lemma HeldMove(s: State, a: nat, q: Phase)
    requires Held(s) && a < |s.actors|
    ensures Held(Move(s, a, q))
  {
    hide LeaseHeld, RunsIn;
    var xs := Move(s, a, q).actors;
    forall p | p in s.lease ensures LeaseHeld(xs, p, s.lease[p]) { StillHeld(s.actors, a, q, p, s.lease[p]); }
    forall p | p in s.operation ensures RunsIn(xs, s.operation[p], p) { StillRuns(s.actors, a, q, s.operation[p], p); }
  }

  lemma StillRuns(xs: seq<Actor>, a: nat, q: Phase, b: nat, p: nat)
    requires a < |xs| && RunsIn(xs, b, p)
    ensures RunsIn(xs[a := xs[a].(phase := q)], b, p)
  {
  }

  lemma StillHeld(xs: seq<Actor>, a: nat, q: Phase, p: nat, l: ReadWrite)
    requires a < |xs| && LeaseHeld(xs, p, l)
    ensures LeaseHeld(xs[a := xs[a].(phase := q)], p, l)
  {
    hide RunsIn;
    forall b | b in l.readers || l.writer == Some(b) ensures RunsIn(xs[a := xs[a].(phase := q)], b, p) {
      StillRuns(xs, a, q, b, p);
    }
  }

  lemma HeldLess(s: State, a: nat)
    requires Held(s) && a < |s.actors|
    ensures Held(DropLease(s, a)) && Held(DropOperation(s, a))
  {
    hide RunsIn;
  }

  lemma HeldRows(s: State, rows: Rows)
    requires Held(s)
    ensures Held(s.(rows := rows))
  {
    hide RunsIn, LeaseHeld;
  }

  lemma HeldOperation(s: State, a: nat, q: Phase)
    requires Held(s) && a < |s.actors|
    ensures Held(TakeOperation(s, a, q)) && Held(TakeFileOperation(s, a, q))
  {
    hide LeaseHeld, Move;
    var process := s.actors[a].process;
    var t, u := s.(operation := s.operation[process := a]), s.(fileOperation := Some(a));
    assert RunsIn(s.actors, a, process);
    assert Held(t);
    assert Held(u);
    HeldMove(t, a, q);
    HeldMove(u, a, q);
  }

  lemma HeldLocal(s: State, a: nat, l: ReadWrite, q: Phase)
    requires Held(s) && a < |s.actors| && l.readers <= LeaseOf(s, s.actors[a].process).readers + {a}
    requires l.writer == LeaseOf(s, s.actors[a].process).writer || l.writer == Some(a)
    ensures Held(Move(s.(lease := s.lease[s.actors[a].process := l]), a, q))
  {
    hide Move;
    var process := s.actors[a].process;
    var t := s.(lease := s.lease[process := l]);
    assert LeaseHeld(s.actors, process, l);
    assert Held(t);
    HeldMove(t, a, q);
  }

  lemma HeldFile(s: State, a: nat, l: ReadWrite, q: Phase)
    requires Held(s) && a < |s.actors| && (l.writer == s.fileLease.writer || l.writer == Some(a))
    ensures Held(Move(s.(fileLease := l), a, q))
  {
    hide Move;
    assert Held(s.(fileLease := l));
    HeldMove(s.(fileLease := l), a, q);
  }

  lemma LookupHeld(s: State, a: nat)
    requires Held(s) && a < |s.actors|
    ensures Held(LookupStep(s, a))
  {
    hide Held, DropLease, DropOperation, TakeOperation, TakeFileOperation;
    var x, t := s.actors[a], LookupStep(s, a);
    var local := LeaseOf(s, x.process);
    HeldLess(s, a);
    DropsKeep(s, a);
    match x.phase
    case Start => HeldLocal(s, a, local.(readers := local.readers + {a}), LocalLease);
    case LocalLease => HeldFile(s, a, s.fileLease.(readers := s.fileLease.readers + {a}), Leased);
    case Leased =>
      HeldOperation(s, a, LookupLocal);
      HeldMove(DropLease(s, a), a, Done([]));
    case LookupLocal => HeldOperation(s, a, LookupFile);
    case LookupFile => HeldMove(DropOperation(s, a), a, Looked(s.rows));
    case _ =>
  }

  lemma AnswerHeld(enc: Encoder, s: State, a: nat, fails: bool)
    requires Held(s) && a < |s.actors|
    ensures Held(AnswerStep(enc, s, a, fails))
  {
    hide Held, DropLease, DropOperation, TakeOperation, TakeFileOperation, Missing, Store, CacheProtocol.Values, Move;
    var x, t := s.actors[a], AnswerStep(enc, s, a, fails);
    HeldLess(s, a);
    DropsKeep(s, a);
    match x.phase
    case Looked(seen) =>
      HeldMove(s, a, Ready(seen));
      HeldMove(s, a, Computing(seen));
      HeldMove(DropLease(s, a), a, Failed);
    case Computing(seen) => HeldOperation(s, a, StoreLocal(seen));
    case StoreLocal(seen) => HeldOperation(s, a, StoreFile(seen));
    case StoreFile(seen) =>
      var u := s.(rows := Store(enc, s.rows, x, seen));
      HeldRows(s, u.rows);
      HeldLess(u, a);
      DropsKeep(u, a);
      HeldMove(DropOperation(u, a), a, Ready(seen));
    case Ready(seen) => HeldMove(DropLease(s, a), a, Done(CacheProtocol.Values(enc, x, seen)));
    case _ =>
  }

  lemma ClearHeld(s: State, a: nat)
    requires Held(s) && a < |s.actors|
    ensures Held(ClearStep(s, a))
  {
    hide Held, DropLease, DropOperation, TakeOperation, TakeFileOperation, Move;
    var x, t := s.actors[a], ClearStep(s, a);
    var local := LeaseOf(s, x.process);
    match x.phase
    case TryLocal =>
      HeldMove(s, a, GaveUp);
      HeldLocal(s, a, local.(writer := Some(a)), TryFile);
    case TryFile =>
      HeldLess(s, a);
      DropsKeep(s, a);
      HeldMove(DropLease(s, a), a, GaveUp);
      HeldFile(s, a, s.fileLease.(writer := Some(a)), ClearLocal);
    case ClearLocal => HeldOperation(s, a, ClearFile);
    case ClearFile => HeldOperation(s, a, Clearing);
    case Clearing =>
      var u := s.(rows := map[]);
      HeldRows(s, map[]);
      HeldLess(u, a);
      DropsKeep(u, a);
      HeldLess(DropOperation(u, a), a);
      DropsKeep(DropOperation(u, a), a);
      HeldMove(DropLease(DropOperation(u, a), a), a, Cleared);
    case _ =>
  }

  lemma StepHeld(enc: Encoder, s: State, act: Action)
    requires Held(s)
    ensures Held(Step(enc, s, act))
  {
    hide LookupStep, AnswerStep, ClearStep, Held;
    if act.actor < |s.actors| {
      var a, p := act.actor, s.actors[act.actor].phase;
      if IsClear(p) {
        ClearHeld(s, a);
      } else if IsAnswer(p) {
        AnswerHeld(enc, s, a, act.computeFails);
      } else {
        LookupHeld(s, a);
      }
    }
  }

  lemma {:induction false} RunHeld(enc: Encoder, play: set<string>, s: State, acts: seq<Action>)
    requires Init(enc, play, s)
    ensures Held(Run(enc, s, acts))
  {
    hide Step;
    if acts != [] {
      RunHeld(enc, play, s, acts[..|acts| - 1]);
      StepHeld(enc, Run(enc, s, acts[..|acts| - 1]), acts[|acts| - 1]);
    }
  }

  // ---------------------------------------------------------------- steps are bounded

  /** How many steps an actor has left at most. */
  function Rank(p: Phase): nat {
    match p
    case Start => 10
    case LocalLease => 9
    case Leased => 8
    case LookupLocal => 7
    case LookupFile => 6
    case Looked(_) => 5
    case Computing(_) => 4
    case StoreLocal(_) => 3
    case StoreFile(_) => 2
    case Ready(_) => 1
    case TryLocal => 5
    case TryFile => 4
    case ClearLocal => 3
    case ClearFile => 2
    case Clearing => 1
    case _ => 0
  }

  predicate Ended(p: Phase) {
    p.Done? || p.Failed? || p.Cleared? || p.GaveUp?
  }

  lemma LookupRanks(s: State, a: nat)
    requires a < |s.actors|
    ensures LookupStep(s, a) == s
         || (a < |LookupStep(s, a).actors| && Rank(LookupStep(s, a).actors[a].phase) < Rank(s.actors[a].phase))
  {
    hide LeaseOf;
  }

  lemma AnswerRanks(enc: Encoder, s: State, a: nat, fails: bool)
    requires a < |s.actors|
    ensures var t := AnswerStep(enc, s, a, fails);
            t == s || (a < |t.actors| && Rank(t.actors[a].phase) < Rank(s.actors[a].phase))
  {
    hide Missing, Store, CacheProtocol.Values, LeaseOf;
  }

  lemma ClearRanks(s: State, a: nat)
    requires a < |s.actors|
    ensures var t := ClearStep(s, a);
            t == s || (a < |t.actors| && Rank(t.actors[a].phase) < Rank(s.actors[a].phase))
  {
    hide LeaseOf, DropLease, DropOperation, TakeOperation, TakeFileOperation;
    match s.actors[a].phase
    case TryFile => DropsKeep(s, a);
    case ClearLocal => TakeRanks(s, a, ClearFile);
    case ClearFile => TakeRanks(s, a, Clearing);
    case Clearing =>
      DropsKeep(s.(rows := map[]), a);
      DropsKeep(DropOperation(s.(rows := map[]), a), a);
    case _ =>
  }

  lemma TakeRanks(s: State, a: nat, q: Phase)
    requires a < |s.actors|
    ensures var t := TakeOperation(s, a, q); t == s || t.actors == s.actors[a := s.actors[a].(phase := q)]
    ensures var t := TakeFileOperation(s, a, q); t == s || t.actors == s.actors[a := s.actors[a].(phase := q)]
  {
  }

  /** A step leaves the state as it was, or brings its actor nearer to its end. */
  lemma StepRanks(enc: Encoder, s: State, act: Action)
    requires act.actor < |s.actors|
    ensures var t := Step(enc, s, act);
            t == s || (act.actor < |t.actors| && Rank(t.actors[act.actor].phase) < Rank(s.actors[act.actor].phase))
  {
    hide LookupStep, AnswerStep, ClearStep, Rank;
    LookupRanks(s, act.actor);
    AnswerRanks(enc, s, act.actor, act.computeFails);
    ClearRanks(s, act.actor);
  }

  function TotalRank(xs: seq<Actor>): nat {
    if xs == [] then 0 else TotalRank(xs[..|xs| - 1]) + Rank(xs[|xs| - 1].phase)
  }

  lemma {:induction false} RankReplaced(xs: seq<Actor>, a: nat, x: Actor)
    requires a < |xs|
    ensures TotalRank(xs[a := x]) == TotalRank(xs) - Rank(xs[a].phase) + Rank(x.phase)
  {
    hide Rank;
    var n, ys := |xs| - 1, xs[a := x];
    if a < n {
      assert ys[..n] == xs[..n][a := x];
      RankReplaced(xs[..n], a, x);
    } else {
      assert ys[..n] == xs[..n];
    }
  }

  lemma StepTotal(enc: Encoder, s: State, act: Action)
    ensures Step(enc, s, act) == s || TotalRank(Step(enc, s, act).actors) < TotalRank(s.actors)
  {
    hide Step, Rank, Store;
    if act.actor >= |s.actors| {
      Nobody(enc, s, act);
    } else {
      StepRanks(enc, s, act);
      StepShape(enc, s, act);
      var t := Step(enc, s, act);
      RankReplaced(s.actors, act.actor, t.actors[act.actor]);
    }
  }

  // ---------------------------------------------------------------- nobody waits for ever

  /** The actor's next step changes something. */
  predicate CanMove(enc: Encoder, s: State, a: nat) {
    a < |s.actors| && Step(enc, s, Action(a, false)) != s
  }

  /** These phases need no lock that is not held. */
  predicate NeedsNothing(p: Phase) {
    || p.LookupFile? || p.Looked? || p.StoreFile? || p.Ready? || p.TryLocal? || p.TryFile? || p.Clearing?
  }

  lemma NeedsNothingMoves(enc: Encoder, s: State, a: nat)
    requires a < |s.actors| && NeedsNothing(s.actors[a].phase)
    ensures CanMove(enc, s, a)
  {
    hide LeaseOf, DropLease, DropOperation, Missing, Store, CacheProtocol.Values;
    DropsKeep(s, a);
    var x := s.actors[a];
    match x.phase
    case StoreFile(seen) => DropsKeep(s.(rows := Store(enc, s.rows, x, seen)), a);
    case Clearing =>
      DropsKeep(s.(rows := map[]), a);
      DropsKeep(DropOperation(s.(rows := map[]), a), a);
      MovesTo(DropLease(DropOperation(s.(rows := map[]), a), a), a, Cleared);
    case _ =>
  }

  lemma MovesTo(s: State, a: nat, q: Phase)
    requires a < |s.actors|
    ensures a < |Move(s, a, q).actors| && Move(s, a, q).actors[a].phase == q
  {
  }

  /** Whoever holds the lock file can go on. */
  lemma FileOperationMoves(enc: Encoder, s: State) returns (b: nat)
    requires OperationsKept(s) && Held(s) && s.fileOperation.Some?
    ensures CanMove(enc, s, b)
  {
    hide CanMove;
    b := s.fileOperation.value;
    assert HasFileOperation(s.actors[b].phase);
    NeedsNothingMoves(enc, s, b);
  }

  /** Whoever holds the mutex of a process can go on, or somebody who holds the lock file can. */
  lemma OperationMoves(enc: Encoder, s: State, process: nat) returns (b: nat)
    requires OperationsKept(s) && Held(s) && process in s.operation
    ensures CanMove(enc, s, b)
  {
    hide CanMove;
    b := s.operation[process];
    assert RunsIn(s.actors, b, process) && HasOperation(s.actors[b].phase);
    b := HolderMoves(enc, s, b);
  }

  lemma HolderMoves(enc: Encoder, s: State, a: nat) returns (b: nat)
    requires OperationsKept(s) && Held(s) && a < |s.actors| && HasOperation(s.actors[a].phase)
    ensures CanMove(enc, s, b)
  {
    hide CanMove, OperationsKept, Held;
    if HasFileOperation(s.actors[a].phase) {
      NeedsNothingMoves(enc, s, a);
      return a;
    }
    if s.fileOperation.Some? {
      b := FileOperationMoves(enc, s);
    } else {
      FreeFileMoves(enc, s, a);
      return a;
    }
  }

  lemma FreeFileMoves(enc: Encoder, s: State, a: nat)
    requires a < |s.actors| && HasOperation(s.actors[a].phase) && !HasFileOperation(s.actors[a].phase)
    requires s.fileOperation.None?
    ensures CanMove(enc, s, a)
  {
  }

  /** Whoever is about to take the mutex of its process can, or somebody else can go on. */
  lemma WaitsForOperation(enc: Encoder, s: State, a: nat) returns (b: nat)
    requires OperationsKept(s) && Held(s) && a < |s.actors|
    requires var x := s.actors[a]; (x.phase.Leased? && x.texts != []) || x.phase.Computing? || x.phase.ClearLocal?
    ensures CanMove(enc, s, b)
  {
    hide CanMove, OperationsKept, Held;
    if s.actors[a].process in s.operation {
      b := OperationMoves(enc, s, s.actors[a].process);
    } else {
      FreeOperationMoves(enc, s, a);
      return a;
    }
  }

  lemma FreeOperationMoves(enc: Encoder, s: State, a: nat)
    requires a < |s.actors| && s.actors[a].process !in s.operation
    requires var x := s.actors[a]; (x.phase.Leased? && x.texts != []) || x.phase.Computing? || x.phase.ClearLocal?
    ensures CanMove(enc, s, a)
  {
  }

  /** A clear that holds a lease can go on, or somebody else can. */
  lemma ClearMoves(enc: Encoder, s: State, a: nat) returns (b: nat)
    requires OperationsKept(s) && Held(s) && a < |s.actors| && OwnsLocal(s.actors[a].phase)
    ensures CanMove(enc, s, b)
  {
    hide CanMove, OperationsKept, Held;
    match s.actors[a].phase
    case ClearLocal => b := WaitsForOperation(enc, s, a);
    case ClearFile => b := HolderMoves(enc, s, a);
    case _ =>
      NeedsNothingMoves(enc, s, a);
      b := a;
  }

  lemma LeaseMoves(enc: Encoder, s: State, a: nat) returns (b: nat)
    requires LeasesKept(s) && OperationsKept(s) && Held(s) && a < |s.actors|
    requires s.actors[a].phase.Start? || s.actors[a].phase.LocalLease?
    ensures CanMove(enc, s, b)
  {
    hide CanMove, OperationsKept;
    var x := s.actors[a];
    if x.phase.Start? && LeaseOf(s, x.process).writer.Some? {
      b := LeaseOf(s, x.process).writer.value;
      assert RunsIn(s.actors, b, x.process) && OwnsLocal(s.actors[b].phase);
      b := ClearMoves(enc, s, b);
    } else if x.phase.LocalLease? && s.fileLease.writer.Some? {
      b := s.fileLease.writer.value;
      assert OwnsFile(s.actors[b].phase);
      b := ClearMoves(enc, s, b);
    } else {
      FreeLeaseMoves(enc, s, a);
      return a;
    }
  }

  lemma FreeLeaseMoves(enc: Encoder, s: State, a: nat)
    requires a < |s.actors|
    requires var x := s.actors[a];
             (x.phase.Start? && LeaseOf(s, x.process).writer.None?) || (x.phase.LocalLease? && s.fileLease.writer.None?)
    ensures CanMove(enc, s, a)
  {
  }

  /** While anybody has not ended, somebody can go on. */
  lemma SomebodyMoves(enc: Encoder, s: State, a: nat) returns (b: nat)
    requires LeasesKept(s) && OperationsKept(s) && Held(s) && a < |s.actors| && !Ended(s.actors[a].phase)
    ensures CanMove(enc, s, b)
  {
    hide CanMove, LeasesKept, OperationsKept, Held;
    var x := s.actors[a];
    if x.phase.Start? || x.phase.LocalLease? {
      b := LeaseMoves(enc, s, a);
    } else if x.phase.Leased? && x.texts == [] {
      EmptyMoves(enc, s, a);
      b := a;
    } else if x.phase.Leased? || x.phase.Computing? || x.phase.ClearLocal? {
      b := WaitsForOperation(enc, s, a);
    } else if HasOperation(x.phase) {
      b := HolderMoves(enc, s, a);
    } else {
      NeedsNothingMoves(enc, s, a);
      b := a;
    }
  }

  lemma EmptyMoves(enc: Encoder, s: State, a: nat)
    requires a < |s.actors| && s.actors[a].phase.Leased? && s.actors[a].texts == []
    ensures CanMove(enc, s, a)
  {
    hide LeaseOf;
  }

  /**
   * There is no deadlock: in whatever state the calls and clears are, if one of them has not ended then some
   * actor's next step changes something.
   */
  lemma NobodyWaitsForEver(enc: Encoder, play: set<string>, s: State, acts: seq<Action>, a: nat) returns (b: nat)
    requires Init(enc, play, s) && a < |Run(enc, s, acts).actors| && !Ended(Run(enc, s, acts).actors[a].phase)
    ensures CanMove(enc, Run(enc, s, acts), b)
  {
    hide CanMove, LeasesKept, OperationsKept, Held, Run, Init;
    RunInv(enc, play, s, acts);
    RunHeld(enc, play, s, acts);
    b := SomebodyMoves(enc, Run(enc, s, acts), a);
  }

  // ---------------------------------------------------------------- and everybody ends

  /** How many of the actions changed something. */
  function Effective(enc: Encoder, s: State, acts: seq<Action>): nat {
    if acts == [] then 0
    else
      var before := acts[..|acts| - 1];
      Effective(enc, s, before) + if Run(enc, s, acts) != Run(enc, s, before) then 1 else 0
  }

  /** However the actors are scheduled, at most ten steps of each change anything. */
  lemma {:induction false} StepsAreBounded(enc: Encoder, play: set<string>, s: State, acts: seq<Action>)
    requires Init(enc, play, s)
    ensures Effective(enc, s, acts) + TotalRank(Run(enc, s, acts).actors) <= 10 * |s.actors|
  {
    hide Step;
    if acts == [] {
      RanksAtMost(s.actors);
    } else {
      StepsAreBounded(enc, play, s, acts[..|acts| - 1]);
      StepTotal(enc, Run(enc, s, acts[..|acts| - 1]), acts[|acts| - 1]);
    }
  }

  lemma {:induction false} RanksAtMost(xs: seq<Actor>)
    ensures TotalRank(xs) <= 10 * |xs|
  {
    if xs != [] { RanksAtMost(xs[..|xs| - 1]); }
  }

  ghost predicate AllEnded(s: State) {
    forall a | 0 <= a < |s.actors| :: Ended(s.actors[a].phase)
  }

  /** From every state of every run there is a way to the end of all calls and clears. */
  lemma {:induction false} EverybodyCanEnd(enc: Encoder, play: set<string>, s: State, acts: seq<Action>)
    returns (more: seq<Action>)
    requires Init(enc, play, s)
    ensures AllEnded(Run(enc, s, acts + more)) && forall act | act in more :: !act.computeFails
    decreases TotalRank(Run(enc, s, acts).actors)
  {
    hide Step, Init, Ended;
    var r := Run(enc, s, acts);
    if a: nat :| a < |r.actors| && !Ended(r.actors[a].phase) {
      var b := NobodyWaitsForEver(enc, play, s, acts, a);
      var act := Action(b, false);
      StepTotal(enc, r, act);
      assert (acts + [act])[..|acts|] == acts;
      var rest := EverybodyCanEnd(enc, play, s, acts + [act]);
      more := [act] + rest;
      assert acts + more == acts + [act] + rest;
    } else {
      more := [];
      assert acts + more == acts;
    }
  }

  // ---------------------------------------------------------------- when a clear gives up

  /** Somebody else in the actor's process holds a lease there, or is about to. */
  ghost predicate LeasedNearby(s: State, a: nat)
    requires a < |s.actors|
  {
    exists b | 0 <= b < |s.actors| ::
      s.actors[b].process == s.actors[a].process && (SharesLocal(s.actors[b].phase) || OwnsLocal(s.actors[b].phase))
  }

  ghost predicate LeasedAnywhere(s: State) {
    exists b | 0 <= b < |s.actors| :: SharesFile(s.actors[b].phase) || OwnsFile(s.actors[b].phase)
  }

  lemma NearbyExactly(s: State, a: nat)
    requires LeasesKept(s) && Held(s) && a < |s.actors|
    ensures LeasedNearby(s, a) <==>
            LeaseOf(s, s.actors[a].process).writer.Some? || LeaseOf(s, s.actors[a].process).readers != {}
  {
    var process := s.actors[a].process;
    var l := LeaseOf(s, process);
    if l.writer.Some? {
      assert RunsIn(s.actors, l.writer.value, process);
    } else if b :| b in l.readers {
      assert RunsIn(s.actors, b, process) && SharesLocal(s.actors[b].phase);
    }
  }

  lemma AnywhereExactly(s: State)
    requires LeasesKept(s) && Held(s)
    ensures LeasedAnywhere(s) <==> s.fileLease.writer.Some? || s.fileLease.readers != {}
  {
    hide RunsIn, LeaseHeld;
    if s.fileLease.writer.Some? {
      assert OwnsFile(s.actors[s.fileLease.writer.value].phase);
    } else if b :| b in s.fileLease.readers {
      assert SharesFile(s.actors[b].phase);
    }
  }

  lemma TryStep(s: State, a: nat)
    requires a < |s.actors| && (s.actors[a].phase.TryLocal? || s.actors[a].phase.TryFile?)
    ensures var t, l := ClearStep(s, a), LeaseOf(s, s.actors[a].process);
            && a < |t.actors|
            && t.actors[a].phase ==
               if s.actors[a].phase.TryLocal? then if l.writer.Some? || l.readers != {} then GaveUp else TryFile
               else if s.fileLease.writer.Some? || s.fileLease.readers != {} then GaveUp else ClearLocal
  {
    hide LeaseOf;
    DropsKeep(s, a);
  }

  /** A clear gives up exactly if a call or another clear holds a lease, first in its own process and then anywhere. */
  lemma GivesUpExactly(enc: Encoder, play: set<string>, s: State, acts: seq<Action>, a: nat, fails: bool)
    requires Init(enc, play, s) && a < |Run(enc, s, acts).actors|
    requires var p := Run(enc, s, acts).actors[a].phase; p.TryLocal? || p.TryFile?
    ensures var r := Run(enc, s, acts);
            && a < |Step(enc, r, Action(a, fails)).actors|
            && Step(enc, r, Action(a, fails)).actors[a].phase ==
               if r.actors[a].phase.TryLocal? then if LeasedNearby(r, a) then GaveUp else TryFile
               else if LeasedAnywhere(r) then GaveUp else ClearLocal
  {
    hide LeasesKept, OperationsKept, Held, Run, Init, ClearStep, LeasedNearby, LeasedAnywhere;
    RunInv(enc, play, s, acts);
    RunHeld(enc, play, s, acts);
    var r := Run(enc, s, acts);
    NearbyExactly(r, a);
    AnywhereExactly(r);
    TryStep(r, a);
  }
}
