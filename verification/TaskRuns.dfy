/** What holds of the task registry over every interleaving of its users and its workers. */
module TaskRuns {
  import opened Names
  import opened TaskSpec

  /** A worker begins at most once and ends once; it outlives its entry. */
  datatype Worker = Spawned | Begun | Over

  /** The registry and the workers of all tasks ever submitted. */
  datatype Host = Host(reg: Registry, workers: map<nat, Worker>)

  datatype Action =
    | DoSubmit(id: nat, title: string, owner: Option<nat>, token: nat, now: nat)
    | DoStart(id: nat, now: nat)
    | DoProgress(id: nat, message: string, fraction: Option<real>)
    | DoNotice(id: nat, message: string)
    | DoFinish(id: nat, outcome: Outcome, now: nat)
    | DoCancel(id: nat) | DoCancelAll | DoDismiss(id: nat) | DoPurge(tab: nat) | DoRenameTab(tab: nat, name: string)
    | DoCancelToken(token: nat) | DoClose

  /** An action that its worker cannot take, or an id that is not new, changes nothing. */
  function Step(h: Host, act: Action): Host {
    match act
    case DoSubmit(id, title, tab, token, now) =>
      if id in h.workers || !Accepts(h.reg, title, tab) then h
      else Host(Submit(h.reg, id, title, tab, token, now), h.workers[id := Spawned])
    case DoStart(id, now) =>
      if id in h.workers
        && h.workers[id].Spawned? then Host(Update(h.reg, id, SetStarted(now)), h.workers[id := Begun]) else h
    case DoProgress(id, message, fraction) => h.(reg := Update(h.reg, id, SetProgress(message, fraction)))
    case DoNotice(id, message) => h.(reg := Update(h.reg, id, SetNotice(message)))
    case DoFinish(id, outcome, now) =>
      if id in h.workers
        && !h.workers[id].Over? then Host(Update(h.reg, id, SetFinished(now, outcome)), h.workers[id := Over]) else h
    case DoCancel(id) => h.(reg := Cancel(h.reg, id))
    case DoCancelAll => h.(reg := CancelAll(h.reg))
    case DoDismiss(id) => h.(reg := Dismiss(h.reg, id))
    case DoPurge(tab) => h.(reg := Purge(h.reg, tab))
    case DoRenameTab(tab, name) => h.(reg := RenameTab(h.reg, tab, name))
    case DoCancelToken(token) => h.(reg := h.reg.(cancelled := h.reg.cancelled + {token}))
    case DoClose => h.(reg := Close(h.reg))
  }

  const START := Host(Registry([], 0, [], {}, false), map[])

  function Run(h: Host, acts: seq<Action>): Host {
    if acts == [] then h else Step(Run(h, acts[..|acts| - 1]), acts[|acts| - 1])
  }

  // ---------------------------------------------------------------- publication

  predicate Unique(es: seq<Entry>) {
    forall i, j | 0 <= i < j < |es| :: es[i].summary.id != es[j].summary.id
  }

  predicate Ordered(es: seq<Entry>) {
    forall i, j | 0 <= i < j < |es| :: Precedes(es[i], es[j])
  }

  lemma {:induction false} InsertKeeps(es: seq<Entry>, e: Entry)
    ensures multiset(Insert(es, e)) == multiset(es) + multiset{e}
    ensures forall x :: x in Insert(es, e) <==> x in es || x == e
  {
    hide Precedes;
    if es != [] && !Precedes(es[|es| - 1], e) {
      var rest, last := es[..|es| - 1], es[|es| - 1];
      assert es == rest + [last];
      InsertKeeps(rest, e);
    }
  }

  lemma {:induction false} InsertOrders(es: seq<Entry>, e: Entry)
    requires Ordered(es)
    ensures Ordered(Insert(es, e))
  {
    if es == [] || Precedes(es[|es| - 1], e) {
      forall x | x in es ensures Precedes(x, e) { if es != [] { Through(es, x, e); } }
      OrderedLast(es, e);
    } else {
      var rest, last := es[..|es| - 1], es[|es| - 1];
      assert es == rest + [last];
      InsertOrders(rest, e);
      InsertKeeps(rest, e);
      forall x | x in Insert(rest, e) ensures Precedes(x, last) { if x != e { Before(rest, last, x); } }
      OrderedLast(Insert(rest, e), last);
    }
  }

  lemma Before(rest: seq<Entry>, last: Entry, x: Entry)
    requires Ordered(rest + [last]) && x in rest
    ensures Precedes(x, last)
  {
    hide Precedes;
    var i :| 0 <= i < |rest| && rest[i] == x;
    assert (rest + [last])[i] == x && (rest + [last])[|rest|] == last;
  }

  lemma Through(es: seq<Entry>, x: Entry, e: Entry)
    requires Ordered(es) && x in es && Precedes(es[|es| - 1], e)
    ensures Precedes(x, e)
  {
    var i :| 0 <= i < |es| && es[i] == x;
    if i < |es| - 1 { assert Precedes(es[i], es[|es| - 1]); }
  }

  lemma OrderedLast(es: seq<Entry>, last: Entry)
    requires Ordered(es) && forall x | x in es :: Precedes(x, last)
    ensures Ordered(es + [last])
  {
    hide Precedes;
  }

  lemma {:induction false} InsertUnique(es: seq<Entry>, e: Entry)
    requires Unique(es) && forall x | x in es :: x.summary.id != e.summary.id
    ensures Unique(Insert(es, e))
  {
    hide Precedes;
    if es != [] && !Precedes(es[|es| - 1], e) {
      var rest, last := es[..|es| - 1], es[|es| - 1];
      assert es == rest + [last];
      InsertUnique(rest, e);
      InsertKeeps(rest, e);
      forall x | x in Insert(rest, e) ensures x.summary.id != last.summary.id {
        if x != e { UniqueBefore(rest, last, x); }
      }
      UniqueLast(Insert(rest, e), last);
    } else {
      UniqueLast(es, e);
    }
  }

  lemma UniqueBefore(rest: seq<Entry>, last: Entry, x: Entry)
    requires Unique(rest + [last]) && x in rest
    ensures x.summary.id != last.summary.id
  {
    var i :| 0 <= i < |rest| && rest[i] == x;
    assert (rest + [last])[i] == x && (rest + [last])[|rest|] == last;
  }

  lemma UniqueLast(es: seq<Entry>, last: Entry)
    requires Unique(es) && forall x | x in es :: x.summary.id != last.summary.id
    ensures Unique(es + [last])
  {
  }

  /** Sorting permutes the entries into display order. */
  lemma {:induction false} SortKeeps(es: seq<Entry>)
    ensures multiset(Sort(es)) == multiset(es) && Ordered(Sort(es))
    ensures forall x :: x in Sort(es) <==> x in es
    ensures Unique(es) ==> Unique(Sort(es))
  {
    hide Precedes, Ordered, Unique, Insert;
    if es == [] {
      NoEntries();
    } else {
      var rest, e := es[..|es| - 1], es[|es| - 1];
      assert es == rest + [e];
      SortKeeps(rest);
      InsertKeeps(Sort(rest), e);
      InsertOrders(Sort(rest), e);
      if Unique(es) {
        UniquePrefix(rest, e);
        forall x | x in Sort(rest) ensures x.summary.id != e.summary.id { UniqueBefore(rest, e, x); }
        InsertUnique(Sort(rest), e);
      }
    }
  }

  lemma NoEntries()
    ensures Ordered([]) && Unique([])
  {
  }

  lemma UniquePrefix(rest: seq<Entry>, e: Entry)
    requires Unique(rest + [e])
    ensures Unique(rest)
  {
    assert rest == (rest + [e])[..|rest|];
  }

  /** Entries of equal rank keep the order in which they were. */
  predicate SameRank(a: Entry, b: Entry) {
    Precedes(a, b) && Precedes(b, a)
  }

  function Ranked(es: seq<Entry>, like: Entry): seq<Entry> {
    if es == [] then []
    else Ranked(es[..|es| - 1], like) + if SameRank(es[|es| - 1], like) then [es[|es| - 1]] else []
  }

  lemma {:induction false} InsertStable(es: seq<Entry>, e: Entry, like: Entry)
    requires Ordered(es)
    ensures Ranked(Insert(es, e), like) == Ranked(es, like) + if SameRank(e, like) then [e] else []
  {
    if es == [] || Precedes(es[|es| - 1], e) {
      assert (es + [e])[..|es|] == es;
    } else {
      var rest, last := es[..|es| - 1], es[|es| - 1];
      InsertStable(rest, e, like);
      assert (Insert(rest, e) + [last])[..|es|] == Insert(rest, e);
      assert !(SameRank(e, like) && SameRank(last, like));
    }
  }

  /** The sort is stable. */
  lemma {:induction false} SortStable(es: seq<Entry>, like: Entry)
    ensures Ranked(Sort(es), like) == Ranked(es, like)
  {
    if es != [] {
      SortKeeps(es[..|es| - 1]);
      SortStable(es[..|es| - 1], like);
      InsertStable(Sort(es[..|es| - 1]), es[|es| - 1], like);
    }
  }

  lemma {:induction false} RetainPart(es: seq<Entry>)
    ensures forall x | x in Retain(es) :: x in es
    ensures Ordered(es) ==> Ordered(Retain(es))
    ensures Unique(es) ==> Unique(Retain(es))
  {
    hide Precedes;
    if es != [] {
      var rest, e := es[..|es| - 1], es[|es| - 1];
      assert es == rest + [e];
      RetainPart(rest);
      var r := Retain(rest);
      if Ordered(es) { OrderedPart(rest, r, e); }
      if Unique(es) { UniquePart(rest, r, e); }
    }
  }

  lemma OrderedPart(es: seq<Entry>, r: seq<Entry>, e: Entry)
    requires Ordered(es + [e]) && (forall x | x in r :: x in es) && (Ordered(es) ==> Ordered(r))
    ensures Ordered(r) && Ordered(r + [e])
  {
    hide Precedes;
    assert es == (es + [e])[..|es|];
    forall x | x in r ensures Precedes(x, e) {
      var i :| 0 <= i < |es| && es[i] == x;
      assert (es + [e])[i] == x && (es + [e])[|es|] == e;
    }
  }

  lemma UniquePart(es: seq<Entry>, r: seq<Entry>, e: Entry)
    requires Unique(es + [e]) && (forall x | x in r :: x in es) && (Unique(es) ==> Unique(r))
    ensures Unique(r) && Unique(r + [e])
  {
    assert es == (es + [e])[..|es|];
    forall x | x in r ensures x.summary.id != e.summary.id {
      var i :| 0 <= i < |es| && es[i] == x;
      assert (es + [e])[i] == x && (es + [e])[|es|] == e;
    }
  }

  lemma {:induction false} RetainCount(es: seq<Entry>)
    ensures DoneCount(Retain(es)) == if DoneCount(es) < KEEP then DoneCount(es) else KEEP
  {
    if es != [] {
      var rest, e := es[..|es| - 1], es[|es| - 1];
      RetainCount(rest);
      assert (Retain(rest) + [e])[..|Retain(rest)|] == Retain(rest);
    }
  }

  /** An entry goes exactly if it is finished and a hundred finished entries come before it. */
  lemma {:induction false} RetainAt(es: seq<Entry>, k: nat)
    requires Unique(es) && k < |es|
    ensures es[k] !in Retain(es) <==> Done(es[k]) && DoneCount(es[..k]) >= KEEP
    decreases |es|
  {
    var n := |es| - 1;
    var rest, e := es[..n], es[n];
    assert es == rest + [e];
    RetainPart(rest);
    if k < n {
      assert es[..k] == rest[..k] && rest[k] == es[k] && es[k] != e;
      RetainAt(rest, k);
    } else {
      forall x | x in rest ensures x != e {
        var i :| 0 <= i < |rest| && rest[i] == x;
        assert es[i] == x;
      }
    }
  }

  /** What publication does to a set of entries. */
  lemma PublishKeeps(r: Registry, es: seq<Entry>)
    requires Unique(es)
    ensures var p := Publish(r, es);
            && Unique(p.entries) && Ordered(p.entries) && DoneCount(p.entries) <= KEEP
            && p.tasks == Summaries(p.entries) && p.cancelled == r.cancelled
            && (forall e | e in p.entries :: e in es) && (forall e | e in es && !Done(e) :: e in p.entries)
  {
    hide Precedes, Sort, Retain;
    SortKeeps(es);
    RetainPart(Sort(es));
    RetainCount(Sort(es));
    forall e | e in es && !Done(e) ensures e in Retain(Sort(es)) {
      var k :| 0 <= k < |Sort(es)| && Sort(es)[k] == e;
      RetainAt(Sort(es), k);
    }
  }

  /** Eviction drops an entry exactly when it is finished and at least a hundred finished ones rank above it. */
  lemma EvictsOnlyBeyondHundred(r: Registry, es: seq<Entry>, k: nat)
    requires Unique(es) && k < |es|
    ensures var sorted := Sort(es);
            && Ordered(sorted) && multiset(sorted) == multiset(es)
            && (sorted[k] !in Publish(r, es).entries <==> Done(sorted[k]) && DoneCount(sorted[..k]) >= KEEP)
  {
    SortKeeps(es);
    RetainAt(Sort(es), k);
  }

  // ---------------------------------------------------------------- invariant

  ghost predicate EntryOk(h: Host, e: Entry) {
    && e.summary.id in h.workers
    && (Done(e) <==> h.workers[e.summary.id].Over?)
    && (Done(e) <==> e.summary.finishedAt.Some?)
    && (e.summary.state.Cancelling? ==> e.token in h.reg.cancelled)
    && (e.summary.state.Running? ==> h.workers[e.summary.id].Begun? && e.summary.startedAt.Some?)
    && (e.summary.state.Queued? ==> h.workers[e.summary.id].Spawned? && e.summary.startedAt.None?)
  }

  ghost predicate OnePerTab(es: seq<Entry>) {
    forall a, b | a in es && b in es && a.summary.tab.Some? && a.summary.tab == b.summary.tab && !Done(a) && !Done(b) ::
      a.summary.id == b.summary.id
  }

  ghost predicate Inv(h: Host) {
    && Unique(h.reg.entries) && Ordered(h.reg.entries) && DoneCount(h.reg.entries) <= KEEP
    && h.reg.tasks == Summaries(h.reg.entries)
    && OnePerTab(h.reg.entries)
    && forall e | e in h.reg.entries :: EntryOk(h, e)
  }

  /** How an entry may differ from what it was. */
  predicate Follows(a: Entry, b: Entry) {
    && b.summary.id == a.summary.id && b.summary.tab == a.summary.tab && b.token == a.token
      && b.summary.createdAt == a.summary.createdAt
    && StateFollows(a.summary.state, b.summary.state)
    && (Done(a) ==>
      b.summary.finishedAt == a.summary.finishedAt && b.summary.error == a.summary.error
        && b.summary.progress == a.summary.progress)
  }

  /** Finished states are absorbing; a cancelling task only finishes; a running one is never queued again. */
  predicate StateFollows(s: TaskState, t: TaskState) {
    match s
    case Queued => true
    case Running => !t.Queued?
    case Cancelling => t.Cancelling? || Finished(t)
    case _ => t == s
  }

  /** Every known entry comes from one with its id; what was gone stays gone. */
  ghost predicate Evolves(h: Host, k: Host) {
    && (forall id | id in h.workers :: id in k.workers)
    && h.reg.cancelled <= k.reg.cancelled
    && forall b | b in k.reg.entries && b.summary.id in h.workers :: exists a | a in h.reg.entries :: Follows(a, b)
  }

  lemma FollowsItself(a: Entry)
    ensures Follows(a, a)
  {
  }

  lemma FollowsOn(a: Entry, b: Entry, c: Entry)
    requires Follows(a, b) && Follows(b, c)
    ensures Follows(a, c)
  {
  }

  // ---------------------------------------------------------------- one step

  lemma SameOk(h: Host, k: Host, e: Entry)
    requires EntryOk(h, e) && k.workers == h.workers && h.reg.cancelled <= k.reg.cancelled
    ensures EntryOk(k, e)
  {
  }

  /** Each of these entries comes from one of the host's, unless its id is new to the host. */
  ghost predicate ComeFrom(h: Host, es: seq<Entry>) {
    forall b | b in es && b.summary.id in h.workers :: exists a | a in h.reg.entries :: Follows(a, b)
  }

  ghost predicate Grows(h: Host, k: Host) {
    (forall id | id in h.workers :: id in k.workers) && h.reg.cancelled <= k.reg.cancelled
  }

  /** Publishing entries that are each fine and each come from a known one. */
  lemma PublishStep(h: Host, k: Host, base: Registry, es: seq<Entry>)
    requires k.reg == Publish(base, es) && Grows(h, k)
    requires Unique(es) && OnePerTab(es) && ComeFrom(h, es)
    requires forall e | e in es :: EntryOk(k, e)
    ensures Inv(k) && Evolves(h, k)
  {
    hide Publish, EntryOk, Ordered, Follows;
    PublishKeeps(base, es);
  }

  /** As many entries, each following the one at its place. */
  ghost predicate Pointwise(es: seq<Entry>, after: seq<Entry>) {
    |after| == |es| && forall i | 0 <= i < |es| :: Follows(es[i], after[i])
  }

  lemma PointwiseAt(es: seq<Entry>, after: seq<Entry>, b: Entry) returns (a: Entry)
    requires Pointwise(es, after) && b in after
    ensures a in es && Follows(a, b) && a.summary.id == b.summary.id && a.summary.tab == b.summary.tab
              && (Done(a) ==> Done(b))
  {
    var i :| 0 <= i < |after| && after[i] == b;
    assert Follows(es[i], after[i]);
    a := es[i];
  }

  lemma PointwiseUnique(es: seq<Entry>, after: seq<Entry>)
    requires Unique(es) && Pointwise(es, after)
    ensures Unique(after)
  {
    hide Follows;
    forall i, j | 0 <= i < j < |after| ensures after[i].summary.id != after[j].summary.id {
      FollowsKeepsId(es[i], after[i]);
      FollowsKeepsId(es[j], after[j]);
    }
  }

  lemma PointwiseTabs(es: seq<Entry>, after: seq<Entry>)
    requires OnePerTab(es) && Pointwise(es, after)
    ensures OnePerTab(after)
  {
    hide Follows, Pointwise, Done;
    forall x, y | x in after && y in after && x.summary.tab.Some? && x.summary.tab == y.summary.tab && !Done(x)
      && !Done(y)
      ensures x.summary.id == y.summary.id
    {
      var a := PointwiseAt(es, after, x);
      var b := PointwiseAt(es, after, y);
    }
  }

  lemma PointwiseComes(h: Host, es: seq<Entry>)
    requires Inv(h) && Pointwise(h.reg.entries, es)
    ensures Unique(es) && OnePerTab(es) && ComeFrom(h, es)
  {
    hide EntryOk, Ordered, Follows, Pointwise, Unique, OnePerTab;
    PointwiseUnique(h.reg.entries, es);
    PointwiseTabs(h.reg.entries, es);
    forall b | b in es ensures exists a | a in h.reg.entries :: Follows(a, b) {
      var a := PointwiseAt(h.reg.entries, es, b);
    }
  }

  /** Publishing the entries changed place by place. */
  lemma PointwiseStep(h: Host, k: Host, base: Registry, es: seq<Entry>)
    requires Inv(h) && k.reg == Publish(base, es) && Grows(h, k)
    requires Pointwise(h.reg.entries, es)
    requires forall i | 0 <= i < |es| :: EntryOk(k, es[i])
    ensures Inv(k) && Evolves(h, k)
  {
    hide *;
    PointwiseComes(h, es);
    PublishStep(h, k, base, es);
  }

  /** Publishing the entries with one of them replaced. */
  lemma ReplaceStep(h: Host, k: Host, base: Registry, at: nat, e: Entry)
    requires Inv(h) && at < |h.reg.entries| && Follows(h.reg.entries[at], e) && EntryOk(k, e)
    requires k.reg == Publish(base, h.reg.entries[at := e]) && Grows(h, k)
    requires forall id | id in h.workers && id != e.summary.id :: k.workers[id] == h.workers[id]
    ensures Inv(k) && Evolves(h, k)
  {
    hide Publish;
    var es := h.reg.entries[at := e];
    forall i | 0 <= i < |es| ensures Follows(h.reg.entries[i], es[i]) && EntryOk(k, es[i]) {
      if i != at {
        FollowsItself(es[i]);
        assert es[i] in h.reg.entries && EntryOk(h, es[i]);
      }
    }
    PointwiseStep(h, k, base, es);
  }

  /** Publishing some of the entries, in their order. */
  lemma DropStep(h: Host, k: Host, base: Registry, es: seq<Entry>)
    requires Inv(h) && k.reg == Publish(base, es) && k.workers == h.workers && h.reg.cancelled <= k.reg.cancelled
    requires Unique(es) && forall e | e in es :: e in h.reg.entries
    ensures Inv(k) && Evolves(h, k)
  {
    hide Publish, EntryOk, Ordered, Follows;
    forall e | e in es ensures EntryOk(k, e) { SameOk(h, k, e); }
    forall b | b in es ensures exists a | a in h.reg.entries :: Follows(a, b) { FollowsItself(b); }
    PublishStep(h, k, base, es);
  }

  lemma {:induction false} WithoutUnique(es: seq<Entry>, drop: Entry -> bool)
    requires Unique(es)
    ensures Unique(Without(es, drop))
  {
    if es != [] {
      var rest, e := es[..|es| - 1], es[|es| - 1];
      WithoutUnique(rest, drop);
      forall x | x in Without(rest, drop) ensures x.summary.id != e.summary.id {
        var i :| 0 <= i < |rest| && rest[i] == x;
        assert es[i] == x;
      }
    }
  }

  lemma SubmitStep(h: Host, act: Action)
    requires Inv(h) && act.DoSubmit? && act.id !in h.workers && Accepts(h.reg, act.title, act.owner)
    ensures Inv(Step(h, act)) && Evolves(h, Step(h, act))
  {
    hide Publish, Ordered;
    var k := Step(h, act);
    var e := Fresh(act.id, act.title, act.owner, act.token, act.now);
    var es := h.reg.entries + [e];
    PublishCancelled(h.reg, es);
    forall x | x in es ensures EntryOk(k, x) {
      if x != e { assert EntryOk(h, x); }
    }
    forall i, j | 0 <= i < j < |es| ensures es[i].summary.id != es[j].summary.id {
      assert EntryOk(h, es[i]);
    }
    forall b | b in es && b.summary.id in h.workers ensures exists a | a in h.reg.entries :: Follows(a, b) {
      FollowsItself(b);
    }
    PublishKeeps(h.reg, es);
    PublishStep(h, k, h.reg, es);
  }

  /** The host after an action on one summary. */
  function UpdateHost(h: Host, id: nat, f: Summary -> Summary, w: map<nat, Worker>): Host {
    Host(Update(h.reg, id, f), w)
  }

  lemma UpdateStep(h: Host, id: nat, f: Summary -> Summary, w: map<nat, Worker>)
    requires Inv(h) && forall i | i in h.workers :: i in w && (i != id ==> w[i] == h.workers[i])
    requires forall e | e in h.reg.entries && e.summary.id == id ::
               var b := e.(summary := f(e.summary)); Follows(e, b) && EntryOk(Host(h.reg, w), b)
    ensures var k := UpdateHost(h, id, f, w); Inv(k) && Evolves(h, k)
  {
    hide Publish, Ordered, Follows;
    var k := UpdateHost(h, id, f, w);
    match Find(h.reg.entries, id)
    case Some(at) =>
      var a := h.reg.entries[at];
      assert a in h.reg.entries;
      var e := a.(summary := f(a.summary));
      assert Follows(a, e);
      FollowsKeepsId(a, e);
      PublishCancelled(h.reg, h.reg.entries[at := e]);
      ReplaceStep(h, k, h.reg, at, e);
    case None =>
      forall e | e in h.reg.entries ensures EntryOk(k, e) { assert EntryOk(h, e); }
      forall e | e in h.reg.entries ensures Follows(e, e) { FollowsItself(e); }
  }

  lemma FollowsKeepsId(a: Entry, b: Entry)
    requires Follows(a, b)
    ensures b.summary.id == a.summary.id
  {
  }

  lemma PublishCancelled(r: Registry, es: seq<Entry>)
    ensures Publish(r, es).cancelled == r.cancelled
  {
  }

  lemma StartStep(h: Host, id: nat, now: nat)
    requires Inv(h) && id in h.workers && h.workers[id].Spawned?
    ensures var k := Step(h, DoStart(id, now)); Inv(k) && Evolves(h, k)
  {
    hide Publish, Ordered;
    forall e | e in h.reg.entries && e.summary.id == id
      ensures var b := e.(summary := SetStarted(now)(e.summary));
                Follows(e, b) && EntryOk(Host(h.reg, h.workers[id := Begun]), b)
    { assert EntryOk(h, e); }
    UpdateStep(h, id, SetStarted(now), h.workers[id := Begun]);
  }

  lemma FinishFollows(h: Host, e: Entry, outcome: Outcome, now: nat)
    requires EntryOk(h, e) && !h.workers[e.summary.id].Over?
    ensures var b := e.(summary := SetFinished(now, outcome)(e.summary));
            Follows(e, b) && EntryOk(Host(h.reg, h.workers[e.summary.id := Over]), b)
  {
  }

  lemma FinishStep(h: Host, id: nat, outcome: Outcome, now: nat)
    requires Inv(h) && id in h.workers && !h.workers[id].Over?
    ensures var k := Step(h, DoFinish(id, outcome, now)); Inv(k) && Evolves(h, k)
  {
    hide Publish, Ordered, EntryOk, Follows, SetFinished;
    forall e | e in h.reg.entries && e.summary.id == id
      ensures var b := e.(summary := SetFinished(now, outcome)(e.summary));
              Follows(e, b) && EntryOk(Host(h.reg, h.workers[id := Over]), b)
    { FinishFollows(h, e, outcome, now); }
    UpdateStep(h, id, SetFinished(now, outcome), h.workers[id := Over]);
  }

  lemma ReportStep(h: Host, id: nat, f: Summary -> Summary)
    requires Inv(h)
    requires (exists m, p :: f == SetProgress(m, p)) || exists m :: f == SetNotice(m)
    ensures var k := h.(reg := Update(h.reg, id, f)); Inv(k) && Evolves(h, k)
  {
    hide Publish, Ordered;
    forall e | e in h.reg.entries && e.summary.id == id
      ensures var b := e.(summary := f(e.summary)); Follows(e, b) && EntryOk(Host(h.reg, h.workers), b)
    { assert EntryOk(h, e); }
    UpdateStep(h, id, f, h.workers);
  }

  lemma CancelStep(h: Host, id: nat)
    requires Inv(h)
    ensures var k := Step(h, DoCancel(id)); Inv(k) && Evolves(h, k)
  {
    hide Publish, Ordered;
    var k := Step(h, DoCancel(id));
    if Active(h.reg, id) {
      var at := Find(h.reg.entries, id).value;
      var a := h.reg.entries[at];
      assert a in h.reg.entries && EntryOk(h, a);
      var base := h.reg.(cancelled := h.reg.cancelled + {a.token});
      PublishCancelled(base, h.reg.entries[at := CancelEntry(a)]);
      ReplaceStep(h, k, base, at, CancelEntry(a));
    } else {
      Stutter(h);
    }
  }

  lemma Stutter(h: Host)
    ensures Evolves(h, h)
  {
    forall e | e in h.reg.entries ensures Follows(e, e) { FollowsItself(e); }
  }

  lemma CancelAllStep(h: Host)
    requires Inv(h)
    ensures var k := Step(h, DoCancelAll); Inv(k) && Evolves(h, k)
  {
    hide Publish, Ordered;
    var k := Step(h, DoCancelAll);
    var base := h.reg.(cancelled := h.reg.cancelled + OpenTokens(h.reg.entries));
    var es := MapEntries(h.reg.entries, AsCancelled());
    PublishCancelled(base, es);
    forall i | 0 <= i < |es| ensures Follows(h.reg.entries[i], es[i]) && EntryOk(k, es[i]) {
      var a := h.reg.entries[i];
      assert a in h.reg.entries && EntryOk(h, a);
    }
    PointwiseStep(h, k, base, es);
  }

  lemma RenameTabStep(h: Host, tab: nat, name: string)
    requires Inv(h)
    ensures var k := Step(h, DoRenameTab(tab, name)); Inv(k) && Evolves(h, k)
  {
    hide Publish, Ordered;
    var k := Step(h, DoRenameTab(tab, name));
    var es := MapEntries(h.reg.entries, Renamed(tab, name));
    PublishCancelled(h.reg, es);
    forall i | 0 <= i < |es| ensures Follows(h.reg.entries[i], es[i]) && EntryOk(k, es[i]) {
      var a := h.reg.entries[i];
      assert a in h.reg.entries && EntryOk(h, a);
    }
    PointwiseStep(h, k, h.reg, es);
  }

  lemma DismissStep(h: Host, id: nat)
    requires Inv(h)
    ensures var k := Step(h, DoDismiss(id)); Inv(k) && Evolves(h, k)
  {
    hide Publish, Ordered, EntryOk, Follows;
    var k := Step(h, DoDismiss(id));
    if Active(h.reg, id) {
      Stutter(h);
    } else {
      var es := Without(h.reg.entries, HasId(id));
      WithoutUnique(h.reg.entries, HasId(id));
      PublishCancelled(h.reg, es);
      DropStep(h, k, h.reg, es);
    }
  }

  lemma PurgeStep(h: Host, tab: nat)
    requires Inv(h)
    ensures var k := Step(h, DoPurge(tab)); Inv(k) && Evolves(h, k)
  {
    hide Publish, Ordered, EntryOk, Follows;
    var k := Step(h, DoPurge(tab));
    var base := h.reg.(cancelled := h.reg.cancelled + set e | e in h.reg.entries && e.summary.tab == Some(tab) ::
      e.token);
    var es := Without(h.reg.entries, OfTab(tab));
    WithoutUnique(h.reg.entries, OfTab(tab));
    PublishCancelled(base, es);
    DropStep(h, k, base, es);
  }

  lemma CloseStep(h: Host)
    requires Inv(h)
    ensures var k := Step(h, DoClose); Inv(k) && Evolves(h, k)
  {
    hide Publish, Ordered, EntryOk, Follows;
    PublishCancelled(h.reg.(closed := true), []);
    DropStep(h, Step(h, DoClose), h.reg.(closed := true), []);
  }

  lemma CancelTokenStep(h: Host, token: nat)
    requires Inv(h)
    ensures var k := Step(h, DoCancelToken(token)); Inv(k) && Evolves(h, k)
  {
    hide Ordered, Follows;
    var k := Step(h, DoCancelToken(token));
    forall e | e in k.reg.entries ensures EntryOk(k, e) { SameOk(h, k, e); }
    forall e | e in h.reg.entries ensures Follows(e, e) { FollowsItself(e); }
  }

  /** Every action keeps the invariant and only moves entries forward. */
  lemma StepInv(h: Host, act: Action)
    requires Inv(h)
    ensures Inv(Step(h, act)) && Evolves(h, Step(h, act))
  {
    hide Inv, Evolves, Update, Cancel, CancelAll, Dismiss, Purge, RenameTab, Close, Submit, SetProgress, SetNotice;
    match act
    case DoSubmit(id, title, tab, token, now) =>
      if id in h.workers || !Accepts(h.reg, title, tab) { Stutter(h); } else { SubmitStep(h, act); }
    case DoStart(id, now) =>
      if id in h.workers && h.workers[id].Spawned? { StartStep(h, id, now); } else { Stutter(h); }
    case DoProgress(id, message, fraction) => ReportStep(h, id, SetProgress(message, fraction));
    case DoNotice(id, message) => ReportStep(h, id, SetNotice(message));
    case DoFinish(id, outcome, now) =>
      if id in h.workers && !h.workers[id].Over? { FinishStep(h, id, outcome, now); } else { Stutter(h); }
    case DoCancel(id) => CancelStep(h, id);
    case DoCancelAll => CancelAllStep(h);
    case DoDismiss(id) => DismissStep(h, id);
    case DoPurge(tab) => PurgeStep(h, tab);
    case DoRenameTab(tab, name) => RenameTabStep(h, tab, name);
    case DoCancelToken(token) => CancelTokenStep(h, token);
    case DoClose => CloseStep(h);
  }

  // ---------------------------------------------------------------- what each operation is for

  /** Unfinished entries other than these are still there as they were, and nothing else came up. */
  ghost predicate OthersStay(before: seq<Entry>, after: seq<Entry>, but: Entry -> bool) {
    && (forall e | e in before && !Done(e) && !but(e) :: e in after)
    && (forall e | e in after && !but(e) :: e in before)
  }

  lemma ReplaceEffect(r: Registry, es: seq<Entry>, at: nat, e: Entry)
    requires Unique(es) && at < |es| && e.summary.id == es[at].summary.id
    ensures var after := Publish(r, es[at := e]).entries;
            && (!Done(e) ==> e in after) && (forall x | x in after && x.summary.id == e.summary.id :: x == e)
            && OthersStay(es, after, HasId(e.summary.id))
  {
    hide Publish, Ordered;
    var next := es[at := e];
    PublishKeeps(r, next);
    assert next[at] == e;
    forall x | x in next ensures x == e || (x in es && x.summary.id != e.summary.id) {
      var i :| 0 <= i < |next| && next[i] == x;
      assert i == at || es[i] == x;
    }
    forall x | x in es && x.summary.id != e.summary.id ensures x in next {
      var i :| 0 <= i < |es| && es[i] == x;
      assert next[i] == x;
    }
  }

  /** A submitted task is there, queued; whatever else was unfinished stays. */
  lemma SubmitAdds(h: Host, act: Action)
    requires Inv(h) && act.DoSubmit? && act.id !in h.workers && Accepts(h.reg, act.title, act.owner)
    ensures var after := Step(h, act).reg.entries;
            && Fresh(act.id, act.title, act.owner, act.token, act.now) in after
              && OthersStay(h.reg.entries, after, HasId(act.id))
  {
    hide Publish, Ordered;
    var e := Fresh(act.id, act.title, act.owner, act.token, act.now);
    var es := h.reg.entries + [e];
    forall i, j | 0 <= i < j < |es| ensures es[i].summary.id != es[j].summary.id { assert EntryOk(h, es[i]); }
    PublishKeeps(h.reg, es);
    assert e in es;
  }

  /** An update changes the summary of its entry and nothing else. */
  lemma UpdateEffect(h: Host, id: nat, f: Summary -> Summary, a: Entry)
    requires Inv(h) && a in h.reg.entries && a.summary.id == id && f(a.summary).id == id
    ensures var after, b := Update(h.reg, id, f).entries, a.(summary := f(a.summary));
            && (!Done(b) ==> b in after) && (forall x | x in after && x.summary.id == id :: x == b)
            && OthersStay(h.reg.entries, after, HasId(id))
  {
    hide Publish, Ordered;
    var k := Find(h.reg.entries, id).value;
    assert h.reg.entries[k] == a;
    ReplaceEffect(h.reg, h.reg.entries, k, a.(summary := f(a.summary)));
  }

  /** Cancelling marks an unfinished task and cancels its token. */
  lemma CancelEffect(h: Host, a: Entry)
    requires Inv(h) && a in h.reg.entries && !Done(a)
    ensures var r := Step(h, DoCancel(a.summary.id)).reg;
            && a.(summary := a.summary.(state := Cancelling)) in r.entries && a.token in r.cancelled
            && OthersStay(h.reg.entries, r.entries, HasId(a.summary.id))
  {
    hide Publish, Ordered;
    var k := Find(h.reg.entries, a.summary.id).value;
    assert h.reg.entries[k] == a;
    var base := h.reg.(cancelled := h.reg.cancelled + {a.token});
    PublishCancelled(base, h.reg.entries[k := CancelEntry(a)]);
    ReplaceEffect(base, h.reg.entries, k, CancelEntry(a));
  }

  /** Afterwards every unfinished task is cancelling, and its token is cancelled. */
  lemma CancelAllEffect(h: Host)
    requires Inv(h)
    ensures var r := Step(h, DoCancelAll).reg;
            && (forall e | e in r.entries :: Done(e) || e.summary.state.Cancelling?)
            && forall a | a in h.reg.entries && !Done(a) :: CancelEntry(a) in r.entries && a.token in r.cancelled
  {
    hide Publish, Ordered, EntryOk, Unique, MapEntries, OnePerTab, CancelEntry;
    var base := h.reg.(cancelled := h.reg.cancelled + OpenTokens(h.reg.entries));
    var es := MapEntries(h.reg.entries, AsCancelled());
    PublishCancelled(base, es);
    forall e ensures AsCancelled()(e) == CancelEntry(e) && CancelEntry(e).summary.id == e.summary.id { CancelledIs(e); }
    MappedEntries(h.reg.entries, AsCancelled());
    PublishKeeps(base, es);
    forall e | e in es ensures Done(e) || e.summary.state.Cancelling? {
      var a :| a in h.reg.entries && e == AsCancelled()(a);
      CancelledIs(a);
    }
    forall a | a in h.reg.entries && !Done(a) ensures CancelEntry(a) in Step(h, DoCancelAll).reg.entries {
      CancelledIs(a);
    }
  }

  lemma CancelledIs(e: Entry)
    ensures AsCancelled()(e) == CancelEntry(e) && CancelEntry(e).summary.id == e.summary.id
    ensures if Done(e) then CancelEntry(e) == e else CancelEntry(e).summary.state.Cancelling? && !Done(CancelEntry(e))
  {
  }

  /** A dismissed task is gone if it was finished, and untouched otherwise. */
  lemma DismissEffect(h: Host, id: nat)
    requires Inv(h)
    ensures var k := Step(h, DoDismiss(id));
            if Active(h.reg, id) then k == h
            else
              && (forall e | e in k.reg.entries :: e.summary.id != id)
              && OthersStay(h.reg.entries, k.reg.entries, HasId(id))
  {
    hide Publish, Ordered, EntryOk;
    WithoutUnique(h.reg.entries, HasId(id));
    PublishKeeps(h.reg, Without(h.reg.entries, HasId(id)));
  }

  /** A purged tab has no entries left and all its tokens are cancelled. */
  lemma PurgeEffect(h: Host, tab: nat)
    requires Inv(h)
    ensures var r := Step(h, DoPurge(tab)).reg;
            && (forall e | e in r.entries :: e.summary.tab != Some(tab))
              && OthersStay(h.reg.entries, r.entries, OfTab(tab))
            && forall a | a in h.reg.entries && a.summary.tab == Some(tab) :: a.token in r.cancelled
  {
    hide Publish, Ordered, EntryOk;
    var base := h.reg.(cancelled := h.reg.cancelled + set e | e in h.reg.entries && e.summary.tab == Some(tab) ::
      e.token);
    WithoutUnique(h.reg.entries, OfTab(tab));
    PublishKeeps(base, Without(h.reg.entries, OfTab(tab)));
  }

  /** Renaming a tab gives its entries the new title and leaves every other entry alone. */
  lemma RenameTabEffect(h: Host, tab: nat, name: string)
    requires Inv(h)
    ensures var after := Step(h, DoRenameTab(tab, name)).reg.entries;
            && (forall e | e in after && e.summary.tab == Some(tab) :: e.summary.title == name)
            && OthersStay(h.reg.entries, after, OfTab(tab))
            && (forall a | a in h.reg.entries && !Done(a) :: Renamed(tab, name)(a) in after)
            && forall e | e in after :: exists a | a in h.reg.entries :: e == Renamed(tab, name)(a)
  {
    hide Publish, Ordered, EntryOk, Unique, MapEntries, OnePerTab, Renamed, OthersStay, Retitled;
    var f := Renamed(tab, name);
    KeepsIds(tab, name);
    MappedEntries(h.reg.entries, f);
    PublishKeeps(h.reg, MapEntries(h.reg.entries, f));
    Retitling(h.reg.entries, Step(h, DoRenameTab(tab, name)).reg.entries, tab, name);
  }

  lemma KeepsIds(tab: nat, name: string)
    ensures forall e: Entry :: Renamed(tab, name)(e).summary.id == e.summary.id
    ensures forall e: Entry :: Done(Renamed(tab, name)(e)) == Done(e)
  {
  }

  lemma Retitling(es: seq<Entry>, after: seq<Entry>, tab: nat, name: string)
    requires forall x | x in after :: exists a | a in es :: x == Renamed(tab, name)(a)
    requires forall a | a in es && !Done(a) :: Renamed(tab, name)(a) in after
    ensures (forall e | e in after && e.summary.tab == Some(tab) :: e.summary.title == name)
              && OthersStay(es, after, OfTab(tab))
  {
    hide Renamed;
    forall x | x in after ensures x.summary.tab == Some(tab) ==> x.summary.title == name
      ensures x.summary.tab != Some(tab) ==> x in es
    {
      var a :| a in es && x == Renamed(tab, name)(a);
      RenamedIs(tab, name, a);
    }
    forall a | a in es && !Done(a) && a.summary.tab != Some(tab) ensures a in after { RenamedIs(tab, name, a); }
  }

  ghost predicate Retitled(tab: nat, name: string, e: Entry) {
    var x := Renamed(tab, name)(e);
    && x.summary.id == e.summary.id && x.summary.tab == e.summary.tab
    && if e.summary.tab == Some(tab) then x.summary.title == name else x == e
  }

  lemma RenamedIs(tab: nat, name: string, e: Entry)
    ensures Retitled(tab, name, e) && Done(Renamed(tab, name)(e)) == Done(e)
  {
  }

  /** The entries changed place by place, by a function that keeps ids. */
  lemma MappedEntries(es: seq<Entry>, f: Entry -> Entry)
    requires Unique(es) && forall e :: f(e).summary.id == e.summary.id
    ensures Unique(MapEntries(es, f))
    ensures forall x | x in MapEntries(es, f) :: exists a | a in es :: x == f(a)
    ensures forall a | a in es :: f(a) in MapEntries(es, f)
  {
    var us := MapEntries(es, f);
    forall x | x in us ensures exists a | a in es :: x == f(a) {
      var i :| 0 <= i < |us| && us[i] == x;
      assert es[i] in es;
    }
    forall a | a in es ensures f(a) in us {
      var i :| 0 <= i < |es| && es[i] == a;
      assert us[i] == f(a);
    }
  }

  /** Closing empties the snapshot too, and no entry of before comes back. */
  lemma CloseEffect(h: Host, more: seq<Action>)
    requires Inv(h)
    ensures var k := Step(h, DoClose);
            && k.reg.closed && k.reg.entries == [] && k.reg.tasks == []
            && forall e | e in Run(k, more).reg.entries :: e.summary.id !in h.workers
  {
    hide Inv, Run;
    CloseStep(h);
    var k := Step(h, DoClose);
    RunInv(k, more);
    assert k.reg.entries == [];
  }

  // ---------------------------------------------------------------- whole runs

  lemma StartInv()
    ensures Inv(START)
  {
  }

  lemma EvolvesOn(h: Host, k: Host, l: Host)
    requires Evolves(h, k) && Evolves(k, l)
    ensures Evolves(h, l)
  {
    hide Follows;
    forall b | b in l.reg.entries && b.summary.id in h.workers ensures exists a | a in h.reg.entries :: Follows(a, b) {
      var m :| m in k.reg.entries && Follows(m, b);
      FollowsKeepsId(m, b);
      var a :| a in h.reg.entries && Follows(a, m);
      FollowsOn(a, m, b);
    }
  }

  lemma {:induction false} RunInv(h: Host, acts: seq<Action>)
    requires Inv(h)
    ensures Inv(Run(h, acts)) && Evolves(h, Run(h, acts))
    decreases |acts|
  {
    hide Inv, Evolves, Step;
    if acts == [] {
      Stutter(h);
    } else {
      var m := Run(h, acts[..|acts| - 1]);
      RunInv(h, acts[..|acts| - 1]);
      StepInv(m, acts[|acts| - 1]);
      EvolvesOn(h, m, Run(h, acts));
    }
  }

  /** In every reachable state: the snapshot shows the entries in order, ids are unique, finish times are set exactly on
      finished entries, cancelling entries have a cancelled token, and a tab has one unfinished entry at most. */
  lemma ReachableStates(acts: seq<Action>)
    ensures var r := Run(START, acts).reg;
            && r.tasks == Summaries(r.entries) && Unique(r.entries) && Ordered(r.entries) && OnePerTab(r.entries)
            && DoneCount(r.entries) <= KEEP
            && forall e | e in r.entries ::
                 && (Done(e) <==> e.summary.finishedAt.Some?)
                 && (e.summary.state.Cancelling? ==> e.token in r.cancelled)
                 && (e.summary.state.Running? ==> e.summary.startedAt.Some?)
  {
    hide Run, Ordered, Unique, OnePerTab;
    StartInv();
    RunInv(START, acts);
    var h := Run(START, acts);
    forall e | e in h.reg.entries ensures EntryOk(h, e) { }
  }

  /**
   * From any reachable state, whatever happens next: an entry that is still there has only moved forward, so
   * a finished one keeps its state and a cancelling one never runs again; and an id that was submitted and is
   * gone stays gone.
   */
  lemma EntriesMoveForward(acts: seq<Action>, more: seq<Action>)
    ensures var h := Run(START, acts); var k := Run(h, more);
            && (forall a, b | a in h.reg.entries && b in k.reg.entries && a.summary.id == b.summary.id :: Follows(a, b))
            && (forall b | b in k.reg.entries && b.summary.id in h.workers ::
              exists a | a in h.reg.entries :: a.summary.id == b.summary.id)
  {
    hide Run, Ordered, Follows;
    StartInv();
    RunInv(START, acts);
    var h := Run(START, acts);
    RunInv(h, more);
    var k := Run(h, more);
    forall b | b in k.reg.entries && b.summary.id in h.workers
      ensures exists a | a in h.reg.entries :: a.summary.id == b.summary.id && Follows(a, b)
    {
      var a :| a in h.reg.entries && Follows(a, b);
      FollowsKeepsId(a, b);
    }
    forall a, b | a in h.reg.entries && b in k.reg.entries && a.summary.id == b.summary.id ensures Follows(a, b) {
      assert EntryOk(h, a);
      var a' :| a' in h.reg.entries && a'.summary.id == b.summary.id && Follows(a', b);
      assert a' == a;
    }
  }
}
