/**
 * What users see of the task registry, with the fields written out: what each action does to the entry that it
 * is about, in which order entries are shown, when one is dropped, and what a shown entry tells of the run.
 */
module TaskEffects {
  import opened Names
  import opened TaskSpec
  import opened TaskRuns

  // ---------------------------------------------------------------- the order of the snapshot

  /** Not at its end: queued, running or cancelling. */
  predicate Open(s: Summary) {
    s.state == Queued || s.state == Running || s.state == Cancelling
  }

  predicate Unsuccessful(s: Summary) {
    s.state == TaskState.Failed || s.state == Cancelled
  }

  /** At least as new: by the time of finishing if there is one, else by the time of submission. */
  predicate AsNew(s: Summary, t: Summary) {
    (if s.finishedAt.Some? then s.finishedAt.value else s.createdAt)
    >= if t.finishedAt.Some? then t.finishedAt.value else t.createdAt
  }

  /** Shown first: what is open, then what failed or was cancelled, then what succeeded; the newest of each first. */
  predicate ShownBefore(s: Summary, t: Summary) {
    if Open(s) then !Open(t) || AsNew(s, t)
    else if Unsuccessful(s) then t.state == Succeeded || (Unsuccessful(t) && AsNew(s, t))
    else t.state == Succeeded && AsNew(s, t)
  }

  lemma PrecedesExactly(a: Entry, b: Entry)
    ensures Precedes(a, b) <==> ShownBefore(a.summary, b.summary)
    ensures Done(a) <==> !Open(a.summary)
  {
  }

  /** In every reachable state the snapshot is in this order, and shows at most a hundred tasks at their end. */
  lemma SnapshotInOrder(acts: seq<Action>)
    ensures var tasks := Run(START, acts).reg.tasks;
            && (forall i, j | 0 <= i < j < |tasks| :: ShownBefore(tasks[i], tasks[j]))
            && |set i | 0 <= i < |tasks| && !Open(tasks[i]) :: i| <= 100
  {
    hide Run, ShownBefore, Precedes, Unique, OnePerTab, Open, Done;
    ReachableStates(acts);
    var r := Run(START, acts).reg;
    forall i, j | 0 <= i < j < |r.tasks| ensures ShownBefore(r.tasks[i], r.tasks[j]) {
      assert Precedes(r.entries[i], r.entries[j]);
      PrecedesExactly(r.entries[i], r.entries[j]);
    }
    DoneSize(r.entries);
    forall i | 0 <= i < |r.tasks| ensures Open(r.tasks[i]) == !Done(r.entries[i]) {
      PrecedesExactly(r.entries[i], r.entries[i]);
    }
    assert (set i | 0 <= i < |r.tasks| && !Open(r.tasks[i]) :: i)
        == set i | 0 <= i < |r.entries| && Done(r.entries[i]) :: i;
  }

  lemma {:induction false} DoneSize(es: seq<Entry>)
    ensures DoneCount(es) == |set i | 0 <= i < |es| && Done(es[i]) :: i|
  {
    hide Done;
    var now := set i | 0 <= i < |es| && Done(es[i]) :: i;
    forall i | i in now ensures es != [] { }
    if es == [] {
      assert now == {};
    } else {
      var n := |es| - 1;
      DoneSize(es[..n]);
      var before := set i | 0 <= i < |es[..n]| && Done(es[..n][i]) :: i;
      assert now == before + if Done(es[n]) then {n} else {};
    }
  }

  /** A published entry that is dropped is at its end, and a hundred such entries are shown before it. */
  lemma DroppedBehindHundred(r: Registry, es: seq<Entry>, e: Entry)
    requires Unique(es) && e in es && e !in Publish(r, es).entries
    ensures !Open(e.summary) && DoneCount(Publish(r, es).entries) == 100
    ensures forall x | x in Publish(r, es).entries && !Open(x.summary) :: ShownBefore(x.summary, e.summary)
  {
    hide Precedes, Open, Ordered, ShownBefore, Done, Sort, Retain, DoneCount;
    var sorted := Sort(es);
    SortKeeps(es);
    var k: nat :| k < |sorted| && sorted[k] == e;
    RetainAt(sorted, k);
    RetainCount(sorted);
    RetainPart(sorted);
    PrecedesExactly(e, e);
    assert sorted[..|sorted|] == sorted;
    DoneGrows(sorted, k, |sorted|);
    forall x | x in Retain(sorted) && !Open(x.summary) ensures ShownBefore(x.summary, e.summary) {
      var j: nat :| j < |sorted| && sorted[j] == x;
      PrecedesExactly(x, e);
      RetainAt(sorted, j);
      if j > k { DoneGrows(sorted, k, j); }
      InOrder(sorted, j, k);
    }
  }

  lemma InOrder(es: seq<Entry>, j: nat, k: nat)
    requires Ordered(es) && j < k < |es|
    ensures Precedes(es[j], es[k])
  {
  }

  lemma {:induction false} DoneGrows(es: seq<Entry>, j: nat, k: nat)
    requires j <= k <= |es|
    ensures DoneCount(es[..j]) <= DoneCount(es[..k])
    decreases k - j
  {
    hide Done;
    if j < k {
      assert es[..j + 1][..j] == es[..j];
      DoneGrows(es, j + 1, k);
    }
  }

  // ---------------------------------------------------------------- effects of a worker

  /** The entry with this summary's id is exactly this one, unless a hundred finished ones are shown before it. */
  ghost predicate Shows(h: Host, k: Host, e: Entry) {
    && k.reg.revision == h.reg.revision + 1
    && (forall x | x in k.reg.entries && x.summary.id == e.summary.id :: x == e)
    && (e in k.reg.entries || (!Open(e.summary) && DoneCount(k.reg.entries) == 100))
    && Elsewhere(h.reg.entries, k.reg.entries, e.summary.id)
  }

  /** Open tasks of other ids stay as they were, and no other entry comes up. */
  ghost predicate Elsewhere(before: seq<Entry>, after: seq<Entry>, id: nat) {
    && (forall e | e in before && Open(e.summary) && e.summary.id != id :: e in after)
    && (forall e | e in after && e.summary.id != id :: e in before)
  }

  lemma OthersElsewhere(before: seq<Entry>, after: seq<Entry>, id: nat)
    requires OthersStay(before, after, HasId(id))
    ensures Elsewhere(before, after, id)
  {
  }

  /** The same for the entries of other tabs. */
  ghost predicate ElsewhereTab(before: seq<Entry>, after: seq<Entry>, tab: nat) {
    && (forall e | e in before && Open(e.summary) && e.summary.tab != Some(tab) :: e in after)
    && (forall e | e in after && e.summary.tab != Some(tab) :: e in before)
  }

  lemma UpdateShows(h: Host, k: Host, f: Summary -> Summary, a: Entry)
    requires Inv(h) && a in h.reg.entries && f(a.summary).id == a.summary.id
    requires k.reg == Update(h.reg, a.summary.id, f)
    ensures Shows(h, k, a.(summary := f(a.summary)))
  {
    hide Publish, Ordered, EntryOk, OthersStay, Elsewhere;
    var e := a.(summary := f(a.summary));
    UpdateEffect(h, a.summary.id, f, a);
    OthersElsewhere(h.reg.entries, k.reg.entries, a.summary.id);
    var at := Find(h.reg.entries, a.summary.id).value;
    assert h.reg.entries[at] == a;
    var es := h.reg.entries[at := e];
    assert es[at] == e;
    if e !in k.reg.entries { DroppedBehindHundred(h.reg, es, e); }
    assert Publish(h.reg, es).revision == h.reg.revision + 1 by { PublishRevision(h.reg, es); }
  }

  lemma PublishRevision(r: Registry, es: seq<Entry>)
    ensures Publish(r, es).revision == r.revision + 1
  {
  }

  /** Nothing happens to a task that is gone. */
  lemma GoneStays(h: Host, id: nat, act: Action)
    requires forall e | e in h.reg.entries :: e.summary.id != id
    requires act.DoStart? || act.DoFinish? || act.DoProgress? || act.DoNotice?
    requires act.id == id
    ensures Step(h, act).reg == h.reg
  {
  }

  /** The entry with its start recorded. */
  function Started(a: Entry, now: nat): Entry {
    var s := a.summary;
    Entry(Summary(s.id, s.title, s.tab, if s.state == Queued then Running else s.state, s.createdAt, Some(now),
                  s.finishedAt, s.progress, s.error, s.notice), a.token)
  }

  /** The entry with a notice on it. */
  function Noticed(a: Entry, message: string): Entry {
    var s := a.summary;
    Entry(Summary(s.id, s.title, s.tab, s.state, s.createdAt, s.startedAt, s.finishedAt, s.progress, s.error,
                  Some(message)), a.token)
  }

  /** The first step of a worker that was not started: its queued task runs, a cancelling one keeps its state. */
  lemma StartEffect(h: Host, a: Entry, now: nat)
    requires Inv(h) && a in h.reg.entries
    ensures var k, s := Step(h, DoStart(a.summary.id, now)), a.summary;
            if h.workers[s.id] == Spawned then
              && k.workers == h.workers[s.id := Begun]
              && Shows(h, k, Started(a, now))
            else k == h
  {
    hide Publish, Ordered, Shows;
    if h.workers[a.summary.id] == Spawned {
      UpdateShows(h, Step(h, DoStart(a.summary.id, now)), SetStarted(now), a);
    }
  }

  /** How a worker's end is shown. */
  predicate EndsAs(outcome: Outcome, state: TaskState, before: Option<string>, error: Option<string>) {
    match outcome
    case Success => state == Succeeded && error == before
    case Interrupted => state == Cancelled && error == before
    case Failure(e) => state == TaskState.Failed && error == Some(e)
  }

  /**
   * The end of a worker: success, interruption and failure are shown as what they are, with the time and the
   * error; the other fields stay.  A worker ends once, and an unfinished entry always has one that can end.
   */
  lemma FinishEffect(h: Host, a: Entry, outcome: Outcome, now: nat) returns (e: Entry)
    requires Inv(h) && a in h.reg.entries
    ensures var k, s := Step(h, DoFinish(a.summary.id, outcome, now)), a.summary;
            if Open(s) then
              && k.workers == h.workers[s.id := Over] && Shows(h, k, e) && e.token == a.token
              && EndsAs(outcome, e.summary.state, s.error, e.summary.error)
              && e.summary == Summary(s.id, s.title, s.tab, e.summary.state, s.createdAt, s.startedAt, Some(now),
                                      s.progress, e.summary.error, s.notice)
            else k == h
  {
    hide Publish, Ordered, Shows;
    assert EntryOk(h, a);
    e := a.(summary := SetFinished(now, outcome)(a.summary));
    if Open(a.summary) {
      UpdateShows(h, Step(h, DoFinish(a.summary.id, outcome, now)), SetFinished(now, outcome), a);
    }
  }

  /** The fraction that is shown for a given one. */
  predicate FractionTold(given: Option<real>, shown: Option<real>) {
    shown == if given.Some? && 0.0 <= given.value && given.value <= 1.0 then given else None
  }

  /** Progress is shown while a task is open, with a fraction only if it lies between 0 and 1. */
  lemma ProgressEffect(h: Host, a: Entry, message: string, fraction: Option<real>) returns (e: Entry)
    requires Inv(h) && a in h.reg.entries
    ensures var k, s := Step(h, DoProgress(a.summary.id, message, fraction)), a.summary;
            && k.workers == h.workers && Shows(h, k, e) && e.token == a.token
            && if Open(s) then
                 && e.summary.progress.Some? && e.summary.progress.value.message == message
                 && FractionTold(fraction, e.summary.progress.value.fraction)
                 && e.summary == Summary(s.id, s.title, s.tab, s.state, s.createdAt, s.startedAt, s.finishedAt,
                                         e.summary.progress, s.error, s.notice)
               else e == a
  {
    hide Publish, Ordered, Shows;
    var f := SetProgress(message, fraction);
    e := a.(summary := f(a.summary));
    UpdateShows(h, Step(h, DoProgress(a.summary.id, message, fraction)), f, a);
  }

  lemma NoticeEffect(h: Host, a: Entry, message: string)
    requires Inv(h) && a in h.reg.entries
    ensures var k, s := Step(h, DoNotice(a.summary.id, message)), a.summary;
            && k.workers == h.workers
            && Shows(h, k, Noticed(a, message))
  {
    hide Publish, Ordered, Shows;
    UpdateShows(h, Step(h, DoNotice(a.summary.id, message)), SetNotice(message), a);
  }

  /**
   * A submission is accepted exactly if its title is not blank and its tab, if it has one, has no open task;
   * then it is shown queued.
   */
  lemma SubmitExactly(h: Host, id: nat, title: string, tab: Option<nat>, token: nat, now: nat)
    requires Inv(h) && id !in h.workers
    ensures var k := Step(h, DoSubmit(id, title, tab, token, now));
            if (exists c :: c in title && !IsWhite(c))
               && (tab.None? || forall x | x in h.reg.entries && x.summary.tab == tab :: !Open(x.summary))
            then
              && k.workers == h.workers[id := Spawned]
              && Shows(h, k, Entry(Summary(id, title, tab, Queued, now, None, None, None, None, None), token))
            else k == h
  {
    hide Publish, Ordered, Shows, IsWhite;
    var act := DoSubmit(id, title, tab, token, now);
    if Accepts(h.reg, title, tab) {
      SubmitAdds(h, act);
      assert Shows(h, Step(h, act), Fresh(id, title, tab, token, now)) by { SubmitShows(h, act); }
    }
  }

  lemma SubmitShows(h: Host, act: Action)
    requires Inv(h) && act.DoSubmit? && act.id !in h.workers && Accepts(h.reg, act.title, act.owner)
    ensures Shows(h, Step(h, act), Fresh(act.id, act.title, act.owner, act.token, act.now))
  {
    hide Publish, Ordered, OthersStay, Elsewhere;
    SubmitAdds(h, act);
    OthersElsewhere(h.reg.entries, Step(h, act).reg.entries, act.id);
    StepInv(h, act);
    PublishRevision(h.reg, h.reg.entries + [Fresh(act.id, act.title, act.owner, act.token, act.now)]);
  }

  // ---------------------------------------------------------------- effects of a user

  /** Cancelling does something exactly to an open task: it is shown cancelling. */
  lemma CancelExactly(h: Host, id: nat)
    requires Inv(h)
    ensures var k := Step(h, DoCancel(id));
            && k.workers == h.workers
            && ((forall a | a in h.reg.entries && a.summary.id == id :: !Open(a.summary)) ==> k == h)
            && forall a | a in h.reg.entries && a.summary.id == id && Open(a.summary) ::
                 Shows(h, k, a.(summary := a.summary.(state := Cancelling)))
  {
    hide Publish, Ordered, EntryOk, OnePerTab, Shows;
    forall a | a in h.reg.entries && a.summary.id == id && Open(a.summary)
      ensures Shows(h, Step(h, DoCancel(id)), a.(summary := a.summary.(state := Cancelling)))
    {
      CancelShows(h, a);
    }
  }

  lemma CancelShows(h: Host, a: Entry)
    requires Inv(h) && a in h.reg.entries && Open(a.summary)
    ensures Shows(h, Step(h, DoCancel(a.summary.id)), a.(summary := a.summary.(state := Cancelling)))
  {
    hide Publish, Ordered, EntryOk, OnePerTab, OthersStay, Elsewhere, Evolves, DoneCount;
    var k := Step(h, DoCancel(a.summary.id));
    CancelEffect(h, a);
    OthersElsewhere(h.reg.entries, k.reg.entries, a.summary.id);
    CancelStep(h, a.summary.id);
    var at := Find(h.reg.entries, a.summary.id).value;
    assert h.reg.entries[at] == a;
    PublishRevision(h.reg.(cancelled := h.reg.cancelled + {a.token}), h.reg.entries[at := CancelEntry(a)]);
  }

  /** A dismissal is refused exactly for an open task; otherwise nothing is shown under that id any more. */
  lemma DismissExactly(h: Host, id: nat)
    requires Inv(h)
    ensures var k := Step(h, DoDismiss(id));
            if exists a :: a in h.reg.entries && a.summary.id == id && Open(a.summary) then k == h
            else
              && (forall e | e in k.reg.entries :: e.summary.id != id)
              && Elsewhere(h.reg.entries, k.reg.entries, id)
              && k.reg.revision == h.reg.revision + 1
  {
    hide Publish, Ordered, EntryOk, OnePerTab, OthersStay, Elsewhere;
    DismissEffect(h, id);
    if !Active(h.reg, id) { OthersElsewhere(h.reg.entries, Step(h, DoDismiss(id)).reg.entries, id); }
    PublishRevision(h.reg, Without(h.reg.entries, HasId(id)));
  }

  /** A purged tab shows nothing any more, and the other tabs are as they were. */
  lemma PurgeExactly(h: Host, tab: nat)
    requires Inv(h)
    ensures var k := Step(h, DoPurge(tab));
            && (forall e | e in k.reg.entries :: e.summary.tab != Some(tab))
            && ElsewhereTab(h.reg.entries, k.reg.entries, tab)
  {
    hide Publish, Ordered, EntryOk, OnePerTab;
    PurgeEffect(h, tab);
  }

  /** Renaming a tab changes the titles of its entries and nothing else. */
  lemma RenameTabExactly(h: Host, tab: nat, name: string)
    requires Inv(h)
    ensures var after := Step(h, DoRenameTab(tab, name)).reg.entries;
            && ElsewhereTab(h.reg.entries, after, tab)
            && (forall e | e in after && e.summary.tab == Some(tab) ::
                 && e.summary.title == name
                 && exists a :: a in h.reg.entries && e == a.(summary := a.summary.(title := name)))
            && forall a | a in h.reg.entries && Open(a.summary) && a.summary.tab == Some(tab) ::
                 a.(summary := a.summary.(title := name)) in after
  {
    hide Publish, Ordered, EntryOk, OnePerTab, RenameTab;
    RenameTabEffect(h, tab, name);
    var after := Step(h, DoRenameTab(tab, name)).reg.entries;
    forall e | e in after && e.summary.tab == Some(tab)
      ensures exists a :: a in h.reg.entries && e == a.(summary := a.summary.(title := name))
    {
      var a :| a in h.reg.entries && e == Renamed(tab, name)(a);
      RenamedIs(tab, name, a);
    }
  }

  /** Whose token an action cancels. */
  ghost predicate Cancels(h: Host, act: Action, token: nat) {
    match act
    case DoCancelToken(t) => t == token
    case DoCancel(id) => exists a :: a in h.reg.entries && a.token == token && Open(a.summary) && a.summary.id == id
    case DoCancelAll => exists a :: a in h.reg.entries && a.token == token && Open(a.summary)
    case DoPurge(tab) => exists a :: a in h.reg.entries && a.token == token && a.summary.tab == Some(tab)
    case _ => false
  }

  /** An action cancels these tokens and no others; only closing closes. */
  lemma CancelledExactly(h: Host, act: Action, token: nat)
    requires Inv(h)
    ensures var r := Step(h, act).reg;
            && (token in r.cancelled <==> token in h.reg.cancelled || Cancels(h, act, token))
            && (r.closed <==> h.reg.closed || act == DoClose)
  {
    hide Sort, Retain, Ordered, EntryOk, OnePerTab, MapEntries, Without, Accepts;
    if act.DoCancel? && Active(h.reg, act.id) {
      assert h.reg.entries[Find(h.reg.entries, act.id).value] in h.reg.entries;
    }
  }

  // ---------------------------------------------------------------- what a shown entry tells

  /** Everything that an entry shows was said by an action of the run. */
  ghost predicate Told(acts: seq<Action>, e: Entry) {
    var s := e.summary;
    && (exists title :: DoSubmit(s.id, title, s.tab, e.token, s.createdAt) in acts && TitleTold(acts, s, title))
    && (s.startedAt.Some? ==> DoStart(s.id, s.startedAt.value) in acts)
    && (s.state == Running ==> s.startedAt.Some?)
    && (s.state == Cancelling ==> DoCancel(s.id) in acts || DoCancelAll in acts)
    && (if Open(s) then s.finishedAt.None? && s.error.None? else s.finishedAt.Some? && EndTold(acts, s))
    && (s.progress.Some? ==> ProgressTold(acts, s))
    && (s.notice.Some? ==> DoNotice(s.id, s.notice.value) in acts)
  }

  ghost predicate TitleTold(acts: seq<Action>, s: Summary, title: string) {
    s.title == title || (s.tab.Some? && DoRenameTab(s.tab.value, s.title) in acts)
  }

  ghost predicate EndTold(acts: seq<Action>, s: Summary)
    requires s.finishedAt.Some?
  {
    exists outcome :: DoFinish(s.id, outcome, s.finishedAt.value) in acts && EndsAs(outcome, s.state, None, s.error)
  }

  ghost predicate ProgressTold(acts: seq<Action>, s: Summary)
    requires s.progress.Some?
  {
    exists f :: DoProgress(s.id, s.progress.value.message, f) in acts && FractionTold(f, s.progress.value.fraction)
  }

  ghost predicate AllTold(acts: seq<Action>, es: seq<Entry>) {
    forall e | e in es :: Told(acts, e)
  }

  lemma ToldStill(acts: seq<Action>, more: seq<Action>, e: Entry)
    requires Told(acts, e) && forall x | x in acts :: x in more
    ensures Told(more, e)
  {
  }

  /** The entry that an action is about is told as the effect says, and the others as before. */
  lemma ShownTold(acts: seq<Action>, act: Action, h: Host, k: Host, e: Entry)
    requires AllTold(acts, h.reg.entries) && Shows(h, k, e) && Told(acts + [act], e)
    ensures AllTold(acts + [act], k.reg.entries)
  {
    hide Told;
    forall x | x in k.reg.entries ensures Told(acts + [act], x) {
      if x != e { ToldStill(acts, acts + [act], x); }
    }
  }

  lemma FewerTold(acts: seq<Action>, act: Action, es: seq<Entry>, fewer: seq<Entry>)
    requires AllTold(acts, es) && forall x | x in fewer :: x in es
    ensures AllTold(acts + [act], fewer)
  {
    hide Told;
    forall x | x in fewer ensures Told(acts + [act], x) { ToldStill(acts, acts + [act], x); }
  }

  lemma StartTold(acts: seq<Action>, a: Entry, t: nat)
    requires Told(acts, a)
    ensures Told(acts + [DoStart(a.summary.id, t)], Started(a, t))
  {
    ToldStill(acts, acts + [DoStart(a.summary.id, t)], a);
  }

  lemma FinishTold(acts: seq<Action>, a: Entry, outcome: Outcome, t: nat, e: Entry)
    requires Told(acts, a) && Open(a.summary)
    requires EndsAs(outcome, e.summary.state, a.summary.error, e.summary.error) && e.token == a.token
    requires var s := a.summary;
             e.summary == Summary(s.id, s.title, s.tab, e.summary.state, s.createdAt, s.startedAt, Some(t), s.progress,
                                  e.summary.error, s.notice)
    ensures Told(acts + [DoFinish(a.summary.id, outcome, t)], e)
  {
    var now := acts + [DoFinish(a.summary.id, outcome, t)];
    ToldStill(acts, now, a);
    assert now[|acts|] == DoFinish(e.summary.id, outcome, e.summary.finishedAt.value);
  }

  lemma ProgressIsTold(acts: seq<Action>, a: Entry, message: string, fraction: Option<real>, e: Entry)
    requires Told(acts, a) && e.token == a.token && e.summary.progress.Some?
    requires e.summary.progress.value.message == message
    requires FractionTold(fraction, e.summary.progress.value.fraction)
    requires var s := a.summary;
             e.summary == Summary(s.id, s.title, s.tab, s.state, s.createdAt, s.startedAt, s.finishedAt,
                                  e.summary.progress, s.error, s.notice)
    ensures Told(acts + [DoProgress(a.summary.id, message, fraction)], e)
  {
    var now := acts + [DoProgress(a.summary.id, message, fraction)];
    ToldStill(acts, now, a);
    assert now[|acts|] == DoProgress(e.summary.id, e.summary.progress.value.message, fraction);
  }

  lemma NoticeTold(acts: seq<Action>, a: Entry, message: string)
    requires Told(acts, a)
    ensures Told(acts + [DoNotice(a.summary.id, message)], Noticed(a, message))
  {
    ToldStill(acts, acts + [DoNotice(a.summary.id, message)], a);
  }

  lemma IsTold(acts: seq<Action>, es: seq<Entry>, a: Entry)
    requires AllTold(acts, es) && a in es
    ensures Told(acts, a)
  {
  }

  lemma WorkerTold(acts: seq<Action>, h: Host, act: Action, a: Entry)
    requires Inv(h) && AllTold(acts, h.reg.entries) && a in h.reg.entries
    requires (act.DoStart? || act.DoFinish? || act.DoProgress? || act.DoNotice?) && act.id == a.summary.id
    ensures AllTold(acts + [act], Step(h, act).reg.entries)
  {
    hide Inv, Step, Shows, AllTold, Told, Open, EndsAs;
    var k, s := Step(h, act), a.summary;
    IsTold(acts, h.reg.entries, a);
    if k == h { SameTold(acts, act, h.reg.entries); }
    match act
    case DoStart(id, t) =>
      StartEffect(h, a, t);
      StartTold(acts, a, t);
      if k != h { ShownTold(acts, act, h, k, Started(a, t)); }
    case DoFinish(id, outcome, t) =>
      var e := FinishEffect(h, a, outcome, t);
      if k != h {
        FinishTold(acts, a, outcome, t, e);
        ShownTold(acts, act, h, k, e);
      }
    case DoProgress(id, message, fraction) =>
      var e := ProgressEffect(h, a, message, fraction);
      if Open(s) { ProgressIsTold(acts, a, message, fraction, e); } else { StillTold(acts, act, a); }
      ShownTold(acts, act, h, k, e);
    case DoNotice(id, message) =>
      NoticeEffect(h, a, message);
      NoticeTold(acts, a, message);
      ShownTold(acts, act, h, k, Noticed(a, message));
  }

  lemma StillTold(acts: seq<Action>, act: Action, a: Entry)
    requires Told(acts, a)
    ensures Told(acts + [act], a)
  {
    ToldStill(acts, acts + [act], a);
  }

  lemma SameTold(acts: seq<Action>, act: Action, es: seq<Entry>)
    requires AllTold(acts, es)
    ensures AllTold(acts + [act], es)
  {
    FewerTold(acts, act, es, es);
  }

  lemma SubmitTold(acts: seq<Action>, h: Host, act: Action)
    requires Inv(h) && AllTold(acts, h.reg.entries) && act.DoSubmit?
    ensures AllTold(acts + [act], Step(h, act).reg.entries)
  {
    hide Inv, Shows, AllTold, Accepts, Submit;
    if act.id in h.workers || !Accepts(h.reg, act.title, act.owner) {
      SameTold(acts, act, h.reg.entries);
    } else {
      SubmitShows(h, act);
      var e := Fresh(act.id, act.title, act.owner, act.token, act.now);
      assert (acts + [act])[|acts|] == DoSubmit(act.id, act.title, act.owner, act.token, act.now);
      ShownTold(acts, act, h, Step(h, act), e);
    }
  }

  lemma CancelledTold(acts: seq<Action>, act: Action, a: Entry)
    requires Told(acts, a) && (act == DoCancel(a.summary.id) || act == DoCancelAll)
    ensures Told(acts + [act], CancelEntry(a))
  {
    ToldStill(acts, acts + [act], a);
  }

  lemma CancelTold(acts: seq<Action>, h: Host, id: nat)
    requires Inv(h) && AllTold(acts, h.reg.entries)
    ensures AllTold(acts + [DoCancel(id)], Step(h, DoCancel(id)).reg.entries)
  {
    hide Publish, Ordered, EntryOk, Told, CancelEntry, AllTold, OnePerTab;
    var k, act := Step(h, DoCancel(id)), DoCancel(id);
    if k == h {
      SameTold(acts, act, h.reg.entries);
    } else {
      var at := Find(h.reg.entries, id).value;
      var a := h.reg.entries[at];
      IsTold(acts, h.reg.entries, a);
      CancelledTold(acts, act, a);
      CancelledIs(a);
      ReplaceEffect(h.reg.(cancelled := h.reg.cancelled + {a.token}), h.reg.entries, at, CancelEntry(a));
      SameTold(acts, act, h.reg.entries);
      ReplacedTold(acts + [act], h.reg.entries, k.reg.entries, CancelEntry(a));
    }
  }

  lemma ReplacedTold(acts: seq<Action>, es: seq<Entry>, after: seq<Entry>, e: Entry)
    requires AllTold(acts, es) && Told(acts, e) && OthersStay(es, after, HasId(e.summary.id))
    requires forall x | x in after && x.summary.id == e.summary.id :: x == e
    ensures AllTold(acts, after)
  {
    hide Told;
  }

  lemma CancelAllTold(acts: seq<Action>, h: Host)
    requires Inv(h) && AllTold(acts, h.reg.entries)
    ensures AllTold(acts + [DoCancelAll], Step(h, DoCancelAll).reg.entries)
  {
    hide Publish, Ordered, EntryOk, OnePerTab, Told, CancelEntry, MapEntries, Unique;
    var es := MapEntries(h.reg.entries, AsCancelled());
    forall e ensures AsCancelled()(e).summary.id == e.summary.id { CancelledIs(e); }
    MappedEntries(h.reg.entries, AsCancelled());
    PublishKeeps(h.reg.(cancelled := h.reg.cancelled + OpenTokens(h.reg.entries)), es);
    forall x | x in es ensures Told(acts + [DoCancelAll], x) {
      var a :| a in h.reg.entries && x == AsCancelled()(a);
      CancelledIs(a);
      CancelledTold(acts, DoCancelAll, a);
    }
  }

  lemma RenamedTold(acts: seq<Action>, tab: nat, name: string, a: Entry)
    requires Told(acts, a)
    ensures Told(acts + [DoRenameTab(tab, name)], Renamed(tab, name)(a))
  {
    var act := DoRenameTab(tab, name);
    ToldStill(acts, acts + [act], a);
    assert (acts + [act])[|acts|] == act;
    var s := a.summary;
    if s.tab == Some(tab) {
      var title :| DoSubmit(s.id, title, s.tab, a.token, s.createdAt) in acts;
      assert DoSubmit(s.id, title, s.tab, a.token, s.createdAt) in acts + [act];
      assert TitleTold(acts + [act], Renamed(tab, name)(a).summary, title);
    }
  }

  lemma RenameTabTold(acts: seq<Action>, h: Host, tab: nat, name: string)
    requires Inv(h) && AllTold(acts, h.reg.entries)
    ensures AllTold(acts + [DoRenameTab(tab, name)], Step(h, DoRenameTab(tab, name)).reg.entries)
  {
    hide Inv, Step, Told, Renamed, OthersStay;
    RenameTabEffect(h, tab, name);
    forall x | x in Step(h, DoRenameTab(tab, name)).reg.entries ensures Told(acts + [DoRenameTab(tab, name)], x) {
      var a :| a in h.reg.entries && x == Renamed(tab, name)(a);
      RenamedTold(acts, tab, name, a);
    }
  }

  lemma StepTold(acts: seq<Action>, h: Host, act: Action)
    requires Inv(h) && AllTold(acts, h.reg.entries)
    ensures AllTold(acts + [act], Step(h, act).reg.entries)
  {
    hide Inv, Step, AllTold;
    match act
    case DoSubmit(id, title, tab, token, now) => SubmitTold(acts, h, act);
    case DoCancel(id) => CancelTold(acts, h, id);
    case DoCancelAll => CancelAllTold(acts, h);
    case DoRenameTab(tab, name) => RenameTabTold(acts, h, tab, name);
    case DoStart(id, now) => ByIdTold(acts, h, act);
    case DoProgress(id, message, fraction) => ByIdTold(acts, h, act);
    case DoNotice(id, message) => ByIdTold(acts, h, act);
    case DoFinish(id, outcome, now) => ByIdTold(acts, h, act);
    case _ => DropTold(acts, h, act);
  }

  lemma ByIdTold(acts: seq<Action>, h: Host, act: Action)
    requires Inv(h) && AllTold(acts, h.reg.entries)
    requires act.DoStart? || act.DoFinish? || act.DoProgress? || act.DoNotice?
    ensures AllTold(acts + [act], Step(h, act).reg.entries)
  {
    hide Inv, Step, AllTold;
    if a :| a in h.reg.entries && a.summary.id == act.id {
      WorkerTold(acts, h, act, a);
    } else {
      GoneStays(h, act.id, act);
      SameTold(acts, act, h.reg.entries);
    }
  }

  lemma DropTold(acts: seq<Action>, h: Host, act: Action)
    requires Inv(h) && AllTold(acts, h.reg.entries)
    requires act.DoDismiss? || act.DoPurge? || act.DoCancelToken? || act.DoClose?
    ensures AllTold(acts + [act], Step(h, act).reg.entries)
  {
    hide AllTold, Inv;
    match act {
      case DoDismiss(id) => DismissEffect(h, id);
      case DoPurge(tab) => PurgeEffect(h, tab);
      case DoClose => CloseEffect(h, []);
      case DoCancelToken(token) =>
    }
    FewerTold(acts, act, h.reg.entries, Step(h, act).reg.entries);
  }

  /**
   * Over every run, each shown entry tells what happened: its submission, its title or the tab's latest, its
   * start, its progress and its notice, and if it is at its end then a finishing action of its worker, at that
   * time, with the outcome of which it shows the state and the error.
   */
  lemma {:induction false} EntriesTell(acts: seq<Action>)
    ensures AllTold(acts, Run(START, acts).reg.entries)
  {
    hide Inv, Step;
    if acts == [] {
      assert Run(START, acts).reg.entries == [];
    } else {
      var before, act := acts[..|acts| - 1], acts[|acts| - 1];
      StartInv();
      RunInv(START, before);
      EntriesTell(before);
      StepTold(before, Run(START, before), act);
      assert before + [act] == acts;
    }
  }
}
