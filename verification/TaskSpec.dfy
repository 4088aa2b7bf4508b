/** The task registry as a value: what each operation does to the entries and to the published snapshot. */
module TaskSpec {
  import opened Names

  datatype TaskState = Queued | Running | Cancelling | Succeeded | Failed | Cancelled

  predicate Finished(s: TaskState) {
    s.Succeeded? || s.Failed? || s.Cancelled?
  }

  datatype Progress = Progress(message: string, fraction: Option<real>)

  datatype Summary = Summary(
    id: nat, title: string, tab: Option<nat>, state: TaskState,
    createdAt: nat, startedAt: Option<nat>, finishedAt: Option<nat>,
    progress: Option<Progress>, error: Option<string>, notice: Option<string>)

  /** A summary and the cancellation token of its operation. */
  datatype Entry = Entry(summary: Summary, token: nat)

  /** Entries, the published snapshot and the tokens cancelled so far. */
  datatype Registry = Registry(entries: seq<Entry>, revision: nat, tasks: seq<Summary>, cancelled: set<nat>,
    closed: bool)

  const KEEP: nat := 100

  predicate Done(e: Entry) {
    Finished(e.summary.state)
  }

  // ---------------------------------------------------------------- publication

  function Group(s: TaskState): nat {
    if s.Succeeded? then 2 else if s.Failed? || s.Cancelled? then 1 else 0
  }

  function Stamp(s: Summary): nat {
    match s.finishedAt case Some(t) => t case None => s.createdAt
  }

  /** Unfinished first, then failures, then successes; newest first within each. */
  predicate Precedes(a: Entry, b: Entry) {
    var g, h := Group(a.summary.state), Group(b.summary.state);
    g < h || (g == h && Stamp(a.summary) >= Stamp(b.summary))
  }

  /** Insert behind every entry that precedes it, so that equal entries keep their order. */
  function Insert(es: seq<Entry>, e: Entry): (r: seq<Entry>)
    ensures |r| == |es| + 1
  {
    if es == [] || Precedes(es[|es| - 1], e) then es + [e]
    else Insert(es[..|es| - 1], e) + [es[|es| - 1]]
  }

  function Sort(es: seq<Entry>): (r: seq<Entry>)
    ensures |r| == |es|
  {
    if es == [] then [] else Insert(Sort(es[..|es| - 1]), es[|es| - 1])
  }

  /** How many finished entries there are. */
  function DoneCount(es: seq<Entry>): nat {
    if es == [] then 0 else DoneCount(es[..|es| - 1]) + if Done(es[|es| - 1]) then 1 else 0
  }

  /** All unfinished entries and the first hundred finished ones. */
  function Retain(es: seq<Entry>): (r: seq<Entry>)
    ensures |r| <= |es|
  {
    if es == [] then []
    else
      var rest, e := es[..|es| - 1], es[|es| - 1];
      if Done(e) && DoneCount(rest) >= KEEP then Retain(rest) else Retain(rest) + [e]
  }

  function Summaries(es: seq<Entry>): (r: seq<Summary>)
    ensures |r| == |es|
  {
    seq(|es|, i requires 0 <= i < |es| => es[i].summary)
  }

  function Publish(r: Registry, es: seq<Entry>): Registry {
    var kept := Retain(Sort(es));
    r.(entries := kept, revision := r.revision + 1, tasks := Summaries(kept))
  }

  // ---------------------------------------------------------------- operations

  function Find(es: seq<Entry>, id: nat): (r: Option<nat>)
    ensures r.Some? ==> r.value < |es| && es[r.value].summary.id == id
    ensures r.None? ==> forall e | e in es :: e.summary.id != id
  {
    if es == [] then None
    else if es[0].summary.id == id then Some(0)
    else match Find(es[1..], id)
      case Some(k) => Some(k + 1)
      case None => None
  }

  /** Replace the summary of the entry with this id, and publish; an unknown id changes nothing. */
  function Update(r: Registry, id: nat, f: Summary -> Summary): Registry {
    match Find(r.entries, id)
    case Some(k) => Publish(r, r.entries[k := r.entries[k].(summary := f(r.entries[k].summary))])
    case None => r
  }

  function InUnit(f: Option<real>): Option<real> {
    if f.Some? && 0.0 <= f.value <= 1.0 then f else None
  }

  function SetProgress(message: string, fraction: Option<real>): Summary -> Summary {
    (s: Summary) => if Finished(s.state) then s else s.(progress := Some(Progress(message, InUnit(fraction))))
  }

  function SetNotice(message: string): Summary -> Summary {
    (s: Summary) => s.(notice := Some(message))
  }

  function SetStarted(now: nat): Summary -> Summary {
    (s: Summary) => s.(state := if s.state.Queued? then Running else s.state, startedAt := Some(now))
  }

  datatype Outcome = Success | Interrupted | Failure(error: string)

  function SetFinished(now: nat, outcome: Outcome): Summary -> Summary {
    (s: Summary) => match outcome
      case Success => s.(finishedAt := Some(now), state := Succeeded)
      case Interrupted => s.(finishedAt := Some(now), state := Cancelled)
      case Failure(error) => s.(finishedAt := Some(now), state := Failed, error := Some(error))
  }

  predicate Busy(es: seq<Entry>, tab: Option<nat>) {
    tab.Some? && exists e | e in es :: e.summary.tab == tab && !Done(e)
  }

  predicate Accepts(r: Registry, title: string, tab: Option<nat>) {
    !IsBlank(title) && !Busy(r.entries, tab)
  }

  function Fresh(id: nat, title: string, tab: Option<nat>, token: nat, now: nat): Entry {
    Entry(Summary(id, title, tab, Queued, now, None, None, None, None, None), token)
  }

  function Submit(r: Registry, id: nat, title: string, tab: Option<nat>, token: nat, now: nat): Registry {
    if Accepts(r, title, tab) then Publish(r, r.entries + [Fresh(id, title, tab, token, now)]) else r
  }

  function CancelEntry(e: Entry): Entry {
    if Done(e) then e else e.(summary := e.summary.(state := Cancelling))
  }

  function AsCancelled(): Entry -> Entry {
    (e: Entry) => CancelEntry(e)
  }

  function Cancel(r: Registry, id: nat): Registry {
    match Find(r.entries, id)
    case None => r
    case Some(k) =>
      if Done(r.entries[k]) then r
      else Publish(r.(cancelled := r.cancelled + {r.entries[k].token}), r.entries[k := CancelEntry(r.entries[k])])
  }

  function MapEntries(es: seq<Entry>, f: Entry -> Entry): (r: seq<Entry>)
    ensures |r| == |es|
  {
    seq(|es|, i requires 0 <= i < |es| => f(es[i]))
  }

  function OpenTokens(es: seq<Entry>): set<nat> {
    set e | e in es && !Done(e) :: e.token
  }

  function CancelAll(r: Registry): Registry {
    Publish(r.(cancelled := r.cancelled + OpenTokens(r.entries)), MapEntries(r.entries, AsCancelled()))
  }

  function Without(es: seq<Entry>, drop: Entry -> bool): (r: seq<Entry>)
    ensures forall e :: e in r <==> e in es && !drop(e)
  {
    if es == [] then []
    else
      assert es == es[..|es| - 1] + [es[|es| - 1]];
      var rest := Without(es[..|es| - 1], drop);
      if drop(es[|es| - 1]) then rest else rest + [es[|es| - 1]]
  }

  function HasId(id: nat): Entry -> bool {
    (e: Entry) => e.summary.id == id
  }

  function OfTab(tab: nat): Entry -> bool {
    (e: Entry) => e.summary.tab == Some(tab)
  }

  predicate Active(r: Registry, id: nat) {
    Find(r.entries, id).Some? && !Done(r.entries[Find(r.entries, id).value])
  }

  function Dismiss(r: Registry, id: nat): Registry {
    if Active(r, id) then r else Publish(r, Without(r.entries, HasId(id)))
  }

  function Purge(r: Registry, tab: nat): Registry {
    Publish(r.(cancelled := r.cancelled + set e | e in r.entries && e.summary.tab == Some(tab) :: e.token),
            Without(r.entries, OfTab(tab)))
  }

  function Renamed(tab: nat, name: string): Entry -> Entry {
    (e: Entry) => if e.summary.tab == Some(tab) then e.(summary := e.summary.(title := name)) else e
  }

  function RenameTab(r: Registry, tab: nat, name: string): Registry {
    Publish(r, MapEntries(r.entries, Renamed(tab, name)))
  }

  function Close(r: Registry): Registry {
    Publish(r.(closed := true), [])
  }
}
