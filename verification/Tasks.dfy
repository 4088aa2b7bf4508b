/** The task registry: entries behind a lock, and the snapshot they are published as. */
module Tasks {
  import opened Names
  import opened TaskSpec

  class Tasks {
    var entries: seq<Entry>
    var revision: nat
    var tasks: seq<Summary>
    var cancelled: set<nat>
    var closed: bool

    ghost function State(): Registry
      reads this
    {
      Registry(entries, revision, tasks, cancelled, closed)
    }

    constructor ()
      ensures State() == Registry([], 0, [], {}, false)
    {
      entries, revision, tasks, cancelled, closed := [], 0, [], {}, false;
    }

    /** Sort, evict, and replace the published snapshot. */
    method Publish(es: seq<Entry>)
      modifies this`entries, this`revision, this`tasks
      ensures State() == TaskSpec.Publish(old(State()), es)
    {
      var sorted := SortEntries(es);
      entries := RetainEntries(sorted);
      revision := revision + 1;
      tasks := Summaries(entries);
    }

    method Update(id: nat, f: Summary -> Summary)
      modifies this`entries, this`revision, this`tasks
      ensures State() == TaskSpec.Update(old(State()), id, f)
    {
      var k := FindEntry(entries, id);
      if k.Some? {
        Publish(entries[k.value := entries[k.value].(summary := f(entries[k.value].summary))]);
      }
    }

    method Submit(id: nat, title: string, tab: Option<nat>, token: nat, now: nat) returns (accepted: bool)
      modifies this
      ensures accepted == Accepts(old(State()), title, tab)
      ensures State() == TaskSpec.Submit(old(State()), id, title, tab, token, now)
    {
      if IsBlank(title) { return false; }
      var busy := AnyBusy(entries, tab);
      if busy { return false; }
      Publish(entries + [Fresh(id, title, tab, token, now)]);
      return true;
    }

    method Cancel(id: nat) returns (found: bool)
      modifies this
      ensures found == Find(old(entries), id).Some?
      ensures State() == TaskSpec.Cancel(old(State()), id)
    {
      var k := FindEntry(entries, id);
      if k.None? { return false; }
      if !Done(entries[k.value]) {
        cancelled := cancelled + {entries[k.value].token};
        Publish(entries[k.value := CancelEntry(entries[k.value])]);
      }
      return true;
    }

    method Dismiss(id: nat) returns (dismissed: bool)
      modifies this
      ensures dismissed == !Active(old(State()), id)
      ensures State() == TaskSpec.Dismiss(old(State()), id)
    {
      var k := FindEntry(entries, id);
      if k.Some? && !Done(entries[k.value]) { return false; }
      var kept := DropEntries(entries, HasId(id));
      Publish(kept);
      return true;
    }

    method CancelAll()
      modifies this
      ensures State() == TaskSpec.CancelAll(old(State()))
    {
      var es, tokens := [], {};
      var i := 0;
      while i < |entries|
        invariant i <= |entries| && es == MapEntries(entries[..i], AsCancelled()) && tokens == OpenTokens(entries[..i])
      {
        assert entries[..i + 1] == entries[..i] + [entries[i]];
        if !Done(entries[i]) { tokens := tokens + {entries[i].token}; }
        es := es + [CancelEntry(entries[i])];
        i := i + 1;
      }
      assert entries[..i] == entries;
      cancelled := cancelled + tokens;
      Publish(es);
    }

    method Purge(tab: nat)
      modifies this
      ensures State() == TaskSpec.Purge(old(State()), tab)
    {
      var i := 0;
      while i < |entries|
        invariant i <= |entries| && State() == old(State()).(cancelled := cancelled)
        invariant cancelled == old(cancelled) + set e | e in entries[..i] && e.summary.tab == Some(tab) :: e.token
      {
        assert entries[..i + 1] == entries[..i] + [entries[i]];
        if entries[i].summary.tab == Some(tab) { cancelled := cancelled + {entries[i].token}; }
        i := i + 1;
      }
      assert entries[..i] == entries;
      var kept := DropEntries(entries, OfTab(tab));
      Publish(kept);
    }

    method RenameTab(tab: nat, name: string)
      modifies this
      ensures State() == TaskSpec.RenameTab(old(State()), tab, name)
    {
      var es, i := [], 0;
      while i < |entries|
        invariant i <= |entries| && es == MapEntries(entries[..i], Renamed(tab, name)) && State() == old(State())
      {
        assert entries[..i + 1] == entries[..i] + [entries[i]];
        var e := entries[i];
        if e.summary.tab == Some(tab) { e := e.(summary := e.summary.(title := name)); }
        es := es + [e];
        i := i + 1;
      }
      assert entries[..i] == entries;
      Publish(es);
    }

    method Close()
      modifies this
      ensures State() == TaskSpec.Close(old(State()))
    {
      closed := true;
      Publish([]);
    }
  }

  // ---------------------------------------------------------------- loops over the entries

  method FindEntry(es: seq<Entry>, id: nat) returns (k: Option<nat>)
    ensures k == Find(es, id)
  {
    var i := 0;
    while i < |es|
      invariant i <= |es| && Find(es, id) == match Find(es[i..], id) case Some(n) => Some(n + i) case None => None
    {
      assert es[i..][1..] == es[i + 1..];
      if es[i].summary.id == id { return Some(i); }
      i := i + 1;
    }
    return None;
  }

  method AnyBusy(es: seq<Entry>, tab: Option<nat>) returns (busy: bool)
    ensures busy == Busy(es, tab)
  {
    if tab.None? { return false; }
    var i := 0;
    while i < |es|
      invariant i <= |es| && forall e | e in es[..i] :: e.summary.tab != tab || Done(e)
    {
      if es[i].summary.tab == tab && !Done(es[i]) {
        assert es[i] in es;
        return true;
      }
      i := i + 1;
    }
    assert es[..i] == es;
    return false;
  }

  method DropEntries(es: seq<Entry>, drop: Entry -> bool) returns (r: seq<Entry>)
    ensures r == Without(es, drop)
  {
    r := [];
    var i := 0;
    while i < |es|
      invariant i <= |es| && r == Without(es[..i], drop)
    {
      var part := es[..i + 1];
      assert part[..|part| - 1] == es[..i] && part[|part| - 1] == es[i];
      if !drop(es[i]) { r := r + [es[i]]; }
      i := i + 1;
    }
    assert es[..i] == es;
  }

  // ---------------------------------------------------------------- sorting and eviction

  method SortEntries(es: seq<Entry>) returns (r: seq<Entry>)
    ensures r == Sort(es)
  {
    r := [];
    var i := 0;
    while i < |es|
      invariant i <= |es| && r == Sort(es[..i])
    {
      var part := es[..i + 1];
      assert part[..|part| - 1] == es[..i] && part[|part| - 1] == es[i];
      r := InsertEntry(r, es[i]);
      i := i + 1;
    }
    assert es[..i] == es;
  }

  /** From the end towards the first entry that precedes the new one. */
  method InsertEntry(es: seq<Entry>, e: Entry) returns (r: seq<Entry>)
    ensures r == Insert(es, e)
  {
    hide Precedes;
    var k := |es|;
    assert es[..k] == es;
    while k > 0 && !Precedes(es[k - 1], e)
      invariant 0 <= k <= |es| && Insert(es, e) == Insert(es[..k], e) + es[k..]
    {
      k := k - 1;
      assert es[..k + 1][..k] == es[..k] && [es[k]] + es[k + 1..] == es[k..];
    }
    assert Insert(es[..k], e) == es[..k] + [e];
    return es[..k] + [e] + es[k..];
  }

  method RetainEntries(es: seq<Entry>) returns (r: seq<Entry>)
    ensures r == Retain(es)
  {
    r := [];
    var finished, i := 0, 0;
    while i < |es|
      invariant i <= |es| && r == Retain(es[..i]) && finished == DoneCount(es[..i])
    {
      var part := es[..i + 1];
      assert part[..|part| - 1] == es[..i] && part[|part| - 1] == es[i];
      if Done(es[i]) { finished := finished + 1; }
      if finished <= KEEP || !Done(es[i]) { r := r + [es[i]]; }
      i := i + 1;
    }
    assert es[..i] == es;
  }
}
