/** Provider connections: metadata on disk, keys in a session table or in the system's secret store, and no transaction
    that spans them. */
module Connections {
  import opened Names

  datatype Provider = OpenAi | OpenRouter | Anthropic | Google | Custom | Apple

  datatype Mode = NoKey | SessionKey | RememberedKey | BrowserKey

  datatype Connection = Connection(
    revision: nat, name: string, provider: Provider, endpoint: Option<string>, mode: Mode, concurrency: Option<nat>)

  datatype CredentialUpdate = Keep | Session(key: string) | Remember(key: string) | Browser | Forget

  /** The kind of host: a configured one, one for sessions only, or one whose keys stay in the browser. */
  datatype Settings = Settings(persistent: bool, hasStore: bool, browserOwned: bool)

  predicate Possible(h: Settings) {
    h.hasStore ==> h.persistent && !h.browserOwned
  }

  datatype Config = Config(
    connections: map<nat, Connection>, sessions: map<nat, string>, secrets: map<nat, string>,
    disk: map<nat, Connection>)

  /** Memory agrees with disk, and a key is kept only where the connection's mode says it is. */
  ghost predicate Inv(h: Settings, s: Config) {
    && (if h.persistent then s.disk == s.connections else s.disk == map[])
    && (forall id | id in s.sessions :: id in s.connections && s.connections[id].mode.SessionKey?)
    && (forall id | id in s.secrets :: id in s.connections && s.connections[id].mode.RememberedKey?)
    && (forall id | id in s.connections ::
          && (s.connections[id].mode.RememberedKey? ==> h.hasStore)
          && (h.browserOwned ==> s.connections[id].mode.NoKey? || s.connections[id].mode.BrowserKey?)
          && (s.connections[id].mode.BrowserKey? ==> h.browserOwned))
  }

  /** The key that requests on a connection use. */
  function ApiKey(s: Config, id: nat): Option<string> {
    if id !in s.connections then None
    else match s.connections[id].mode
      case SessionKey => if id in s.sessions then Some(s.sessions[id]) else None
      case RememberedKey => if id in s.secrets then Some(s.secrets[id]) else None
      case _ => None
  }

  // ---------------------------------------------------------------- what each operation is for

  datatype Request =
    | Create(id: nat, revision: nat, name: string, provider: Provider, endpoint: Option<string>, endpointOk: bool,
      credential: CredentialUpdate)
    | Update(id: nat, revision: nat, name: string, credential: CredentialUpdate)
    | Concurrency(id: nat, limit: nat)
    | Delete(id: nat)

  /** Which calls outside fail: reading a secret, changing one, writing the metadata. */
  datatype Faults = Faults(read: bool, store: bool, write: bool)

  predicate ValidKey(key: string) {
    !IsBlank(key) && |key| <= 8192 && '\r' !in key && '\n' !in key && '\0' !in key
  }

  function TrimSlashes(s: string): string {
    if s != [] && s[|s| - 1] == '/' then TrimSlashes(s[..|s| - 1]) else s
  }

  function NewMode(mode: Mode, u: CredentialUpdate): Mode {
    match u
    case Keep => mode
    case Session(_) => SessionKey
    case Remember(_) => RememberedKey
    case Browser => BrowserKey
    case Forget => NoKey
  }

  predicate CredentialAllowed(h: Settings, u: CredentialUpdate) {
    match u
    case Session(key) => !h.browserOwned && ValidKey(key)
    case Remember(key) => !h.browserOwned && ValidKey(key) && h.hasStore
    case Browser => h.browserOwned
    case _ => true
  }

  predicate Allowed(h: Settings, s: Config, q: Request) {
    match q
    case Create(id, _, name, provider, _, endpointOk, u) =>
      !provider.Apple? && !IsBlank(name) && endpointOk && CredentialAllowed(h, u)
    case Update(id, _, name, u) => id in s.connections && !IsBlank(name) && CredentialAllowed(h, u)
    case Concurrency(id, limit) => id in s.connections && 1 <= limit <= 32
    case Delete(id) => id in s.connections
  }

  predicate Remembers(s: Config, id: nat) {
    id in s.connections && s.connections[id].mode.RememberedKey?
  }

  /** One of the calls that the operation needs fails. */
  predicate Faulty(h: Settings, s: Config, q: Request, f: Faults) {
    || (h.persistent && f.write)
    || match q
       case Create(_, _, _, _, _, _, u) => u.Remember? && f.store
       case Update(id, _, _, u) =>
         || (Remembers(s, id) && !u.Keep? && f.read)
         || ((u.Remember? || (Remembers(s, id) && (u.Session? || u.Forget?))) && f.store)
       case Concurrency(_, _) => false
       case Delete(id) => Remembers(s, id) && (f.read || f.store)
  }

  function WithKey(s: Config, id: nat, u: CredentialUpdate): Config {
    match u
    case Keep => s
    case Session(key) => s.(sessions := s.sessions[id := key], secrets := s.secrets - {id})
    case Remember(key) => s.(sessions := s.sessions - {id}, secrets := s.secrets[id := key])
    case _ => s.(sessions := s.sessions - {id}, secrets := s.secrets - {id})
  }

  function WithRows(h: Settings, s: Config, rows: map<nat, Connection>): Config {
    s.(connections := rows, disk := if h.persistent then rows else s.disk)
  }

  /** The effect of an operation that succeeds. */
  function After(h: Settings, s: Config, q: Request): Config
    requires Allowed(h, s, q)
  {
    match q
    case Create(id, _, _, _, _, _, u) => WithRows(h, WithKey(s, id, u), s.connections[id := RowAfter(s, q)])
    case Update(id, _, _, u) => WithRows(h, WithKey(s, id, u), s.connections[id := RowAfter(s, q)])
    case Concurrency(id, _) => WithRows(h, s, s.connections[id := RowAfter(s, q)])
    case Delete(id) => WithRows(h, WithKey(s, id, Forget), s.connections - {id})
  }

  /** An operation that is refused or fails changes nothing. */
  function Step(h: Settings, s: Config, q: Request, f: Faults): Config {
    if Allowed(h, s, q) && !Faulty(h, s, q, f) then After(h, s, q) else s
  }

  predicate NewId(s: Config, q: Request) {
    q.Create? ==> q.id !in s.connections
  }

  /** The mode a connection has, or starts from. */
  function ModeOf(s: Config, id: nat): Mode {
    if id in s.connections then s.connections[id].mode else NoKey
  }

  function KeyAfter(k: Option<string>, u: CredentialUpdate): Option<string> {
    match u
    case Keep => k
    case Session(key) => Some(key)
    case Remember(key) => Some(key)
    case _ => None
  }

  lemma SetRowInv(h: Settings, s: Config, id: nat, row: Connection, u: CredentialUpdate)
    requires Possible(h) && Inv(h, s) && CredentialAllowed(h, u) && row.mode == NewMode(ModeOf(s, id), u)
    ensures Inv(h, WithRows(h, WithKey(s, id, u), s.connections[id := row]))
  {
    hide ValidKey;
  }

  lemma SetRowKeys(h: Settings, s: Config, id: nat, row: Connection, u: CredentialUpdate)
    requires Possible(h) && Inv(h, s) && CredentialAllowed(h, u) && row.mode == NewMode(ModeOf(s, id), u)
    ensures var t := WithRows(h, WithKey(s, id, u), s.connections[id := row]);
            && ApiKey(t, id) == KeyAfter(ApiKey(s, id), u)
            && forall other | other != id :: ApiKey(t, other) == ApiKey(s, other)
  {
    hide ValidKey;
  }

  lemma AfterInv(h: Settings, s: Config, q: Request)
    requires Possible(h) && Inv(h, s) && Allowed(h, s, q) && NewId(s, q)
    ensures Inv(h, After(h, s, q))
  {
    hide Trim, TrimSlashes, ValidKey, WithKey, WithRows, Inv;
    if q.Delete? {
      DeleteInv(h, s, q.id);
    } else {
      var u := if q.Concurrency? then Keep else q.credential;
      SetRowInv(h, s, q.id, RowAfter(s, q), u);
      KeepKeys(s, q.id);
    }
  }

  /** The row that an operation other than a deletion writes. */
  function RowAfter(s: Config, q: Request): Connection
    requires q.Create? || (q.id in s.connections && !q.Delete?)
  {
    match q
    case Create(id, revision, name, provider, endpoint, _, u) =>
      var place := match endpoint case Some(e) => Some(TrimSlashes(e)) case None => None;
      Connection(revision, Trim(name), provider, place, NewMode(NoKey, u), None)
    case Update(id, revision, name, u) =>
      s.connections[id].(revision := revision, name := Trim(name), mode := NewMode(s.connections[id].mode, u))
    case Concurrency(id, limit) => s.connections[id].(concurrency := Some(limit))
  }

  lemma DeleteInv(h: Settings, s: Config, id: nat)
    requires Possible(h) && Inv(h, s)
    ensures var t := WithRows(h, WithKey(s, id, Forget), s.connections - {id});
            && Inv(h, t) && id !in t.connections && id !in t.disk && id !in t.sessions && id !in t.secrets
            && forall other | other != id :: ApiKey(t, other) == ApiKey(s, other)
  {
  }

  lemma RowsOf(h: Settings, s: Config, rows: map<nat, Connection>)
    ensures WithRows(h, s, rows).connections == rows
  {
  }

  lemma KeepKeys(s: Config, id: nat)
    ensures WithKey(s, id, Keep) == s
  {
  }

  /** An operation gives its own connection the key asked for, and leaves the keys of all others alone. */
  lemma AfterKeys(h: Settings, s: Config, q: Request, other: nat)
    requires Possible(h) && Inv(h, s) && Allowed(h, s, q) && NewId(s, q)
    ensures other != q.id ==> ApiKey(After(h, s, q), other) == ApiKey(s, other)
    ensures other != q.id && other in s.connections ==>
              other in After(h, s, q).connections && After(h, s, q).connections[other] == s.connections[other]
    ensures (q.Create? || q.Update?) ==> ApiKey(After(h, s, q), q.id) == KeyAfter(ApiKey(s, q.id), q.credential)
    ensures q.Concurrency? ==> ApiKey(After(h, s, q), q.id) == ApiKey(s, q.id)
    ensures q.Delete? ==> var t := After(h, s, q);
                          q.id !in t.connections && q.id !in t.disk && q.id !in t.sessions && q.id !in t.secrets
  {
    hide Trim, TrimSlashes, ValidKey, WithKey, WithRows, Inv, ApiKey;
    if q.Delete? {
      DeleteInv(h, s, q.id);
      RowsOf(h, WithKey(s, q.id, Forget), s.connections - {q.id});
    } else {
      RowsOf(h, WithKey(s, q.id, if q.Concurrency? then Keep else q.credential), s.connections[q.id := RowAfter(s, q)]);
      SetRowKeys(h, s, q.id, RowAfter(s, q), if q.Concurrency? then Keep else q.credential);
      KeepKeys(s, q.id);
    }
  }

  // ---------------------------------------------------------------- runs

  /** Operations, and restarts of the host, which lose what only memory held. */
  datatype Event = Called(request: Request, faults: Faults) | Restarted

  function Happen(h: Settings, s: Config, e: Event): Config {
    match e
    case Called(q, f) => if NewId(s, q) then Step(h, s, q, f) else s
    case Restarted => Config(s.disk, map[], s.secrets, s.disk)
  }

  function Run(h: Settings, s: Config, es: seq<Event>): Config {
    if es == [] then s else Happen(h, Run(h, s, es[..|es| - 1]), es[|es| - 1])
  }

  const EMPTY := Config(map[], map[], map[], map[])

  lemma HappenInv(h: Settings, s: Config, e: Event)
    requires Possible(h) && Inv(h, s)
    ensures Inv(h, Happen(h, s, e))
  {
    hide After, Allowed, Faulty;
    match e
    case Called(q, f) => if Allowed(h, s, q) && NewId(s, q) { AfterInv(h, s, q); }
    case Restarted =>
  }

  /**
   * Whatever fails and whenever the host restarts: disk and memory agree, a session key exists only in
   * session mode and a stored secret only in remembered mode.
   */
  lemma {:induction false} RunInv(h: Settings, es: seq<Event>)
    requires Possible(h)
    ensures Inv(h, Run(h, EMPTY, es))
    decreases |es|
  {
    hide Happen;
    if es != [] {
      RunInv(h, es[..|es| - 1]);
      HappenInv(h, Run(h, EMPTY, es[..|es| - 1]), es[|es| - 1]);
    }
  }

  /** The events that can change the key of a connection. */
  predicate Concerns(e: Event, id: nat) {
    e.Restarted? || (e.request.id == id && !e.request.Concurrency?)
  }

  /** A connection's key is what it was until an operation on that connection or a restart. */
  lemma {:induction false} KeyStays(h: Settings, before: seq<Event>, es: seq<Event>, id: nat)
    requires Possible(h) && forall e | e in es :: !Concerns(e, id)
    ensures ApiKey(Run(h, Run(h, EMPTY, before), es), id) == ApiKey(Run(h, EMPTY, before), id)
    decreases |es|
  {
    hide After, Allowed, Faulty, ApiKey, Inv;
    var s := Run(h, EMPTY, before);
    if es != [] {
      var init, last := es[..|es| - 1], es[|es| - 1];
      assert es == init + [last] && last in es;
      KeyStays(h, before, init, id);
      var m := Run(h, s, init);
      RunJoin(h, before, init);
      RunInv(h, before + init);
      if Allowed(h, m, last.request) && NewId(m, last.request) { AfterKeys(h, m, last.request, id); }
    }
  }

  lemma {:induction false} RunJoin(h: Settings, before: seq<Event>, es: seq<Event>)
    ensures Run(h, Run(h, EMPTY, before), es) == Run(h, EMPTY, before + es)
    decreases |es|
  {
    hide Happen;
    if es == [] {
      assert before + es == before;
    } else {
      RunJoin(h, before, es[..|es| - 1]);
      assert (before + es)[..|before + es| - 1] == before + es[..|es| - 1];
    }
  }

  /** A restart keeps exactly the remembered keys. */
  lemma RestartKeys(h: Settings, s: Config, id: nat)
    requires Possible(h) && Inv(h, s)
    ensures ApiKey(Happen(h, s, Restarted), id) == if Remembers(s, id) then ApiKey(s, id) else None
  {
  }

  // ---------------------------------------------------------------- the host

  class Host {
    const settings: Settings
    var connections: map<nat, Connection>
    var sessions: map<nat, string>
    var secrets: map<nat, string>
    var disk: map<nat, Connection>

    ghost function State(): Config
      reads this
    {
      Config(connections, sessions, secrets, disk)
    }

    ghost predicate Valid()
      reads this
    {
      Possible(settings) && Inv(settings, State())
    }

    constructor (settings: Settings)
      requires Possible(settings)
      ensures Valid() && this.settings == settings && State() == EMPTY
    {
      this.settings := settings;
      connections, sessions, secrets, disk := map[], map[], map[], map[];
    }

    /** Write the metadata; without a path there is nothing to write. */
    method Persist(rows: map<nat, Connection>, fails: bool) returns (ok: bool)
      modifies this`disk
      ensures ok <==> !(settings.persistent && fails)
      ensures disk == if settings.persistent && ok then rows else old(disk)
    {
      if !settings.persistent { return true; }
      if fails { return false; }
      disk := rows;
      return true;
    }

    method Credential(id: nat, row: Connection, fails: bool) returns (ok: bool, key: Option<string>)
      requires id in connections && connections[id] == row
      ensures ok <==> !(row.mode.RememberedKey? && fails)
      ensures ok ==> key == ApiKey(State(), id)
    {
      match row.mode
      case SessionKey => return true, if id in sessions then Some(sessions[id]) else None;
      case RememberedKey =>
        if fails { return false, None; }
        return true, if id in secrets then Some(secrets[id]) else None;
      case _ => return true, None;
    }

    /** Change where the key of a row is kept, before the metadata says so. */
    method ChangeCredential(id: nat, row: Connection, u: CredentialUpdate, fails: bool) returns (ok: bool, mode: Mode)
      requires row.mode.RememberedKey? ==> settings.hasStore
      modifies this`sessions, this`secrets
      ensures ok <==>
                && CredentialAllowed(settings, u)
                && !((u.Remember? || (row.mode.RememberedKey? && (u.Session? || u.Forget?))) && fails)
      ensures ok ==> mode == NewMode(row.mode, u)
      ensures !ok ==> State() == old(State())
      ensures ok ==> Shifted(old(State()), State(), id, row.mode, u)
    {
      mode := row.mode;
      if settings.browserOwned && (u.Session? || u.Remember?) { return false, mode; }
      match u {
      case Keep =>
      case Browser =>
        if !settings.browserOwned { return false, mode; }
        mode := BrowserKey;
      case Remember(key) =>
        if !ValidKey(key) || !settings.hasStore || fails { return false, mode; }
        secrets := secrets[id := key];
        sessions := sessions - {id};
        mode := RememberedKey;
      case Session(key) =>
        if !ValidKey(key) { return false, mode; }
        if row.mode.RememberedKey? {
          if fails { return false, mode; }
          secrets := secrets - {id};
        }
        sessions := sessions[id := key];
        mode := SessionKey;
      case Forget =>
        if row.mode.RememberedKey? {
          if fails { return false, mode; }
          secrets := secrets - {id};
        }
        sessions := sessions - {id};
        mode := NoKey;
      }
      return true, mode;
    }

    /** Put the key back where it was. */
    method RestoreCredential(id: nat, from: Mode, to: Mode, key: Option<string>)
      modifies this`sessions, this`secrets
      ensures secrets == if from.RememberedKey? && key.Some? then old(secrets)[id := key.value]
                         else if from.RememberedKey? || to.RememberedKey? then old(secrets) - {id} else old(secrets)
      ensures sessions == if from.SessionKey? && key.Some? then old(sessions)[id := key.value] else old(sessions) - {id}
    {
      if from.RememberedKey? {
        match key
        case Some(k) => secrets := secrets[id := k];
        case None => secrets := secrets - {id};
      } else if to.RememberedKey? {
        secrets := secrets - {id};
      }
      sessions := sessions - {id};
      if from.SessionKey? && key.Some? { sessions := sessions[id := key.value]; }
    }

    method Create(q: Request, f: Faults) returns (ok: bool)
      requires Valid() && q.Create? && NewId(State(), q)
      modifies this
      ensures Valid()
      ensures ok <==> Allowed(settings, old(State()), q) && !Faulty(settings, old(State()), q, f)
      ensures State() == Step(settings, old(State()), q, f)
    {
      hide Inv, Trim, TrimSlashes, ValidKey;
      if q.provider.Apple? || IsBlank(q.name) || !q.endpointOk { return false; }
      var place := match q.endpoint case Some(e) => Some(TrimSlashes(e)) case None => None;
      var row := Connection(q.revision, Trim(q.name), q.provider, place, NoKey, None);
      var changed, mode := ChangeCredential(q.id, row, q.credential, f.store);
      if !changed { return false; }
      row := row.(mode := mode);
      FreshKeys(settings, old(State()), State(), q.id, q.credential);
      var next := connections[q.id := row];
      var saved := Persist(next, f.write);
      if !saved {
        sessions := sessions - {q.id};
        if row.mode.RememberedKey? { secrets := secrets - {q.id}; }
        return false;
      }
      connections := next;
      AfterInv(settings, old(State()), q);
      return true;
    }

    method Update(q: Request, f: Faults) returns (ok: bool)
      requires Valid() && q.Update?
      modifies this
      ensures Valid()
      ensures ok <==> Allowed(settings, old(State()), q) && !Faulty(settings, old(State()), q, f)
      ensures State() == Step(settings, old(State()), q, f)
    {
      hide Inv, Trim, ValidKey;
      if IsBlank(q.name) || q.id !in connections { return false; }
      var original := connections[q.id];
      if original.mode.RememberedKey? { StoreForRemembered(settings, State(), q.id); }
      var previous: Option<string> := None;
      var changing := !q.credential.Keep?;
      if changing {
        var known, key := Credential(q.id, original, f.read);
        if !known { return false; }
        previous := key;
      }
      var changed, mode := ChangeCredential(q.id, original, q.credential, f.store);
      if !changed { return false; }
      var row := original.(name := Trim(q.name), revision := q.revision, mode := mode);
      ghost var middle := State();
      var next := connections[q.id := row];
      var saved := Persist(next, f.write);
      if !saved {
        if changing {
          RestoreCredential(q.id, original.mode, row.mode, previous);
          Restored(settings, old(State()), middle, State(), q.id, q.credential);
        }
        return false;
      }
      connections := next;
      ShiftedKeys(settings, old(State()), middle, q.id, q.credential);
      AfterInv(settings, old(State()), q);
      return true;
    }

    method SetConcurrency(q: Request, f: Faults) returns (ok: bool)
      requires Valid() && q.Concurrency?
      modifies this
      ensures Valid()
      ensures ok <==> Allowed(settings, old(State()), q) && !Faulty(settings, old(State()), q, f)
      ensures State() == Step(settings, old(State()), q, f)
    {
      hide Inv;
      if q.id !in connections || !(1 <= q.limit <= 32) { return false; }
      var next := connections[q.id := connections[q.id].(concurrency := Some(q.limit))];
      var saved := Persist(next, f.write);
      if !saved { return false; }
      connections := next;
      AfterInv(settings, old(State()), q);
      return true;
    }

    method Delete(q: Request, f: Faults) returns (ok: bool)
      requires Valid() && q.Delete?
      modifies this
      ensures Valid()
      ensures ok <==> Allowed(settings, old(State()), q) && !Faulty(settings, old(State()), q, f)
      ensures State() == Step(settings, old(State()), q, f)
    {
      hide Inv;
      if q.id !in connections { return false; }
      var row := connections[q.id];
      var known, previous := Credential(q.id, row, f.read);
      if !known { return false; }
      if row.mode.RememberedKey? {
        if f.store { return false; }
        secrets := secrets - {q.id};
      }
      ghost var middle := State();
      DeletedKeys(settings, old(State()), middle, q.id);
      var next := connections - {q.id};
      var saved := Persist(next, f.write);
      if !saved {
        RestoreCredential(q.id, row.mode, row.mode, previous);
        RestoredRow(settings, old(State()), State(), q.id);
        return false;
      }
      connections := next;
      sessions := sessions - {q.id};
      AfterInv(settings, old(State()), q);
      return true;
    }
  }

  // ---------------------------------------------------------------- between the steps

  /** What changing the credential has done to the keys. */
  ghost predicate Shifted(s: Config, m: Config, id: nat, from: Mode, u: CredentialUpdate) {
    && m.connections == s.connections && m.disk == s.disk
    && m.sessions == (match u
                      case Session(key) => s.sessions[id := key]
                      case Remember(_) => s.sessions - {id}
                      case Forget => s.sessions - {id}
                      case _ => s.sessions)
    && m.secrets == (match u
                     case Remember(key) => s.secrets[id := key]
                     case Session(_) => if from.RememberedKey? then s.secrets - {id} else s.secrets
                     case Forget => if from.RememberedKey? then s.secrets - {id} else s.secrets
                     case _ => s.secrets)
  }

  lemma StoreForRemembered(h: Settings, s: Config, id: nat)
    requires Inv(h, s) && id in s.connections && s.connections[id].mode.RememberedKey?
    ensures h.hasStore
  {
  }

  lemma ShiftedKeys(h: Settings, s: Config, m: Config, id: nat, u: CredentialUpdate)
    requires Possible(h) && Inv(h, s) && id in s.connections && CredentialAllowed(h, u)
               && Shifted(s, m, id, s.connections[id].mode, u)
    ensures m == WithKey(s, id, u)
  {
  }

  lemma FreshKeys(h: Settings, s: Config, m: Config, id: nat, u: CredentialUpdate)
    requires Possible(h) && Inv(h, s) && id !in s.connections && CredentialAllowed(h, u) && Shifted(s, m, id, NoKey, u)
    ensures m == WithKey(s, id, u)
    ensures m.sessions - {id} == s.sessions
    ensures (if u.Remember? then m.secrets - {id} else m.secrets) == s.secrets
  {
  }

  lemma Restored(h: Settings, s: Config, m: Config, r: Config, id: nat, u: CredentialUpdate)
    requires Possible(h) && Inv(h, s) && id in s.connections && Shifted(s, m, id, s.connections[id].mode, u) && !u.Keep?
    requires r.connections == s.connections && r.disk == s.disk
    requires var from, key := s.connections[id].mode, ApiKey(s, id);
             && r.secrets == (if from.RememberedKey? && key.Some? then m.secrets[id := key.value]
                              else if from.RememberedKey? || NewMode(from, u).RememberedKey? then m.secrets - {id}
                                else m.secrets)
             && r.sessions == (if from.SessionKey? && key.Some? then m.sessions[id := key.value] else m.sessions - {id})
    ensures r == s
  {
    assert r.sessions == s.sessions;
    assert r.secrets == s.secrets;
  }

  lemma DeletedKeys(h: Settings, s: Config, m: Config, id: nat)
    requires Inv(h, s) && id in s.connections && m.connections == s.connections && m.disk == s.disk
               && m.sessions == s.sessions
    requires m.secrets == if s.connections[id].mode.RememberedKey? then s.secrets - {id} else s.secrets
    ensures m.secrets == s.secrets - {id}
  {
  }

  lemma RestoredRow(h: Settings, s: Config, r: Config, id: nat)
    requires Inv(h, s) && id in s.connections && r.connections == s.connections && r.disk == s.disk
    requires var from, key := s.connections[id].mode, ApiKey(s, id);
             && r.secrets ==
               (if from.RememberedKey? && key.Some? then (s.secrets - {id})[id := key.value] else s.secrets - {id})
             && r.sessions == (if from.SessionKey? && key.Some? then s.sessions[id := key.value] else s.sessions - {id})
    ensures r == s
  {
    assert r.sessions == s.sessions;
    assert r.secrets == s.secrets;
  }
}
