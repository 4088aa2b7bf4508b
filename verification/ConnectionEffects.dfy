/** What users get from the provider connections, with the fields written out: refusals, rows and keys. */
module ConnectionEffects {
  import opened Names
  import opened Connections

  // ---------------------------------------------------------------- refusals

  predicate KeyUnusable(key: string) {
    || (forall c | c in key :: IsWhite(c))
    || |key| > 8192
    || exists c :: c in key && (c == '\r' || c == '\n' || c == '\0')
  }

  predicate CredentialRefused(h: Settings, u: CredentialUpdate) {
    || (u == Browser && !h.browserOwned)
    || ((u.Session? || u.Remember?) && (h.browserOwned || KeyUnusable(u.key)))
    || (u.Remember? && !h.hasStore)
  }

  /** The requests that are refused outright. */
  predicate Refused(h: Settings, s: Config, q: Request) {
    || (!q.Create? && q.id !in s.connections)
    || ((q.Create? || q.Update?) && ((forall c | c in q.name :: IsWhite(c)) || CredentialRefused(h, q.credential)))
    || (q.Create? && (q.provider == Apple || !q.endpointOk))
    || (q.Concurrency? && (q.limit == 0 || q.limit > 32))
  }

  predicate HadSecret(s: Config, id: nat) {
    id in s.connections && s.connections[id].mode == RememberedKey
  }

  /** A remembered key is read before it is changed, in case it has to be put back. */
  predicate ReadsSecret(s: Config, q: Request) {
    HadSecret(s, q.id) && (q.Delete? || (q.Update? && q.credential != Keep))
  }

  /** A key goes into the secret store, or one leaves it. */
  predicate ChangesSecret(s: Config, q: Request) {
    || ((q.Create? || q.Update?) && q.credential.Remember?)
    || (HadSecret(s, q.id) && (q.Delete? || (q.Update? && (q.credential.Session? || q.credential == Forget))))
  }

  predicate Fails(h: Settings, s: Config, q: Request, f: Faults) {
    || Refused(h, s, q)
    || (f.read && ReadsSecret(s, q))
    || (f.store && ChangesSecret(s, q))
    || (f.write && h.persistent)
  }

  lemma FailsExactly(h: Settings, s: Config, q: Request, f: Faults)
    requires NewId(s, q)
    ensures Allowed(h, s, q) && !Faulty(h, s, q, f) <==> !Fails(h, s, q, f)
  {
    hide IsWhite;
  }

  // ---------------------------------------------------------------- rows

  /** The text without the slashes at its end. */
  predicate SlashesCut(s: string, t: string) {
    && (t == "" || t[|t| - 1] != '/')
    && |t| <= |s| && s[..|t|] == t && forall i | |t| <= i < |s| :: s[i] == '/'
  }

  lemma {:induction false} TrimSlashesExactly(s: string)
    ensures SlashesCut(s, TrimSlashes(s))
  {
    if s != [] && s[|s| - 1] == '/' {
      var t := TrimSlashes(s[..|s| - 1]);
      TrimSlashesExactly(s[..|s| - 1]);
      assert s[..|t|] == s[..|s| - 1][..|t|];
    } else {
      assert s[..|s|] == s;
    }
  }

  /** The text without the white space at its ends. */
  ghost predicate Trimmed(s: string, t: string) {
    Bare(t) && exists l, r :: IsBlank(l) && IsBlank(r) && s == l + t + r
  }

  /** The row has these values; an endpoint is stored without the slashes at its end. */
  ghost predicate RowIs(row: Connection, revision: nat, name: string, provider: Provider, endpoint: Option<string>,
                        mode: Mode, concurrency: Option<nat>)
  {
    && row.revision == revision && Trimmed(name, row.name) && row.provider == provider
    && (endpoint.Some? <==> row.endpoint.Some?)
    && (endpoint.Some? ==> SlashesCut(endpoint.value, row.endpoint.value))
    && row.mode == mode && row.concurrency == concurrency
  }

  /** The mode that a credential asks for. */
  predicate ModeIs(before: Mode, u: CredentialUpdate, after: Mode) {
    && (u == Keep ==> after == before)
    && (u.Session? <==> u != Keep && after == SessionKey)
    && (u.Remember? <==> u != Keep && after == RememberedKey)
    && (u == Browser <==> u != Keep && after == BrowserKey)
    && (u == Forget <==> u != Keep && after == NoKey)
  }

  /** The row that a request leaves. */
  ghost predicate RowWritten(s: Config, t: Config, q: Request)
    requires q.Create? || q.Delete? || q.id in s.connections
  {
    if q.Delete? then q.id !in t.connections
    else
      && q.id in t.connections
      && match q
         case Create(_, revision, name, provider, endpoint, _, u) =>
           && RowIs(t.connections[q.id], revision, name, provider, endpoint, t.connections[q.id].mode, None)
           && ModeIs(NoKey, u, t.connections[q.id].mode)
         case Update(_, revision, name, u) =>
           var was, row := s.connections[q.id], t.connections[q.id];
           && row == Connection(revision, row.name, was.provider, was.endpoint, row.mode, was.concurrency)
           && Trimmed(name, row.name) && ModeIs(was.mode, u, row.mode)
         case Concurrency(_, limit) =>
           var was := s.connections[q.id];
           t.connections[q.id]
           == Connection(was.revision, was.name, was.provider, was.endpoint, was.mode, Some(limit))
  }

  /** Where the keys are afterwards: the one given is kept in one place only, and without one nothing is kept. */
  predicate KeysWritten(s: Config, t: Config, q: Request) {
    if q.Concurrency? || ((q.Create? || q.Update?) && q.credential == Keep)
    then t.sessions == s.sessions && t.secrets == s.secrets
    else
      var session := (q.Create? || q.Update?) && q.credential.Session?;
      var secret := (q.Create? || q.Update?) && q.credential.Remember?;
      && (q.id in t.sessions <==> session) && (session ==> t.sessions[q.id] == q.credential.key)
      && (q.id in t.secrets <==> secret) && (secret ==> t.secrets[q.id] == q.credential.key)
  }

  /** Nothing that belongs to another connection is touched. */
  predicate OthersUntouched(s: Config, t: Config, id: nat) {
    && t.connections - {id} == s.connections - {id} && t.sessions - {id} == s.sessions - {id}
    && t.secrets - {id} == s.secrets - {id}
  }

  lemma RowAfterExactly(h: Settings, s: Config, q: Request)
    requires Allowed(h, s, q) && NewId(s, q)
    ensures RowWritten(s, After(h, s, q), q)
  {
    hide TrimSlashes, Trim, IsWhite, ValidKey, IsBlank;
    if q.Create? || q.Update? {
      TrimExactly(q.name, Trim(q.name));
      assert Trimmed(q.name, Trim(q.name));
    }
    if q.Create? && q.endpoint.Some? { TrimSlashesExactly(q.endpoint.value); }
  }

  /** The keys after a credential is changed, or removed. */
  lemma KeyPlaces(s: Config, id: nat, u: CredentialUpdate)
    ensures var t := WithKey(s, id, u);
            && t.sessions - {id} == s.sessions - {id} && t.secrets - {id} == s.secrets - {id}
            && if u == Keep then t == s
               else
                 && (id in t.sessions <==> u.Session?) && (u.Session? ==> t.sessions[id] == u.key)
                 && (id in t.secrets <==> u.Remember?) && (u.Remember? ==> t.secrets[id] == u.key)
  {
  }

  lemma RowsPlaced(h: Settings, s: Config, id: nat, rows: map<nat, Connection>)
    requires rows - {id} == s.connections - {id}
    ensures var t := WithRows(h, s, rows);
            t.sessions == s.sessions && t.secrets == s.secrets && t.connections - {id} == s.connections - {id}
  {
  }

  lemma RowsKept(s: Config, id: nat, u: CredentialUpdate)
    ensures WithKey(s, id, u).connections == s.connections
  {
  }

  lemma KeysAfterExactly(h: Settings, s: Config, q: Request)
    requires Allowed(h, s, q)
    ensures KeysWritten(s, After(h, s, q), q) && OthersUntouched(s, After(h, s, q), q.id)
  {
    hide RowAfter, WithRows, WithKey, IsBlank, ValidKey;
    var u := if q.Delete? then Forget else if q.Concurrency? then Keep else q.credential;
    KeyPlaces(s, q.id, u);
    RowsKept(s, q.id, u);
    var t := WithKey(s, q.id, u);
    if q.Delete? {
      RowsPlaced(h, t, q.id, s.connections - {q.id});
    } else {
      RowsPlaced(h, t, q.id, s.connections[q.id := RowAfter(s, q)]);
    }
  }

  /**
   * A request is carried out exactly if it is not refused and no call outside that it needs fails; then its own
   * row and key are as it asks, memory and disk alike, and everything else is untouched.  Otherwise nothing
   * changes at all.
   */
  lemma StepExactly(h: Settings, s: Config, q: Request, f: Faults)
    requires Possible(h) && Inv(h, s) && NewId(s, q)
    ensures var t := Step(h, s, q, f);
            if Fails(h, s, q, f) then t == s
            else
              && RowWritten(s, t, q) && KeysWritten(s, t, q) && OthersUntouched(s, t, q.id)
              && t.disk == if h.persistent then t.connections else map[]
  {
    hide Allowed, Faulty, Fails, RowWritten, KeysWritten, OthersUntouched, After;
    FailsExactly(h, s, q, f);
    if !Fails(h, s, q, f) {
      RowAfterExactly(h, s, q);
      KeysAfterExactly(h, s, q);
      AfterInv(h, s, q);
    }
  }

  /** A restart keeps the rows of a host with a disk and the stored secrets, and nothing else. */
  lemma RestartExactly(h: Settings, s: Config)
    requires Possible(h) && Inv(h, s)
    ensures var t := Happen(h, s, Restarted);
            && t.connections == (if h.persistent then s.connections else map[]) && t.sessions == map[]
            && t.secrets == s.secrets && t.disk == s.disk
  {
  }
}
