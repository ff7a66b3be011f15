/** What holds of attempts and sessions in every published state, and what an accepted answer therefore rests on. */
module AccessRuns {
  import opened Outcomes
  import opened Configuration
  import opened AccessSessions
  import S = Simulation

  ghost predicate Sub<V(!new)>(m: map<Key, V>, n: map<Key, V>) {
    forall k :: k in m ==> k in n && m[k] == n[k]
  }

  // ---------------------------------------------------------------------------------------------
  // What holds inside a command
  // ---------------------------------------------------------------------------------------------

  ghost predicate Priors(attempts: map<Key, Attempt>, sessions: map<Key, Session>) {
    forall k :: k in attempts ==> SamePrior(sessions, k, attempts[k])
  }

  ghost predicate Numbered(attempts: map<Key, Attempt>, issued: nat) {
    forall k :: k in attempts ==> attempts[k].id < issued
  }

  function AccessOf(cfg: Configuration, port: Id): Authentication
    requires port in cfg.ports
  {
    cfg.ports[port].policy.authentication
  }

  ghost predicate AutoSessions(before: Configuration, sessions: set<Key>) {
    forall k :: k in sessions ==> k.port in before.ports && AccessOf(before, k.port).control == Auto
  }

  /** Reconciliation against `before` will not remove the key for a change of its port's access settings. */
  ghost predicate Standing(before: Configuration, cfg: Configuration, attempts: map<Key, Attempt>, sessions: set<Key>, k: Key)
    requires k.port in cfg.ports
  {
    || (k in attempts && attempts[k].context.authentication == AccessOf(cfg, k.port))
    || (k in sessions && k.port in before.ports && AccessOf(before, k.port) == AccessOf(cfg, k.port))
  }

  /** On a port that is not in multi-auth mode at most one MAC address is in good standing. */
  ghost predicate Exclusive(before: Configuration, cfg: Configuration, attempts: map<Key, Attempt>, sessions: set<Key>) {
    forall j: Key, k: Key | j.port == k.port && j.port in cfg.ports && AccessOf(cfg, j.port).hostMode != MultiAuth
                            && Standing(before, cfg, attempts, sessions, j) && Standing(before, cfg, attempts, sessions, k) :: j == k
  }

  ghost predicate Inside(before: Configuration, s: State) {
    && OnPorts(s.cfg, s.attempts.Keys, s.sessions.Keys) && AutoSessions(before, s.sessions.Keys)
    && Priors(s.attempts, s.sessions) && Numbered(s.attempts, s.issued)
    && Exclusive(before, s.cfg, s.attempts, s.sessions.Keys)
  }

  lemma InsideShrinks(before: Configuration, s: State, t: State)
    requires Inside(before, s) && t.cfg == s.cfg && Sub(t.attempts, s.attempts) && t.sessions.Keys <= s.sessions.Keys
    requires Priors(t.attempts, t.sessions) && s.issued <= t.issued
    ensures Inside(before, t)
  {
    forall k: Key | k.port in s.cfg.ports && Standing(before, t.cfg, t.attempts, t.sessions.Keys, k)
      ensures Standing(before, s.cfg, s.attempts, s.sessions.Keys, k)
    {
    }
  }

  lemma EndShape(s: State, key: Key)
    requires Priors(s.attempts, s.sessions)
    ensures var t := End(s, key);
            && t.cfg == s.cfg && t.epoch == s.epoch && t.issued == s.issued
            && Sub(t.attempts, s.attempts) && t.sessions == s.sessions - {key} && Priors(t.attempts, t.sessions)
  {
    assert key !in s.sessions ==> s.sessions - {key} == s.sessions;
  }

  lemma RetireKeeps(before: Configuration, s: State, key: Key)
    requires Inside(before, s)
    ensures Inside(before, Retire(s, key))
  {
    InsideShrinks(before, s, Retire(s, key));
  }

  lemma EndKeeps(before: Configuration, s: State, key: Key)
    requires Inside(before, s)
    ensures Inside(before, End(s, key))
  {
    EndShape(s, key);
    InsideShrinks(before, s, End(s, key));
  }

  lemma ObserveKeeps(before: Configuration, s: State, key: Key)
    requires Inside(before, s)
    ensures Inside(before, Observe(s, key))
  {
    var t := Observe(s, key);
    assert Priors(t.attempts, t.sessions);
    InsideShrinks(before, s, t);
  }

  lemma AmendKeeps(before: Configuration, s: State, key: Key, policy: Grant)
    requires Inside(before, s)
    ensures Inside(before, Amend(s, key, policy))
  {
    var t := Amend(s, key, policy);
    assert Priors(t.attempts, t.sessions);
    InsideShrinks(before, s, t);
  }

  /** A new attempt is captured under the present settings, and only where no other address is. */
  lemma AddedKeeps(before: Configuration, s: State, key: Key, a: Attempt)
    requires Inside(before, s) && key.port in s.cfg.ports && SamePrior(s.sessions, key, a) && a.id == s.issued
    requires AccessOf(s.cfg, key.port).hostMode == MultiAuth || !Occupied(s, key)
    ensures Inside(before, s.(attempts := s.attempts[key := a], issued := s.issued + 2))
  {
    var attempts := s.attempts[key := a];
    forall j: Key, k: Key | j.port == k.port && j.port in s.cfg.ports && AccessOf(s.cfg, j.port).hostMode != MultiAuth &&
        Standing(before, s.cfg, attempts, s.sessions.Keys, j) && Standing(before, s.cfg, attempts, s.sessions.Keys, k)
      ensures j == k
    {
      if j.port != key.port {
        assert Standing(before, s.cfg, s.attempts, s.sessions.Keys, j) && Standing(before, s.cfg, s.attempts, s.sessions.Keys, k);
      }
    }
  }

  lemma BeginKeeps(before: Configuration, s: State, key: Key, o: Opening, settings: SettingsReader)
    requires Inside(before, s)
    ensures Inside(before, Begin(s, key, o, settings))
  {
    var t := Begin(s, key, o, settings);
    if key in t.attempts && key !in s.attempts {
      AddedKeeps(before, s, key, t.attempts[key]);
    } else if t != s {
      EndKeeps(before, s, key);
      RetireKeeps(before, End(s, key), key);
    }
  }

  lemma MoveKeeps(before: Configuration, s: State, m: Move, settings: SettingsReader)
    requires Inside(before, s)
    ensures Inside(before, Moved(s, m, settings))
  {
    match m
    case Retiring(key) => RetireKeeps(before, s, key);
    case Ending(key) => EndKeeps(before, s, key);
    case Beginning(key, opening) => BeginKeeps(before, s, key, opening, settings);
    case Observing(key) => ObserveKeeps(before, s, key);
    case Amending(key, policy) => AmendKeeps(before, s, key, policy);
  }

  lemma {:induction false} MovesKeep(before: Configuration, s: State, moves: seq<Move>, settings: SettingsReader)
    requires Inside(before, s)
    ensures Inside(before, AllMoved(s, moves, settings))
  {
    if moves != [] {
      MovesKeep(before, s, moves[..|moves| - 1], settings);
      MoveKeeps(before, AllMoved(s, moves[..|moves| - 1], settings), moves[|moves| - 1], settings);
    }
  }

  // ---------------------------------------------------------------------------------------------
  // Attempts come from before or are new
  // ---------------------------------------------------------------------------------------------

  /** An attempt whose identifier was already issued is the one that was there. */
  ghost predicate Continues(s: State, t: State) {
    && s.issued <= t.issued
    && forall k :: k in t.attempts && t.attempts[k].id < s.issued ==> k in s.attempts && s.attempts[k] == t.attempts[k]
  }

  lemma ContinuesOn(s: State, t: State, u: State)
    requires Continues(s, t) && Continues(t, u)
    ensures Continues(s, u)
  {
  }

  lemma EndContinues(s: State, key: Key)
    ensures Continues(s, End(s, key)) && End(s, key).cfg == s.cfg && End(s, key).epoch == s.epoch
    ensures End(s, key).sessions.Keys <= s.sessions.Keys
  {
  }

  ghost predicate Extends(s: State, t: State) {
    Continues(s, t) && t.cfg == s.cfg && t.epoch == s.epoch && t.sessions.Keys <= s.sessions.Keys
  }

  lemma BeginExtends(s: State, key: Key, opening: Opening, settings: SettingsReader)
    ensures Extends(s, Moved(s, Beginning(key, opening), settings))
  {
    EndContinues(s, key);
  }

  lemma AmendExtends(s: State, key: Key, policy: Grant, settings: SettingsReader)
    ensures Extends(s, Moved(s, Amending(key, policy), settings))
  {
  }

  lemma MoveContinues(s: State, m: Move, settings: SettingsReader)
    ensures Extends(s, Moved(s, m, settings))
  {
    match m
    case Retiring(key) =>
    case Ending(key) => EndContinues(s, key);
    case Beginning(key, opening) => BeginExtends(s, key, opening, settings);
    case Observing(key) =>
    case Amending(key, policy) => AmendExtends(s, key, policy, settings);
  }

  lemma {:induction false} MovesContinue(s: State, moves: seq<Move>, settings: SettingsReader)
    ensures var t := AllMoved(s, moves, settings);
            Continues(s, t) && t.cfg == s.cfg && t.epoch == s.epoch && t.sessions.Keys <= s.sessions.Keys
  {
    if moves != [] {
      var before := AllMoved(s, moves[..|moves| - 1], settings);
      MovesContinue(s, moves[..|moves| - 1], settings);
      MoveContinues(before, moves[|moves| - 1], settings);
      ContinuesOn(s, before, AllMoved(s, moves, settings));
    }
  }

  // ---------------------------------------------------------------------------------------------
  // Captured access settings
  // ---------------------------------------------------------------------------------------------

  ghost predicate SameSettings(cfg: Configuration, attempts: map<Key, Attempt>) {
    forall k :: k in attempts ==> k.port in cfg.ports && attempts[k].context.authentication == AccessOf(cfg, k.port)
  }

  lemma ContextSettings(s: State, key: Key, owned: bool, settings: SettingsReader)
    requires ContextOf(s, key, owned, settings).Some?
    ensures Automatic(s.cfg, key.port) && key.port in s.cfg.ports
    ensures ContextOf(s, key, owned, settings).value.authentication == AccessOf(s.cfg, key.port)
  {
  }

  lemma BeginSameSettings(s: State, key: Key, o: Opening, settings: SettingsReader)
    requires SameSettings(s.cfg, s.attempts)
    ensures SameSettings(s.cfg, Begin(s, key, o, settings).attempts)
  {
    var t := Begin(s, key, o, settings);
    if key in t.attempts && key !in s.attempts {
      ContextSettings(s, key, t.attempts[key].owned, settings);
    }
  }

  lemma MoveSameSettings(s: State, m: Move, settings: SettingsReader)
    requires SameSettings(s.cfg, s.attempts)
    ensures SameSettings(s.cfg, Moved(s, m, settings).attempts)
  {
    match m
    case Retiring(key) =>
    case Ending(key) =>
    case Beginning(key, opening) => BeginSameSettings(s, key, opening, settings);
    case Observing(key) =>
    case Amending(key, policy) =>
  }

  lemma {:induction false} MovesSameSettings(s: State, moves: seq<Move>, settings: SettingsReader)
    requires SameSettings(s.cfg, s.attempts)
    ensures SameSettings(s.cfg, AllMoved(s, moves, settings).attempts)
  {
    if moves != [] {
      var before := AllMoved(s, moves[..|moves| - 1], settings);
      MovesSameSettings(s, moves[..|moves| - 1], settings);
      MovesContinue(s, moves[..|moves| - 1], settings);
      MoveSameSettings(before, moves[|moves| - 1], settings);
    }
  }

  /** Editing the configuration keeps the invariant: where access settings change, nothing stays in good standing. */
  lemma EditKeeps(s: State, cfg: Configuration)
    requires Inside(s.cfg, s) && SameSettings(s.cfg, s.attempts) && OnPorts(cfg, s.attempts.Keys, s.sessions.Keys)
    ensures Inside(s.cfg, s.(cfg := cfg))
  {
    forall j: Key, k: Key | j.port == k.port && j.port in cfg.ports && AccessOf(cfg, j.port).hostMode != MultiAuth
                            && Standing(s.cfg, cfg, s.attempts, s.sessions.Keys, j) && Standing(s.cfg, cfg, s.attempts, s.sessions.Keys, k)
      ensures j == k
    {
      assert j.port in s.cfg.ports && AccessOf(s.cfg, j.port) == AccessOf(cfg, j.port);
      assert Standing(s.cfg, s.cfg, s.attempts, s.sessions.Keys, j) && Standing(s.cfg, s.cfg, s.attempts, s.sessions.Keys, k);
    }
  }

  // ---------------------------------------------------------------------------------------------
  // Published states
  // ---------------------------------------------------------------------------------------------

  ghost predicate AllCurrent(s: State, settings: SettingsReader) {
    forall k :: k in s.attempts ==> Current(s, k, s.attempts[k].id, settings)
  }

  /** On a port that is not in multi-auth mode all attempts and sessions share one MAC address. */
  ghost predicate OneMac(cfg: Configuration, keys: set<Key>) {
    forall j, k :: j in keys && k in keys && j.port == k.port && j.port in cfg.ports && AccessOf(cfg, j.port).hostMode != MultiAuth ==> j == k
  }

  /** The port is up and in automatic control, and the session's VLAN exists and is not forbidden there. */
  ghost predicate Seated(cfg: Configuration, k: Key, session: Session) {
    && k.port in cfg.ports && Automatic(cfg, k.port)
    && Vid(cfg, k, session.policy) in cfg.vlans && Vid(cfg, k, session.policy) !in cfg.ports[k.port].policy.forbidden
  }

  ghost predicate AllSeated(cfg: Configuration, sessions: map<Key, Session>) {
    forall k :: k in sessions ==> Seated(cfg, k, sessions[k])
  }

  ghost predicate NativesExist(cfg: Configuration) {
    forall p :: p in cfg.ports ==> cfg.ports[p].policy.pvid in cfg.vlans
  }

  lemma ValidNativesExist(cfg: Configuration)
    requires Valid(cfg)
    ensures NativesExist(cfg)
  {
  }

  ghost predicate Published(s: State, settings: SettingsReader) {
    && Inside(s.cfg, s) && AllCurrent(s, settings)
    && OneMac(s.cfg, s.attempts.Keys + s.sessions.Keys) && AllSeated(s.cfg, s.sessions)
  }

  ghost predicate Reconcilable(before: Configuration, s: State) {
    OnPorts(before, {}, s.sessions.Keys) && OnPorts(s.cfg, {}, s.sessions.Keys)
  }

  lemma ReconciledShape(before: Configuration, s: State, settings: SettingsReader)
    requires Inside(before, s)
    ensures Reconcilable(before, s)
    ensures var t := Reconciled(before, s, settings);
            && t.cfg == s.cfg && t.epoch == s.epoch && t.issued == s.issued
            && Sub(t.attempts, s.attempts) && Sub(t.sessions, s.sessions) && Continues(s, t)
            && (forall k :: k in t.attempts ==> !Outdated(before, s, k, settings))
            && (forall k :: k in t.sessions ==> !Displaced(before, s.cfg, k, s.sessions[k]))
            && (forall k :: k in t.attempts && k in s.sessions ==> k in t.sessions)
  {
    var t := Reconciled(before, s, settings);
    forall k | k in t.attempts && k in s.sessions ensures k in t.sessions {
      assert SamePrior(s.sessions, k, s.attempts[k]);
      assert k !in Revoked(before, s, settings);
    }
  }

  lemma ReconciledCurrent(before: Configuration, s: State, settings: SettingsReader)
    requires Inside(before, s) && Reconcilable(before, s)
    ensures AllCurrent(Reconciled(before, s, settings), settings)
  {
    ReconciledShape(before, s, settings);
    var t := Reconciled(before, s, settings);
    forall k | k in t.attempts ensures Current(t, k, t.attempts[k].id, settings) {
      assert SamePrior(s.sessions, k, s.attempts[k]);
      assert k in t.sessions <==> k in s.sessions;
    }
  }

  lemma CurrentSettings(s: State, settings: SettingsReader)
    requires AllCurrent(s, settings)
    ensures SameSettings(s.cfg, s.attempts) && Priors(s.attempts, s.sessions)
    ensures forall k :: k in s.attempts ==> k.port in s.cfg.ports && AccessOf(s.cfg, k.port).control == Auto
  {
    forall k | k in s.attempts
      ensures k.port in s.cfg.ports && s.attempts[k].context.authentication == AccessOf(s.cfg, k.port)
      ensures AccessOf(s.cfg, k.port).control == Auto && SamePrior(s.sessions, k, s.attempts[k])
    {
      assert Current(s, k, s.attempts[k].id, settings);
      ContextSettings(s, k, s.attempts[k].owned, settings);
    }
  }

  lemma ReconciledSeated(before: Configuration, s: State, settings: SettingsReader)
    requires Inside(before, s) && Reconcilable(before, s) && NativesExist(s.cfg)
    ensures AllSeated(s.cfg, Reconciled(before, s, settings).sessions)
    ensures forall k :: k in Reconciled(before, s, settings).sessions ==> AccessOf(before, k.port) == AccessOf(s.cfg, k.port)
  {
    ReconciledShape(before, s, settings);
    var t := Reconciled(before, s, settings);
    forall k | k in t.sessions ensures Seated(s.cfg, k, t.sessions[k]) && AccessOf(before, k.port) == AccessOf(s.cfg, k.port) {
      assert !Displaced(before, s.cfg, k, s.sessions[k]);
    }
  }

  lemma ReconciledExclusive(before: Configuration, s: State, settings: SettingsReader)
    requires Inside(before, s) && Reconcilable(before, s) && NativesExist(s.cfg)
    ensures var t := Reconciled(before, s, settings); OneMac(s.cfg, t.attempts.Keys + t.sessions.Keys)
  {
    ReconciledShape(before, s, settings);
    ReconciledCurrent(before, s, settings);
    ReconciledSeated(before, s, settings);
    var t := Reconciled(before, s, settings);
    CurrentSettings(t, settings);
    forall k | k in t.attempts || k in t.sessions
      ensures k.port in s.cfg.ports && Standing(before, s.cfg, s.attempts, s.sessions.Keys, k)
    {
    }
  }

  lemma OneMacInside(s: State)
    requires OnPorts(s.cfg, s.attempts.Keys, s.sessions.Keys) && AutoSessions(s.cfg, s.sessions.Keys)
    requires Priors(s.attempts, s.sessions) && Numbered(s.attempts, s.issued) && OneMac(s.cfg, s.attempts.Keys + s.sessions.Keys)
    ensures Inside(s.cfg, s)
  {
  }

  /** Whatever a command did, reconciliation restores what is published. */
  lemma ReconciledPublished(before: Configuration, s: State, settings: SettingsReader)
    requires Inside(before, s) && Reconcilable(before, s) && NativesExist(s.cfg)
    ensures Published(Reconciled(before, s, settings), settings)
  {
    ReconciledShape(before, s, settings);
    ReconciledCurrent(before, s, settings);
    ReconciledSeated(before, s, settings);
    ReconciledExclusive(before, s, settings);
    CurrentSettings(Reconciled(before, s, settings), settings);
    OneMacInside(Reconciled(before, s, settings));
  }
}
