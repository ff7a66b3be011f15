/** Attempts and sessions as the runtime changes them in place; every method computes the step of the same name. */
module AccessTable {
  import opened Outcomes
  import opened Configuration
  import opened AccessSessions

  lemma OutdatedSame(before: Configuration, s: State, t: State, key: Key, settings: SettingsReader)
    requires key in s.attempts && key in t.attempts && t.attempts[key] == s.attempts[key]
    requires t.cfg == s.cfg && t.epoch == s.epoch && t.sessions == s.sessions
    ensures Outdated(before, t, key, settings) == Outdated(before, s, key, settings)
  {
  }

  /** The outdated attempts but for those still to be looked at have been retired. */
  function Retired(before: Configuration, s: State, todo: set<Key>, settings: SettingsReader): State {
    s.(attempts := s.attempts - set k | k in s.attempts && k !in todo && Outdated(before, s, k, settings))
  }

  lemma NothingRetired(before: Configuration, s: State, settings: SettingsReader)
    ensures Retired(before, s, s.attempts.Keys, settings) == s
  {
    var t := Retired(before, s, s.attempts.Keys, settings);
    assert forall k :: k in s.attempts ==> k in t.attempts;
    assert t.attempts == s.attempts;
  }

  lemma RetiredNext(before: Configuration, s: State, todo: set<Key>, key: Key, settings: SettingsReader)
    requires key in todo && todo <= s.attempts.Keys
    ensures var t := Retired(before, s, todo, settings);
            && key in t.attempts
            && Retired(before, s, todo - {key}, settings) == if Outdated(before, t, key, settings) then Retire(t, key) else t
  {
    var t := Retired(before, s, todo, settings);
    OutdatedSame(before, s, t, key, settings);
    var gone := set k | k in s.attempts && k !in todo && Outdated(before, s, k, settings);
    var next := set k | k in s.attempts && k !in todo - {key} && Outdated(before, s, k, settings);
    assert next == gone + (if Outdated(before, s, key, settings) then {key} else {});
    assert s.attempts - next == if Outdated(before, s, key, settings) then s.attempts - gone - {key} else s.attempts - gone;
  }

  function Over(before: Configuration, s: State, todo: set<Key>): set<Key>
    requires OnPorts(before, {}, s.sessions.Keys) && OnPorts(s.cfg, {}, s.sessions.Keys)
  {
    set k | k in s.sessions && k !in todo && Displaced(before, s.cfg, k, s.sessions[k])
  }

  /** The displaced sessions but for those still to be looked at have ended, and the renewals of their grants with them. */
  function AfterEnding(before: Configuration, s: State, todo: set<Key>): State
    requires OnPorts(before, {}, s.sessions.Keys) && OnPorts(s.cfg, {}, s.sessions.Keys)
  {
    s.(sessions := s.sessions - Over(before, s, todo),
       attempts := s.attempts - set k | k in Over(before, s, todo) && Pending(s, k, s.sessions[k].id))
  }

  lemma NothingEnded(before: Configuration, s: State)
    requires OnPorts(before, {}, s.sessions.Keys) && OnPorts(s.cfg, {}, s.sessions.Keys)
    ensures AfterEnding(before, s, s.sessions.Keys) == s
  {
    assert Over(before, s, s.sessions.Keys) == {};
    assert s.sessions - {} == s.sessions && s.attempts - {} == s.attempts;
  }

  lemma EndedNext(before: Configuration, s: State, todo: set<Key>, key: Key)
    requires OnPorts(before, {}, s.sessions.Keys) && OnPorts(s.cfg, {}, s.sessions.Keys)
    requires key in todo && todo <= s.sessions.Keys
    ensures var t := AfterEnding(before, s, todo);
            && key in t.sessions && t.sessions[key] == s.sessions[key]
            && AfterEnding(before, s, todo - {key}) == if Displaced(before, s.cfg, key, s.sessions[key]) then End(t, key) else t
  {
    var over, next := Over(before, s, todo), Over(before, s, todo - {key});
    var displaced := Displaced(before, s.cfg, key, s.sessions[key]);
    assert next == over + (if displaced then {key} else {});
    var pending := set k | k in over && Pending(s, k, s.sessions[k].id);
    var more := set k | k in next && Pending(s, k, s.sessions[k].id);
    assert more == pending + (if displaced && Pending(s, key, s.sessions[key].id) then {key} else {});
    assert displaced ==> s.sessions - next == s.sessions - over - {key};
    assert more == pending + {key} ==> s.attempts - more == s.attempts - pending - {key};
  }

  lemma MinusTwice(m: map<Key, Attempt>, a: set<Key>, b: set<Key>, c: set<Key>)
    requires forall k :: k in m ==> (k in c <==> k in a || k in b)
    ensures m - a - b == m - c
  {
  }

  lemma BothSteps(before: Configuration, s: State, settings: SettingsReader)
    requires OnPorts(before, {}, s.sessions.Keys) && OnPorts(s.cfg, {}, s.sessions.Keys)
    ensures AfterEnding(before, Retired(before, s, {}, settings), {}) == Reconciled(before, s, settings)
  {
    var t := Retired(before, s, {}, settings);
    var outdated := set k | k in s.attempts && k !in {} && Outdated(before, s, k, settings);
    var pending := set k | k in Over(before, t, {}) && Pending(t, k, t.sessions[k].id);
    assert Over(before, t, {}) == Ended(before, s);
    assert t.attempts == s.attempts - outdated;
    forall k | k in s.attempts ensures k in Revoked(before, s, settings) <==> k in outdated || k in pending {
      assert k !in outdated ==> Pending(t, k, 0) == Pending(s, k, 0);
    }
    MinusTwice(s.attempts, outdated, pending, Revoked(before, s, settings));
  }

  class Table {
    var cfg: Configuration
    var epoch: nat
    var attempts: map<Key, Attempt>
    var sessions: map<Key, Session>
    var issued: nat

    function View(): State
      reads this
    {
      State(cfg, epoch, attempts, sessions, issued)
    }

    constructor (cfg: Configuration)
      ensures View() == State(cfg, 0, map[], map[], 1)
    {
      this.cfg, epoch, attempts, sessions, issued := cfg, 0, map[], map[], 1;
    }

    method Uid() returns (id: nat)
      modifies `issued
      ensures id == old(issued) && issued == old(issued) + 1
    {
      id, issued := issued, issued + 1;
    }

    /** `retire_authentication` */
    method RetireAttempt(key: Key)
      modifies `attempts
      ensures View() == Retire(old(View()), key)
    {
      attempts := attempts - {key};
    }

    /** `end_session` */
    method EndSession(key: Key)
      modifies `attempts, `sessions
      ensures View() == End(old(View()), key)
    {
      if key !in sessions {
        return;
      }
      var session := sessions[key];
      sessions := sessions - {key};
      if key in attempts && attempts[key].prior == Some(session.id) {
        RetireAttempt(key);
      }
    }

    /** The part of `begin_authentication` that decides */
    method Choose(key: Key, o: Opening, settings: SettingsReader) returns (c: Option<Choice>)
      ensures c == Chosen(View(), key, o, settings)
    {
      if key.port !in cfg.ports || key in attempts {
        return None;
      }
      var context := SubjectContext(cfg, key, settings);
      var owned := (o.automatic || o.renewal) && key in sessions && sessions[key].mab && context.None?;
      if owned {
        context := SessionContext(cfg, epoch, sessions, key, settings);
      }
      if cfg.ports[key.port].policy.authentication.hostMode != MultiAuth && Occupied(View(), key) {
        return None;
      }
      var mab := MethodOf(View(), key, o.mabTrigger || owned);
      return if context.None? || mab.None? || !o.identified then None else Some(Choice(context.value, mab.value, owned));
    }

    /** `begin_authentication` */
    method BeginAttempt(key: Key, o: Opening, settings: SettingsReader)
      modifies `attempts, `sessions, `issued
      ensures View() == Begin(old(View()), key, o, settings)
    {
      var c := Choose(key, o, settings);
      if c.None? {
        return;
      }
      if o.automatic && !o.budgeted {
        EndSession(key);
        RetireAttempt(key);
        return;
      }
      var prior := if key in sessions then Some(sessions[key]) else None;
      var id := Uid();
      var another := Uid();
      attempts := attempts[key := Attempt(id, if prior.Some? then prior.value.id else another, epoch, c.value.context, c.value.mab,
                                          if prior.Some? then Some(prior.value.id) else None,
                                          if prior.Some? then Some(prior.value.grant) else None, c.value.owned, o.automatic)];
    }

    /** The part of `observe` that concerns the session of the frame's own address */
    method ObserveFrame(key: Key)
      modifies `attempts, `sessions, `issued
      ensures View() == Observe(old(View()), key)
    {
      if key in sessions {
        var generation := Uid();
        sessions := sessions[key := sessions[key].(observation := generation)];
        if key in attempts && attempts[key].owned {
          RetireAttempt(key);
        }
      }
    }

    /** A changed grant of the action "radius-dynamic" */
    method AmendSession(key: Key, policy: Grant)
      modifies `attempts, `sessions, `issued
      ensures View() == Amend(old(View()), key, policy)
    {
      if key in sessions {
        RetireAttempt(key);
        var grant := Uid();
        sessions := sessions[key := sessions[key].(policy := policy, grant := grant)];
      }
    }

    /** The action "radius-result"; a refused command leaves a working copy that is not published. */
    method Answer(key: Key, id: nat, r: Reply, o: Opening, settings: SettingsReader) returns (accepted: bool)
      modifies `attempts, `sessions, `issued
      ensures accepted <==> Respond(old(View()), key, id, r, o, settings).Some?
      ensures accepted ==> View() == Respond(old(View()), key, id, r, o, settings).value
    {
      if !Current(View(), key, id, settings) || key.port !in cfg.ports {
        return true;
      }
      var a, p := attempts[key], cfg.ports[key.port];
      RetireAttempt(key);
      if r.Rejected? && !a.mab && p.policy.authentication.access == Dot1xMab && p.policy.authentication.fallbackReject {
        if !o.identified && (p.policy.authentication.hostMode == MultiAuth || !Occupied(View(), key)) {
          return false;
        }
        BeginAttempt(key, Opening(true, a.automatic, false, o.identified, o.budgeted), settings);
        return true;
      }
      var policy := if r.Accepted? then Authorized(cfg, p, r) else None;
      if policy.None? {
        EndSession(key);
        return true;
      }
      accepted := Take(key, a, policy.value);
    }

    method Take(key: Key, a: Attempt, policy: Grant) returns (accepted: bool)
      modifies `attempts, `sessions, `issued
      ensures accepted <==> Granted(old(View()), key, a, policy).Some?
      ensures accepted ==> View() == Granted(old(View()), key, a, policy).value
    {
      if key in sessions && SameAccess(sessions[key].policy, policy) {
        sessions := sessions[key := sessions[key].(policy := policy, mab := a.mab)];
        return true;
      }
      var id := a.sessionId;
      var replaced := key in sessions;
      EndSession(key);
      if |sessions| >= cfg.chassis.sourceLimit {
        return false;
      }
      var another := Uid();
      if replaced {
        id := another;
      }
      var grant := Uid();
      var observation := Uid();
      sessions := sessions[key := Session(id, a.mab, policy, grant, observation)];
      return true;
    }

    method RetireOutdated(before: Configuration, settings: SettingsReader)
      modifies `attempts
      ensures View() == Retired(before, old(View()), {}, settings)
    {
      ghost var s := View();
      var todo := attempts.Keys;
      NothingRetired(before, s, settings);
      while todo != {}
        invariant todo <= s.attempts.Keys && View() == Retired(before, s, todo, settings)
        decreases |todo|
      {
        var key :| key in todo;
        RetiredNext(before, s, todo, key, settings);
        todo := todo - {key};
        if Outdated(before, View(), key, settings) {
          RetireAttempt(key);
        }
      }
    }

    method EndDisplaced(before: Configuration)
      requires OnPorts(before, {}, sessions.Keys) && OnPorts(cfg, {}, sessions.Keys)
      modifies `attempts, `sessions
      ensures View() == AfterEnding(before, old(View()), {})
    {
      ghost var s := View();
      var todo := sessions.Keys;
      NothingEnded(before, s);
      while todo != {}
        invariant todo <= s.sessions.Keys && View() == AfterEnding(before, s, todo)
        decreases |todo|
      {
        var key :| key in todo;
        EndedNext(before, s, todo, key);
        todo := todo - {key};
        if Displaced(before, cfg, key, sessions[key]) {
          EndSession(key);
        }
      }
    }

    /** `reconcile_authentication` */
    method Reconcile(before: Configuration, settings: SettingsReader)
      requires OnPorts(before, {}, sessions.Keys) && OnPorts(cfg, {}, sessions.Keys)
      modifies `attempts, `sessions
      ensures View() == Reconciled(before, old(View()), settings)
    {
      ghost var s := View();
      RetireOutdated(before, settings);
      EndDisplaced(before);
      BothSteps(before, s, settings);
    }
  }
}
