/** What every step on attempts and sessions leaves, said of the state before and after it. */
module AccessAnswers {
  import opened Outcomes
  import opened Configuration
  import opened AccessSessions
  import opened AccessRuns
  import opened AccessLaws
  import opened Runs
  import S = Simulation

  // ---------------------------------------------------------------------------------------------
  // Identifiers
  // ---------------------------------------------------------------------------------------------

  /** Every identifier in use was handed out, and only a renewal by MAB rests on its session alone. */
  ghost predicate Minted(s: State) {
    && (forall k :: k in s.sessions ==> s.sessions[k].id < s.issued && s.sessions[k].grant < s.issued)
    && (forall k :: k in s.attempts ==> s.attempts[k].id < s.issued && s.attempts[k].sessionId < s.issued)
    && (forall k :: k in s.attempts && s.attempts[k].owned ==> s.attempts[k].mab)
  }

  lemma EndMinted(s: State, key: Key)
    requires Minted(s)
    ensures Minted(End(s, key))
  {
  }

  lemma BeginMinted(s: State, key: Key, o: Opening, settings: SettingsReader)
    requires Minted(s)
    ensures Minted(Begin(s, key, o, settings))
  {
    EndMinted(s, key);
  }

  lemma MoveMinted(s: State, m: Move, settings: SettingsReader)
    requires Minted(s)
    ensures Minted(Moved(s, m, settings))
  {
    match m
    case Retiring(key) =>
    case Ending(key) => EndMinted(s, key);
    case Beginning(key, opening) => BeginMinted(s, key, opening, settings);
    case Observing(key) =>
    case Amending(key, policy) =>
  }

  lemma {:induction false} MovesMinted(s: State, moves: seq<Move>, settings: SettingsReader)
    requires Minted(s)
    ensures Minted(AllMoved(s, moves, settings))
  {
    if moves != [] {
      MovesMinted(s, moves[..|moves| - 1], settings);
      MoveMinted(AllMoved(s, moves[..|moves| - 1], settings), moves[|moves| - 1], settings);
    }
  }

  lemma GrantedMinted(s: State, key: Key, a: Attempt, policy: Grant)
    requires Minted(s) && a.sessionId < s.issued && Granted(s, key, a, policy).Some?
    ensures Minted(Granted(s, key, a, policy).value)
  {
    EndMinted(s, key);
  }

  lemma RespondMinted(s: State, key: Key, id: nat, r: Reply, o: Opening, settings: SettingsReader)
    requires Minted(s) && Respond(s, key, id, r, o, settings).Some?
    ensures Minted(Respond(s, key, id, r, o, settings).value)
  {
    match Judge(s, key, id, r, settings)
    case Stale =>
    case Refused => EndMinted(Retire(s, key), key);
    case Fallback => BeginMinted(Retire(s, key), key, Opening(true, s.attempts[key].automatic, false, o.identified, o.budgeted), settings);
    case Granting => GrantedMinted(Retire(s, key), key, s.attempts[key], Authorized(s.cfg, s.cfg.ports[key.port], r).value);
  }

  // ---------------------------------------------------------------------------------------------
  // The answer of a server
  // ---------------------------------------------------------------------------------------------

  /** The VLAN an accept assigns: the tunnel's or the port's native one, existing and not forbidden there. */
  ghost predicate Usable(s: State, key: Key, r: Reply, vid: int) {
    && key.port in s.cfg.ports && r.Accepted? && 1 <= vid <= 4094 && vid in s.cfg.vlans
    && vid !in s.cfg.ports[key.port].policy.forbidden
    && (r.tunnel == Some(vid) || (r.tunnel == None && s.cfg.ports[key.port].policy.pvid == vid))
  }

  /** A reject of 802.1X on a port that then tries MAB. */
  ghost predicate FallsBack(s: State, key: Key, r: Reply) {
    && key in s.attempts && !s.attempts[key].mab && key.port in s.cfg.ports && r.Rejected?
    && AccessOf(s.cfg, key.port).access == Dot1xMab && AccessOf(s.cfg, key.port).fallbackReject
  }

  /** The state in which the key has no attempt, and no session either. */
  ghost predicate Cleared(s: State, t: State, key: Key) {
    t == s.(attempts := s.attempts - {key}, sessions := s.sessions - {key})
  }

  lemma CurrentPort(s: State, key: Key, id: nat, settings: SettingsReader)
    requires Current(s, key, id, settings)
    ensures key in s.attempts && key.port in s.cfg.ports && SamePrior(s.sessions, key, s.attempts[key])
    ensures !s.attempts[key].owned ==> SubjectContext(s.cfg, key, settings) == Some(s.attempts[key].context)
  {
    ContextSettings(s, key, s.attempts[key].owned, settings);
  }

  /** An answer whose attempt is no longer current changes nothing. */
  lemma StaleLeaves(s: State, key: Key, id: nat, r: Reply, o: Opening, settings: SettingsReader)
    requires !Current(s, key, id, settings)
    ensures Respond(s, key, id, r, o, settings) == Some(s)
  {
  }

  lemma RetiredEnds(s: State, key: Key)
    ensures Cleared(s, End(Retire(s, key), key), key)
  {
    assert key !in s.sessions ==> s.sessions - {key} == s.sessions;
  }

  /**
   * A failed exchange, a reject that does not fall back, and an accept whose VLAN is not usable end the session and the attempt of
   * their key, and change nothing else.
   */
  lemma RefusalEnds(s: State, key: Key, id: nat, r: Reply, o: Opening, settings: SettingsReader)
    requires Current(s, key, id, settings)
    requires !FallsBack(s, key, r) && forall vid :: !Usable(s, key, r, vid)
    ensures Respond(s, key, id, r, o, settings).Some? && Cleared(s, Respond(s, key, id, r, o, settings).value, key)
  {
    CurrentPort(s, key, id, settings);
    RetiredEnds(s, key);
    if r.Accepted? {
      assert !Usable(s, key, r, if r.tunnel.Some? then r.tunnel.value else s.cfg.ports[key.port].policy.pvid);
    }
  }

  /** The session of a key already has this VLAN, from the same origin, and these controls. */
  ghost predicate SamePolicy(s: State, key: Key, r: Reply, vid: int)
    requires r.Accepted?
  {
    && key in s.sessions && s.sessions[key].policy.vid == vid && s.sessions[key].policy.byRadius == r.tunnel.Some?
    && s.sessions[key].policy.controls == r.controls
  }

  /** What a usable accept leaves: a session with exactly the authorized policy, the old one exactly when its access policy is the same. */
  ghost predicate Authorizes(s: State, t: State, key: Key, r: Reply, vid: int)
    requires r.Accepted? && key in s.attempts
  {
    && t.cfg == s.cfg && t.epoch == s.epoch && t.attempts == s.attempts - {key}
    && key in t.sessions && t.sessions - {key} == s.sessions - {key}
    && t.sessions[key].policy == Grant(vid, r.tunnel.Some?, r.controls, r.rest) && t.sessions[key].mab == s.attempts[key].mab
    && (SamePolicy(s, key, r, vid) <==> key in s.sessions && t.sessions[key].id == s.sessions[key].id)
    && (SamePolicy(s, key, r, vid) ==> t.sessions[key].grant == s.sessions[key].grant && t.sessions[key].observation == s.sessions[key].observation)
    && (!SamePolicy(s, key, r, vid) ==> t.sessions[key].grant >= s.issued && t.sessions[key].observation >= s.issued)
    && (key !in s.sessions ==> t.sessions[key].id == s.attempts[key].sessionId)
  }

  lemma OneReplaced<V>(m: map<Key, V>, key: Key, v: V)
    ensures m[key := v] - {key} == m - {key} && (m - {key})[key := v] - {key} == m - {key}
  {
    assert forall k :: k in m[key := v] - {key} <==> k in m - {key};
  }

  lemma KeptAuthorizes(s: State, key: Key, r: Reply, vid: int)
    requires Minted(s) && key in s.attempts && r.Accepted? && SamePolicy(s, key, r, vid)
    ensures var t := Granted(Retire(s, key), key, s.attempts[key], Grant(vid, r.tunnel.Some?, r.controls, r.rest));
            t.Some? && Authorizes(s, t.value, key, r, vid)
  {
    var session := s.sessions[key].(policy := Grant(vid, r.tunnel.Some?, r.controls, r.rest), mab := s.attempts[key].mab);
    OneReplaced(s.sessions, key, session);
  }

  function NewSession(s: State, key: Key, policy: Grant): Session
    requires key in s.attempts
  {
    Session(if key in s.sessions then s.issued else s.attempts[key].sessionId, s.attempts[key].mab, policy, s.issued + 1, s.issued + 2)
  }

  lemma NewGranted(s: State, key: Key, policy: Grant)
    requires key in s.attempts && !(key in s.sessions && SameAccess(s.sessions[key].policy, policy))
    ensures Granted(Retire(s, key), key, s.attempts[key], policy) ==
            if |s.sessions - {key}| >= s.cfg.chassis.sourceLimit then None
            else Some(s.(attempts := s.attempts - {key}, sessions := (s.sessions - {key})[key := NewSession(s, key, policy)],
                         issued := s.issued + 3))
  {
    RetiredEnds(s, key);
  }

  lemma NewAuthorizes(s: State, key: Key, r: Reply, vid: int)
    requires Minted(s) && key in s.attempts && r.Accepted? && !SamePolicy(s, key, r, vid)
    ensures var t := Granted(Retire(s, key), key, s.attempts[key], Grant(vid, r.tunnel.Some?, r.controls, r.rest));
            if |s.sessions - {key}| >= s.cfg.chassis.sourceLimit then t.None? else t.Some? && Authorizes(s, t.value, key, r, vid)
  {
    var policy := Grant(vid, r.tunnel.Some?, r.controls, r.rest);
    NewGranted(s, key, policy);
    OneReplaced(s.sessions, key, NewSession(s, key, policy));
  }

  /** A usable accept authorizes its key, unless a session more would exceed the limit: then the command is refused. */
  lemma AcceptAuthorizes(s: State, key: Key, id: nat, r: Reply, o: Opening, settings: SettingsReader, vid: int)
    requires Minted(s) && Current(s, key, id, settings) && Usable(s, key, r, vid)
    ensures var t := Respond(s, key, id, r, o, settings);
            if !SamePolicy(s, key, r, vid) && |s.sessions - {key}| >= s.cfg.chassis.sourceLimit then t.None?
            else t.Some? && Authorizes(s, t.value, key, r, vid)
  {
    CurrentPort(s, key, id, settings);
    RetiredEnds(s, key);
    var policy := Grant(vid, r.tunnel.Some?, r.controls, r.rest);
    assert Authorized(s.cfg, s.cfg.ports[key.port], r) == Some(policy);
    assert Respond(s, key, id, r, o, settings) == Granted(Retire(s, key), key, s.attempts[key], policy);
    GrantAuthorizes(s, key, r, vid);
  }

  lemma GrantAuthorizes(s: State, key: Key, r: Reply, vid: int)
    requires Minted(s) && key in s.attempts && r.Accepted?
    ensures var t := Granted(Retire(s, key), key, s.attempts[key], Grant(vid, r.tunnel.Some?, r.controls, r.rest));
            if !SamePolicy(s, key, r, vid) && |s.sessions - {key}| >= s.cfg.chassis.sourceLimit then t.None?
            else t.Some? && Authorizes(s, t.value, key, r, vid)
  {
    RetiredEnds(s, key);
    if SamePolicy(s, key, r, vid) { KeptAuthorizes(s, key, r, vid); } else { NewAuthorizes(s, key, r, vid); }
  }

  // ---------------------------------------------------------------------------------------------
  // Beginning an attempt
  // ---------------------------------------------------------------------------------------------

  /** Another address of the port has an attempt or a session. */
  ghost predicate Crowded(s: State, key: Key) {
    exists k: Key :: k.port == key.port && k != key && (k in s.attempts || k in s.sessions)
  }

  ghost predicate OneOf(profiles: set<Profile>) {
    exists p :: p in profiles && forall q :: q in profiles ==> q == p
  }

  /** The method that the port permits and that the addresses' profiles allow. */
  ghost predicate MethodFits(s: State, key: Key, trigger: bool, mab: bool)
    requires key.port in s.cfg.ports
  {
    var access := AccessOf(s.cfg, key.port).access;
    if mab then access != Dot1x && (trigger || (access == Mab && key in s.sessions))
    else access != Mab && !trigger && OneOf(Supplicants(SubjectsOf(s.cfg, key)))
  }

  /** An attempt with this context and this method may begin. */
  ghost predicate MayBegin(s: State, key: Key, o: Opening, settings: SettingsReader, c: Choice) {
    && key.port in s.cfg.ports && key !in s.attempts && o.identified
    && (AccessOf(s.cfg, key.port).hostMode == MultiAuth || !Crowded(s, key))
    && (if c.owned
        then (o.automatic || o.renewal) && key in s.sessions && s.sessions[key].mab && SubjectContext(s.cfg, key, settings) == None
             && SessionContext(s.cfg, s.epoch, s.sessions, key, settings) == Some(c.context)
        else SubjectContext(s.cfg, key, settings) == Some(c.context))
    && MethodFits(s, key, o.mabTrigger || c.owned, c.mab)
  }

  lemma MethodExactly(s: State, key: Key, trigger: bool, mab: bool)
    requires key.port in s.cfg.ports
    ensures MethodOf(s, key, trigger) == Some(mab) <==> MethodFits(s, key, trigger, mab)
  {
  }

  lemma ChosenExactly(s: State, key: Key, o: Opening, settings: SettingsReader, c: Choice)
    ensures Chosen(s, key, o, settings) == Some(c) <==> MayBegin(s, key, o, settings, c)
  {
    if key.port in s.cfg.ports {
      MethodExactly(s, key, o.mabTrigger || c.owned, c.mab);
      assert Occupied(s, key) <==> Crowded(s, key);
    }
  }

  /** A new attempt of the key, captured now, which renews the key's session if it has one. */
  ghost predicate Begun(s: State, t: State, key: Key, c: Choice, automatic: bool) {
    && t.cfg == s.cfg && t.epoch == s.epoch && t.sessions == s.sessions && s.issued < t.issued
    && key in t.attempts && t.attempts - {key} == s.attempts - {key}
    && var a := t.attempts[key];
       && s.issued <= a.id < t.issued && a.epoch == s.epoch && a.context == c.context && a.mab == c.mab && a.owned == c.owned
       && a.automatic == automatic && SamePrior(s.sessions, key, a)
       && (if key in s.sessions then a.sessionId == s.sessions[key].id else s.issued <= a.sessionId < t.issued && a.sessionId != a.id)
  }

  /** An attempt begins exactly when it may; when its renewal budget is spent the session ends instead, and otherwise nothing changes. */
  lemma BeginExactly(s: State, key: Key, o: Opening, settings: SettingsReader)
    ensures forall c :: MayBegin(s, key, o, settings, c) ==>
              var t := Begin(s, key, o, settings);
              if o.automatic && !o.budgeted then Cleared(s, t, key) else Begun(s, t, key, c, o.automatic)
    ensures (forall c :: !MayBegin(s, key, o, settings, c)) ==> Begin(s, key, o, settings) == s
  {
    forall c | MayBegin(s, key, o, settings, c)
      ensures var t := Begin(s, key, o, settings);
              if o.automatic && !o.budgeted then Cleared(s, t, key) else Begun(s, t, key, c, o.automatic)
    {
      BeginChosen(s, key, o, settings, c);
    }
    if Chosen(s, key, o, settings).Some? {
      ChosenExactly(s, key, o, settings, Chosen(s, key, o, settings).value);
    }
  }

  lemma BeginChosen(s: State, key: Key, o: Opening, settings: SettingsReader, c: Choice)
    requires MayBegin(s, key, o, settings, c)
    ensures var t := Begin(s, key, o, settings);
            if o.automatic && !o.budgeted then Cleared(s, t, key) else Begun(s, t, key, c, o.automatic)
  {
    ChosenExactly(s, key, o, settings, c);
    OneReplaced(s.attempts, key, Attempting(s, key, c, o.automatic));
    RetiredEnds(s, key);
    assert s.attempts - {key} == s.attempts;
  }

  /**
   * A reject that falls back leaves an attempt by MAB on the same subject in place of the rejected one, unless another address
   * has the port, or the NAS has no identifier, or the renewal budget is spent.
   */
  lemma FallbackBegins(s: State, key: Key, id: nat, r: Reply, o: Opening, settings: SettingsReader)
    requires Minted(s) && Current(s, key, id, settings) && FallsBack(s, key, r)
    ensures var u := s.(attempts := s.attempts - {key});
            var rejected := s.attempts[key];
            var t := Respond(s, key, id, r, o, settings);
            if AccessOf(s.cfg, key.port).hostMode != MultiAuth && Crowded(s, key) then t == Some(u)
            else if !o.identified then t == None
            else if rejected.automatic && !o.budgeted then t.Some? && Cleared(s, t.value, key)
            else t.Some? && Begun(u, t.value, key, Choice(rejected.context, true, false), rejected.automatic)
  {
    CurrentPort(s, key, id, settings);
    var u := Retire(s, key);
    assert Crowded(u, key) <==> Crowded(s, key);
    assert Occupied(u, key) <==> Crowded(u, key);
    var opening := Opening(true, s.attempts[key].automatic, false, o.identified, o.budgeted);
    BeginExactly(u, key, opening, settings);
    if AccessOf(s.cfg, key.port).hostMode == MultiAuth || !Crowded(s, key) {
      if o.identified { assert MayBegin(u, key, opening, settings, Choice(s.attempts[key].context, true, false)); }
    }
  }

  // ---------------------------------------------------------------------------------------------
  // The other steps
  // ---------------------------------------------------------------------------------------------

  /** Ending a session ends the renewal of it as well; ending none changes nothing. */
  lemma EndExactly(s: State, key: Key)
    requires Priors(s.attempts, s.sessions)
    ensures if key in s.sessions then Cleared(s, End(s, key), key) else End(s, key) == s
  {
    if key in s.sessions {
      if key in s.attempts { assert SamePrior(s.sessions, key, s.attempts[key]); }
      else { assert s.attempts - {key} == s.attempts; }
    }
  }

  /** An amended session keeps its identifier and gets another grant and the new policy; its renewal is retired. */
  lemma AmendExactly(s: State, key: Key, policy: Grant)
    requires Minted(s) && key in s.sessions
    ensures var t, session := Amend(s, key, policy), s.sessions[key];
            && t.cfg == s.cfg && t.epoch == s.epoch && t.attempts == s.attempts - {key} && t.sessions - {key} == s.sessions - {key}
            && key in t.sessions && t.sessions[key].policy == policy && t.sessions[key].id == session.id
            && t.sessions[key].mab == session.mab && t.sessions[key].observation == session.observation
            && session.grant < t.sessions[key].grant < t.issued
  {
    OneReplaced(s.sessions, key, s.sessions[key].(policy := policy, grant := s.issued));
  }

  /** An observed session differs in its observation alone; only a renewal that rests on the session is retired. */
  lemma ObserveExactly(s: State, key: Key)
    requires key in s.sessions
    ensures var t, session := Observe(s, key), s.sessions[key];
            && t.cfg == s.cfg && t.epoch == s.epoch && t.sessions - {key} == s.sessions - {key} && key in t.sessions
            && t.sessions[key] == session.(observation := t.sessions[key].observation) && s.issued <= t.sessions[key].observation < t.issued
            && (forall k :: k in t.attempts <==> k in s.attempts && !(k == key && s.attempts[k].owned))
            && (forall k :: k in t.attempts ==> t.attempts[k] == s.attempts[k])
  {
    OneReplaced(s.sessions, key, s.sessions[key].(observation := s.issued));
  }

  // ---------------------------------------------------------------------------------------------
  // Reconciliation
  // ---------------------------------------------------------------------------------------------

  /** The VLAN of a session: the tunnel's, or the native one of its port. */
  function VlanOf(cfg: Configuration, key: Key, g: Grant): int
    requires key.port in cfg.ports
  {
    if g.byRadius then g.vid else cfg.ports[key.port].policy.pvid
  }

  /** A change of configuration leaves a session its port, the port's access settings and its VLAN. */
  predicate Lasts(before: Configuration, cfg: Configuration, key: Key, g: Grant)
    requires key.port in before.ports && key.port in cfg.ports
  {
    && S.Up(cfg.ports, cfg.attachments, key.port)
    && AccessOf(cfg, key.port) == AccessOf(before, key.port)
    && VlanOf(before, key, g) in cfg.vlans
    && VlanOf(cfg, key, g) !in cfg.ports[key.port].policy.forbidden
  }

  /** Reconciliation keeps exactly the sessions that last, and the attempts that are current and whose session lasts. */
  lemma ReconciledExactly(before: Configuration, s: State, settings: SettingsReader, k: Key)
    requires Reconcilable(before, s) && Priors(s.attempts, s.sessions)
    ensures var t := Reconciled(before, s, settings);
            && t.cfg == s.cfg && t.epoch == s.epoch && t.issued == s.issued
            && (k in t.sessions <==> k in s.sessions && Lasts(before, s.cfg, k, s.sessions[k].policy))
            && (k in t.sessions ==> t.sessions[k] == s.sessions[k])
            && (k in t.attempts <==> k in s.attempts && s.attempts[k].epoch == s.epoch
                                     && ContextOf(s, k, s.attempts[k].owned, settings) == Some(s.attempts[k].context)
                                     && before.vlans.Keys == s.cfg.vlans.Keys && (k in s.sessions ==> k in t.sessions))
            && (k in t.attempts ==> t.attempts[k] == s.attempts[k])
  {
    if k in s.attempts { assert SamePrior(s.sessions, k, s.attempts[k]); }
  }

  /** Two equal captures of a subject stand on the same port settings and the same sources of the address. */
  lemma ContextCaptures(one: Configuration, other: Configuration, key: Key, settings: SettingsReader)
    requires SubjectContext(one, key, settings).Some? && SubjectContext(one, key, settings) == SubjectContext(other, key, settings)
    ensures key.port in one.ports && key.port in other.ports
    ensures one.ports[key.port].hw.name == other.ports[key.port].hw.name && AccessOf(one, key.port) == AccessOf(other, key.port)
    ensures forall e :: e in SubjectsOf(one, key) <==> e in SubjectsOf(other, key)
    ensures forall e :: e in SubjectsOf(one, key) ==>
              if AccessOf(one, key.port).access == Mab then Bare(SubjectsOf(one, key)[e]) == Bare(SubjectsOf(other, key)[e])
              else SubjectsOf(one, key)[e] == SubjectsOf(other, key)[e]
  {
    var access := AccessOf(one, key.port).access;
    var a, b := Captured(access, SubjectsOf(one, key)), Captured(access, SubjectsOf(other, key));
    assert a == b;
    forall e ensures e in SubjectsOf(one, key) <==> e in SubjectsOf(other, key) { assert e in a <==> e in b; }
    forall e | e in SubjectsOf(one, key)
      ensures if access == Mab then Bare(SubjectsOf(one, key)[e]) == Bare(SubjectsOf(other, key)[e])
              else SubjectsOf(one, key)[e] == SubjectsOf(other, key)[e]
    {
      assert a[e] == b[e];
    }
  }

  // ---------------------------------------------------------------------------------------------
  // Commands and runs
  // ---------------------------------------------------------------------------------------------

  lemma CommandMinted(s: State, c: Command, t: State, settings: SettingsReader)
    requires Minted(s) && Taken(s, c, t, settings)
    ensures Minted(t)
  {
    match c
    case Editing(first, cfg, later) =>
      MovesMinted(s, first, settings);
      MovesMinted(AllMoved(s, first, settings).(cfg := cfg), later, settings);
    case Answering(key, id, reply, opening, later) =>
      RespondMinted(s, key, id, reply, opening, settings);
      MovesMinted(Respond(s, key, id, reply, opening, settings).value, later, settings);
    case Resetting(cfg) =>
  }

  ghost const MINTED: State -> bool := s => Minted(s)

  lemma StepMinted(s: State, c: Command, t: State, settings: SettingsReader)
    requires MINTED(s) && Stepping(settings)(s, c, t)
    ensures MINTED(t)
  {
    CommandMinted(s, c, t, settings);
  }

  lemma BootMinted(s: State)
    requires Booted(s)
    ensures MINTED(s)
  {
  }

  /** In every published state every identifier was handed out. */
  lemma RunMinted(states: seq<State>, commands: seq<Command>, settings: SettingsReader, n: nat)
    requires Path(states, commands, Stepping(settings)) && Booted(states[0]) && n < |states|
    ensures MINTED(states[n])
  {
    forall s, c, t | MINTED(s) && Stepping(settings)(s, c, t) ensures MINTED(t) { StepMinted(s, c, t, settings); }
    BootMinted(states[0]);
    Along(states, commands, Stepping(settings), MINTED, 0, n);
  }

  /** A refused answer leaves its key without a session in the published state. */
  lemma RefusalPublished(s: State, c: Command, t: State, settings: SettingsReader)
    requires Published(s, settings) && Valid(s.cfg) && Taken(s, c, t, settings) && c.Answering?
    requires Current(s, c.key, c.id, settings) && !FallsBack(s, c.key, c.reply) && forall vid :: !Usable(s, c.key, c.reply, vid)
    ensures c.key !in t.sessions
  {
    RefusalEnds(s, c.key, c.id, c.reply, c.opening, settings);
    MovesContinue(Respond(s, c.key, c.id, c.reply, c.opening, settings).value, c.later, settings);
    PreparedInside(s, c, settings);
    ReconciledShape(s.cfg, Prepared(s, c, settings), settings);
  }

  lemma UsableLasts(s: State, key: Key, id: nat, r: Reply, vid: int, settings: SettingsReader)
    requires Current(s, key, id, settings) && Usable(s, key, r, vid)
    ensures Lasts(s.cfg, s.cfg, key, Grant(vid, r.tunnel.Some?, r.controls, r.rest))
  {
    ContextSettings(s, key, s.attempts[key].owned, settings);
  }

  lemma LastingPublished(s: State, u: State, key: Key, g: Grant, settings: SettingsReader)
    requires Inside(s.cfg, u) && u.cfg == s.cfg && key in u.sessions && u.sessions[key].policy == g && key !in u.attempts
    requires key.port in s.cfg.ports && Lasts(s.cfg, s.cfg, key, g)
    ensures Reconcilable(s.cfg, u)
    ensures var t := Reconciled(s.cfg, u, settings); key in t.sessions && t.sessions[key].policy == g && key !in t.attempts
  {
    ReconciledShape(s.cfg, u, settings);
    ReconciledExactly(s.cfg, u, settings, key);
  }

  /** A usable accept that the limit admits is authorized in the published state. */
  lemma AcceptPublished(s: State, c: Command, t: State, settings: SettingsReader, vid: int)
    requires Published(s, settings) && Valid(s.cfg) && Minted(s) && Taken(s, c, t, settings) && c.Answering? && c.later == []
    requires Current(s, c.key, c.id, settings) && Usable(s, c.key, c.reply, vid)
    ensures c.key !in t.attempts && c.key in t.sessions
    ensures t.sessions[c.key].policy == Grant(vid, c.reply.tunnel.Some?, c.reply.controls, c.reply.rest)
  {
    var u := Respond(s, c.key, c.id, c.reply, c.opening, settings).value;
    AcceptAuthorizes(s, c.key, c.id, c.reply, c.opening, settings, vid);
    assert Prepared(s, c, settings) == u;
    PreparedInside(s, c, settings);
    UsableLasts(s, c.key, c.id, c.reply, vid, settings);
    LastingPublished(s, u, c.key, Grant(vid, c.reply.tunnel.Some?, c.reply.controls, c.reply.rest), settings);
  }
}
