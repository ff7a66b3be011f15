/**
 * Authentication attempts and access sessions: the steps commands are made of, and the reconciliation that follows every
 * command before its state is published.
 */
module AccessSessions {
  import opened Outcomes
  import opened Lists
  import opened Configuration
  import S = Simulation

  datatype Key = Key(port: Id, mac: Mac)

  /** The sources of one MAC address on one port, by endpoint. */
  type Subjects = map<Id, seq<Source>>

  /**
   * The RADIUS settings an exchange depends on: options, servers but for their labels, the NAS identifier with its fallback, and
   * the materials that the sources refer to.
   */
  type SettingsReader = (Configuration, Subjects) -> nat

  /** What an attempt captures. The program compares digests of it; here the captured facts are compared themselves. */
  datatype Context =
    | OfSubject(name: Text, authentication: Authentication, forbidden: seq<int>, subjects: Subjects, settings: nat)
    | OfSession(epoch: nat, key: Key, session: nat, grant: nat, observation: nat,
                name: Text, authentication: Authentication, forbidden: seq<int>, settings: nat)

  datatype Attempt = Attempt(id: nat, sessionId: nat, epoch: nat, context: Context, mab: bool, prior: Option<nat>,
                             priorGrant: Option<nat>, owned: bool, automatic: bool)

  datatype Grant = Grant(vid: int, byRadius: bool, controls: nat, rest: nat)

  datatype Session = Session(id: nat, mab: bool, policy: Grant, grant: nat, observation: nat)

  /** `issued` counts the unique identifiers handed out. */
  datatype State = State(cfg: Configuration, epoch: nat, attempts: map<Key, Attempt>, sessions: map<Key, Session>, issued: nat)

  // ---------------------------------------------------------------------------------------------
  // Captured contexts
  // ---------------------------------------------------------------------------------------------

  function OfMac(sources: seq<Source>, mac: Mac): seq<Source> {
    if sources == [] then [] else
    OfMac(sources[..|sources| - 1], mac) + (if sources[|sources| - 1].mac == mac then [sources[|sources| - 1]] else [])
  }

  function Bare(sources: seq<Source>): seq<Source> {
    seq(|sources|, i requires 0 <= i < |sources| => sources[i].(supplicant := None))
  }

  function SubjectsOf(cfg: Configuration, key: Key): Subjects {
    map e | e in cfg.attachments && cfg.attachments[e] == key.port && e in cfg.endpoints && OfMac(cfg.endpoints[e].sources, key.mac) != []
          :: OfMac(cfg.endpoints[e].sources, key.mac)
  }

  function Captured(access: AuthMethod, subjects: Subjects): Subjects {
    if access == Mab then map e | e in subjects :: Bare(subjects[e]) else subjects
  }

  predicate Automatic(cfg: Configuration, port: Id) {
    S.Up(cfg.ports, cfg.attachments, port) && cfg.ports[port].policy.authentication.control == Auto
  }

  /** `authentication_context` */
  function SubjectContext(cfg: Configuration, key: Key, settings: SettingsReader): Option<Context> {
    if !Automatic(cfg, key.port) || SubjectsOf(cfg, key) == map[] then None else
    var p := cfg.ports[key.port];
    var subjects := Captured(p.policy.authentication.access, SubjectsOf(cfg, key));
    Some(OfSubject(p.hw.name, p.policy.authentication, Sorted(p.policy.forbidden), subjects, settings(cfg, subjects)))
  }

  /** `session_authentication_context` */
  function SessionContext(cfg: Configuration, epoch: nat, sessions: map<Key, Session>, key: Key, settings: SettingsReader): Option<Context> {
    if key !in sessions || !sessions[key].mab || !Automatic(cfg, key.port) || cfg.ports[key.port].policy.authentication.access == Dot1x
    then None else
    var p, s := cfg.ports[key.port], sessions[key];
    Some(OfSession(epoch, key, s.id, s.grant, s.observation, p.hw.name, p.policy.authentication, Sorted(p.policy.forbidden),
                   settings(cfg, map[])))
  }

  function ContextOf(s: State, key: Key, owned: bool, settings: SettingsReader): Option<Context> {
    if owned then SessionContext(s.cfg, s.epoch, s.sessions, key, settings) else SubjectContext(s.cfg, key, settings)
  }

  predicate SamePrior(sessions: map<Key, Session>, key: Key, a: Attempt) {
    if key in sessions then a.prior == Some(sessions[key].id) && a.priorGrant == Some(sessions[key].grant)
    else a.prior == None && a.priorGrant == None
  }

  /** `current_attempt` */
  predicate Current(s: State, key: Key, id: nat, settings: SettingsReader) {
    && key in s.attempts && s.attempts[key].id == id && s.attempts[key].epoch == s.epoch
    && ContextOf(s, key, s.attempts[key].owned, settings) == Some(s.attempts[key].context)
    && SamePrior(s.sessions, key, s.attempts[key])
  }

  // ---------------------------------------------------------------------------------------------
  // Steps
  // ---------------------------------------------------------------------------------------------

  function Retire(s: State, key: Key): State {
    s.(attempts := s.attempts - {key})
  }

  predicate Pending(s: State, key: Key, session: nat) {
    key in s.attempts && s.attempts[key].prior == Some(session)
  }

  /** `end_session`: a renewal of the ended grant ends with it */
  function End(s: State, key: Key): State {
    if key !in s.sessions then s else
    var t := s.(sessions := s.sessions - {key});
    if Pending(s, key, s.sessions[key].id) then Retire(t, key) else t
  }

  /** What a call of `begin_authentication` is given, and whether an identifier and the renewal budget are available. */
  datatype Opening = Opening(mabTrigger: bool, automatic: bool, renewal: bool, identified: bool, budgeted: bool)

  predicate Occupied(s: State, key: Key) {
    (exists k :: k in s.attempts && k.port == key.port && k != key) || (exists k :: k in s.sessions && k.port == key.port && k != key)
  }

  function Supplicants(subjects: Subjects): set<Profile> {
    set e, i | e in subjects && 0 <= i < |subjects[e]| && subjects[e][i].supplicant.Some? :: subjects[e][i].supplicant.value
  }

  /** The method an attempt would use; none when it waits, is blocked by a conflict of profiles, or is refused. */
  function MethodOf(s: State, key: Key, mabTrigger: bool): Option<bool>
    requires key.port in s.cfg.ports
  {
    var access := s.cfg.ports[key.port].policy.authentication.access;
    var profiles := Supplicants(SubjectsOf(s.cfg, key));
    if access == Mab || mabTrigger then
      if access == Dot1x || (!mabTrigger && key !in s.sessions) then None else Some(true)
    else if exists p :: p in profiles && forall q :: q in profiles ==> q == p then Some(false)
    else None
  }

  /** The attempt to begin, if nothing makes it wait, blocks it or refuses it. */
  datatype Choice = Choice(context: Context, mab: bool, owned: bool)

  function Chosen(s: State, key: Key, o: Opening, settings: SettingsReader): Option<Choice> {
    if key.port !in s.cfg.ports || key in s.attempts then None else
    var subject := SubjectContext(s.cfg, key, settings);
    var owned := (o.automatic || o.renewal) && key in s.sessions && s.sessions[key].mab && subject.None?;
    var context := if owned then SessionContext(s.cfg, s.epoch, s.sessions, key, settings) else subject;
    var mab := MethodOf(s, key, o.mabTrigger || owned);
    if context.None? || mab.None? || !o.identified then None
    else if s.cfg.ports[key.port].policy.authentication.hostMode != MultiAuth && Occupied(s, key) then None
    else Some(Choice(context.value, mab.value, owned))
  }

  function Attempting(s: State, key: Key, c: Choice, automatic: bool): Attempt {
    var prior := if key in s.sessions then Some(s.sessions[key]) else None;
    Attempt(s.issued, if prior.Some? then prior.value.id else s.issued + 1, s.epoch, c.context, c.mab,
            if prior.Some? then Some(prior.value.id) else None, if prior.Some? then Some(prior.value.grant) else None,
            c.owned, automatic)
  }

  /** `begin_authentication`; a refusal leaves attempts and sessions as they are, a spent renewal budget ends the session */
  function Begin(s: State, key: Key, o: Opening, settings: SettingsReader): State {
    match Chosen(s, key, o, settings)
    case None => s
    case Some(c) =>
      if o.automatic && !o.budgeted then Retire(End(s, key), key)
      else s.(attempts := s.attempts[key := Attempting(s, key, c, o.automatic)], issued := s.issued + 2)
  }

  /** A frame of a session's own address: a renewal that rests on the session alone no longer holds. */
  function Observe(s: State, key: Key): State {
    if key !in s.sessions then s else
    var t := s.(sessions := s.sessions[key := s.sessions[key].(observation := s.issued)], issued := s.issued + 1);
    if key in s.attempts && s.attempts[key].owned then Retire(t, key) else t
  }

  /** A change of authorization sent by a dynamic-authorization client. */
  function Amend(s: State, key: Key, policy: Grant): State {
    if key !in s.sessions then s else
    Retire(s, key).(sessions := s.sessions[key := s.sessions[key].(policy := policy, grant := s.issued)], issued := s.issued + 1)
  }

  datatype Move =
    | Retiring(key: Key)
    | Ending(key: Key)
    | Beginning(key: Key, opening: Opening)
    | Observing(key: Key)
    | Amending(key: Key, policy: Grant)

  function Moved(s: State, m: Move, settings: SettingsReader): State {
    match m
    case Retiring(key) => Retire(s, key)
    case Ending(key) => End(s, key)
    case Beginning(key, opening) => Begin(s, key, opening, settings)
    case Observing(key) => Observe(s, key)
    case Amending(key, policy) => Amend(s, key, policy)
  }

  function AllMoved(s: State, moves: seq<Move>, settings: SettingsReader): State {
    if moves == [] then s else Moved(AllMoved(s, moves[..|moves| - 1], settings), moves[|moves| - 1], settings)
  }

  // ---------------------------------------------------------------------------------------------
  // The answer of a server
  // ---------------------------------------------------------------------------------------------

  /** What a validated exchange brought back: no usable answer, a reject, or an accept with or without a tunnel group. */
  datatype Reply = Failed | Rejected | Accepted(tunnel: Option<int>, controls: nat, rest: nat)

  /** The VLAN part of `authorization` */
  function Authorized(cfg: Configuration, port: Port, r: Reply): Option<Grant>
    requires r.Accepted?
  {
    var vid: int := if r.tunnel.Some? then r.tunnel.value else port.policy.pvid;
    if !(1 <= vid <= 4094) || vid !in cfg.vlans || vid in port.policy.forbidden then None
    else Some(Grant(vid, r.tunnel.Some?, r.controls, r.rest))
  }

  predicate SameAccess(a: Grant, b: Grant) {
    a.vid == b.vid && a.byRadius == b.byRadius && a.controls == b.controls
  }

  /** The session that an accepted answer grants or renews; `None` when the session limit refuses the command. */
  function Granted(s: State, key: Key, a: Attempt, policy: Grant): Option<State> {
    var kept := key in s.sessions && SameAccess(s.sessions[key].policy, policy);
    var t := if kept then s else End(s, key);
    if !kept && |t.sessions| >= s.cfg.chassis.sourceLimit then None
    else if kept then Some(t.(sessions := t.sessions[key := t.sessions[key].(policy := policy, mab := a.mab)]))
    else
      var id := if key in s.sessions then s.issued else a.sessionId;
      Some(t.(sessions := t.sessions[key := Session(id, a.mab, policy, s.issued + 1, s.issued + 2)], issued := s.issued + 3))
  }

  datatype Verdict = Stale | Refused | Fallback | Granting

  function Judge(s: State, key: Key, id: nat, r: Reply, settings: SettingsReader): Verdict {
    if !Current(s, key, id, settings) || key.port !in s.cfg.ports then Stale else
    var a, p := s.attempts[key], s.cfg.ports[key.port];
    if r.Rejected? && !a.mab && p.policy.authentication.access == Dot1xMab && p.policy.authentication.fallbackReject then Fallback
    else if r.Accepted? && Authorized(s.cfg, p, r).Some? then Granting
    else Refused
  }

  /** The action "radius-result"; `None` when the command is refused as a whole. */
  function Respond(s: State, key: Key, id: nat, r: Reply, o: Opening, settings: SettingsReader): Option<State> {
    match Judge(s, key, id, r, settings)
    case Stale => Some(s)
    case Refused => Some(End(Retire(s, key), key))
    case Fallback =>
      if !o.identified && (s.cfg.ports[key.port].policy.authentication.hostMode == MultiAuth || !Occupied(Retire(s, key), key)) then None
      else Some(Begin(Retire(s, key), key, Opening(true, s.attempts[key].automatic, false, o.identified, o.budgeted), settings))
    case Granting => Granted(Retire(s, key), key, s.attempts[key], Authorized(s.cfg, s.cfg.ports[key.port], r).value)
  }

  // ---------------------------------------------------------------------------------------------
  // Reconciliation
  // ---------------------------------------------------------------------------------------------

  /** The attempt has outlived what it captured. */
  predicate Outdated(before: Configuration, s: State, key: Key, settings: SettingsReader)
    requires key in s.attempts
  {
    || s.attempts[key].epoch != s.epoch
    || ContextOf(s, key, s.attempts[key].owned, settings) != Some(s.attempts[key].context)
    || before.vlans.Keys != s.cfg.vlans.Keys
  }

  function Vid(cfg: Configuration, key: Key, g: Grant): int
    requires key.port in cfg.ports
  {
    if g.byRadius then g.vid else cfg.ports[key.port].policy.pvid
  }

  /** The session has lost its port, its port's access settings or its VLAN. */
  predicate Displaced(before: Configuration, cfg: Configuration, key: Key, session: Session)
    requires key.port in cfg.ports && key.port in before.ports
  {
    || !S.Up(cfg.ports, cfg.attachments, key.port)
    || cfg.ports[key.port].policy.authentication != before.ports[key.port].policy.authentication
    || Vid(before, key, session.policy) !in cfg.vlans
    || Vid(cfg, key, session.policy) in cfg.ports[key.port].policy.forbidden
  }

  ghost predicate OnPorts(cfg: Configuration, attempts: set<Key>, sessions: set<Key>) {
    forall k :: k in attempts || k in sessions ==> k.port in cfg.ports
  }

  function Ended(before: Configuration, s: State): set<Key>
    requires OnPorts(before, {}, s.sessions.Keys) && OnPorts(s.cfg, {}, s.sessions.Keys)
  {
    set k | k in s.sessions && Displaced(before, s.cfg, k, s.sessions[k])
  }

  function Revoked(before: Configuration, s: State, settings: SettingsReader): set<Key>
    requires OnPorts(before, {}, s.sessions.Keys) && OnPorts(s.cfg, {}, s.sessions.Keys)
  {
    set k | k in s.attempts && (Outdated(before, s, k, settings) || (k in Ended(before, s) && Pending(s, k, s.sessions[k].id)))
  }

  /** `reconcile_authentication` */
  function Reconciled(before: Configuration, s: State, settings: SettingsReader): State
    requires OnPorts(before, {}, s.sessions.Keys) && OnPorts(s.cfg, {}, s.sessions.Keys)
  {
    s.(attempts := s.attempts - Revoked(before, s, settings), sessions := s.sessions - Ended(before, s))
  }
}
