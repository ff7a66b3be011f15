/** Every run of commands on attempts and sessions: what all published states satisfy, and when an answer is accepted. */
module AccessLaws {
  import opened Configuration
  import opened AccessSessions
  import opened AccessRuns
  import opened Runs

  /**
   * A command edits the configuration, with steps on attempts and sessions before and after the edit; or brings the answer to an
   * attempt; or resets the simulation.  Deadlines, observations and renewals are commands that leave the configuration alone.
   */
  datatype Command =
    | Editing(first: seq<Move>, cfg: Configuration, later: seq<Move>)
    | Answering(key: Key, id: nat, reply: Reply, opening: Opening, later: seq<Move>)
    | Resetting(cfg: Configuration)

  ghost predicate Legal(s: State, c: Command, settings: SettingsReader) {
    match c
    case Editing(first, cfg, _) =>
      var t := AllMoved(s, first, settings);
      Valid(cfg) && OnPorts(cfg, t.attempts.Keys, t.sessions.Keys)
    case Answering(key, id, reply, opening, _) => Respond(s, key, id, reply, opening, settings).Some?
    case Resetting(cfg) => Valid(cfg)
  }

  /** The state before it is reconciled. */
  function Prepared(s: State, c: Command, settings: SettingsReader): State
    requires Legal(s, c, settings)
  {
    match c
    case Editing(first, cfg, later) => AllMoved(AllMoved(s, first, settings).(cfg := cfg), later, settings)
    case Answering(key, id, reply, opening, later) => AllMoved(Respond(s, key, id, reply, opening, settings).value, later, settings)
    case Resetting(cfg) => State(cfg, s.issued, map[], map[], s.issued + 1)
  }

  ghost predicate Taken(s: State, c: Command, t: State, settings: SettingsReader) {
    && Legal(s, c, settings) && Reconcilable(s.cfg, Prepared(s, c, settings))
    && t == Reconciled(s.cfg, Prepared(s, c, settings), settings)
  }

  // ---------------------------------------------------------------------------------------------
  // Answers
  // ---------------------------------------------------------------------------------------------

  /** Taking a session up for a key that had an attempt adds no second address to its port. */
  lemma SessionKeeps(s: State, key: Key, session: Session, t: State)
    requires Inside(s.cfg, s) && SameSettings(s.cfg, s.attempts) && key in s.attempts && AccessOf(s.cfg, key.port).control == Auto
    requires t.cfg == s.cfg && t.attempts == s.attempts - {key} && t.sessions == s.sessions[key := session] && s.issued <= t.issued
    ensures Inside(s.cfg, t)
  {
    forall j: Key, k: Key | j.port == k.port && j.port in s.cfg.ports && AccessOf(s.cfg, j.port).hostMode != MultiAuth
                            && Standing(s.cfg, s.cfg, t.attempts, t.sessions.Keys, j) && Standing(s.cfg, s.cfg, t.attempts, t.sessions.Keys, k)
      ensures j == k
    {
      assert Standing(s.cfg, s.cfg, s.attempts, s.sessions.Keys, j) && Standing(s.cfg, s.cfg, s.attempts, s.sessions.Keys, k);
    }
  }

  lemma GrantedShape(s: State, key: Key, a: Attempt, policy: Grant)
    requires key !in s.attempts && Granted(s, key, a, policy).Some?
    ensures var t := Granted(s, key, a, policy).value;
            && t.cfg == s.cfg && t.epoch == s.epoch && s.issued <= t.issued && t.attempts == s.attempts
            && key in t.sessions && t.sessions == s.sessions[key := t.sessions[key]]
  {
  }

  lemma GrantedKeeps(s: State, key: Key, policy: Grant)
    requires Inside(s.cfg, s) && SameSettings(s.cfg, s.attempts) && key in s.attempts && AccessOf(s.cfg, key.port).control == Auto
    requires Granted(Retire(s, key), key, s.attempts[key], policy).Some?
    ensures var t := Granted(Retire(s, key), key, s.attempts[key], policy).value;
            Inside(s.cfg, t) && t.cfg == s.cfg && t.epoch == s.epoch && Continues(s, t) && t.sessions.Keys == s.sessions.Keys + {key}
  {
    var t := Granted(Retire(s, key), key, s.attempts[key], policy).value;
    GrantedShape(Retire(s, key), key, s.attempts[key], policy);
    SessionKeeps(s, key, t.sessions[key], t);
  }

  lemma JudgeAutomatic(s: State, key: Key, id: nat, r: Reply, settings: SettingsReader)
    requires Judge(s, key, id, r, settings) != Stale
    ensures key in s.attempts && s.attempts[key].id == id && Current(s, key, id, settings)
    ensures key.port in s.cfg.ports && AccessOf(s.cfg, key.port).control == Auto
  {
    ContextSettings(s, key, s.attempts[key].owned, settings);
  }

  lemma RefusedKeeps(s: State, key: Key)
    requires Inside(s.cfg, s)
    ensures var t := End(Retire(s, key), key); Inside(s.cfg, t) && Extends(s, t)
  {
    RetireKeeps(s.cfg, s, key);
    EndKeeps(s.cfg, Retire(s, key), key);
    EndContinues(Retire(s, key), key);
  }

  lemma FallbackKeeps(s: State, key: Key, opening: Opening, settings: SettingsReader)
    requires Inside(s.cfg, s)
    ensures var t := Moved(Retire(s, key), Beginning(key, opening), settings); Inside(s.cfg, t) && Extends(s, t)
  {
    RetireKeeps(s.cfg, s, key);
    BeginKeeps(s.cfg, Retire(s, key), key, opening, settings);
    MoveContinues(Retire(s, key), Beginning(key, opening), settings);
  }

  lemma RespondKeeps(s: State, key: Key, id: nat, r: Reply, o: Opening, settings: SettingsReader)
    requires Published(s, settings) && Respond(s, key, id, r, o, settings).Some?
    ensures var t := Respond(s, key, id, r, o, settings).value;
            && Inside(s.cfg, t) && t.cfg == s.cfg && t.epoch == s.epoch && Continues(s, t)
            && t.sessions.Keys <= s.sessions.Keys + (if Judge(s, key, id, r, settings) == Granting then {key} else {})
  {
    CurrentSettings(s, settings);
    match Judge(s, key, id, r, settings)
    case Stale =>
    case Refused => RefusedKeeps(s, key);
    case Fallback => FallbackKeeps(s, key, Opening(true, s.attempts[key].automatic, false, o.identified, o.budgeted), settings);
    case Granting =>
      JudgeAutomatic(s, key, id, r, settings);
      GrantedKeeps(s, key, Authorized(s.cfg, s.cfg.ports[key.port], r).value);
  }

  // ---------------------------------------------------------------------------------------------
  // Commands
  // ---------------------------------------------------------------------------------------------

  lemma EditingInside(s: State, first: seq<Move>, cfg: Configuration, later: seq<Move>, settings: SettingsReader)
    requires Published(s, settings) && Legal(s, Editing(first, cfg, later), settings)
    ensures var t := Prepared(s, Editing(first, cfg, later), settings);
            Inside(s.cfg, t) && t.cfg == cfg && Continues(s, t) && t.sessions.Keys <= s.sessions.Keys
  {
    CurrentSettings(s, settings);
    MovesKeep(s.cfg, s, first, settings);
    MovesContinue(s, first, settings);
    MovesSameSettings(s, first, settings);
    var t := AllMoved(s, first, settings);
    EditKeeps(t, cfg);
    MovesKeep(s.cfg, t.(cfg := cfg), later, settings);
    MovesContinue(t.(cfg := cfg), later, settings);
  }

  lemma AnsweringInside(s: State, c: Command, settings: SettingsReader)
    requires Published(s, settings) && Legal(s, c, settings) && c.Answering?
    ensures var t := Prepared(s, c, settings);
            && Inside(s.cfg, t) && t.cfg == s.cfg && Continues(s, t)
            && t.sessions.Keys <= s.sessions.Keys + (if Judge(s, c.key, c.id, c.reply, settings) == Granting then {c.key} else {})
  {
    var t := Respond(s, c.key, c.id, c.reply, c.opening, settings).value;
    RespondKeeps(s, c.key, c.id, c.reply, c.opening, settings);
    MovesKeep(s.cfg, t, c.later, settings);
    MovesContinue(t, c.later, settings);
  }

  lemma ResettingInside(s: State, cfg: Configuration)
    ensures Inside(s.cfg, State(cfg, s.issued, map[], map[], s.issued + 1))
  {
  }

  lemma PreparedInside(s: State, c: Command, settings: SettingsReader)
    requires Published(s, settings) && Valid(s.cfg) && Legal(s, c, settings)
    ensures var t := Prepared(s, c, settings); Inside(s.cfg, t) && Valid(t.cfg) && Continues(s, t)
  {
    match c
    case Editing(first, cfg, later) => EditingInside(s, first, cfg, later, settings);
    case Answering(_, _, _, _, _) => AnsweringInside(s, c, settings);
    case Resetting(cfg) => ResettingInside(s, cfg);
  }

  lemma CommandKeeps(s: State, c: Command, t: State, settings: SettingsReader)
    requires Published(s, settings) && Valid(s.cfg) && Taken(s, c, t, settings)
    ensures Published(t, settings) && Valid(t.cfg) && Continues(s, t)
  {
    PreparedInside(s, c, settings);
    ValidNativesExist(Prepared(s, c, settings).cfg);
    ReconciledPublished(s.cfg, Prepared(s, c, settings), settings);
    ReconciledShape(s.cfg, Prepared(s, c, settings), settings);
    ContinuesOn(s, Prepared(s, c, settings), t);
  }

  /** Every legal command can be reconciled: sessions never end up on ports that are gone. */
  lemma CommandAccepted(s: State, c: Command, settings: SettingsReader)
    requires Published(s, settings) && Valid(s.cfg) && Legal(s, c, settings)
    ensures Reconcilable(s.cfg, Prepared(s, c, settings))
  {
    PreparedInside(s, c, settings);
    ReconciledShape(s.cfg, Prepared(s, c, settings), settings);
  }

  /** A key gains a session only when a granting answer to its current attempt arrives. */
  lemma SessionsOnlyGranted(s: State, c: Command, t: State, settings: SettingsReader, k: Key)
    requires Published(s, settings) && Valid(s.cfg) && Taken(s, c, t, settings) && k in t.sessions && k !in s.sessions
    ensures c.Answering? && c.key == k && Judge(s, k, c.id, c.reply, settings) == Granting && Current(s, k, c.id, settings)
  {
    PreparedInside(s, c, settings);
    ReconciledShape(s.cfg, Prepared(s, c, settings), settings);
    match c
    case Editing(first, cfg, later) => EditingInside(s, first, cfg, later, settings);
    case Answering(_, _, _, _, _) => AnsweringInside(s, c, settings);
    case Resetting(cfg) =>
  }

  // ---------------------------------------------------------------------------------------------
  // Runs
  // ---------------------------------------------------------------------------------------------

  ghost predicate Booted(s: State) {
    s.attempts == map[] && s.sessions == map[] && Valid(s.cfg)
  }

  ghost predicate Held(s: State, settings: SettingsReader) {
    Published(s, settings) && Valid(s.cfg)
  }

  ghost function Holding(settings: SettingsReader): State -> bool {
    (s: State) => Held(s, settings)
  }

  ghost function Stepping(settings: SettingsReader): (State, Command, State) -> bool {
    (s: State, c: Command, t: State) => Taken(s, c, t, settings)
  }

  lemma StepHolds(s: State, c: Command, t: State, settings: SettingsReader)
    requires Holding(settings)(s) && Stepping(settings)(s, c, t)
    ensures Holding(settings)(t) && Continues(s, t)
  {
    CommandKeeps(s, c, t, settings);
  }

  lemma BootPublished(s: State, settings: SettingsReader)
    requires Booted(s)
    ensures Published(s, settings)
  {
    OneMacInside(s);
  }

  lemma BootHolds(s: State, settings: SettingsReader)
    requires Booted(s)
    ensures Holding(settings)(s)
  {
    BootPublished(s, settings);
  }

  lemma RunHeld(states: seq<State>, commands: seq<Command>, settings: SettingsReader, n: nat)
    requires Path(states, commands, Stepping(settings)) && Booted(states[0]) && n < |states|
    ensures Holding(settings)(states[n])
  {
    BootHolds(states[0], settings);
    forall s, c, t | Holding(settings)(s) && Stepping(settings)(s, c, t) ensures Holding(settings)(t) { StepHolds(s, c, t, settings); }
    Along(states, commands, Stepping(settings), Holding(settings), 0, n);
  }

  lemma HeldMeans(s: State, settings: SettingsReader)
    requires Holding(settings)(s)
    ensures AllCurrent(s, settings) && AllSeated(s.cfg, s.sessions) && OneMac(s.cfg, s.attempts.Keys + s.sessions.Keys)
  {
  }

  /** Every published state of every run: attempts are current, ports outside multi-auth mode hold one address, sessions are seated. */
  lemma RunHolds(states: seq<State>, commands: seq<Command>, settings: SettingsReader, n: nat)
    requires Path(states, commands, Stepping(settings)) && Booted(states[0]) && n < |states|
    ensures AllCurrent(states[n], settings) && AllSeated(states[n].cfg, states[n].sessions)
    ensures OneMac(states[n].cfg, states[n].attempts.Keys + states[n].sessions.Keys)
  {
    RunHeld(states, commands, settings, n);
    HeldMeans(states[n], settings);
  }

  ghost function Since(base: State, settings: SettingsReader): State -> bool {
    (s: State) => Holding(settings)(s) && Continues(base, s)
  }

  lemma SinceKept(base: State, s: State, c: Command, t: State, settings: SettingsReader)
    requires Since(base, settings)(s) && Stepping(settings)(s, c, t)
    ensures Since(base, settings)(t)
  {
    StepHolds(s, c, t, settings);
    ContinuesOn(base, s, t);
  }

  lemma RunContinues(states: seq<State>, commands: seq<Command>, settings: SettingsReader, m: nat, n: nat)
    requires Path(states, commands, Stepping(settings)) && Booted(states[0]) && m <= n < |states|
    ensures Continues(states[m], states[n])
  {
    var since := Since(states[m], settings);
    RunHeld(states, commands, settings, m);
    forall s, c, t | since(s) && Stepping(settings)(s, c, t) ensures since(t) { SinceKept(states[m], s, c, t, settings); }
    Along(states, commands, Stepping(settings), since, m, n);
  }

  /**
   * An answer is looked at only if its attempt was current in every state published since it began: its epoch, its context, the
   * session it renews and that session's grant never differed from the current ones, not even for a change that was undone.
   */
  lemma AcceptedThroughout(states: seq<State>, commands: seq<Command>, settings: SettingsReader, begun: nat, m: nat, n: nat,
                           key: Key, id: nat, r: Reply)
    requires Path(states, commands, Stepping(settings)) && Booted(states[0])
    requires begun <= m <= n < |states| && id < states[begun].issued && Judge(states[n], key, id, r, settings) != Stale
    ensures Current(states[m], key, id, settings)
    ensures states[m].attempts[key] == states[n].attempts[key] && states[m].epoch == states[n].epoch
  {
    RunContinues(states, commands, settings, begun, m);
    RunContinues(states, commands, settings, m, n);
    RunHolds(states, commands, settings, m);
    assert Current(states[m], key, id, settings);
  }

  /** In a published state an answer is stale exactly when its attempt is gone. */
  lemma StaleExactly(s: State, key: Key, id: nat, r: Reply, settings: SettingsReader)
    requires AllCurrent(s, settings)
    ensures Judge(s, key, id, r, settings) == Stale <==> !(key in s.attempts && s.attempts[key].id == id)
  {
    if key in s.attempts && s.attempts[key].id == id {
      assert Current(s, key, s.attempts[key].id, settings);
      ContextSettings(s, key, s.attempts[key].owned, settings);
    }
  }
}
