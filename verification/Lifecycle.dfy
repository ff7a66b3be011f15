/**
 * Runs of published states: every command, with RADIUS free to interleave moves of the clock, to end sessions and to grant VLANs.
 */
module Lifecycle {
  import opened Outcomes
  import opened Configuration
  import opened Commands
  import opened ScopedChecks
  import opened Storage
  import opened Simulation
  import opened Advance
  import opened Publication
  import opened Runs

  /** A published state; `stamp` is above every identifier drawn so far. */
  datatype Published = Published(f: Scene, s: Sim, startup: Startup, dirty: bool, stamp: nat)

  /** What the RADIUS side does during a command: the VLANs its sessions hold afterwards, and the rows ended sessions take along. */
  datatype Radius = Radius(granted: set<(Id, VlanId)>, gone: set<Row>)

  /** One move of an advance in which RADIUS may take part. */
  datatype Move =
    | Reach(at: int)
    | Perform(key: Key, session: Option<VlanId>)
    | Forget(rows: set<Row>)

  datatype Action =
    | Configure(command: Command, change: Change)
    | SetPlan(candidate: Configuration, ports: set<Id>, creates: set<VlanId>, deletes: set<VlanId>)
    | ImportLab(lab: Configuration)
    | Reboot(restored: Configuration)
    | SaveStartup
    | ClearRows(port: Option<Id>, vid: Option<VlanId>)
    | AdvanceClock(moves: seq<Move>)
    | WorkOn(job: Job, session: Option<VlanId>)
    | OtherCommand

  // ---------------------------------------------------------------------------------------------
  // The wrapper
  // ---------------------------------------------------------------------------------------------

  /** Publishing the configuration `after` on the simulation `s` that the command itself left. */
  function Publish(p: Published, after: Configuration, s: Sim, ports: set<Id>, endpoints: set<Id>, radius: Radius): Published {
    p.(f := NextScene(p.f, after, ports, endpoints, p.stamp),
       s := s.(jobs := NextJobs(p.f, s.now, s.jobs, after, ports, endpoints, p.stamp),
               fdb := KeptRows(after, radius.granted, radius.gone, s.fdb)),
       stamp := p.stamp + 1)
  }

  datatype Saving = Unsaved | Whole | Inventory

  /** A durable command recomputes the dirty flag, and a few save the policy or its inventory of ports. */
  function Stored(p: Published, saving: Saving): Published {
    var cfg := p.f.cfg;
    var startup := match saving
      case Unsaved => p.startup
      case Whole => StartupOf(cfg)
      case Inventory => Reconciled(p.startup, cfg.ports.Keys);
    p.(startup := startup, dirty := StartupOf(cfg) != Reconciled(startup, cfg.ports.Keys))
  }

  function ZeroCounters(cfg: Configuration): map<Id, Counters> {
    map p | p in cfg.ports :: Counters(0, 0, 0)
  }

  function Uniform(ids: set<Id>, stamp: nat): map<Id, nat> {
    map i | i in ids :: stamp
  }

  /** `reset_operational` over a configuration: a new epoch, fresh generations, empty tables, and every endpoint scheduled. */
  function Reset(p: Published, cfg: Configuration): Published {
    var f := Scene(cfg, p.stamp, Uniform(cfg.endpoints.Keys, p.stamp), Uniform(cfg.ports.Keys, p.stamp));
    p.(f := f,
       s := p.s.(now := 0, jobs := Rescheduled(f, 0, map[], cfg.endpoints.Keys), fdb := [], counters := ZeroCounters(cfg),
                 learnedDiscards := 0),
       stamp := p.stamp + 1)
  }

  /** Some ports get another generation, and some endpoints are scheduled again. */
  function Revisited(p: Published, ports: set<Id>, endpoints: set<Id>): Published {
    var f := p.f.(pgens := Renewed(p.f.pgens, ports * p.f.cfg.ports.Keys, p.stamp));
    p.(f := f, s := p.s.(jobs := Rescheduled(f, p.s.now, p.s.jobs, endpoints)), stamp := p.stamp + 1)
  }

  /** An import runs the wrapper after its reset: ports that went up or down get another generation. */
  function Imported(p: Published, cfg: Configuration): Published {
    var touched := Touched(p.f.cfg, cfg, {});
    Revisited(Reset(p, cfg), touched, Reached(p.f.cfg, cfg, touched, {}))
  }

  /** Ports appear with zero counters and disappear with theirs. */
  function Recounted(counters: map<Id, Counters>, cfg: Configuration): map<Id, Counters> {
    map p | p in cfg.ports :: if p in counters then counters[p] else Counters(0, 0, 0)
  }

  predicate IsSwitchEdit(c: Command) {
    c.Switching? && c.switching.SwitchEdit?
  }

  /** What a configuration command itself does to the simulation. */
  function Prepared(s: Sim, before: Configuration, after: Configuration): Sim {
    var t := s.(counters := Recounted(s.counters, after));
    if after.switch.agingSeconds == before.switch.agingSeconds then t
    else Age(t.(fdb := Reaged(t.fdb, after.switch.agingSeconds)))
  }

  function SavingOf(c: Command): Saving {
    if c.Switching? && (c.switching.PortCreate? || c.switching.PortDelete?) then Inventory else Unsaved
  }

  // ---------------------------------------------------------------------------------------------
  // Moves of the clock
  // ---------------------------------------------------------------------------------------------

  /** The clock never passes a due job and never goes back; the job on top of the heap fires when it is due. */
  ghost predicate Legal(s: Sim, m: Move) {
    match m
    case Reach(at) => s.now <= at && forall k :: k in s.jobs ==> at <= s.jobs[k].due
    case Perform(key, _) => IsEarliest(s.jobs, key) && s.jobs[key].due == s.now
    case Forget(_) => true
  }

  function Moved(f: Scene, s: Sim, m: Move): Sim
    requires Metered(f.cfg.ports.Keys, s.counters) && (m.Perform? ==> m.key in s.jobs)
  {
    match m
    case Reach(at) => Age(s.(now := at))
    case Perform(key, session) => Fire(f, s, key, session)
    case Forget(rows) => s.(fdb := Filter(s.fdb, r => r !in rows))
  }

  lemma MoveKeeps(f: Scene, s: Sim, m: Move)
    requires Live(f, s) && Legal(s, m)
    ensures Live(f, Moved(f, s, m)) && Moved(f, s, m).now >= s.now && Moved(f, s, m).jobs.Keys == s.jobs.Keys
  {
    match m
    case Reach(at) =>
      ReachKeeps(f, s, at);
      AgeKeeps(f.cfg, s.(now := at));
    case Perform(key, session) => FireKeeps(f, s, key, session);
    case Forget(rows) =>
  }

  ghost predicate Possible(f: Scene, s: Sim, moves: seq<Move>)
    requires Live(f, s)
    decreases |moves|
  {
    moves == [] || (Legal(s, moves[0]) && (MoveKeeps(f, s, moves[0]); Possible(f, Moved(f, s, moves[0]), moves[1..])))
  }

  ghost function AllMoves(f: Scene, s: Sim, moves: seq<Move>): Sim
    requires Live(f, s) && Possible(f, s, moves)
    decreases |moves|
  {
    if moves == [] then s else
    MoveKeeps(f, s, moves[0]);
    AllMoves(f, Moved(f, s, moves[0]), moves[1..])
  }

  lemma {:induction false} AllMovesKeep(f: Scene, s: Sim, moves: seq<Move>)
    requires Live(f, s) && Possible(f, s, moves)
    ensures var t := AllMoves(f, s, moves); Live(f, t) && t.now >= s.now && t.jobs.Keys == s.jobs.Keys
    decreases |moves|
  {
    if moves != [] {
      MoveKeeps(f, s, moves[0]);
      AllMovesKeep(f, Moved(f, s, moves[0]), moves[1..]);
    }
  }

  // ---------------------------------------------------------------------------------------------
  // Commands
  // ---------------------------------------------------------------------------------------------

  /** A lab scenario keeps everything but ports, VLANs, endpoints, attachments, pause and two switch settings. */
  predicate Importable(cfg: Configuration, c: Configuration) {
    && c == cfg.(ports := c.ports, vlans := c.vlans, endpoints := c.endpoints, attachments := c.attachments, paused := c.paused,
                 switch := cfg.switch.(legacyVlan := c.switch.legacyVlan, agingSeconds := c.switch.agingSeconds))
    && c.ports.Keys == cfg.ports.Keys
    && (forall p :: p in cfg.ports ==>
          c.ports[p].hw.ifIndex == cfg.ports[p].hw.ifIndex && c.ports[p].hw.bridgePort == cfg.ports[p].hw.bridgePort
          && c.ports[p].policy.authentication == cfg.ports[p].policy.authentication)
  }

  predicate Carries(sources: seq<Source>, port: Port, vid: VlanId) {
    exists i :: 0 <= i < |sources| && Effective(port, sources[i].tag) == vid
  }

  /** The endpoints whose captured work `clear` invalidates. */
  function Cleared(cfg: Configuration, port: Option<Id>, vid: Option<VlanId>): set<Id> {
    set e | e in cfg.attachments && e in cfg.endpoints && cfg.attachments[e] in cfg.ports
            && (port.None? || cfg.attachments[e] == port.value)
            && (vid.None? || Carries(cfg.endpoints[e].sources, cfg.ports[cfg.attachments[e]], vid.value))
  }

  function ClearedRows(fdb: seq<Row>, port: Option<Id>, vid: Option<VlanId>): seq<Row> {
    Filter(fdb, (r: Row) => !((port.None? || r.port == port.value) && (vid.None? || r.vid == vid.value)))
  }

  predicate Retags(e: Endpoint, vids: set<VlanId>) {
    exists i :: 0 <= i < |e.sources| && e.sources[i].tag.Tagged? && e.sources[i].tag.vid in vids
  }

  function Retagged(cfg: Configuration, vids: set<VlanId>): set<Id> {
    set e | e in cfg.endpoints && Retags(cfg.endpoints[e], vids)
  }

  lemma UnchangedDisclosed(cfg: Configuration, endpoints: set<Id>)
    ensures Disclosed(cfg, cfg, {}, endpoints)
  {
  }

  lemma SettableDisclosed(cfg: Configuration, c: Configuration, ports: set<Id>, endpoints: set<Id>)
    requires c.endpoints == cfg.endpoints && c.attachments == cfg.attachments && c.ports.Keys == cfg.ports.Keys
    requires forall p :: p in cfg.ports && p !in ports ==> c.ports[p].policy.pvid == cfg.ports[p].policy.pvid
    ensures Disclosed(cfg, c, ports, endpoints)
  {
    SameInventory(cfg, c, ports, endpoints);
  }

  /** The command is accepted; a refused one publishes nothing. */
  ghost predicate Accepted(p: Published, a: Action) {
    var cfg := p.f.cfg;
    match a
    case Configure(command, change) => Apply(cfg, command) == Ok(change)
    case SetPlan(candidate, ports, _, _) => Settable(cfg, candidate, ports)
    case ImportLab(lab) => Importable(cfg, lab) && Valid(lab) && Fits(lab)
    case Reboot(restored) => Compose(LabOf(cfg), p.startup) == Ok(restored) && Fits(restored)
    case ClearRows(port, vid) => (port.Some? ==> port.value in cfg.ports) && (vid.Some? ==> vid.value in cfg.vlans)
    case AdvanceClock(moves) => Live(p.f, p.s) && Possible(p.f, p.s, moves)
    case WorkOn(job, _) => ValidJob(p.f, job) ==> job.port in p.s.counters
    case SaveStartup => true
    case OtherCommand => true
  }

  /** What an accepted command publishes; a refused one leaves the state as it is. */
  ghost function Execute(p: Published, a: Action, radius: Radius): Published {
    if !Accepted(p, a) then p else
    var cfg := p.f.cfg;
    match a
    case Configure(command, change) =>
      Stored(Publish(p, change.cfg, Prepared(p.s, cfg, change.cfg), change.ports, change.endpoints, radius), SavingOf(command))
    case SetPlan(candidate, ports, creates, deletes) =>
      Stored(Publish(p, candidate, p.s, ports, Retagged(candidate, creates + deletes), radius), Unsaved)
    case ImportLab(lab) => Stored(Imported(p, lab), Unsaved)
    case Reboot(restored) => Stored(Reset(p, restored), Unsaved)
    case SaveStartup => Stored(Publish(p, cfg, p.s, {}, {}, radius), Whole)
    case ClearRows(port, vid) =>
      Stored(Publish(p, cfg, p.s.(fdb := ClearedRows(p.s.fdb, port, vid)), {}, Cleared(cfg, port, vid), radius), Unsaved)
    case AdvanceClock(moves) => p.(s := AllMoves(p.f, p.s, moves))
    case WorkOn(job, session) => p.(s := Observe(p.f, p.s, job, session))
    case OtherCommand => Publish(p, cfg, p.s, {}, {}, radius)
  }

  // ---------------------------------------------------------------------------------------------
  // Invariants, part by part
  // ---------------------------------------------------------------------------------------------

  /** Exactly one job for each source of an active endpoint on a port that is up; all current, none overdue; all rows sound. */
  ghost predicate Running(p: Published) {
    Generated(p.f) && Drawn(p.f, p.stamp) && Live(p.f, p.s) && Complete(p.f.cfg, p.s.jobs)
  }

  /** The configuration is valid and fits, its saved policy is sound, and the dirty flag tells whether a reboot would change it. */
  ghost predicate Configurable(p: Published) {
    && Valid(p.f.cfg) && Fits(p.f.cfg) && Sound(p.startup)
    && (p.dirty <==> Compose(LabOf(p.f.cfg), p.startup) != Ok(p.f.cfg))
  }

  ghost predicate Invariant(p: Published) {
    Running(p) && Configurable(p)
  }

  ghost const INVARIANT: Published -> bool := p => Invariant(p)

  // -- the simulation half

  lemma PublishRuns(p: Published, after: Configuration, s: Sim, ports: set<Id>, endpoints: set<Id>, radius: Radius)
    requires Generated(p.f) && Drawn(p.f, p.stamp) && Complete(p.f.cfg, s.jobs) && JobsLive(p.f, s.now, s.jobs)
    requires Disclosed(p.f.cfg, after, ports, endpoints)
    requires PortIds(after.ports) && Metered(after.ports.Keys, s.counters)
    requires FdbOk(after, s.now, KeptRows(after, radius.granted, radius.gone, s.fdb))
    ensures Running(Publish(p, after, s, ports, endpoints, radius))
  {
    JobsStayExact(p.f, s.now, s.jobs, after, ports, endpoints, p.stamp);
  }

  lemma StoredRuns(p: Published, saving: Saving)
    ensures Running(p) ==> Running(Stored(p, saving))
    ensures Stored(p, saving).f == p.f && Stored(p, saving).s == p.s && Stored(p, saving).stamp == p.stamp
  {
  }

  lemma RescheduledLive(f: Scene, endpoints: set<Id>, jobs: map<Key, Job>)
    requires Generated(f)
    requires forall k :: k in jobs && k.endpoint !in endpoints ==> KeyOf(jobs[k]) == k && ValidJob(f, jobs[k]) && 0 <= jobs[k].due
    requires forall k :: Wanted(f.cfg, k) && k.endpoint !in endpoints ==> k in jobs
    ensures JobsLive(f, 0, Rescheduled(f, 0, jobs, endpoints)) && Complete(f.cfg, Rescheduled(f, 0, jobs, endpoints))
  {
    var next := Rescheduled(f, 0, jobs, endpoints);
    forall k | k in next ensures KeyOf(next[k]) == k && ValidJob(f, next[k]) && 0 <= next[k].due {
      if k.endpoint in endpoints { NewJobValid(f, 0, k); }
    }
    forall k | Wanted(f.cfg, k) ensures k in next {
      if k.endpoint in endpoints { WantedIsSourced(f.cfg, k, endpoints); }
    }
  }

  lemma ResetRuns(p: Published, cfg: Configuration)
    requires PortIds(cfg.ports)
    ensures Running(Reset(p, cfg))
  {
    RescheduledLive(Reset(p, cfg).f, cfg.endpoints.Keys, map[]);
  }

  lemma RenewedPortsLive(f: Scene, jobs: map<Key, Job>, ports: set<Id>, stamp: nat, endpoints: set<Id>)
    requires Generated(f) && JobsLive(f, 0, jobs) && Complete(f.cfg, jobs)
    requires forall e :: e in f.cfg.attachments && f.cfg.attachments[e] in ports ==> e in endpoints
    ensures var g := f.(pgens := Renewed(f.pgens, ports * f.cfg.ports.Keys, stamp));
            JobsLive(g, 0, Rescheduled(g, 0, jobs, endpoints)) && Complete(g.cfg, Rescheduled(g, 0, jobs, endpoints))
  {
    var g := f.(pgens := Renewed(f.pgens, ports * f.cfg.ports.Keys, stamp));
    forall k | k in jobs && k.endpoint !in endpoints ensures KeyOf(jobs[k]) == k && ValidJob(g, jobs[k]) && 0 <= jobs[k].due {
      assert ValidJob(f, jobs[k]) && f.cfg.attachments[k.endpoint] !in ports;
    }
    RescheduledLive(g, endpoints, jobs);
  }

  lemma RevisitedRuns(p: Published, ports: set<Id>, endpoints: set<Id>)
    requires Running(p) && p.s.now == 0
    requires forall e :: e in p.f.cfg.attachments && p.f.cfg.attachments[e] in ports ==> e in endpoints
    ensures Running(Revisited(p, ports, endpoints))
  {
    RenewedPortsLive(p.f, p.s.jobs, ports, p.stamp, endpoints);
  }

  lemma ImportedRuns(p: Published, cfg: Configuration)
    requires PortIds(cfg.ports)
    ensures Running(Imported(p, cfg))
  {
    ResetRuns(p, cfg);
    var touched := Touched(p.f.cfg, cfg, {});
    RevisitedRuns(Reset(p, cfg), touched, Reached(p.f.cfg, cfg, touched, {}));
  }

  lemma FilterKeepsRows(cfg: Configuration, now: int, fdb: seq<Row>, keep: Row -> bool)
    requires FdbOk(cfg, now, fdb)
    ensures FdbOk(cfg, now, Filter(fdb, keep))
  {
  }

  lemma PreparedFrame(s: Sim, before: Configuration, after: Configuration)
    ensures var t := Prepared(s, before, after);
            t.now == s.now && t.jobs == s.jobs && t.counters == Recounted(s.counters, after)
  {
  }

  lemma EditedSwitch(cfg: Configuration, c: Command)
    requires IsSwitchEdit(c)
    ensures var a := Try(cfg, c);
            a.Attempted? && a.candidate.ports == cfg.ports && a.candidate.vlans == cfg.vlans && a.candidate.attachments == cfg.attachments
  {
  }

  lemma PreparedRows(s: Sim, cfg: Configuration, c: Command, radius: Radius)
    requires FdbOk(cfg, s.now, s.fdb) && Try(cfg, c).Attempted?
    ensures var after := Try(cfg, c).candidate;
            FdbOk(after, s.now, KeptRows(after, radius.granted, radius.gone, Prepared(s, cfg, after).fdb))
  {
    var after := Try(cfg, c).candidate;
    if !IsSwitchEdit(c) {
      CommandsSteady(cfg, c);
      RowsStay(cfg, after, s.now, s.fdb, radius.granted, radius.gone);
    } else {
      EditedSwitch(cfg, c);
      if after.switch.agingSeconds == cfg.switch.agingSeconds {
        RowsStay(cfg, after, s.now, s.fdb, radius.granted, radius.gone);
      } else {
        ReagedRows(cfg, after, s.(counters := Recounted(s.counters, after)));
        FilterKeepsRows(after, s.now, Prepared(s, cfg, after).fdb, r => Stays(after, radius.granted, r) && r !in radius.gone);
      }
    }
  }

  lemma ValidPortIds(cfg: Configuration)
    requires Valid(cfg)
    ensures PortIds(cfg.ports)
  {
  }

  lemma ConfiguredRuns(p: Published, c: Command, change: Change, radius: Radius)
    requires Running(p) && Try(p.f.cfg, c) == Attempted(change.cfg, true, change.ports, change.endpoints) && PortIds(change.cfg.ports)
    ensures Running(Publish(p, change.cfg, Prepared(p.s, p.f.cfg, change.cfg), change.ports, change.endpoints, radius))
  {
    CommandsDisclose(p.f.cfg, c);
    PreparedFrame(p.s, p.f.cfg, change.cfg);
    PreparedRows(p.s, p.f.cfg, c, radius);
    PublishRuns(p, change.cfg, Prepared(p.s, p.f.cfg, change.cfg), change.ports, change.endpoints, radius);
  }

  lemma SettledRuns(p: Published, c: Configuration, ports: set<Id>, endpoints: set<Id>, radius: Radius)
    requires Running(p) && Settable(p.f.cfg, c, ports)
    ensures Running(Publish(p, c, p.s, ports, endpoints, radius))
  {
    SettableDisclosed(p.f.cfg, c, ports, endpoints);
    ValidPortIds(c);
    RowsStay(p.f.cfg, c, p.s.now, p.s.fdb, radius.granted, radius.gone);
    PublishRuns(p, c, p.s, ports, endpoints, radius);
  }

  lemma UnchangedRuns(p: Published, fdb: seq<Row>, endpoints: set<Id>, radius: Radius)
    requires Running(p) && FdbOk(p.f.cfg, p.s.now, fdb)
    ensures Running(Publish(p, p.f.cfg, p.s.(fdb := fdb), {}, endpoints, radius))
  {
    UnchangedDisclosed(p.f.cfg, endpoints);
    RowsStay(p.f.cfg, p.f.cfg, p.s.now, fdb, radius.granted, radius.gone);
    PublishRuns(p, p.f.cfg, p.s.(fdb := fdb), {}, endpoints, radius);
  }

  lemma ObservedLive(f: Scene, s: Sim, job: Job, session: Option<VlanId>)
    requires Live(f, s) && (ValidJob(f, job) ==> job.port in s.counters)
    ensures Live(f, Observe(f, s, job, session)) && Observe(f, s, job, session).jobs == s.jobs
  {
    if ValidJob(f, job) {
      ObserveFrame(f, s, job, session);
      ObserveKeepsRows(f, s, job, session);
    }
  }

  lemma RunningMoves(p: Published, s: Sim)
    requires Running(p) && Live(p.f, s) && s.jobs.Keys == p.s.jobs.Keys
    ensures Running(p.(s := s))
  {
  }

  lemma ConfigurableMoves(p: Published, s: Sim)
    requires Configurable(p)
    ensures Configurable(p.(s := s))
  {
  }

  /** Only the simulation moves on. */
  lemma SimKeeps(p: Published, s: Sim)
    requires INVARIANT(p) && Live(p.f, s) && s.jobs.Keys == p.s.jobs.Keys
    ensures INVARIANT(p.(s := s))
  {
    RunningMoves(p, s);
    ConfigurableMoves(p, s);
  }

  // -- the configuration half

  lemma StoredConfigurable(p: Published, saving: Saving)
    requires Valid(p.f.cfg) && Fits(p.f.cfg) && Sound(p.startup)
    ensures Configurable(Stored(p, saving))
  {
    var q := Stored(p, saving);
    match saving {
      case Unsaved =>
      case Whole => StartupSound(p.f.cfg);
      case Inventory => ReconciledSound(p.startup, p.f.cfg.ports.Keys);
    }
    SoundRecombines(q.f.cfg, q.startup);
    DiffersIsChange(q.f.cfg, q.startup);
  }

  /** A reboot from any published state succeeds, within the capacities. */
  lemma RebootSucceeds(cfg: Configuration, startup: Startup)
    requires Valid(cfg) && Fits(cfg) && Sound(startup)
    ensures Compose(LabOf(cfg), startup).Ok? && Fits(Compose(LabOf(cfg), startup).value)
  {
    SoundRecombines(cfg, startup);
  }

  /** After a reboot the dirty flag is clear: the configuration is what another reboot would restore. */
  lemma RebootCleans(cfg: Configuration, startup: Startup)
    requires Compose(LabOf(cfg), startup).Ok?
    ensures var c := Compose(LabOf(cfg), startup).value; StartupOf(c) == Reconciled(startup, c.ports.Keys)
  {
    SplitAfterCompose(LabOf(cfg), startup);
  }

  // ---------------------------------------------------------------------------------------------
  // One command
  // ---------------------------------------------------------------------------------------------

  lemma AcceptedChange(cfg: Configuration, c: Command, change: Change)
    requires Valid(cfg) && Fits(cfg) && Apply(cfg, c) == Ok(change)
    ensures VALID(change.cfg) && Fits(change.cfg) && PortIds(change.cfg.ports)
    ensures Try(cfg, c) == Attempted(change.cfg, true, change.ports, change.endpoints)
  {
    CommandsKeepValidity(cfg, c);
    ValidPortIds(change.cfg);
  }

  lemma PublishedKeeps(q: Published, saving: Saving)
    requires Running(q) && Valid(q.f.cfg) && Fits(q.f.cfg) && Sound(q.startup)
    ensures INVARIANT(Stored(q, saving))
  {
    StoredRuns(q, saving);
    StoredConfigurable(q, saving);
  }

  lemma ConfigureKeeps(p: Published, c: Command, change: Change, radius: Radius)
    requires INVARIANT(p) && Apply(p.f.cfg, c) == Ok(change)
    ensures var q := Stored(Publish(p, change.cfg, Prepared(p.s, p.f.cfg, change.cfg), change.ports, change.endpoints, radius), SavingOf(c));
            INVARIANT(q)
  {
    AcceptedChange(p.f.cfg, c, change);
    ConfiguredRuns(p, c, change, radius);
    PublishedKeeps(Publish(p, change.cfg, Prepared(p.s, p.f.cfg, change.cfg), change.ports, change.endpoints, radius), SavingOf(c));
  }

  lemma SettableFits(cfg: Configuration, c: Configuration, ports: set<Id>)
    requires Settable(cfg, c, ports) && Fits(cfg)
    ensures Fits(c)
  {
  }

  lemma SetKeeps(p: Published, c: Configuration, ports: set<Id>, endpoints: set<Id>, radius: Radius)
    requires INVARIANT(p) && Settable(p.f.cfg, c, ports)
    ensures var q := Stored(Publish(p, c, p.s, ports, endpoints, radius), Unsaved); INVARIANT(q)
  {
    SettledRuns(p, c, ports, endpoints, radius);
    SettableFits(p.f.cfg, c, ports);
    var q := Publish(p, c, p.s, ports, endpoints, radius);
    StoredRuns(q, Unsaved);
    StoredConfigurable(q, Unsaved);
  }

  lemma ImportKeeps(p: Published, c: Configuration)
    requires Configurable(p) && Valid(c) && Fits(c)
    ensures var q := Stored(Imported(p, c), Unsaved); INVARIANT(q)
  {
    ValidPortIds(c);
    ImportedRuns(p, c);
    StoredRuns(Imported(p, c), Unsaved);
    StoredConfigurable(Imported(p, c), Unsaved);
  }

  lemma RebootKeeps(p: Published, restored: Configuration)
    requires Configurable(p) && Compose(LabOf(p.f.cfg), p.startup) == Ok(restored) && Fits(restored)
    ensures var q := Stored(Reset(p, restored), Unsaved); INVARIANT(q) && !q.dirty
  {
    RebootCleans(p.f.cfg, p.startup);
    ValidPortIds(restored);
    ResetRuns(p, restored);
    PublishedKeeps(Reset(p, restored), Unsaved);
  }

  lemma UnchangedKeeps(p: Published, fdb: seq<Row>, endpoints: set<Id>, radius: Radius, saving: Saving)
    requires INVARIANT(p) && FdbOk(p.f.cfg, p.s.now, fdb)
    ensures var q := Publish(p, p.f.cfg, p.s.(fdb := fdb), {}, endpoints, radius);
            INVARIANT(Stored(q, saving))
  {
    UnchangedRuns(p, fdb, endpoints, radius);
    var q := Publish(p, p.f.cfg, p.s.(fdb := fdb), {}, endpoints, radius);
    StoredRuns(q, saving);
    StoredConfigurable(q, saving);
  }

  lemma ChangesKeep(p: Published, a: Action, radius: Radius)
    requires INVARIANT(p) && Accepted(p, a)
    requires a.Configure? || a.SetPlan? || a.ImportLab? || a.Reboot?
    ensures INVARIANT(Execute(p, a, radius))
  {
    match a
    case Configure(command, change) => ConfigureKeeps(p, command, change, radius);
    case SetPlan(candidate, ports, creates, deletes) => SetKeeps(p, candidate, ports, Retagged(candidate, creates + deletes), radius);
    case ImportLab(lab) => ImportKeeps(p, lab);
    case Reboot(restored) => RebootKeeps(p, restored);
  }

  lemma ClearingKeeps(p: Published, port: Option<Id>, vid: Option<VlanId>, radius: Radius)
    requires INVARIANT(p)
    ensures var q := Stored(Publish(p, p.f.cfg, p.s.(fdb := ClearedRows(p.s.fdb, port, vid)), {}, Cleared(p.f.cfg, port, vid), radius), Unsaved);
            INVARIANT(q)
  {
    FilterKeepsRows(p.f.cfg, p.s.now, p.s.fdb, (r: Row) => !((port.None? || r.port == port.value) && (vid.None? || r.vid == vid.value)));
    UnchangedKeeps(p, ClearedRows(p.s.fdb, port, vid), Cleared(p.f.cfg, port, vid), radius, Unsaved);
  }

  lemma SavingKeeps(p: Published, radius: Radius)
    requires INVARIANT(p)
    ensures INVARIANT(Stored(Publish(p, p.f.cfg, p.s, {}, {}, radius), Whole))
  {
    assert p.s.(fdb := p.s.fdb) == p.s;
    UnchangedKeeps(p, p.s.fdb, {}, radius, Whole);
  }

  lemma OtherKeeps(p: Published, radius: Radius)
    requires INVARIANT(p)
    ensures INVARIANT(Publish(p, p.f.cfg, p.s, {}, {}, radius))
  {
    assert p.s.(fdb := p.s.fdb) == p.s;
    UnchangedRuns(p, p.s.fdb, {}, radius);
  }

  lemma MovesKeep(p: Published, moves: seq<Move>)
    requires INVARIANT(p) && Live(p.f, p.s) && Possible(p.f, p.s, moves)
    ensures INVARIANT(p.(s := AllMoves(p.f, p.s, moves)))
  {
    AllMovesKeep(p.f, p.s, moves);
    SimKeeps(p, AllMoves(p.f, p.s, moves));
  }

  lemma WorkKeeps(p: Published, job: Job, session: Option<VlanId>)
    requires INVARIANT(p) && Live(p.f, p.s) && (ValidJob(p.f, job) ==> job.port in p.s.counters)
    ensures INVARIANT(p.(s := Observe(p.f, p.s, job, session)))
  {
    ObservedLive(p.f, p.s, job, session);
    SimKeeps(p, Observe(p.f, p.s, job, session));
  }

  lemma OthersKeep(p: Published, a: Action, radius: Radius)
    requires INVARIANT(p) && Accepted(p, a)
    requires a.SaveStartup? || a.ClearRows? || a.AdvanceClock? || a.WorkOn? || a.OtherCommand?
    ensures INVARIANT(Execute(p, a, radius))
  {
    match a
    case SaveStartup => SavingKeeps(p, radius);
    case ClearRows(port, vid) => ClearingKeeps(p, port, vid, radius);
    case AdvanceClock(moves) => MovesKeep(p, moves);
    case WorkOn(job, session) => WorkKeeps(p, job, session);
    case OtherCommand => OtherKeeps(p, radius);
  }

  /** Every accepted command keeps both halves of the invariant. */
  lemma ExecuteKeeps(p: Published, a: Action, radius: Radius)
    requires INVARIANT(p) && Accepted(p, a)
    ensures INVARIANT(Execute(p, a, radius))
  {
    if a.Configure? || a.SetPlan? || a.ImportLab? || a.Reboot? { ChangesKeep(p, a, radius); } else { OthersKeep(p, a, radius); }
  }

  // ---------------------------------------------------------------------------------------------
  // Runs
  // ---------------------------------------------------------------------------------------------

  datatype Turn = Turn(action: Action, radius: Radius)

  ghost predicate Turns(p: Published, turn: Turn, q: Published) {
    Accepted(p, turn.action) && q == Execute(p, turn.action, turn.radius)
  }

  ghost const STEP: (Published, Turn, Published) -> bool := (p, t, q) => Turns(p, t, q)

  lemma TurnKeeps(p: Published, turn: Turn, q: Published)
    requires STEP(p, turn, q) && INVARIANT(p)
    ensures INVARIANT(q)
  {
    ExecuteKeeps(p, turn.action, turn.radius);
  }

  lemma TurnsKeep()
    ensures forall p, t, q :: INVARIANT(p) && STEP(p, t, q) ==> INVARIANT(q)
  {
    forall p, t, q | INVARIANT(p) && STEP(p, t, q) ensures INVARIANT(q) {
      TurnKeeps(p, t, q);
    }
  }

  /** Every state ever published has exact jobs, sound rows, a valid configuration and an exact dirty flag. */
  lemma RunKeepsInvariant(states: seq<Published>, turns: seq<Turn>, n: nat)
    requires Path(states, turns, STEP) && INVARIANT(states[0]) && n < |states|
    ensures INVARIANT(states[n])
  {
    TurnsKeep();
    Along(states, turns, STEP, INVARIANT, 0, n);
  }

  /** In every published state a reboot is accepted, and it clears the dirty flag. */
  lemma RebootAccepted(p: Published, radius: Radius)
    requires Configurable(p)
    ensures var reboot := Reboot(Recombined(LabOf(p.f.cfg), p.startup));
            Accepted(p, reboot) && !Execute(p, reboot, radius).dirty
  {
    SoundRecombines(p.f.cfg, p.startup);
    RebootSucceeds(p.f.cfg, p.startup);
    RebootKeeps(p, Recombined(LabOf(p.f.cfg), p.startup));
  }

  // -- captured jobs

  ghost predicate Settled(p: Published, q: Published, j: Job) {
    && CapturedBefore(j, q.stamp)
    && (ValidJob(p.f, j) ==> ValidJob(q.f, j) || Dead(q.f, j))
    && (Dead(p.f, j) ==> Dead(q.f, j))
  }

  ghost function Settling(p: Published, j: Job): Published -> bool {
    (q: Published) => Settled(p, q, j)
  }

  lemma PublishSettles(p: Published, after: Configuration, s: Sim, ports: set<Id>, endpoints: set<Id>, radius: Radius, j: Job)
    requires Drawn(p.f, p.stamp) && CapturedBefore(j, p.stamp) && Disclosed(p.f.cfg, after, ports, endpoints)
    ensures Settling(p, j)(Publish(p, after, s, ports, endpoints, radius))
  {
    ValidOrDead(p.f, after, ports, endpoints, p.stamp, j);
  }

  lemma ResetSettles(p: Published, cfg: Configuration, j: Job)
    requires CapturedBefore(j, p.stamp)
    ensures Settling(p, j)(Stored(Reset(p, cfg), Unsaved)) && Settling(p, j)(Stored(Imported(p, cfg), Unsaved))
  {
  }

  lemma StoredSettles(p: Published, q: Published, saving: Saving, j: Job)
    requires Settling(p, j)(q)
    ensures Settling(p, j)(Stored(q, saving))
  {
  }

  lemma ConfigureSettles(p: Published, c: Command, change: Change, radius: Radius, j: Job)
    requires Drawn(p.f, p.stamp) && CapturedBefore(j, p.stamp) && Apply(p.f.cfg, c) == Ok(change)
    ensures Settling(p, j)(Stored(Publish(p, change.cfg, Prepared(p.s, p.f.cfg, change.cfg), change.ports, change.endpoints, radius), SavingOf(c)))
  {
    CommandsDisclose(p.f.cfg, c);
    PublishSettles(p, change.cfg, Prepared(p.s, p.f.cfg, change.cfg), change.ports, change.endpoints, radius, j);
    StoredSettles(p, Publish(p, change.cfg, Prepared(p.s, p.f.cfg, change.cfg), change.ports, change.endpoints, radius), SavingOf(c), j);
  }

  lemma SetSettles(p: Published, c: Configuration, ports: set<Id>, endpoints: set<Id>, radius: Radius, j: Job)
    requires Drawn(p.f, p.stamp) && CapturedBefore(j, p.stamp) && Settable(p.f.cfg, c, ports)
    ensures Settling(p, j)(Stored(Publish(p, c, p.s, ports, endpoints, radius), Unsaved))
  {
    SettableDisclosed(p.f.cfg, c, ports, endpoints);
    PublishSettles(p, c, p.s, ports, endpoints, radius, j);
    StoredSettles(p, Publish(p, c, p.s, ports, endpoints, radius), Unsaved, j);
  }

  lemma UnchangedSettles(p: Published, s: Sim, endpoints: set<Id>, radius: Radius, saving: Saving, j: Job)
    requires Drawn(p.f, p.stamp) && CapturedBefore(j, p.stamp)
    ensures var q := Publish(p, p.f.cfg, s, {}, endpoints, radius); Settling(p, j)(q) && Settling(p, j)(Stored(q, saving))
  {
    UnchangedDisclosed(p.f.cfg, endpoints);
    PublishSettles(p, p.f.cfg, s, {}, endpoints, radius, j);
    StoredSettles(p, Publish(p, p.f.cfg, s, {}, endpoints, radius), saving, j);
  }

  /** Moving the simulation on touches no generation. */
  lemma SimSettles(p: Published, s: Sim, j: Job)
    requires CapturedBefore(j, p.stamp)
    ensures Settling(p, j)(p.(s := s))
  {
  }

  lemma EditsSettle(p: Published, a: Action, radius: Radius, j: Job)
    requires Drawn(p.f, p.stamp) && Accepted(p, a) && CapturedBefore(j, p.stamp) && (a.Configure? || a.SetPlan?)
    ensures Settling(p, j)(Execute(p, a, radius))
  {
    match a
    case Configure(command, change) => ConfigureSettles(p, command, change, radius, j);
    case SetPlan(candidate, ports, creates, deletes) =>
      SetSettles(p, candidate, ports, Retagged(candidate, creates + deletes), radius, j);
  }

  lemma ResetsSettle(p: Published, a: Action, radius: Radius, j: Job)
    requires Accepted(p, a) && CapturedBefore(j, p.stamp) && (a.ImportLab? || a.Reboot?)
    ensures Settling(p, j)(Execute(p, a, radius))
  {
    match a
    case ImportLab(lab) => ResetSettles(p, lab, j);
    case Reboot(restored) => ResetSettles(p, restored, j);
  }

  lemma OthersSettle(p: Published, a: Action, radius: Radius, j: Job)
    requires Drawn(p.f, p.stamp) && Accepted(p, a) && CapturedBefore(j, p.stamp)
    requires a.SaveStartup? || a.ClearRows? || a.AdvanceClock? || a.WorkOn? || a.OtherCommand?
    ensures Settling(p, j)(Execute(p, a, radius))
  {
    match a
    case SaveStartup => UnchangedSettles(p, p.s, {}, radius, Whole, j);
    case ClearRows(port, vid) =>
      UnchangedSettles(p, p.s.(fdb := ClearedRows(p.s.fdb, port, vid)), Cleared(p.f.cfg, port, vid), radius, Unsaved, j);
    case AdvanceClock(moves) => SimSettles(p, AllMoves(p.f, p.s, moves), j);
    case WorkOn(job, session) => SimSettles(p, Observe(p.f, p.s, job, session), j);
    case OtherCommand => UnchangedSettles(p, p.s, {}, radius, Unsaved, j);
  }

  lemma ExecuteSettles(p: Published, a: Action, radius: Radius, j: Job)
    requires Drawn(p.f, p.stamp) && Accepted(p, a) && CapturedBefore(j, p.stamp)
    ensures Settling(p, j)(Execute(p, a, radius))
  {
    if a.Configure? || a.SetPlan? {
      EditsSettle(p, a, radius, j);
    } else if a.ImportLab? || a.Reboot? {
      ResetsSettle(p, a, radius, j);
    } else {
      OthersSettle(p, a, radius, j);
    }
  }

  /** The job is current, or will never be again. */
  ghost predicate Followed(p: Published, j: Job) {
    CapturedBefore(j, p.stamp) && (ValidJob(p.f, j) || Dead(p.f, j))
  }

  lemma TurnSettles(p: Published, turn: Turn, q: Published, j: Job)
    requires STEP(p, turn, q) && INVARIANT(p) && CapturedBefore(j, p.stamp)
    ensures Settled(p, q, j)
  {
    ExecuteSettles(p, turn.action, turn.radius, j);
  }

  lemma CapturedIsFollowed(p: Published, j: Job)
    requires INVARIANT(p) && ValidJob(p.f, j)
    ensures Followed(p, j)
  {
  }

  ghost function Following(j: Job): Published -> bool {
    (p: Published) => INVARIANT(p) && Followed(p, j)
  }

  ghost function Dying(j: Job): Published -> bool {
    (p: Published) => INVARIANT(p) && CapturedBefore(j, p.stamp) && Dead(p.f, j)
  }

  lemma TurnFollows(p: Published, t: Turn, q: Published, j: Job)
    requires STEP(p, t, q)
    ensures (Following(j)(p) ==> Following(j)(q)) && (Dying(j)(p) ==> Dying(j)(q))
  {
    if Following(j)(p) || Dying(j)(p) {
      TurnKeeps(p, t, q);
      TurnSettles(p, t, q, j);
    }
  }

  lemma TurnsFollow(j: Job)
    ensures forall p, t, q :: Following(j)(p) && STEP(p, t, q) ==> Following(j)(q)
    ensures forall p, t, q :: Dying(j)(p) && STEP(p, t, q) ==> Dying(j)(q)
  {
    forall p, t, q | STEP(p, t, q) ensures (Following(j)(p) ==> Following(j)(q)) && (Dying(j)(p) ==> Dying(j)(q)) {
      TurnFollows(p, t, q, j);
    }
  }

  /** A job captured while it was current and found stale in some later state is stale in every state after that one. */
  lemma StaleForever(states: seq<Published>, turns: seq<Turn>, captured: nat, m: nat, n: nat, j: Job)
    requires Path(states, turns, STEP) && INVARIANT(states[0]) && captured <= m <= n < |states|
    requires ValidJob(states[captured].f, j) && !ValidJob(states[m].f, j)
    ensures !ValidJob(states[n].f, j)
  {
    RunKeepsInvariant(states, turns, captured);
    CapturedIsFollowed(states[captured], j);
    TurnsFollow(j);
    Along(states, turns, STEP, Following(j), captured, m);
    Along(states, turns, STEP, Dying(j), m, n);
    DeadIsInvalid(states[n].f, j);
  }

  // -- the clock

  ghost predicate Onward(p: Published, q: Published) {
    p.f.epoch < q.f.epoch || (p.f.epoch == q.f.epoch && p.s.now <= q.s.now)
  }

  lemma PreparedClock(s: Sim, before: Configuration, after: Configuration)
    ensures Prepared(s, before, after).now == s.now
  {
    PreparedFrame(s, before, after);
  }

  lemma ObserveClock(f: Scene, s: Sim, j: Job, session: Option<VlanId>)
    requires ValidJob(f, j) ==> j.port in s.counters
    ensures Observe(f, s, j, session).now == s.now
  {
    if ValidJob(f, j) { ObserveFrame(f, s, j, session); }
  }

  lemma SimOnward(p: Published, s: Sim)
    requires p.s.now <= s.now
    ensures Onward(p, p.(s := s))
  {
  }

  lemma MovingOnward(p: Published, a: Action, radius: Radius)
    requires Accepted(p, a) && (a.AdvanceClock? || a.WorkOn?)
    ensures Onward(p, Execute(p, a, radius))
  {
    match a
    case AdvanceClock(moves) => AllMovesKeep(p.f, p.s, moves); SimOnward(p, AllMoves(p.f, p.s, moves));
    case WorkOn(job, session) => ObserveClock(p.f, p.s, job, session); SimOnward(p, Observe(p.f, p.s, job, session));
  }

  lemma ExecuteOnward(p: Published, a: Action, radius: Radius)
    requires Drawn(p.f, p.stamp) && Accepted(p, a)
    ensures Onward(p, Execute(p, a, radius))
  {
    if a.AdvanceClock? || a.WorkOn? {
      MovingOnward(p, a, radius);
    } else if a.Configure? {
      PreparedClock(p.s, p.f.cfg, a.change.cfg);
    }
  }

  lemma TurnOnward(p: Published, turn: Turn, q: Published)
    requires STEP(p, turn, q) && INVARIANT(p)
    ensures Onward(p, q)
  {
    ExecuteOnward(p, turn.action, turn.radius);
  }

  /** Simulated time never goes backwards within an epoch, and no epoch ever returns. */
  lemma TimeOnward(states: seq<Published>, turns: seq<Turn>, m: nat, n: nat)
    requires Path(states, turns, STEP) && INVARIANT(states[0]) && m <= n < |states|
    ensures Onward(states[m], states[n])
  {
    RunKeepsInvariant(states, turns, m);
    var later := (p: Published) => INVARIANT(p) && Onward(states[m], p);
    forall p, t, q | later(p) && STEP(p, t, q) ensures later(q) {
      TurnKeeps(p, t, q);
      TurnOnward(p, t, q);
    }
    Along(states, turns, STEP, later, m, n);
  }
}
