/** What an accepted command leaves in the published state: configuration, scheduled work, rows, counters and saved policy. */
module PublishedEffects {
  import opened Outcomes
  import opened Configuration
  import opened Commands
  import opened CommandEffects
  import opened ScopedChecks
  import opened Storage
  import opened Simulation
  import opened Advance
  import opened Publication
  import L = Lifecycle

  // ---------------------------------------------------------------------------------------------
  // Acceptance
  // ---------------------------------------------------------------------------------------------

  /**
   * A command is accepted exactly when it is possible and its candidate is valid and fits; what is accepted differs from the
   * configuration exactly by what the command names.
   */
  lemma AcceptedExactly(cfg: Configuration, c: Command)
    requires Valid(cfg) && Fits(cfg)
    ensures Apply(cfg, c).Ok? ==> Possible(cfg, c) && Done(cfg, Apply(cfg, c).value.cfg, c)
    ensures Possible(cfg, c) <==> Try(cfg, c).Attempted?
    ensures Possible(cfg, c) ==> (Apply(cfg, c).Ok? <==> Valid(Try(cfg, c).candidate) && Fits(Try(cfg, c).candidate))
  {
    ServicesAreOk(cfg);
    CommandsMean(cfg, c);
    CommandsKeepValidity(cfg, c);
    MeaningMeans(cfg, c);
    AppliedForms(cfg, c);
  }

  lemma ServicesAreOk(cfg: Configuration)
    requires Valid(cfg)
    ensures ServicesOk(cfg.services)
  {
  }

  lemma MeaningMeans(cfg: Configuration, c: Command)
    requires Meaning(cfg, c)(Try(cfg, c))
    ensures Possible(cfg, c) <==> Try(cfg, c).Attempted?
    ensures Try(cfg, c).Attempted? ==> Done(cfg, Try(cfg, c).candidate, c)
  {
  }

  lemma AppliedForms(cfg: Configuration, c: Command)
    ensures Apply(cfg, c).Ok? ==>
              Try(cfg, c).Attempted? && Try(cfg, c).candidate == Apply(cfg, c).value.cfg
    ensures Try(cfg, c).Attempted? && Apply(cfg, c) != Err(Invalid) && Fits(Try(cfg, c).candidate) ==> Apply(cfg, c).Ok?
  {
  }

  // ---------------------------------------------------------------------------------------------
  // Whose captured work a command renews
  // ---------------------------------------------------------------------------------------------

  /** The ports and the endpoints a command names are these. */
  ghost predicate Names(a: Attempt, port: Id -> bool, endpoint: Id -> bool) {
    a.Attempted? ==> (forall p :: p in a.ports <==> port(p)) && (forall e :: e in a.endpoints <==> endpoint(e))
  }

  ghost predicate NamesNothing(a: Attempt) {
    Names(a, (p: Id) => false, (e: Id) => false)
  }

  /** Something else than the name, the alias and the notifications of a port has changed. */
  ghost predicate Matters(p: Port, q: Port) {
    q != Port(p.hw.(name := q.hw.name), p.policy.(alias := q.policy.alias, linkNotifications := q.policy.linkNotifications))
  }

  ghost predicate TaggedFor(cfg: Configuration, e: Id, vid: VlanId) {
    e in cfg.endpoints && exists s :: s in cfg.endpoints[e].sources && s.tag == Tagged(vid)
  }

  ghost predicate SwitchingNames(cfg: Configuration, c: SwitchingCommand, a: Attempt) {
    match c
    case PortCreate(port, _, _, _) => Names(a, (p: Id) => p == port, (e: Id) => false)
    case PortDelete(port) => Names(a, (p: Id) => p == port, (e: Id) => e in cfg.attachments && cfg.attachments[e] == port)
    case PortEdit(port, _) =>
      Names(a, (p: Id) => p == port && port in cfg.ports && a.Attempted? && port in a.candidate.ports
                          && Matters(cfg.ports[port], a.candidate.ports[port]),
            (e: Id) => false)
    case VlanCreate(vid, _, _) => Names(a, (p: Id) => false, (e: Id) => TaggedFor(cfg, e, vid))
    case VlanEdit(_, _) => NamesNothing(a)
    case VlanDelete(vid) => Names(a, (p: Id) => p in cfg.ports && Mentions(cfg.ports[p].policy, vid), (e: Id) => TaggedFor(cfg, e, vid))
    case SwitchEdit(_) => NamesNothing(a)
  }

  ghost predicate EndpointsName(cfg: Configuration, c: EndpointCommand, a: Attempt) {
    match c
    case EndpointCreate(record) => Names(a, (p: Id) => false, (e: Id) => e == record.id)
    case EndpointEdit(id, _, active, sources) => Names(a, (p: Id) => false, (e: Id) => e == id && (active.Some? || sources.Some?))
    case EndpointDelete(id) => Names(a, (p: Id) => false, (e: Id) => e == id)
    case Attach(id, _) => Names(a, (p: Id) => false, (e: Id) => e == id)
    case Detach(id) => Names(a, (p: Id) => false, (e: Id) => e == id)
    case SupplicantSave(_, _, _) => NamesNothing(a)
  }

  lemma UsersExactly(cfg: Configuration, vid: VlanId)
    ensures forall e :: e in Users(cfg, vid) <==> TaggedFor(cfg, e, vid)
  {
    forall e ensures e in Users(cfg, vid) <==> TaggedFor(cfg, e, vid) {
      if e in cfg.endpoints {
        var sources := cfg.endpoints[e].sources;
        if i :| 0 <= i < |sources| && sources[i].tag == Tagged(vid) { assert sources[i] in sources; }
      }
    }
  }

  lemma SubstanceMatters(p: Port, q: Port)
    ensures Substance(p) != Substance(q) <==> Matters(p, q)
  {
    var r := Port(p.hw.(name := q.hw.name), p.policy.(alias := q.policy.alias, linkNotifications := q.policy.linkNotifications));
    assert Substance(r) == Substance(p);
    if Substance(p) == Substance(q) {
      assert q.hw == q.hw.(name := 0).(name := q.hw.name) == r.hw;
      var a, l := q.policy.alias, q.policy.linkNotifications;
      assert q.policy == q.policy.(alias := 0, linkNotifications := true).(alias := a, linkNotifications := l) == r.policy;
    }
  }

  lemma EditPortNames(cfg: Configuration, port: Id, patch: PortPatch)
    ensures SwitchingNames(cfg, PortEdit(port, patch), EditPort(cfg, port, patch))
  {
    if port in cfg.ports {
      SubstanceMatters(cfg.ports[port], Patched(cfg.ports[port], Completed(patch, cfg.ports[port])));
    }
  }

  lemma CreateVlanNames(cfg: Configuration, vid: VlanId, name: Option<VlanName>, fdbId: Option<nat>)
    ensures SwitchingNames(cfg, VlanCreate(vid, name, fdbId), CreateVlan(cfg, vid, name, fdbId))
  {
    UsersExactly(cfg, vid);
  }

  lemma DeleteVlanNames(cfg: Configuration, vid: VlanId)
    ensures SwitchingNames(cfg, VlanDelete(vid), DeleteVlan(cfg, vid))
  {
    UsersExactly(cfg, vid);
  }

  lemma PortInventoryNames(cfg: Configuration, c: SwitchingCommand)
    requires c.PortCreate? || c.PortDelete?
    ensures SwitchingNames(cfg, c, TrySwitching(cfg, c))
  {
  }

  lemma SwitchRecordNames(cfg: Configuration, c: SwitchingCommand)
    requires c.VlanEdit? || c.SwitchEdit?
    ensures SwitchingNames(cfg, c, TrySwitching(cfg, c))
  {
  }

  /** The ports and endpoints whose captured work a switching command renews. */
  lemma SwitchingNamesExactly(cfg: Configuration, c: SwitchingCommand)
    ensures SwitchingNames(cfg, c, TrySwitching(cfg, c))
  {
    match c
    case PortEdit(port, patch) => EditPortNames(cfg, port, patch);
    case VlanCreate(vid, octets, fdbId) => CreateVlanNames(cfg, vid, octets, fdbId);
    case VlanDelete(vid) => DeleteVlanNames(cfg, vid);
    case _ => if c.PortCreate? || c.PortDelete? { PortInventoryNames(cfg, c); } else { SwitchRecordNames(cfg, c); }
  }

  lemma EndpointsNameExactly(cfg: Configuration, c: EndpointCommand)
    ensures EndpointsName(cfg, c, TryEndpoints(cfg, c))
  {
  }

  // ---------------------------------------------------------------------------------------------
  // The published state
  // ---------------------------------------------------------------------------------------------

  /** The link of a port has gone up or down. */
  predicate Flipped(before: Configuration, after: Configuration, p: Id) {
    Up(before.ports, before.attachments, p) != Up(after.ports, after.attachments, p)
  }

  /** The endpoint is named, or is or was attached to a port that is named or whose link has flipped. */
  ghost predicate Renews(before: Configuration, after: Configuration, ports: set<Id>, endpoints: set<Id>, e: Id) {
    || e in endpoints
    || (e in before.attachments && (before.attachments[e] in ports || Flipped(before, after, before.attachments[e])))
    || (e in after.attachments && (after.attachments[e] in ports || Flipped(before, after, after.attachments[e])))
  }

  lemma ReachedExactly(before: Configuration, after: Configuration, ports: set<Id>, endpoints: set<Id>, e: Id)
    ensures e in Reached(before, after, Touched(before, after, ports), endpoints) <==> Renews(before, after, ports, endpoints, e)
  {
  }

  /** A job that is captured now: its facts are those of the scene and it is due after the source's initial delay. */
  ghost predicate Captured(f: Scene, now: int, k: Key, j: Job) {
    && KeyOf(j) == k && ValidJob(f, j) && SourceOf(f.cfg, k).Some? && j.due == now + SourceOf(f.cfg, k).value.initialDelay
  }

  /** Renewed endpoints have new jobs for every source that is wanted; the others have the jobs that they had. */
  ghost predicate Rescheduling(before: map<Key, Job>, f: Scene, now: int, after: map<Key, Job>, renewed: Id -> bool) {
    forall k: Key ::
      if renewed(k.endpoint) then (k in after <==> Wanted(f.cfg, k)) && (k in after ==> Captured(f, now, k, after[k]))
      else (k in after <==> k in before) && (k in after ==> after[k] == before[k])
  }

  lemma RescheduledExactly(f: Scene, now: int, jobs: map<Key, Job>, endpoints: set<Id>)
    requires Generated(f)
    ensures Rescheduling(jobs, f, now, Rescheduled(f, now, jobs, endpoints), (e: Id) => e in endpoints)
  {
    var after := Rescheduled(f, now, jobs, endpoints);
    forall k: Key | k.endpoint in endpoints
      ensures (k in after <==> Wanted(f.cfg, k)) && (k in after ==> Captured(f, now, k, after[k]))
    {
      if Wanted(f.cfg, k) {
        WantedIsSourced(f.cfg, k, endpoints);
        NewJobValid(f, now, k);
      }
    }
  }

  /** A row stays while its port is up and its VLAN exists and is admitted or granted there, unless its session took it along. */
  ghost predicate RowLasts(cfg: Configuration, radius: L.Radius, r: Row) {
    && r.port in cfg.ports && Up(cfg.ports, cfg.attachments, r.port) && r.vid in cfg.vlans && r !in radius.gone
    && (r.vid in cfg.ports[r.port].policy.admitted || (r.port, r.vid) in radius.granted)
  }

  lemma KeptExactly(cfg: Configuration, radius: L.Radius, fdb: seq<Row>)
    ensures forall r :: r in KeptRows(cfg, radius.granted, radius.gone, fdb) <==> r in fdb && RowLasts(cfg, radius, r)
  {
  }

  /** A row whose expiry is counted anew from when it was last seen. */
  function Redated(r: Row, aging: Aging): Row {
    r.(expiresAt := r.lastSeen + aging * 1000)
  }

  lemma ReagedAre(fdb: seq<Row>, aging: Aging, r: Row)
    ensures r in Reaged(fdb, aging) <==> exists q :: q in fdb && r == Redated(q, aging)
  {
    var reaged := Reaged(fdb, aging);
    if r in reaged { var i :| 0 <= i < |reaged| && reaged[i] == r; assert fdb[i] in fdb; }
    if q :| q in fdb && r == Redated(q, aging) { var i :| 0 <= i < |fdb| && fdb[i] == q; assert reaged[i] in reaged; }
  }

  lemma AgedAre(s: Sim, r: Row)
    ensures r in Age(s).fdb <==> r in s.fdb && r.expiresAt > s.now
  {
  }

  lemma ReagedExactly(s: Sim, fdb: seq<Row>, aging: Aging)
    ensures var t := Age(s.(fdb := Reaged(fdb, aging)));
            forall r :: r in t.fdb <==> r.expiresAt > s.now && exists q :: q in fdb && r == Redated(q, aging)
  {
    forall r ensures r in Age(s.(fdb := Reaged(fdb, aging))).fdb <==> r.expiresAt > s.now && exists q :: q in fdb && r == Redated(q, aging) {
      ReagedAre(fdb, aging, r);
      AgedAre(s.(fdb := Reaged(fdb, aging)), r);
    }
  }

  /** The rows a configuration command leaves: those that last, redated if the aging time has changed. */
  ghost predicate RowsLeft(before: Configuration, after: Configuration, now: int, was: seq<Row>, left: seq<Row>, radius: L.Radius) {
    forall r :: r in left <==>
      && RowLasts(after, radius, r)
      && if after.switch.agingSeconds == before.switch.agingSeconds then r in was
         else r.expiresAt > now && exists q :: q in was && r == Redated(q, after.switch.agingSeconds)
  }

  lemma PreparedExactly(s: Sim, before: Configuration, after: Configuration, radius: L.Radius)
    ensures var t := L.Prepared(s, before, after);
            RowsLeft(before, after, s.now, s.fdb, KeptRows(after, radius.granted, radius.gone, t.fdb), radius)
  {
    var t := s.(counters := L.Recounted(s.counters, after));
    KeptExactly(after, radius, L.Prepared(s, before, after).fdb);
    if after.switch.agingSeconds != before.switch.agingSeconds { ReagedExactly(t, s.fdb, after.switch.agingSeconds); }
  }

  /** Ports keep their counters; a new one starts at zero. */
  ghost predicate Counting(was: map<Id, Counters>, now: map<Id, Counters>, cfg: Configuration) {
    && (forall p :: p in now <==> p in cfg.ports)
    && (forall p :: p in now ==> if p in was then now[p] == was[p] else now[p] == Counters(0, 0, 0))
  }

  /** The saved policy: as it was, but that creating and deleting ports saves that inventory's policies. */
  ghost predicate Saved(was: Startup, now: Startup, c: Command, cfg: Configuration) {
    && now == was.(ports := now.ports)
    && (if c.Switching? && (c.switching.PortCreate? || c.switching.PortDelete?)
        then (forall p :: p in now.ports <==> p in cfg.ports)
             && (forall p :: p in now.ports ==> if p in was.ports then now.ports[p] == was.ports[p] else now.ports[p] == DEFAULT_POLICY)
        else now.ports == was.ports)
  }

  ghost function Renewing(before: Configuration, after: Configuration, ports: set<Id>, endpoints: set<Id>): Id -> bool {
    (e: Id) => Renews(before, after, ports, endpoints, e)
  }

  /** What an accepted configuration command publishes. */
  ghost predicate Configured(p: L.Published, q: L.Published, c: Command, change: Change, radius: L.Radius) {
    && q.f.cfg == change.cfg && q.f.epoch == p.f.epoch && q.s.now == p.s.now
    && Rescheduling(p.s.jobs, q.f, p.s.now, q.s.jobs, Renewing(p.f.cfg, change.cfg, change.ports, change.endpoints))
    && RowsLeft(p.f.cfg, change.cfg, p.s.now, p.s.fdb, q.s.fdb, radius)
    && Counting(p.s.counters, q.s.counters, change.cfg)
    && Saved(p.startup, q.startup, c, change.cfg)
  }

  lemma RescheduledAs(f: Scene, now: int, jobs: map<Key, Job>, endpoints: set<Id>, renewed: Id -> bool)
    requires Generated(f) && forall e: Id :: e in endpoints <==> renewed(e)
    ensures Rescheduling(jobs, f, now, Rescheduled(f, now, jobs, endpoints), renewed)
  {
    RescheduledExactly(f, now, jobs, endpoints);
  }

  lemma ReachedAre(before: Configuration, after: Configuration, ports: set<Id>, endpoints: set<Id>)
    ensures var reached := Reached(before, after, Touched(before, after, ports), endpoints);
            forall e: Id :: e in reached <==> Renewing(before, after, ports, endpoints)(e)
  {
    forall e: Id
      ensures e in Reached(before, after, Touched(before, after, ports), endpoints) <==> Renewing(before, after, ports, endpoints)(e)
    {
      ReachedExactly(before, after, ports, endpoints, e);
    }
  }

  lemma NextJobsExactly(f: Scene, now: int, jobs: map<Key, Job>, after: Configuration, ports: set<Id>, endpoints: set<Id>, stamp: nat)
    requires Generated(NextScene(f, after, ports, endpoints, stamp))
    ensures Rescheduling(jobs, NextScene(f, after, ports, endpoints, stamp), now, NextJobs(f, now, jobs, after, ports, endpoints, stamp),
                         Renewing(f.cfg, after, ports, endpoints))
  {
    ReachedAre(f.cfg, after, ports, endpoints);
    RescheduledAs(NextScene(f, after, ports, endpoints, stamp), now, jobs,
                  Reached(f.cfg, after, Touched(f.cfg, after, ports), endpoints), Renewing(f.cfg, after, ports, endpoints));
  }

  lemma HoldsGenerated(p: L.Published)
    requires L.INVARIANT(p)
    ensures Generated(p.f)
  {
  }

  /** What publishing is made of. */
  lemma ConfigureMakes(p: L.Published, c: Command, change: Change, radius: L.Radius)
    requires L.Accepted(p, L.Configure(c, change))
    ensures var q, t := L.Execute(p, L.Configure(c, change), radius), L.Prepared(p.s, p.f.cfg, change.cfg);
            && q.f == NextScene(p.f, change.cfg, change.ports, change.endpoints, p.stamp)
            && q.s.jobs == NextJobs(p.f, t.now, t.jobs, change.cfg, change.ports, change.endpoints, p.stamp)
            && q.s.fdb == KeptRows(change.cfg, radius.granted, radius.gone, t.fdb)
            && q.s.now == t.now && q.s.counters == t.counters
            && q.startup == (if L.SavingOf(c) == L.Inventory then Reconciled(p.startup, change.cfg.ports.Keys) else p.startup)
  {
  }

  lemma SavedExactly(p: L.Published, c: Command, cfg: Configuration)
    ensures Saved(p.startup, if L.SavingOf(c) == L.Inventory then Reconciled(p.startup, cfg.ports.Keys) else p.startup, c, cfg)
  {
  }

  lemma CountedExactly(counters: map<Id, Counters>, cfg: Configuration)
    ensures Counting(counters, L.Recounted(counters, cfg), cfg)
  {
  }

  /**
   * An accepted configuration command publishes the accepted configuration; it renews the work of exactly the endpoints that it
   * concerns and leaves that of the others, keeps exactly the rows that last, every counter, and the saved policy.
   */
  lemma ConfiguredExactly(p: L.Published, c: Command, change: Change, radius: L.Radius)
    requires L.INVARIANT(p) && L.Accepted(p, L.Configure(c, change))
    ensures Configured(p, L.Execute(p, L.Configure(c, change), radius), c, change, radius)
  {
    var q := L.Execute(p, L.Configure(c, change), radius);
    L.ExecuteKeeps(p, L.Configure(c, change), radius);
    HoldsGenerated(q);
    ConfigureMakes(p, c, change, radius);
    L.PreparedFrame(p.s, p.f.cfg, change.cfg);
    NextJobsExactly(p.f, p.s.now, p.s.jobs, change.cfg, change.ports, change.endpoints, p.stamp);
    PreparedExactly(p.s, p.f.cfg, change.cfg, radius);
    CountedExactly(p.s.counters, change.cfg);
    SavedExactly(p, c, change.cfg);
  }

  lemma HoldsWork(p: L.Published, k: Key, r: Row)
    requires L.INVARIANT(p)
    ensures k in p.s.jobs ==> Up(p.f.cfg.ports, p.f.cfg.attachments, p.s.jobs[k].port)
    ensures r in p.s.fdb ==> Up(p.f.cfg.ports, p.f.cfg.attachments, r.port)
  {
  }

  lemma DownIsQuiet(q: L.Published, port: Id)
    requires L.INVARIANT(q) && port in q.f.cfg.ports && !q.f.cfg.ports[port].policy.adminUp
    ensures (forall k :: k in q.s.jobs ==> q.s.jobs[k].port != port) && (forall r :: r in q.s.fdb ==> r.port != port)
  {
    forall k | k in q.s.jobs ensures q.s.jobs[k].port != port { HoldsWork(q, k, Row(0, 0, 1, 0, 0, 0, 0, 0)); }
    forall r | r in q.s.fdb ensures r.port != port { HoldsWork(q, Key(0, 0), r); }
  }

  lemma HoldsConfiguration(p: L.Published)
    requires L.INVARIANT(p)
    ensures VALID(p.f.cfg) && Fits(p.f.cfg)
  {
  }

  lemma EditShutsDown(cfg: Configuration, port: Id, patch: PortPatch, change: Change)
    requires VALID(cfg) && Fits(cfg) && patch.adminUp == Some(false) && Apply(cfg, Switching(PortEdit(port, patch))) == Ok(change)
    ensures port in change.cfg.ports && !change.cfg.ports[port].policy.adminUp
  {
    AppliedForms(cfg, Switching(PortEdit(port, patch)));
    EditPortDoes(cfg, port, patch);
  }

  /** Shutting a port down leaves it down, without a job and without a row. */
  lemma ShutdownQuiets(p: L.Published, port: Id, patch: PortPatch, change: Change, radius: L.Radius)
    requires L.INVARIANT(p) && patch.adminUp == Some(false)
    requires L.Accepted(p, L.Configure(Switching(PortEdit(port, patch)), change))
    ensures var q := L.Execute(p, L.Configure(Switching(PortEdit(port, patch)), change), radius);
            && port in q.f.cfg.ports && !q.f.cfg.ports[port].policy.adminUp
            && (forall k :: k in q.s.jobs ==> q.s.jobs[k].port != port) && (forall r :: r in q.s.fdb ==> r.port != port)
  {
    var c := Switching(PortEdit(port, patch));
    L.ExecuteKeeps(p, L.Configure(c, change), radius);
    HoldsConfiguration(p);
    EditShutsDown(p.f.cfg, port, patch, change);
    ConfigureMakes(p, c, change, radius);
    DownIsQuiet(L.Execute(p, L.Configure(c, change), radius), port);
  }

  // ---------------------------------------------------------------------------------------------
  // The other actions
  // ---------------------------------------------------------------------------------------------

  /** A row that `clear` was asked to take out. */
  predicate Asked(r: Row, port: Option<Id>, vid: Option<VlanId>) {
    (port.Some? ==> r.port == port.value) && (vid.Some? ==> r.vid == vid.value)
  }

  lemma ClearedExactly(fdb: seq<Row>, port: Option<Id>, vid: Option<VlanId>)
    ensures forall r :: r in L.ClearedRows(fdb, port, vid) <==> r in fdb && !Asked(r, port, vid)
  {
  }

  lemma ClearMakes(p: L.Published, port: Option<Id>, vid: Option<VlanId>, radius: L.Radius)
    requires L.Accepted(p, L.ClearRows(port, vid))
    ensures var q := L.Execute(p, L.ClearRows(port, vid), radius);
            && q.f == NextScene(p.f, p.f.cfg, {}, L.Cleared(p.f.cfg, port, vid), p.stamp)
            && q.s.jobs == NextJobs(p.f, p.s.now, p.s.jobs, p.f.cfg, {}, L.Cleared(p.f.cfg, port, vid), p.stamp)
            && q.s.fdb == KeptRows(p.f.cfg, radius.granted, radius.gone, L.ClearedRows(p.s.fdb, port, vid))
            && q.s.now == p.s.now && q.s.counters == p.s.counters && q.startup == p.startup
  {
  }

  /** Clearing takes out exactly the rows asked for, and captures anew the work of the endpoints that could learn them again. */
  lemma ClearExactly(p: L.Published, port: Option<Id>, vid: Option<VlanId>, radius: L.Radius)
    requires L.INVARIANT(p) && L.Accepted(p, L.ClearRows(port, vid))
    ensures var q := L.Execute(p, L.ClearRows(port, vid), radius);
            && q.f.cfg == p.f.cfg && q.s.now == p.s.now && q.s.counters == p.s.counters && q.startup == p.startup
            && (forall r :: r in q.s.fdb <==> r in p.s.fdb && !Asked(r, port, vid) && RowLasts(p.f.cfg, radius, r))
            && Rescheduling(p.s.jobs, q.f, p.s.now, q.s.jobs, Renewing(p.f.cfg, p.f.cfg, {}, L.Cleared(p.f.cfg, port, vid)))
  {
    L.ExecuteKeeps(p, L.ClearRows(port, vid), radius);
    HoldsGenerated(L.Execute(p, L.ClearRows(port, vid), radius));
    ClearMakes(p, port, vid, radius);
    ClearedExactly(p.s.fdb, port, vid);
    KeptExactly(p.f.cfg, radius, L.ClearedRows(p.s.fdb, port, vid));
    NextJobsExactly(p.f, p.s.now, p.s.jobs, p.f.cfg, {}, L.Cleared(p.f.cfg, port, vid), p.stamp);
  }

  lemma SaveMakes(p: L.Published, radius: L.Radius)
    ensures var q := L.Execute(p, L.SaveStartup, radius);
            && q.f.cfg == p.f.cfg && q.startup == StartupOf(p.f.cfg)
            && q.dirty == (StartupOf(p.f.cfg) != Reconciled(StartupOf(p.f.cfg), p.f.cfg.ports.Keys))
  {
  }

  lemma OwnInventory(cfg: Configuration)
    ensures Reconciled(StartupOf(cfg), cfg.ports.Keys) == StartupOf(cfg)
  {
    assert Reconciled(StartupOf(cfg), cfg.ports.Keys).ports == StartupOf(cfg).ports;
  }

  lemma ComposesBack(cfg: Configuration)
    requires VALID(cfg)
    ensures Compose(LabOf(cfg), StartupOf(cfg)) == Ok(cfg)
  {
    ComposeAfterSplit(cfg);
  }

  /** Saving makes the present policy the one of the next reboot, which then changes nothing. */
  lemma SaveExactly(p: L.Published, radius: L.Radius)
    requires VALID(p.f.cfg)
    ensures var q := L.Execute(p, L.SaveStartup, radius);
            q.f.cfg == p.f.cfg && q.startup == StartupOf(p.f.cfg) && !q.dirty && Compose(LabOf(q.f.cfg), q.startup) == Ok(q.f.cfg)
  {
    SaveMakes(p, radius);
    OwnInventory(p.f.cfg);
    ComposesBack(p.f.cfg);
  }

  /** A scene in which everything starts with the same generation. */
  lemma UniformScene(cfg: Configuration, stamp: nat)
    ensures Generated(Scene(cfg, stamp, L.Uniform(cfg.endpoints.Keys, stamp), L.Uniform(cfg.ports.Keys, stamp)))
  {
  }

  lemma AllCaptured(f: Scene)
    requires Generated(f)
    ensures var jobs := Rescheduled(f, 0, map[], f.cfg.endpoints.Keys);
            (forall k :: k in jobs <==> Wanted(f.cfg, k)) && (forall k :: k in jobs ==> Captured(f, 0, k, jobs[k]))
  {
    RescheduledExactly(f, 0, map[], f.cfg.endpoints.Keys);
    forall k ensures k in Rescheduled(f, 0, map[], f.cfg.endpoints.Keys) <==> Wanted(f.cfg, k) {}
  }

  lemma RebootMakes(p: L.Published, restored: Configuration, radius: L.Radius)
    requires L.Accepted(p, L.Reboot(restored))
    ensures var q := L.Execute(p, L.Reboot(restored), radius);
            && q.f == Scene(restored, p.stamp, L.Uniform(restored.endpoints.Keys, p.stamp), L.Uniform(restored.ports.Keys, p.stamp))
            && q.s.jobs == Rescheduled(q.f, 0, map[], restored.endpoints.Keys)
            && q.s.now == 0 && q.s.fdb == [] && q.s.learnedDiscards == 0 && q.startup == p.startup
            && q.s.counters == L.ZeroCounters(restored)
  {
  }

  /** A reboot starts over: the restored configuration in a new epoch at time zero, every wanted source captured anew, tables empty. */
  lemma RebootExactly(p: L.Published, restored: Configuration, radius: L.Radius)
    requires L.Accepted(p, L.Reboot(restored))
    ensures var q := L.Execute(p, L.Reboot(restored), radius);
            && q.f.cfg == restored && q.f.epoch == p.stamp && q.s.now == 0 && q.s.fdb == [] && q.s.learnedDiscards == 0
            && q.startup == p.startup
            && (forall k :: k in q.s.jobs <==> Wanted(restored, k))
            && (forall k :: k in q.s.jobs ==> Captured(q.f, 0, k, q.s.jobs[k]))
            && (forall i :: i in q.s.counters <==> i in restored.ports) && (forall i :: i in q.s.counters ==> q.s.counters[i] == Counters(0, 0, 0))
  {
    RebootMakes(p, restored, radius);
    UniformScene(restored, p.stamp);
    AllCaptured(L.Execute(p, L.Reboot(restored), radius).f);
  }

  lemma PlanMakes(p: L.Published, c: Configuration, ports: set<Id>, creates: set<VlanId>, deletes: set<VlanId>, radius: L.Radius)
    requires L.Accepted(p, L.SetPlan(c, ports, creates, deletes))
    ensures var q, renewed := L.Execute(p, L.SetPlan(c, ports, creates, deletes), radius), L.Retagged(c, creates + deletes);
            && q.f == NextScene(p.f, c, ports, renewed, p.stamp)
            && q.s.jobs == NextJobs(p.f, p.s.now, p.s.jobs, c, ports, renewed, p.stamp)
            && q.s.fdb == KeptRows(c, radius.granted, radius.gone, p.s.fdb)
            && q.s.now == p.s.now && q.s.counters == p.s.counters && q.startup == p.startup
  {
  }

  /** A planned SET publishes its candidate, and renews the work of its ports and of the endpoints tagged for created or deleted VLANs. */
  lemma PlanExactly(p: L.Published, c: Configuration, ports: set<Id>, creates: set<VlanId>, deletes: set<VlanId>, radius: L.Radius)
    requires L.INVARIANT(p) && L.Accepted(p, L.SetPlan(c, ports, creates, deletes))
    ensures var q := L.Execute(p, L.SetPlan(c, ports, creates, deletes), radius);
            && q.f.cfg == c && q.s.now == p.s.now && q.s.counters == p.s.counters && q.startup == p.startup
            && (forall r :: r in q.s.fdb <==> r in p.s.fdb && RowLasts(c, radius, r))
            && Rescheduling(p.s.jobs, q.f, p.s.now, q.s.jobs, Renewing(p.f.cfg, c, ports, L.Retagged(c, creates + deletes)))
  {
    L.ExecuteKeeps(p, L.SetPlan(c, ports, creates, deletes), radius);
    HoldsGenerated(L.Execute(p, L.SetPlan(c, ports, creates, deletes), radius));
    PlanMakes(p, c, ports, creates, deletes, radius);
    KeptExactly(c, radius, p.s.fdb);
    NextJobsExactly(p.f, p.s.now, p.s.jobs, c, ports, L.Retagged(c, creates + deletes), p.stamp);
  }
}
