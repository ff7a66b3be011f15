/**
 * What a command publishes: the wrapper that renews generations, drops stale rows and schedules exactly the affected endpoints.
 */
module Publication {
  import opened Outcomes
  import opened Configuration
  import opened Commands
  import opened CommandFrames
  import opened Simulation
  import opened Advance

  // ---------------------------------------------------------------------------------------------
  // Scheduling
  // ---------------------------------------------------------------------------------------------

  /** The endpoint is active and attached to a port that is up, and has this source. */
  predicate Wanted(cfg: Configuration, k: Key) {
    && k.endpoint in cfg.endpoints && cfg.endpoints[k.endpoint].active
    && k.endpoint in cfg.attachments && Up(cfg.ports, cfg.attachments, cfg.attachments[k.endpoint])
    && SourceOf(cfg, k).Some?
  }

  function Sourced(cfg: Configuration, endpoints: set<Id>): set<Key> {
    set e, i | e in endpoints && e in cfg.endpoints && 0 <= i < |cfg.endpoints[e].sources| ::
      Key(e, cfg.endpoints[e].sources[i].id)
  }

  predicate Generated(f: Scene) {
    f.cfg.endpoints.Keys <= f.egens.Keys && f.cfg.ports.Keys <= f.pgens.Keys
  }

  /** Every endpoint and port in the configuration has a generation; the invariant below keeps it so. */
  function Generation(generations: map<Id, nat>, id: Id): nat {
    if id in generations then generations[id] else 0
  }

  function NewJob(f: Scene, now: int, k: Key): Job
    requires Wanted(f.cfg, k)
  {
    var p, src := f.cfg.attachments[k.endpoint], SourceOf(f.cfg, k).value;
    Job(k.endpoint, k.source, p, f.epoch, Generation(f.egens, k.endpoint), Generation(f.pgens, p), src.mac, Effective(f.cfg.ports[p], src.tag),
        now + src.initialDelay)
  }

  /** `schedule` for every endpoint of a set: their jobs are dropped and, where wanted, captured anew. */
  function Rescheduled(f: Scene, now: int, jobs: map<Key, Job>, endpoints: set<Id>): map<Key, Job> {
    map k | k in jobs.Keys + Sourced(f.cfg, endpoints) && (if k.endpoint in endpoints then Wanted(f.cfg, k) else k in jobs) ::
      if k.endpoint in endpoints then NewJob(f, now, k) else jobs[k]
  }

  /** Every wanted source has a job. */
  ghost predicate Complete(cfg: Configuration, jobs: map<Key, Job>) {
    forall k :: Wanted(cfg, k) ==> k in jobs
  }

  // ---------------------------------------------------------------------------------------------
  // Renewing generations
  // ---------------------------------------------------------------------------------------------

  /** The affected ports together with those that went up or down. */
  function Touched(before: Configuration, after: Configuration, ports: set<Id>): set<Id> {
    ports + (set p | p in before.ports.Keys + after.ports.Keys
                     && Up(before.ports, before.attachments, p) != Up(after.ports, after.attachments, p))
  }

  /** The affected endpoints together with those that are or were attached to a touched port. */
  function Reached(before: Configuration, after: Configuration, ports: set<Id>, endpoints: set<Id>): set<Id> {
    endpoints
    + (set e | e in before.attachments && before.attachments[e] in ports)
    + (set e | e in after.attachments && after.attachments[e] in ports)
  }

  function Renewed(generations: map<Id, nat>, ids: set<Id>, stamp: nat): map<Id, nat> {
    map i | i in generations.Keys + ids :: if i in ids then stamp else generations[i]
  }

  /** The facts after a command that made `after` of the configuration and affected `ports` and `endpoints`. */
  function NextScene(f: Scene, after: Configuration, ports: set<Id>, endpoints: set<Id>, stamp: nat): Scene {
    Scene(after, f.epoch,
          Renewed(f.egens, endpoints, stamp),
          Renewed(map p | p in f.pgens && (p in after.ports || p !in f.cfg.ports) :: f.pgens[p],
                  Touched(f.cfg, after, ports) * after.ports.Keys, stamp))
  }

  function NextJobs(f: Scene, now: int, jobs: map<Key, Job>, after: Configuration, ports: set<Id>, endpoints: set<Id>, stamp: nat):
    map<Key, Job>
  {
    Rescheduled(NextScene(f, after, ports, endpoints, stamp), now, jobs,
                Reached(f.cfg, after, Touched(f.cfg, after, ports), endpoints))
  }

  // ---------------------------------------------------------------------------------------------
  // What a command leaves alone
  // ---------------------------------------------------------------------------------------------

  predicate SameCapture(a: Option<Source>, b: Option<Source>) {
    a.Some? == b.Some? && (a.Some? ==> a.value.mac == b.value.mac && a.value.tag == b.value.tag)
  }

  /** Nothing a job captures about this endpoint differs. */
  ghost predicate SameEndpoint(before: Configuration, after: Configuration, e: Id) {
    && (e in before.endpoints <==> e in after.endpoints)
    && (e in before.endpoints ==> before.endpoints[e].active == after.endpoints[e].active)
    && (e in before.attachments <==> e in after.attachments)
    && (e in before.attachments ==> before.attachments[e] == after.attachments[e])
    && (forall s :: SameCapture(SourceOf(before, Key(e, s)), SourceOf(after, Key(e, s))))
  }

  ghost predicate SamePvid(before: Configuration, after: Configuration, p: Id) {
    (p in before.ports <==> p in after.ports) && (p in before.ports ==> before.ports[p].policy.pvid == after.ports[p].policy.pvid)
  }

  /** The command names every endpoint and port whose captured facts it changes; carrier changes are found by the wrapper. */
  ghost predicate Disclosed(before: Configuration, after: Configuration, ports: set<Id>, endpoints: set<Id>) {
    && (forall e :: e !in endpoints ==> SameEndpoint(before, after, e))
    && (forall p :: p !in ports ==> SamePvid(before, after, p))
    && (after.endpoints.Keys <= before.endpoints.Keys + endpoints)
    && (after.ports.Keys <= before.ports.Keys + ports)
  }

  lemma StaysGenerated(f: Scene, after: Configuration, ports: set<Id>, endpoints: set<Id>, stamp: nat)
    requires Generated(f) && Disclosed(f.cfg, after, ports, endpoints)
    ensures Generated(NextScene(f, after, ports, endpoints, stamp))
  {
  }

  /** A job that the command does not reach stays valid. */
  lemma UnreachedStays(f: Scene, after: Configuration, ports: set<Id>, endpoints: set<Id>, stamp: nat, j: Job)
    requires Disclosed(f.cfg, after, ports, endpoints) && ValidJob(f, j)
    requires j.endpoint !in endpoints && j.port !in Touched(f.cfg, after, ports)
    ensures ValidJob(NextScene(f, after, ports, endpoints, stamp), j)
  {
    assert SameEndpoint(f.cfg, after, j.endpoint) && SamePvid(f.cfg, after, j.port);
    assert SameCapture(SourceOf(f.cfg, KeyOf(j)), SourceOf(after, KeyOf(j)));
    assert Up(after.ports, after.attachments, j.port);
  }

  lemma UnreachedWanted(before: Configuration, after: Configuration, ports: set<Id>, endpoints: set<Id>, k: Key)
    requires Disclosed(before, after, ports, endpoints) && Wanted(after, k)
    requires k.endpoint !in Reached(before, after, Touched(before, after, ports), endpoints)
    ensures Wanted(before, k)
  {
    assert SameEndpoint(before, after, k.endpoint);
    assert SameCapture(SourceOf(before, k), SourceOf(after, k));
    var p := after.attachments[k.endpoint];
    assert p !in Touched(before, after, ports);
    assert p in after.ports;
  }

  lemma NewJobValid(f: Scene, now: int, k: Key)
    requires Wanted(f.cfg, k) && Generated(f)
    ensures ValidJob(f, NewJob(f, now, k)) && KeyOf(NewJob(f, now, k)) == k && NewJob(f, now, k).due > now
  {
  }

  lemma {:induction false} FoundIsListed(sources: seq<Source>, id: Id)
    ensures Find(sources, id).Some? <==> exists i :: 0 <= i < |sources| && sources[i].id == id
  {
    var r := Find(sources, id);
    if r.Some? {
      var i :| 0 <= i < |sources| && sources[i] == r.value;
    } else {
      assert forall i :: 0 <= i < |sources| ==> sources[i] in sources;
    }
  }

  lemma WantedIsSourced(cfg: Configuration, k: Key, endpoints: set<Id>)
    requires Wanted(cfg, k) && k.endpoint in endpoints
    ensures k in Sourced(cfg, endpoints)
  {
    FoundIsListed(cfg.endpoints[k.endpoint].sources, k.source);
  }

  /**
   * After any command that discloses what it changes there is exactly one job for each source of an active endpoint attached to
   * a port that is up; every job is current, and due now or later.
   */
  lemma JobsStayExact(f: Scene, now: int, jobs: map<Key, Job>, after: Configuration, ports: set<Id>, endpoints: set<Id>, stamp: nat)
    requires JobsLive(f, now, jobs) && Complete(f.cfg, jobs) && Generated(f) && Disclosed(f.cfg, after, ports, endpoints)
    ensures Generated(NextScene(f, after, ports, endpoints, stamp))
    ensures JobsLive(NextScene(f, after, ports, endpoints, stamp), now, NextJobs(f, now, jobs, after, ports, endpoints, stamp))
    ensures Complete(after, NextJobs(f, now, jobs, after, ports, endpoints, stamp))
  {
    StaysGenerated(f, after, ports, endpoints, stamp);
    var g := NextScene(f, after, ports, endpoints, stamp);
    var reached := Reached(f.cfg, after, Touched(f.cfg, after, ports), endpoints);
    var next := NextJobs(f, now, jobs, after, ports, endpoints, stamp);
    forall k | k in next ensures KeyOf(next[k]) == k && ValidJob(g, next[k]) && now <= next[k].due {
      if k.endpoint in reached {
        NewJobValid(g, now, k);
      } else {
        assert next[k] == jobs[k];
        UnreachedStays(f, after, ports, endpoints, stamp, jobs[k]);
      }
    }
    forall k | Wanted(after, k) ensures k in next {
      if k.endpoint in reached {
        WantedIsSourced(after, k, reached);
      } else {
        UnreachedWanted(f.cfg, after, ports, endpoints, k);
      }
    }
  }

  // ---------------------------------------------------------------------------------------------
  // Captured jobs never revive
  // ---------------------------------------------------------------------------------------------

  /** Every generation in use was drawn before `stamp`. */
  ghost predicate Drawn(f: Scene, stamp: nat) {
    && f.epoch < stamp
    && (forall e :: e in f.egens ==> f.egens[e] < stamp)
    && (forall p :: p in f.pgens ==> f.pgens[p] < stamp)
  }

  predicate Dead(f: Scene, j: Job) {
    || j.epoch != f.epoch
    || j.endpoint !in f.egens || f.egens[j.endpoint] != j.endpointGeneration
    || j.port !in f.pgens || f.pgens[j.port] != j.portGeneration
  }

  lemma DeadIsInvalid(f: Scene, j: Job)
    requires Dead(f, j)
    ensures !ValidJob(f, j)
  {
  }

  ghost predicate CapturedBefore(j: Job, stamp: nat) {
    j.epoch < stamp && j.endpointGeneration < stamp && j.portGeneration < stamp
  }

  /** A command either leaves a captured job valid or kills it for good: change and restore cannot bring it back. */
  lemma ValidOrDead(f: Scene, after: Configuration, ports: set<Id>, endpoints: set<Id>, stamp: nat, j: Job)
    requires Disclosed(f.cfg, after, ports, endpoints) && Drawn(f, stamp) && CapturedBefore(j, stamp)
    ensures var g := NextScene(f, after, ports, endpoints, stamp);
            && Drawn(g, stamp + 1)
            && (ValidJob(f, j) ==> ValidJob(g, j) || Dead(g, j))
            && (Dead(f, j) ==> Dead(g, j))
  {
    var g := NextScene(f, after, ports, endpoints, stamp);
    if ValidJob(f, j) && j.endpoint !in endpoints && j.port !in Touched(f.cfg, after, ports) {
      UnreachedStays(f, after, ports, endpoints, stamp, j);
    }
  }

  // ---------------------------------------------------------------------------------------------
  // Every command discloses what it changes
  // ---------------------------------------------------------------------------------------------

  lemma SameInventory(before: Configuration, after: Configuration, ports: set<Id>, endpoints: set<Id>)
    requires after.endpoints == before.endpoints && after.attachments == before.attachments
    requires forall p :: p !in ports ==> SamePvid(before, after, p)
    requires after.ports.Keys <= before.ports.Keys + ports
    ensures Disclosed(before, after, ports, endpoints)
  {
    forall e ensures SameEndpoint(before, after, e) {
      assert forall s :: SourceOf(before, Key(e, s)) == SourceOf(after, Key(e, s));
    }
  }

  lemma SamePorts(before: Configuration, after: Configuration, endpoints: set<Id>)
    requires after.ports == before.ports
    requires forall e :: e !in endpoints ==> SameEndpoint(before, after, e)
    requires after.endpoints.Keys <= before.endpoints.Keys + endpoints
    ensures Disclosed(before, after, {}, endpoints)
  {
  }

  lemma SubstancePvid(port: Port, edited: Port)
    requires Substance(port) == Substance(edited)
    ensures port.policy.pvid == edited.policy.pvid
  {
    assert Substance(port).policy.pvid == Substance(edited).policy.pvid;
  }

  lemma DeletedPortDisclosed(before: Configuration, after: Configuration, port: Id)
    requires after.endpoints == before.endpoints && after.ports == before.ports - {port}
    requires after.attachments == before.attachments - Attached(before, port)
    ensures Disclosed(before, after, {port}, Attached(before, port))
  {
    forall e | e !in Attached(before, port) ensures SameEndpoint(before, after, e) {
      assert forall s :: SourceOf(before, Key(e, s)) == SourceOf(after, Key(e, s));
    }
  }

  lemma EditedPortDisclosed(cfg: Configuration, port: Id, patch: PortPatch)
    requires EditPort(cfg, port, patch).Attempted?
    ensures var a := EditPort(cfg, port, patch); Disclosed(cfg, a.candidate, a.ports, a.endpoints)
  {
    var a := EditPort(cfg, port, patch);
    if a.ports == {} {
      SubstancePvid(cfg.ports[port], a.candidate.ports[port]);
    }
    SameInventory(cfg, a.candidate, a.ports, {});
  }

  lemma DeletedVlanDisclosed(cfg: Configuration, vid: VlanId)
    requires vid in cfg.vlans && vid != DEFAULT_VLAN
    ensures var a := DeleteVlan(cfg, vid); a.Attempted? && Disclosed(cfg, a.candidate, a.ports, a.endpoints)
  {
    var a := DeleteVlan(cfg, vid);
    SameInventory(cfg, a.candidate, a.ports, a.endpoints);
  }

  ghost predicate Discloses(cfg: Configuration, a: Attempt) {
    a.Attempted? ==> Disclosed(cfg, a.candidate, a.ports, a.endpoints)
  }

  lemma PortCommandsDisclose(cfg: Configuration, c: SwitchingCommand)
    requires c.PortCreate? || c.PortDelete? || c.PortEdit?
    ensures Discloses(cfg, TrySwitching(cfg, c))
  {
    var a := TrySwitching(cfg, c);
    if a.Attempted? {
      match c
      case PortCreate(port, _, _, _) => SameInventory(cfg, a.candidate, {port}, {});
      case PortDelete(port) => DeletedPortDisclosed(cfg, a.candidate, port);
      case PortEdit(port, patch) => EditedPortDisclosed(cfg, port, patch);
    }
  }

  lemma VlanCommandsDisclose(cfg: Configuration, c: SwitchingCommand)
    requires c.VlanCreate? || c.VlanEdit? || c.VlanDelete?
    ensures Discloses(cfg, TrySwitching(cfg, c))
  {
    var a := TrySwitching(cfg, c);
    if a.Attempted? {
      match c
      case VlanCreate(vid, _, _) => SameInventory(cfg, a.candidate, {}, a.endpoints);
      case VlanEdit(_, _) => SameInventory(cfg, a.candidate, {}, {});
      case VlanDelete(vid) => DeletedVlanDisclosed(cfg, vid);
    }
  }

  lemma SwitchingDiscloses(cfg: Configuration, c: SwitchingCommand)
    ensures Discloses(cfg, TrySwitching(cfg, c))
  {
    if c.SwitchEdit? {
      SameInventory(cfg, TrySwitching(cfg, c).candidate, {}, {});
    } else if c.PortCreate? || c.PortDelete? || c.PortEdit? {
      PortCommandsDisclose(cfg, c);
    } else {
      VlanCommandsDisclose(cfg, c);
    }
  }

  lemma {:induction false} SameSupplicantsFound(a: seq<Source>, b: seq<Source>, id: Id)
    requires |a| == |b|
    requires forall i :: 0 <= i < |a| ==> a[i].id == b[i].id && a[i].mac == b[i].mac && a[i].tag == b[i].tag
    ensures SameCapture(Find(a, id), Find(b, id))
  {
    if a != [] && a[0].id != id {
      SameSupplicantsFound(a[1..], b[1..], id);
    }
  }

  lemma OneEndpointDisclosed(before: Configuration, after: Configuration, e: Id)
    requires after.ports == before.ports
    requires after.endpoints - {e} == before.endpoints - {e} && after.attachments - {e} == before.attachments - {e}
    ensures Disclosed(before, after, {}, {e})
  {
    forall d | d != e ensures SameEndpoint(before, after, d) {
      assert d in before.endpoints <==> d in before.endpoints - {e};
      assert d in after.endpoints <==> d in after.endpoints - {e};
      assert d in before.attachments <==> d in before.attachments - {e};
      assert d in after.attachments <==> d in after.attachments - {e};
      assert forall s :: SourceOf(before, Key(d, s)) == SourceOf(after, Key(d, s));
    }
    forall d | d in after.endpoints ensures d in before.endpoints.Keys + {e} {
      assert d != e ==> d in after.endpoints - {e};
    }
    SamePorts(before, after, {e});
  }

  lemma QuietEndpointDisclosed(before: Configuration, after: Configuration, e: Id, r: Endpoint)
    requires e in before.endpoints && after.ports == before.ports && after.attachments == before.attachments
    requires after.endpoints == before.endpoints[e := r] && r.active == before.endpoints[e].active
    requires |r.sources| == |before.endpoints[e].sources|
    requires forall i :: 0 <= i < |r.sources| ==>
      var s, t := r.sources[i], before.endpoints[e].sources[i]; s.id == t.id && s.mac == t.mac && s.tag == t.tag
    ensures Disclosed(before, after, {}, {})
  {
    forall d ensures SameEndpoint(before, after, d) {
      forall s ensures SameCapture(SourceOf(before, Key(d, s)), SourceOf(after, Key(d, s))) {
        if d == e { SameSupplicantsFound(before.endpoints[e].sources, r.sources, s); }
      }
    }
    SamePorts(before, after, {});
  }

  lemma EditedEndpointDisclosed(cfg: Configuration, endpoint: Id, name: Option<Text>, active: Option<bool>, sources: Option<seq<Source>>)
    ensures Discloses(cfg, EditEndpoint(cfg, endpoint, name, active, sources))
  {
    var a := EditEndpoint(cfg, endpoint, name, active, sources);
    if a.Attempted? {
      if a.endpoints == {} {
        QuietEndpointDisclosed(cfg, a.candidate, endpoint, a.candidate.endpoints[endpoint]);
      } else {
        assert a.candidate.endpoints - {endpoint} == cfg.endpoints - {endpoint};
        OneEndpointDisclosed(cfg, a.candidate, endpoint);
      }
    }
  }

  lemma SupplicantDisclosed(cfg: Configuration, endpoint: Id, source: Id, profile: Option<Profile>)
    ensures Discloses(cfg, SaveSupplicant(cfg, endpoint, source, profile))
  {
    var a := SaveSupplicant(cfg, endpoint, source, profile);
    if a.Attempted? {
      QuietEndpointDisclosed(cfg, a.candidate, endpoint, a.candidate.endpoints[endpoint]);
    }
  }

  lemma EndpointsDisclose(cfg: Configuration, c: EndpointCommand)
    ensures Discloses(cfg, TryEndpoints(cfg, c))
  {
    var a := TryEndpoints(cfg, c);
    if a.Attempted? {
      match c
      case EndpointCreate(r) =>
        assert a.candidate.endpoints - {r.id} == cfg.endpoints - {r.id};
        OneEndpointDisclosed(cfg, a.candidate, r.id);
      case EndpointEdit(endpoint, title, active, sources) => EditedEndpointDisclosed(cfg, endpoint, title, active, sources);
      case EndpointDelete(e) =>
        assert a.candidate.endpoints - {e} == cfg.endpoints - {e};
        OneEndpointDisclosed(cfg, a.candidate, e);
      case Attach(e, _) =>
        assert a.candidate.attachments - {e} == cfg.attachments - {e};
        OneEndpointDisclosed(cfg, a.candidate, e);
      case Detach(e) =>
        assert a.candidate.attachments - {e} == cfg.attachments - {e};
        OneEndpointDisclosed(cfg, a.candidate, e);
      case SupplicantSave(endpoint, source, profile) => SupplicantDisclosed(cfg, endpoint, source, profile);
    }
  }

  /** Every configuration command names all the ports and endpoints whose captured facts it changes. */
  lemma CommandsDisclose(cfg: Configuration, c: Command)
    ensures Discloses(cfg, Try(cfg, c))
  {
    match c
    case Switching(switching) => SwitchingDiscloses(cfg, switching);
    case Endpoints(endpoints) => EndpointsDisclose(cfg, endpoints);
    case _ =>
      RecordsLeave(cfg, c);
      var a := Try(cfg, c);
      if a.Attempted? { SameInventory(cfg, a.candidate, {}, {}); }
  }

  // ---------------------------------------------------------------------------------------------
  // Rows
  // ---------------------------------------------------------------------------------------------

  /** A row stays while its port is up and its VLAN exists and is admitted there, or is granted to a session on the port. */
  predicate Stays(cfg: Configuration, granted: set<(Id, VlanId)>, r: Row) {
    && r.vid in cfg.vlans && Up(cfg.ports, cfg.attachments, r.port)
    && (r.vid in cfg.ports[r.port].policy.admitted || (r.port, r.vid) in granted)
  }

  function Filter(fdb: seq<Row>, keep: Row -> bool): (kept: seq<Row>)
    ensures forall r :: r in kept <==> r in fdb && keep(r)
    ensures Keyed(fdb) ==> Keyed(kept)
  {
    if fdb == [] then [] else
    var n := |fdb| - 1;
    assert forall r :: r in fdb <==> r in fdb[..n] || r == fdb[n];
    var rest := Filter(fdb[..n], keep);
    assert Keyed(fdb) ==> forall i :: 0 <= i < |rest| ==> rest[i] in fdb[..n];
    if keep(fdb[n]) then rest + [fdb[n]] else rest
  }

  function KeptRows(cfg: Configuration, granted: set<(Id, VlanId)>, gone: set<Row>, fdb: seq<Row>): seq<Row> {
    Filter(fdb, r => Stays(cfg, granted, r) && r !in gone)
  }

  /** No VLAN changes its FDB and no port its indexes, and the aging time is as before. */
  ghost predicate Steady(before: Configuration, after: Configuration) {
    && (forall v :: v in before.vlans && v in after.vlans ==> after.vlans[v].fdbId == before.vlans[v].fdbId)
    && (forall p :: p in before.ports && p in after.ports ==>
          after.ports[p].hw.bridgePort == before.ports[p].hw.bridgePort && after.ports[p].hw.ifIndex == before.ports[p].hw.ifIndex)
    && after.switch.agingSeconds == before.switch.agingSeconds
  }

  lemma RowsStay(before: Configuration, after: Configuration, now: int, fdb: seq<Row>, granted: set<(Id, VlanId)>, gone: set<Row>)
    requires FdbOk(before, now, fdb) && Steady(before, after)
    ensures FdbOk(after, now, KeptRows(after, granted, gone, fdb))
  {
    forall r | r in KeptRows(after, granted, gone, fdb) ensures RowOk(after, now, r) {
      assert RowOk(before, now, r);
    }
  }

  /** `switch-edit` recomputes every expiry when it changes the aging time. */
  function Reaged(fdb: seq<Row>, aging: Aging): (r: seq<Row>)
    ensures |r| == |fdb|
    ensures forall i :: 0 <= i < |fdb| ==> r[i] == fdb[i].(expiresAt := fdb[i].lastSeen + aging * 1000)
  {
    seq(|fdb|, i requires 0 <= i < |fdb| => fdb[i].(expiresAt := fdb[i].lastSeen + aging * 1000))
  }

  lemma ReagedRows(before: Configuration, after: Configuration, s: Sim)
    requires FdbOk(before, s.now, s.fdb)
    requires after.vlans == before.vlans && after.ports == before.ports && after.attachments == before.attachments
    ensures FdbOk(after, s.now, Age(s.(fdb := Reaged(s.fdb, after.switch.agingSeconds))).fdb)
  {
    var fdb := Reaged(s.fdb, after.switch.agingSeconds);
    forall r | r in fdb ensures r.expiresAt > s.now ==> RowOk(after, s.now, r) {
      var i :| 0 <= i < |fdb| && fdb[i] == r;
      assert s.fdb[i] in s.fdb && RowOk(before, s.now, s.fdb[i]);
    }
    AgeKeeps(after, s.(fdb := fdb));
  }

  ghost predicate Steadily(cfg: Configuration, a: Attempt) {
    a.Attempted? ==> Steady(cfg, a.candidate)
  }

  lemma PatchedSteady(port: Port, p: PortPatch)
    ensures Patched(port, p).hw.bridgePort == port.hw.bridgePort && Patched(port, p).hw.ifIndex == port.hw.ifIndex
  {
  }

  lemma OnePortSteady(cfg: Configuration, port: Id, q: Port)
    requires port in cfg.ports && q.hw.bridgePort == cfg.ports[port].hw.bridgePort && q.hw.ifIndex == cfg.ports[port].hw.ifIndex
    ensures Steady(cfg, cfg.(ports := cfg.ports[port := q]))
  {
  }

  lemma EditPortSteady(cfg: Configuration, port: Id, patch: PortPatch)
    ensures Steadily(cfg, EditPort(cfg, port, patch))
  {
    if port in cfg.ports {
      var p := Completed(patch, cfg.ports[port]);
      PatchedSteady(cfg.ports[port], p);
      OnePortSteady(cfg, port, Patched(cfg.ports[port], p));
    }
  }

  lemma AddedPortSteady(cfg: Configuration, c: Configuration, port: Id)
    requires port !in cfg.ports && port in c.ports && c == cfg.(ports := cfg.ports[port := c.ports[port]], chassis := c.chassis)
    ensures Steady(cfg, c)
  {
  }

  lemma CreatePortSteady(cfg: Configuration, port: Id, name: Option<Text>, speed: Option<nat>, mtu: Option<nat>)
    ensures Steadily(cfg, CreatePort(cfg, port, name, speed, mtu))
  {
    var a := CreatePort(cfg, port, name, speed, mtu);
    if a.Attempted? {
      CreatePortShape(cfg, port, name, speed, mtu);
      AddedPortSteady(cfg, a.candidate, port);
    }
  }

  lemma DeletePortSteady(cfg: Configuration, port: Id)
    ensures Steadily(cfg, DeletePort(cfg, port))
  {
  }

  lemma CreateVlanSteady(cfg: Configuration, vid: VlanId, name: Option<VlanName>, fdbId: Option<nat>)
    ensures Steadily(cfg, CreateVlan(cfg, vid, name, fdbId))
  {
  }

  lemma EditVlanSteady(cfg: Configuration, vid: VlanId, name: VlanName)
    ensures Steadily(cfg, EditVlan(cfg, vid, name))
  {
  }

  lemma DeleteVlanSteady(cfg: Configuration, vid: VlanId)
    ensures Steadily(cfg, DeleteVlan(cfg, vid))
  {
  }

  lemma SwitchingSteady(cfg: Configuration, c: SwitchingCommand)
    requires !c.SwitchEdit?
    ensures Steadily(cfg, TrySwitching(cfg, c))
  {
    match c
    case PortCreate(port, name, speed, mtu) => CreatePortSteady(cfg, port, name, speed, mtu);
    case PortDelete(port) => DeletePortSteady(cfg, port);
    case PortEdit(port, patch) => EditPortSteady(cfg, port, patch);
    case VlanCreate(vid, octets, fdbId) => CreateVlanSteady(cfg, vid, octets, fdbId);
    case VlanEdit(vid, rename) => EditVlanSteady(cfg, vid, rename);
    case VlanDelete(vid) => DeleteVlanSteady(cfg, vid);
  }

  lemma EndpointsSteady(cfg: Configuration, c: EndpointCommand)
    ensures Steadily(cfg, TryEndpoints(cfg, c))
  {
  }

  lemma CommandsSteady(cfg: Configuration, c: Command)
    requires !(c.Switching? && c.switching.SwitchEdit?)
    ensures Steadily(cfg, Try(cfg, c))
  {
    match c
    case Switching(switching) => SwitchingSteady(cfg, switching);
    case Endpoints(endpoints) => EndpointsSteady(cfg, endpoints);
    case _ => RecordsLeave(cfg, c);
  }

  // ---------------------------------------------------------------------------------------------
  // SNMP SET
  // ---------------------------------------------------------------------------------------------

  /** What publishing relies on in an accepted SET: see `SetPublishing.PlanIsSettable`. */
  ghost predicate Settable(cfg: Configuration, c: Configuration, ports: set<Id>) {
    && Valid(c)
    && c == cfg.(ports := c.ports, vlans := c.vlans, switch := c.switch)
    && c.ports.Keys == cfg.ports.Keys
    && (forall p :: p in cfg.ports ==> c.ports[p].hw == cfg.ports[p].hw)
    && (forall p :: p in cfg.ports && p !in ports ==> c.ports[p].policy.pvid == cfg.ports[p].policy.pvid)
    && (forall v :: v in cfg.vlans && v in c.vlans ==> c.vlans[v].fdbId == cfg.vlans[v].fdbId)
    && c.switch.agingSeconds == cfg.switch.agingSeconds
  }
}
