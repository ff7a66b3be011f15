/**
 * The discrete-event simulation: jobs, observations, the forwarding database and the advance of simulated time when no
 * RADIUS exchange can interfere.
 */
module Simulation {
  import opened Outcomes
  import opened Configuration

  datatype Key = Key(endpoint: Id, source: Id)

  /** A scheduled observation together with the facts captured when it was scheduled. */
  datatype Job = Job(endpoint: Id, source: Id, port: Id, epoch: nat, endpointGeneration: nat, portGeneration: nat,
                     mac: Mac, vid: VlanId, due: int)

  datatype Row = Row(fdbId: nat, mac: Mac, vid: VlanId, port: Id, bridgePort: nat, ifIndex: nat, lastSeen: int, expiresAt: int)

  datatype Counters = Counters(octets: nat, unicast: nat, discards: nat)

  datatype Occurrence =
    | InvalidatedWork(endpoint: Id)
    | AdmissionRejected(endpoint: Id, vid: VlanId, port: Id)
    | LearningCapacity(limit: nat)
    | MacLearn(mac: Mac, vid: VlanId, port: Id)
    | MacMove(mac: Mac, vid: VlanId, port: Id)
    | MacAge(mac: Mac, vid: VlanId, port: Id)
    | Other(details: Text)

  datatype Event = Event(id: nat, at: int, what: Occurrence)

  const HISTORY := 2000
  const MAX_WORK := 200000

  /** What does not change while time advances. */
  datatype Scene = Scene(cfg: Configuration, epoch: nat, egens: map<Id, nat>, pgens: map<Id, nat>)

  /** What does. */
  datatype Sim = Sim(now: int, jobs: map<Key, Job>, fdb: seq<Row>, counters: map<Id, Counters>, learnedDiscards: nat,
                     events: seq<Event>, lastEvent: nat)

  // ---------------------------------------------------------------------------------------------
  // Ports, sources and jobs
  // ---------------------------------------------------------------------------------------------

  predicate Carrier(ports: map<Id, Port>, attachments: map<Id, Id>, p: Id)
    requires p in ports
  {
    if ports[p].hw.mode == Shared then ports[p].hw.sharedPartner else exists e :: e in attachments && attachments[e] == p
  }

  predicate Up(ports: map<Id, Port>, attachments: map<Id, Id>, p: Id) {
    p in ports && ports[p].policy.adminUp && !ports[p].hw.forcedDown && Carrier(ports, attachments, p)
  }

  /** The first source with an id, if any. */
  function Find(sources: seq<Source>, id: Id): (r: Option<Source>)
    ensures r.Some? ==> r.value in sources && r.value.id == id
    ensures r.None? ==> forall s :: s in sources ==> s.id != id
  {
    if sources == [] then None
    else if sources[0].id == id then Some(sources[0])
    else Find(sources[1..], id)
  }

  function Effective(port: Port, tag: Tag): VlanId {
    if tag.Tagged? then tag.vid else port.policy.pvid
  }

  function SourceOf(cfg: Configuration, k: Key): Option<Source> {
    if k.endpoint in cfg.endpoints then Find(cfg.endpoints[k.endpoint].sources, k.source) else None
  }

  function KeyOf(j: Job): Key {
    Key(j.endpoint, j.source)
  }

  /** `Runtime.valid` */
  predicate ValidJob(f: Scene, j: Job) {
    && j.endpoint in f.cfg.endpoints && f.cfg.endpoints[j.endpoint].active
    && j.endpoint in f.cfg.attachments && f.cfg.attachments[j.endpoint] == j.port
    && SourceOf(f.cfg, KeyOf(j)).Some?
    && Up(f.cfg.ports, f.cfg.attachments, j.port)
    && j.epoch == f.epoch
    && j.endpoint in f.egens && f.egens[j.endpoint] == j.endpointGeneration
    && j.port in f.pgens && f.pgens[j.port] == j.portGeneration
    && SourceOf(f.cfg, KeyOf(j)).value.mac == j.mac
    && Effective(f.cfg.ports[j.port], SourceOf(f.cfg, KeyOf(j)).value.tag) == j.vid
  }

  // ---------------------------------------------------------------------------------------------
  // One observation
  // ---------------------------------------------------------------------------------------------

  function Latest(events: seq<Event>): seq<Event> {
    if |events| <= HISTORY then events else events[|events| - HISTORY..]
  }

  function Emit(s: Sim, what: Occurrence): Sim {
    s.(events := Latest(s.events + [Event(s.lastEvent + 1, s.now, what)]), lastEvent := s.lastEvent + 1)
  }

  /** The VLAN the frame is learned in, if the port admits it; `session` is the grant an `auto` port holds for the frame. */
  function Admitted(cfg: Configuration, j: Job, tag: Tag, session: Option<VlanId>): Option<VlanId>
    requires j.port in cfg.ports
  {
    var policy := cfg.ports[j.port].policy;
    var grant := if policy.authentication.control == Auto then session else None;
    var vid := if grant.Some? then grant.value else j.vid;
    var allowed := if grant.Some? then tag == Untagged || tag == Tagged(vid)
                   else policy.authentication.control == ForceAuthorized && vid in policy.admitted;
    if allowed && vid in cfg.vlans && vid !in policy.forbidden then Some(vid) else None
  }

  function RowAt(fdb: seq<Row>, fdbId: nat, mac: Mac): (i: nat)
    ensures i <= |fdb|
    ensures i < |fdb| ==> fdb[i].fdbId == fdbId && fdb[i].mac == mac
    ensures forall k :: 0 <= k < i ==> fdb[k].fdbId != fdbId || fdb[k].mac != mac
  {
    if fdb == [] || (fdb[0].fdbId == fdbId && fdb[0].mac == mac) then 0 else 1 + RowAt(fdb[1..], fdbId, mac)
  }

  /** The frame counts on its port whether or not it is admitted. */
  function Heard(s: Sim, port: Id, octets: nat): Sim
    requires port in s.counters
  {
    s.(counters := s.counters[port := s.counters[port].(octets := s.counters[port].octets + octets)])
  }

  function Reject(s: Sim, j: Job): Sim
    requires j.port in s.counters
  {
    var c := s.counters[j.port];
    var t := s.(counters := s.counters[j.port := c.(discards := c.discards + 1)]);
    if c.discards == 0 then Emit(t, AdmissionRejected(j.endpoint, j.vid, j.port)) else t
  }

  function Learn(cfg: Configuration, s: Sim, j: Job, vid: VlanId): Sim
    requires j.port in s.counters && vid in cfg.vlans && j.port in cfg.ports
  {
    var c := s.counters[j.port];
    var t := s.(counters := s.counters[j.port := c.(unicast := c.unicast + 1)]);
    var i := RowAt(s.fdb, cfg.vlans[vid].fdbId, j.mac);
    if i == |s.fdb| && |s.fdb| >= cfg.chassis.fdbLimit then
      var u := t.(learnedDiscards := t.learnedDiscards + 1);
      if s.learnedDiscards == 0 then Emit(u, LearningCapacity(cfg.chassis.fdbLimit)) else u
    else
      var hw := cfg.ports[j.port].hw;
      var row := Row(cfg.vlans[vid].fdbId, j.mac, vid, hw.id, hw.bridgePort, hw.ifIndex, s.now,
                     s.now + cfg.switch.agingSeconds * 1000);
      if i == |s.fdb| then Emit(t.(fdb := s.fdb + [row]), MacLearn(j.mac, vid, hw.id))
      else if s.fdb[i].port != hw.id then Emit(t.(fdb := s.fdb[i := row]), MacMove(j.mac, vid, hw.id))
      else t.(fdb := s.fdb[i := row])
  }

  /** `Runtime.observe`, but for what it does to sessions and attempts */
  function Observe(f: Scene, s: Sim, j: Job, session: Option<VlanId>): Sim
    requires ValidJob(f, j) ==> j.port in s.counters
  {
    if !ValidJob(f, j) then Emit(s, InvalidatedWork(j.endpoint)) else
    var src := SourceOf(f.cfg, KeyOf(j)).value;
    match Admitted(f.cfg, j, src.tag, session)
    case None => Reject(Heard(s, j.port, src.octets), j)
    case Some(vid) => Learn(f.cfg, Heard(s, j.port, src.octets), j, vid)
  }

  /** Rows that have reached their expiry leave in insertion order. */
  function Expire(s: Sim, fdb: seq<Row>): (t: Sim)
    ensures t.now == s.now && t.jobs == s.jobs && t.counters == s.counters
    ensures forall r :: r in t.fdb <==> r in s.fdb || (r in fdb && r.expiresAt > s.now)
    ensures |t.fdb| <= |s.fdb| + |fdb|
    ensures (exists r :: r in fdb && r.expiresAt <= s.now) ==> |t.fdb| < |s.fdb| + |fdb|
    decreases |fdb|
  {
    if fdb == [] then s else
    assert forall r :: r in fdb <==> r == fdb[0] || r in fdb[1..];
    if fdb[0].expiresAt <= s.now then Expire(Emit(s, MacAge(fdb[0].mac, fdb[0].vid, fdb[0].port)), fdb[1..])
    else Expire(s.(fdb := s.fdb + [fdb[0]]), fdb[1..])
  }

  /** `Runtime.expire` */
  function Age(s: Sim): Sim {
    Expire(s.(fdb := []), s.fdb)
  }
}
