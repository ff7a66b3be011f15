/** What one observation leaves, and which rows a whole advance leaves: those of the last admitted observation of each address. */
module Learning {
  import opened Outcomes
  import opened Configuration
  import opened Simulation
  import opened Advance

  // ---------------------------------------------------------------------------------------------
  // One observation
  // ---------------------------------------------------------------------------------------------

  /** The port admits the frame into this VLAN: as a member, or by the grant that its address holds there. */
  ghost predicate Admits(cfg: Configuration, j: Job, tag: Tag, session: Option<VlanId>, vid: VlanId) {
    && j.port in cfg.ports && vid in cfg.vlans && vid !in cfg.ports[j.port].policy.forbidden
    && (match cfg.ports[j.port].policy.authentication.control
        case ForceAuthorized => vid == j.vid && vid in cfg.ports[j.port].policy.admitted
        case Auto => session == Some(vid) && (tag == Untagged || tag == Tagged(vid))
        case ForceUnauthorized => false)
  }

  lemma AdmittedExactly(cfg: Configuration, j: Job, tag: Tag, session: Option<VlanId>, vid: VlanId)
    requires j.port in cfg.ports
    ensures Admitted(cfg, j, tag, session) == Some(vid) <==> Admits(cfg, j, tag, session, vid)
  {
  }

  datatype Address = Address(fdbId: nat, mac: Mac)

  function AddressOf(r: Row): Address {
    Address(r.fdbId, r.mac)
  }

  ghost predicate Known(fdb: seq<Row>, a: Address) {
    exists r :: r in fdb && AddressOf(r) == a
  }

  /** The row a frame of this job is learned in. */
  function RowFor(cfg: Configuration, j: Job, vid: VlanId, at: int): Row
    requires vid in cfg.vlans && j.port in cfg.ports
  {
    var hw := cfg.ports[j.port].hw;
    Row(cfg.vlans[vid].fdbId, j.mac, vid, j.port, hw.bridgePort, hw.ifIndex, at, at + cfg.switch.agingSeconds * 1000)
  }

  /** The row is the only one of its address, and every other address has the row that it had. */
  ghost predicate Holds(before: seq<Row>, later: seq<Row>, row: Row) {
    && row in later
    && (forall r :: r in later && AddressOf(r) == AddressOf(row) ==> r == row)
    && (forall r :: AddressOf(r) != AddressOf(row) ==> (r in later <==> r in before))
    && Keyed(later)
  }

  /** One event is appended, and the oldest leaves when the history is full. */
  ghost predicate Announced(s: Sim, t: Sim, what: Occurrence) {
    && t.lastEvent == s.lastEvent + 1
    && t.events == (if |s.events| < 2000 then s.events else s.events[|s.events| - 1999..]) + [Event(s.lastEvent + 1, s.now, what)]
  }

  ghost predicate Unannounced(s: Sim, t: Sim) {
    t.lastEvent == s.lastEvent && t.events == s.events
  }

  /** The table in which a row stands at its address's place. */
  function Put(fdb: seq<Row>, row: Row): seq<Row> {
    var i := RowAt(fdb, row.fdbId, row.mac);
    if i == |fdb| then fdb + [row] else fdb[i := row]
  }

  lemma PutPlaces(fdb: seq<Row>, row: Row)
    requires Keyed(fdb)
    ensures var i, later := RowAt(fdb, row.fdbId, row.mac), Put(fdb, row);
            && i < |later| && later[i] == row && |later| == (if i == |fdb| then i + 1 else |fdb|)
            && (forall k :: 0 <= k < |later| && k != i ==> k < |fdb| && later[k] == fdb[k] && AddressOf(fdb[k]) != AddressOf(row))
  {
  }

  lemma PutHolds(fdb: seq<Row>, row: Row)
    requires Keyed(fdb)
    ensures Holds(fdb, Put(fdb, row), row)
  {
    var i, later := RowAt(fdb, row.fdbId, row.mac), Put(fdb, row);
    PutPlaces(fdb, row);
    forall r | AddressOf(r) != AddressOf(row) ensures r in later <==> r in fdb {
      if r in later { var k :| 0 <= k < |later| && later[k] == r; assert fdb[k] == r; }
      if r in fdb { var k :| 0 <= k < |fdb| && fdb[k] == r; assert later[k] == r; }
    }
  }

  lemma KnownExactly(fdb: seq<Row>, a: Address)
    ensures RowAt(fdb, a.fdbId, a.mac) < |fdb| <==> Known(fdb, a)
  {
    var i := RowAt(fdb, a.fdbId, a.mac);
    if i < |fdb| { assert fdb[i] in fdb && AddressOf(fdb[i]) == a; }
  }

  lemma OnlyRowAt(fdb: seq<Row>, a: Address)
    requires Keyed(fdb) && Known(fdb, a)
    ensures var i := RowAt(fdb, a.fdbId, a.mac);
            i < |fdb| && fdb[i] in fdb && AddressOf(fdb[i]) == a && forall r :: r in fdb && AddressOf(r) == a ==> r == fdb[i]
  {
    KnownExactly(fdb, a);
  }

  /** What is counted on the port of a job, and nowhere else. */
  ghost predicate Counted(s: Sim, t: Sim, port: Id, octets: nat, unicast: nat, discards: nat)
    requires port in s.counters
  {
    var c := s.counters[port];
    t.counters == s.counters[port := Counters(c.octets + octets, c.unicast + unicast, c.discards + discards)]
  }

  /** An admitted frame whose address is known or has room: its row is the one learned now, announced when it is new or has moved. */
  ghost predicate Learns(cfg: Configuration, s: Sim, t: Sim, j: Job, vid: VlanId)
    requires vid in cfg.vlans && j.port in cfg.ports
  {
    var row := RowFor(cfg, j, vid, s.now);
    && Holds(s.fdb, t.fdb, row) && t.learnedDiscards == s.learnedDiscards
    && (if !Known(s.fdb, AddressOf(row)) then Announced(s, t, MacLearn(j.mac, vid, j.port))
        else if exists r :: r in s.fdb && AddressOf(r) == AddressOf(row) && r.port != j.port then Announced(s, t, MacMove(j.mac, vid, j.port))
        else Unannounced(s, t))
  }

  /** An admitted frame of a new address without room: the table stays, the discard is counted, the first one announced. */
  ghost predicate Overflows(cfg: Configuration, s: Sim, t: Sim) {
    && t.fdb == s.fdb && t.learnedDiscards == s.learnedDiscards + 1
    && (if s.learnedDiscards == 0 then Announced(s, t, LearningCapacity(cfg.chassis.fdbLimit)) else Unannounced(s, t))
  }

  /** A frame that is not admitted: the table stays, and the first one of its port is announced. */
  ghost predicate Refuses(s: Sim, t: Sim, j: Job)
    requires j.port in s.counters
  {
    && t.fdb == s.fdb && t.learnedDiscards == s.learnedDiscards
    && (if s.counters[j.port].discards == 0 then Announced(s, t, AdmissionRejected(j.endpoint, j.vid, j.port)) else Unannounced(s, t))
  }

  ghost predicate Room(cfg: Configuration, fdb: seq<Row>, a: Address) {
    Known(fdb, a) || |fdb| < cfg.chassis.fdbLimit
  }

  /** A new address without room. */
  lemma LearnOverflows(cfg: Configuration, s: Sim, j: Job, vid: VlanId)
    requires j.port in s.counters && vid in cfg.vlans && j.port in cfg.ports
    requires RowAt(s.fdb, cfg.vlans[vid].fdbId, j.mac) == |s.fdb| >= cfg.chassis.fdbLimit
    ensures var t := Learn(cfg, s, j, vid);
            t.now == s.now && t.jobs == s.jobs && Counted(s, t, j.port, 0, 1, 0) && Overflows(cfg, s, t)
  {
  }

  /** A known address, or room for it: the table and the event. */
  lemma LearnPuts(cfg: Configuration, s: Sim, j: Job, vid: VlanId)
    requires j.port in s.counters && vid in cfg.vlans && j.port in cfg.ports && cfg.ports[j.port].hw.id == j.port
    requires RowAt(s.fdb, cfg.vlans[vid].fdbId, j.mac) < |s.fdb| || |s.fdb| < cfg.chassis.fdbLimit
    ensures var t, row := Learn(cfg, s, j, vid), RowFor(cfg, j, vid, s.now);
            var i := RowAt(s.fdb, row.fdbId, row.mac);
            && t.now == s.now && t.jobs == s.jobs && Counted(s, t, j.port, 0, 1, 0)
            && t.fdb == Put(s.fdb, row) && t.learnedDiscards == s.learnedDiscards
            && (if i == |s.fdb| then Announced(s, t, MacLearn(j.mac, vid, j.port))
                else if s.fdb[i].port != j.port then Announced(s, t, MacMove(j.mac, vid, j.port))
                else Unannounced(s, t))
  {
  }

  lemma LearnExactly(cfg: Configuration, s: Sim, j: Job, vid: VlanId)
    requires j.port in s.counters && vid in cfg.vlans && j.port in cfg.ports && cfg.ports[j.port].hw.id == j.port && Keyed(s.fdb)
    ensures var t := Learn(cfg, s, j, vid);
            && t.now == s.now && t.jobs == s.jobs && Counted(s, t, j.port, 0, 1, 0)
            && if Room(cfg, s.fdb, Address(cfg.vlans[vid].fdbId, j.mac)) then Learns(cfg, s, t, j, vid) else Overflows(cfg, s, t)
  {
    var row := RowFor(cfg, j, vid, s.now);
    KnownExactly(s.fdb, AddressOf(row));
    if Room(cfg, s.fdb, AddressOf(row)) {
      LearnPuts(cfg, s, j, vid);
      PutHolds(s.fdb, row);
      if Known(s.fdb, AddressOf(row)) { OnlyRowAt(s.fdb, AddressOf(row)); }
    } else {
      LearnOverflows(cfg, s, j, vid);
    }
  }

  lemma ObserveAdmits(f: Scene, s: Sim, j: Job, session: Option<VlanId>, vid: VlanId)
    requires ValidJob(f, j) && j.port in s.counters && f.cfg.ports[j.port].hw.id == j.port && Keyed(s.fdb)
    requires Admits(f.cfg, j, SourceOf(f.cfg, KeyOf(j)).value.tag, session, vid)
    ensures var t, src := Observe(f, s, j, session), SourceOf(f.cfg, KeyOf(j)).value;
            && t.now == s.now && t.jobs == s.jobs && Counted(s, t, j.port, src.octets, 1, 0)
            && if Room(f.cfg, s.fdb, Address(f.cfg.vlans[vid].fdbId, j.mac)) then Learns(f.cfg, s, t, j, vid) else Overflows(f.cfg, s, t)
  {
    var src := SourceOf(f.cfg, KeyOf(j)).value;
    AdmittedExactly(f.cfg, j, src.tag, session, vid);
    LearnExactly(f.cfg, Heard(s, j.port, src.octets), j, vid);
  }

  lemma ObserveRefuses(f: Scene, s: Sim, j: Job, session: Option<VlanId>)
    requires ValidJob(f, j) && j.port in s.counters
    requires forall vid :: !Admits(f.cfg, j, SourceOf(f.cfg, KeyOf(j)).value.tag, session, vid)
    ensures var t, src := Observe(f, s, j, session), SourceOf(f.cfg, KeyOf(j)).value;
            t.now == s.now && t.jobs == s.jobs && Counted(s, t, j.port, src.octets, 0, 1) && Refuses(s, t, j)
  {
    var src := SourceOf(f.cfg, KeyOf(j)).value;
    var vid := Admitted(f.cfg, j, src.tag, session);
    if vid.Some? { AdmittedExactly(f.cfg, j, src.tag, session, vid.value); }
  }

  /**
   * An observation of a current job counts the frame and then learns its address, or counts that it has no room, or refuses it:
   * the first exactly when the port admits it somewhere.
   */
  lemma ObserveExactly(f: Scene, s: Sim, j: Job, session: Option<VlanId>)
    requires ValidJob(f, j) && j.port in s.counters && f.cfg.ports[j.port].hw.id == j.port && Keyed(s.fdb)
    ensures Observe(f, s, j, session).now == s.now && Observe(f, s, j, session).jobs == s.jobs
    ensures var t, src := Observe(f, s, j, session), SourceOf(f.cfg, KeyOf(j)).value;
            forall vid :: Admits(f.cfg, j, src.tag, session, vid) ==>
              && Counted(s, t, j.port, src.octets, 1, 0)
              && if Room(f.cfg, s.fdb, Address(f.cfg.vlans[vid].fdbId, j.mac)) then Learns(f.cfg, s, t, j, vid) else Overflows(f.cfg, s, t)
    ensures var t, src := Observe(f, s, j, session), SourceOf(f.cfg, KeyOf(j)).value;
            (forall vid :: !Admits(f.cfg, j, src.tag, session, vid)) ==> Counted(s, t, j.port, src.octets, 0, 1) && Refuses(s, t, j)
  {
    forall vid | Admits(f.cfg, j, SourceOf(f.cfg, KeyOf(j)).value.tag, session, vid) { ObserveAdmits(f, s, j, session, vid); }
    if forall vid :: !Admits(f.cfg, j, SourceOf(f.cfg, KeyOf(j)).value.tag, session, vid) { ObserveRefuses(f, s, j, session); }
  }

  // ---------------------------------------------------------------------------------------------
  // A whole advance
  // ---------------------------------------------------------------------------------------------

  /** The observation of this job is admitted and carries this address. */
  ghost predicate Carries(cfg: Configuration, j: Job, a: Address, vid: VlanId) {
    && SourceOf(cfg, KeyOf(j)).Some? && Admits(cfg, j, SourceOf(cfg, KeyOf(j)).value.tag, None, vid)
    && a == Address(cfg.vlans[vid].fdbId, j.mac)
  }

  /** An observation that falls due and is admitted under this address. */
  ghost predicate Hits(cfg: Configuration, jobs: map<Key, Job>, m: Moment, target: int, a: Address, vid: VlanId) {
    Occurs(cfg, jobs, m, target) && Carries(cfg, jobs[m.key], a, vid)
  }

  /** The last of them. */
  ghost predicate LastHit(cfg: Configuration, jobs: map<Key, Job>, m: Moment, target: int, a: Address, vid: VlanId) {
    && Hits(cfg, jobs, m, target, a, vid)
    && forall n, v :: Hits(cfg, jobs, n, target, a, v) ==> n == m || Precedes(n, m)
  }

  /** The row that the last of them learned, or the row that was there when there was none. */
  ghost predicate Expected(cfg: Configuration, jobs: map<Key, Job>, fdb: seq<Row>, target: int, r: Row) {
    || (exists m, vid :: LastHit(cfg, jobs, m, target, AddressOf(r), vid) && r == RowFor(cfg, jobs[m.key], vid, m.at))
    || (r in fdb && forall n, v :: !Hits(cfg, jobs, n, target, AddressOf(r), v))
  }

  /** What firing a job leaves of the rows of an address. */
  lemma FireRows(f: Scene, s: Sim, k: Key, a: Address)
    requires Live(f, s) && k in s.jobs
    ensures var t, j := Fire(f, s, k, None), s.jobs[k];
            && (forall vid :: Carries(f.cfg, j, a, vid) ==>
                  && (forall r :: r in t.fdb && AddressOf(r) == a ==> r == RowFor(f.cfg, j, vid, s.now))
                  && (Room(f.cfg, s.fdb, a) ==> RowFor(f.cfg, j, vid, s.now) in t.fdb))
            && ((forall vid :: !Carries(f.cfg, j, a, vid)) ==> forall r :: AddressOf(r) == a ==> (r in t.fdb <==> r in s.fdb))
  {
    var t, j := Fire(f, s, k, None), s.jobs[k];
    var src := SourceOf(f.cfg, KeyOf(j)).value;
    ObserveExactly(f, s, j, None);
    forall vid | Carries(f.cfg, j, a, vid)
      ensures forall r :: r in t.fdb && AddressOf(r) == a ==> r == RowFor(f.cfg, j, vid, s.now)
      ensures Room(f.cfg, s.fdb, a) ==> RowFor(f.cfg, j, vid, s.now) in t.fdb
    {
      assert Admits(f.cfg, j, src.tag, None, vid);
    }
    if vid :| Admits(f.cfg, j, src.tag, None, vid) {
      assert a == Address(f.cfg.vlans[vid].fdbId, j.mac) ==> Carries(f.cfg, j, a, vid);
    }
  }

  lemma SameCarries(cfg: Configuration, j: Job, due: int, a: Address, vid: VlanId)
    ensures Carries(cfg, j.(due := due), a, vid) == Carries(cfg, j, a, vid)
  {
  }

  /** The job of a moment does not change but for its due time. */
  lemma JobStays(f: Scene, s: Sim, k: Key)
    requires Live(f, s) && !Idle(s) && k in s.jobs
    ensures k in Step(f, s).jobs && Step(f, s).jobs[k].(due := s.jobs[k].due) == s.jobs[k]
  {
    var at := NextAt(s);
    if Stale(s, at) {
      AgedLive(f, s, at);
    } else {
      ReachedLive(f, s, at);
      FireFrame(f, s.(now := at), Earliest(s.jobs), None);
    }
  }

  /** The observations that hit an address are the one made by the step, if it does, and those still to come. */
  lemma StepHits(f: Scene, s: Sim, m: Moment, target: int, a: Address, vid: VlanId)
    requires Live(f, s) && !Finished(s, target)
    ensures Hits(f.cfg, s.jobs, m, target, a, vid) <==>
            || (!Stale(s, NextAt(s)) && m == Moment(NextAt(s), Earliest(s.jobs)) && Carries(f.cfg, s.jobs[Earliest(s.jobs)], a, vid))
            || Hits(f.cfg, Step(f, s).jobs, m, target, a, vid)
  {
    StepOccurs(f, s, m, target);
    if !Stale(s, NextAt(s)) { ReachedLive(f, s, NextAt(s)); }
    if m.key in s.jobs {
      JobStays(f, s, m.key);
      SameCarries(f.cfg, s.jobs[m.key], Step(f, s).jobs[m.key].due, a, vid);
    }
    StepKeys(f, s);
  }

  lemma StepKeys(f: Scene, s: Sim)
    requires Live(f, s) && !Idle(s)
    ensures Step(f, s).jobs.Keys == s.jobs.Keys
  {
    var at := NextAt(s);
    if Stale(s, at) {
      AgedLive(f, s, at);
    } else {
      ReachedLive(f, s, at);
      FireFrame(f, s.(now := at), Earliest(s.jobs), None);
    }
  }

  /** An observation still to come is the last one before the step as well. */
  lemma LaterIsLast(f: Scene, s: Sim, m: Moment, target: int, a: Address, vid: VlanId)
    requires Live(f, s) && !Finished(s, target) && LastHit(f.cfg, Step(f, s).jobs, m, target, a, vid)
    ensures LastHit(f.cfg, s.jobs, m, target, a, vid)
    ensures m.key in s.jobs && vid in f.cfg.vlans && s.jobs[m.key].port in f.cfg.ports
    ensures RowFor(f.cfg, s.jobs[m.key], vid, m.at) == RowFor(f.cfg, Step(f, s).jobs[m.key], vid, m.at)
  {
    StepKeys(f, s);
    JobStays(f, s, m.key);
    StepHits(f, s, m, target, a, vid);
    forall n, v | Hits(f.cfg, s.jobs, n, target, a, v) ensures n == m || Precedes(n, m) {
      StepHits(f, s, n, target, a, v);
      if !Hits(f.cfg, Step(f, s).jobs, n, target, a, v) { EarliestPrecedes(f, s, m, target); }
    }
  }

  /** The observation made by a step is the last one when none is to come. */
  lemma FirstIsLast(f: Scene, s: Sim, target: int, a: Address, vid: VlanId)
    requires Live(f, s) && !Finished(s, target) && !Stale(s, NextAt(s)) && s.jobs != map[]
    requires Carries(f.cfg, s.jobs[Earliest(s.jobs)], a, vid)
    requires forall n, v :: !Hits(f.cfg, Step(f, s).jobs, n, target, a, v)
    ensures LastHit(f.cfg, s.jobs, Moment(NextAt(s), Earliest(s.jobs)), target, a, vid)
  {
    StepHits(f, s, Moment(NextAt(s), Earliest(s.jobs)), target, a, vid);
    forall n, v | Hits(f.cfg, s.jobs, n, target, a, v) ensures n == Moment(NextAt(s), Earliest(s.jobs)) {
      StepHits(f, s, n, target, a, v);
    }
  }

  /** Aging makes no observation. */
  lemma AgedHits(f: Scene, s: Sim, target: int)
    requires Live(f, s) && !Finished(s, target) && Stale(s, NextAt(s))
    ensures Step(f, s).jobs == s.jobs
    ensures forall r :: r in Step(f, s).fdb <==> r in s.fdb && r.expiresAt > NextAt(s)
  {
    AgedLive(f, s, NextAt(s));
  }

  lemma FiredRows(f: Scene, s: Sim, target: int, a: Address)
    requires Live(f, s) && !Finished(s, target) && !Stale(s, NextAt(s))
    ensures s.jobs != map[]
    ensures var t, j := Step(f, s), s.jobs[Earliest(s.jobs)];
            && (forall vid :: Carries(f.cfg, j, a, vid) ==>
                  && (forall r :: r in t.fdb && AddressOf(r) == a ==> r == RowFor(f.cfg, j, vid, NextAt(s)))
                  && (Room(f.cfg, s.fdb, a) ==> RowFor(f.cfg, j, vid, NextAt(s)) in t.fdb))
            && ((forall vid :: !Carries(f.cfg, j, a, vid)) ==> forall r :: AddressOf(r) == a ==> (r in t.fdb <==> r in s.fdb))
  {
    ReachedLive(f, s, NextAt(s));
    FireRows(f, s.(now := NextAt(s)), Earliest(s.jobs), a);
  }

  lemma NothingHits(cfg: Configuration, jobs: map<Key, Job>, target: int)
    requires forall k :: k in jobs ==> jobs[k].due > target
    ensures forall n, a, v :: !Hits(cfg, jobs, n, target, a, v)
  {
  }

  /** A row that is expected after a step was expected before it. */
  lemma ExpectedBefore(f: Scene, s: Sim, target: int, r: Row)
    requires Live(f, s) && !Finished(s, target) && Expected(f.cfg, Step(f, s).jobs, Step(f, s).fdb, target, r)
    ensures Expected(f.cfg, s.jobs, s.fdb, target, r)
  {
    var t, a := Step(f, s), AddressOf(r);
    if m, vid :| LastHit(f.cfg, t.jobs, m, target, a, vid) && r == RowFor(f.cfg, t.jobs[m.key], vid, m.at) {
      LaterIsLast(f, s, m, target, a, vid);
    } else if Stale(s, NextAt(s)) {
      AgedHits(f, s, target);
    } else {
      UnhitBefore(f, s, target, r);
    }
  }

  lemma UnhitBefore(f: Scene, s: Sim, target: int, r: Row)
    requires Live(f, s) && !Finished(s, target) && !Stale(s, NextAt(s)) && r in Step(f, s).fdb
    requires forall n, v :: !Hits(f.cfg, Step(f, s).jobs, n, target, AddressOf(r), v)
    ensures Expected(f.cfg, s.jobs, s.fdb, target, r)
  {
    var a := AddressOf(r);
    FiredRows(f, s, target, a);
    if vid :| Carries(f.cfg, s.jobs[Earliest(s.jobs)], a, vid) {
      FirstIsLast(f, s, target, a, vid);
    } else {
      forall n, v ensures !Hits(f.cfg, s.jobs, n, target, a, v) { StepHits(f, s, n, target, a, v); }
    }
  }

  /** Every row after an advance is that of the last admitted observation of its address, or was there and none was made. */
  lemma {:induction false} RowsAreExpected(f: Scene, s: Sim, target: int, r: Row)
    requires Live(f, s) && r in Run(f, s, target).fdb
    ensures Expected(f.cfg, s.jobs, s.fdb, target, r)
    decreases Total(f.cfg, Observations, s.jobs, target), |s.fdb|
  {
    if Finished(s, target) {
      NothingHits(f.cfg, s.jobs, target);
    } else {
      StepKeeps(f, s);
      StepDecreases(f, s, target);
      RowsAreExpected(f, Step(f, s), target, r);
      ExpectedBefore(f, s, target, r);
    }
  }

  // ---------------------------------------------------------------------------------------------
  // As long as there is room, the rows expected are there
  // ---------------------------------------------------------------------------------------------

  /** The addresses in the table and those that its jobs can bring fit into it together. */
  ghost predicate Fits(cfg: Configuration, jobs: map<Key, Job>, fdb: seq<Row>, addresses: set<Address>) {
    && |addresses| <= cfg.chassis.fdbLimit
    && (forall r :: r in fdb ==> AddressOf(r) in addresses)
    && (forall k, a, vid :: k in jobs && Carries(cfg, jobs[k], a, vid) ==> a in addresses)
  }

  lemma {:induction false} KeyedBounded(fdb: seq<Row>, addresses: set<Address>)
    requires Keyed(fdb) && forall r :: r in fdb ==> AddressOf(r) in addresses
    ensures |fdb| <= |addresses|
    decreases |fdb|
  {
    if fdb != [] {
      var last := |fdb| - 1;
      assert fdb[last] in fdb;
      forall r | r in fdb[..last] ensures AddressOf(r) in addresses - {AddressOf(fdb[last])} {
        var k :| 0 <= k < last && fdb[k] == r;
        assert r in fdb;
      }
      KeyedBounded(fdb[..last], addresses - {AddressOf(fdb[last])});
    }
  }

  lemma FittingHasRoom(cfg: Configuration, jobs: map<Key, Job>, fdb: seq<Row>, addresses: set<Address>, a: Address)
    requires Keyed(fdb) && Fits(cfg, jobs, fdb, addresses) && a in addresses
    ensures Room(cfg, fdb, a)
  {
    if !Known(fdb, a) { KeyedBounded(fdb, addresses - {a}); }
  }

  lemma StepFits(f: Scene, s: Sim, addresses: set<Address>)
    requires Live(f, s) && !Idle(s) && Fits(f.cfg, s.jobs, s.fdb, addresses)
    ensures Fits(f.cfg, Step(f, s).jobs, Step(f, s).fdb, addresses)
  {
    var t, at := Step(f, s), NextAt(s);
    StepKeys(f, s);
    forall k, a, vid | k in t.jobs && Carries(f.cfg, t.jobs[k], a, vid) ensures a in addresses {
      JobStays(f, s, k);
      SameCarries(f.cfg, s.jobs[k], t.jobs[k].due, a, vid);
    }
    forall r | r in t.fdb ensures AddressOf(r) in addresses {
      if Stale(s, at) {
        AgedHits(f, s, at);
      } else {
        FiredRows(f, s, at, AddressOf(r));
        if vid :| Carries(f.cfg, s.jobs[Earliest(s.jobs)], AddressOf(r), vid) { } else { assert r in s.fdb; }
      }
    }
  }

  lemma Asymmetric(a: Moment, b: Moment)
    requires Precedes(a, b)
    ensures !Precedes(b, a) && a != b
  {
  }

  /** When the last observation is the one that a step makes, none of the address is to come. */
  lemma NoneToCome(f: Scene, s: Sim, target: int, a: Address, vid: VlanId)
    requires Live(f, s) && !Finished(s, target) && !Stale(s, NextAt(s)) && s.jobs != map[]
    requires LastHit(f.cfg, s.jobs, Moment(NextAt(s), Earliest(s.jobs)), target, a, vid)
    ensures Carries(f.cfg, s.jobs[Earliest(s.jobs)], a, vid)
    ensures forall n, v :: !Hits(f.cfg, Step(f, s).jobs, n, target, a, v)
  {
    var first := Moment(NextAt(s), Earliest(s.jobs));
    forall n, v ensures !Hits(f.cfg, Step(f, s).jobs, n, target, a, v) {
      if Hits(f.cfg, Step(f, s).jobs, n, target, a, v) {
        EarliestPrecedes(f, s, n, target);
        Asymmetric(first, n);
        StepHits(f, s, n, target, a, v);
      }
    }
  }

  /** A last observation that is not the one of the step is still the last one after it. */
  lemma LastIsLater(f: Scene, s: Sim, m: Moment, target: int, a: Address, vid: VlanId)
    requires Live(f, s) && !Finished(s, target) && LastHit(f.cfg, s.jobs, m, target, a, vid)
    requires Stale(s, NextAt(s)) || (s.jobs != map[] && m != Moment(NextAt(s), Earliest(s.jobs)))
    ensures LastHit(f.cfg, Step(f, s).jobs, m, target, a, vid)
    ensures m.key in s.jobs && vid in f.cfg.vlans && s.jobs[m.key].port in f.cfg.ports
    ensures RowFor(f.cfg, s.jobs[m.key], vid, m.at) == RowFor(f.cfg, Step(f, s).jobs[m.key], vid, m.at)
  {
    StepHits(f, s, m, target, a, vid);
    JobStays(f, s, m.key);
    forall n, v | Hits(f.cfg, Step(f, s).jobs, n, target, a, v) ensures n == m || Precedes(n, m) {
      StepHits(f, s, n, target, a, v);
    }
  }

  /** The row that a step learns is in the table after it. */
  lemma LearnedNow(f: Scene, s: Sim, target: int, addresses: set<Address>, a: Address, vid: VlanId)
    requires Live(f, s) && !Finished(s, target) && !Stale(s, NextAt(s)) && s.jobs != map[] && Fits(f.cfg, s.jobs, s.fdb, addresses)
    requires LastHit(f.cfg, s.jobs, Moment(NextAt(s), Earliest(s.jobs)), target, a, vid)
    ensures vid in f.cfg.vlans && s.jobs[Earliest(s.jobs)].port in f.cfg.ports
    ensures Expected(f.cfg, Step(f, s).jobs, Step(f, s).fdb, target, RowFor(f.cfg, s.jobs[Earliest(s.jobs)], vid, NextAt(s)))
  {
    NoneToCome(f, s, target, a, vid);
    FittingHasRoom(f.cfg, s.jobs, s.fdb, addresses, a);
    FiredRows(f, s, target, a);
  }

  /** A row that was there and that no observation touches is there after a step, unless it has expired. */
  lemma UntouchedStays(f: Scene, s: Sim, target: int, r: Row)
    requires Live(f, s) && !Finished(s, target) && r in s.fdb && r.expiresAt > target
    requires forall n, v :: !Hits(f.cfg, s.jobs, n, target, AddressOf(r), v)
    ensures Expected(f.cfg, Step(f, s).jobs, Step(f, s).fdb, target, r)
  {
    forall n, v ensures !Hits(f.cfg, Step(f, s).jobs, n, target, AddressOf(r), v) { StepHits(f, s, n, target, AddressOf(r), v); }
    if Stale(s, NextAt(s)) {
      AgedHits(f, s, target);
    } else {
      FiredRows(f, s, target, AddressOf(r));
      forall vid ensures !Carries(f.cfg, s.jobs[Earliest(s.jobs)], AddressOf(r), vid) {
        StepHits(f, s, Moment(NextAt(s), Earliest(s.jobs)), target, AddressOf(r), vid);
      }
      assert r in Step(f, s).fdb;
    }
  }

  lemma ExpectedAfter(f: Scene, s: Sim, target: int, addresses: set<Address>, r: Row)
    requires Live(f, s) && !Finished(s, target) && Fits(f.cfg, s.jobs, s.fdb, addresses)
    requires Expected(f.cfg, s.jobs, s.fdb, target, r) && r.expiresAt > target
    ensures Expected(f.cfg, Step(f, s).jobs, Step(f, s).fdb, target, r)
  {
    if m, vid :| LastHit(f.cfg, s.jobs, m, target, AddressOf(r), vid) && r == RowFor(f.cfg, s.jobs[m.key], vid, m.at) {
      if !Stale(s, NextAt(s)) { FiredRows(f, s, target, AddressOf(r)); }
      if !Stale(s, NextAt(s)) && m == Moment(NextAt(s), Earliest(s.jobs)) {
        LearnedNow(f, s, target, addresses, AddressOf(r), vid);
      } else {
        LastIsLater(f, s, m, target, AddressOf(r), vid);
      }
    } else {
      UntouchedStays(f, s, target, r);
    }
  }

  lemma {:induction false} ExpectedAreThere(f: Scene, s: Sim, target: int, addresses: set<Address>, r: Row)
    requires Live(f, s) && Fits(f.cfg, s.jobs, s.fdb, addresses)
    requires Expected(f.cfg, s.jobs, s.fdb, target, r) && r.expiresAt > target
    ensures r in Run(f, s, target).fdb
    decreases Total(f.cfg, Observations, s.jobs, target), |s.fdb|
  {
    if Finished(s, target) {
      NothingHits(f.cfg, s.jobs, target);
    } else {
      StepKeeps(f, s);
      StepDecreases(f, s, target);
      ExpectedAfter(f, s, target, addresses, r);
      StepFits(f, s, addresses);
      ExpectedAreThere(f, Step(f, s), target, addresses, r);
    }
  }

  /**
   * The rows after an advance, as long as the addresses involved fit into the table: exactly one for every address whose last
   * admitted observation, or whose row from before when there was none, has not aged; it has the port, the VLAN and the time of it.
   */
  lemma RunLearns(f: Scene, s: Sim, target: int, addresses: set<Address>, r: Row)
    requires Live(f, s) && s.now <= target && Fits(f.cfg, s.jobs, s.fdb, addresses)
    ensures Keyed(Run(f, s, target).fdb)
    ensures r in Run(f, s, target).fdb <==> Expected(f.cfg, s.jobs, s.fdb, target, r) && r.expiresAt > target
  {
    RunKeeps(f, s, target);
    if r in Run(f, s, target).fdb { RowsAreExpected(f, s, target, r); }
    if Expected(f.cfg, s.jobs, s.fdb, target, r) && r.expiresAt > target { ExpectedAreThere(f, s, target, addresses, r); }
  }

  lemma {:induction false} LastIndex(trace: seq<Moment>, hit: Moment -> bool, i: nat) returns (k: nat)
    requires i < |trace| && hit(trace[i])
    ensures k < |trace| && hit(trace[k]) && forall q :: k < q < |trace| ==> !hit(trace[q])
    decreases |trace| - i
  {
    if q :| i < q < |trace| && hit(trace[q]) {
      k := LastIndex(trace, hit, q);
    } else {
      k := i;
    }
  }

  lemma LastInTrace(trace: seq<Moment>, hit: Moment -> bool, m: Moment) returns (last: Moment)
    requires InOrder(trace) && m in trace && hit(m)
    ensures last in trace && hit(last) && forall n :: n in trace && hit(n) ==> n == last || Precedes(n, last)
  {
    var i :| 0 <= i < |trace| && trace[i] == m;
    var k := LastIndex(trace, hit, i);
    last := trace[k];
  }

  ghost function Hitting(cfg: Configuration, jobs: map<Key, Job>, target: int, a: Address): Moment -> bool {
    m => exists vid :: Hits(cfg, jobs, m, target, a, vid)
  }

  /** Whenever an address is observed at all, one observation is the last. */
  lemma LastHitExists(f: Scene, s: Sim, m: Moment, target: int, a: Address, vid: VlanId) returns (last: Moment, v: VlanId)
    requires Live(f, s) && Hits(f.cfg, s.jobs, m, target, a, vid)
    ensures LastHit(f.cfg, s.jobs, last, target, a, v)
  {
    TraceIsExact(f, s, target);
    TraceAscends(f, s, target);
    var hit := Hitting(f.cfg, s.jobs, target, a);
    assert hit(m);
    last := LastInTrace(Trace(f, s, target), hit, m);
    v :| Hits(f.cfg, s.jobs, last, target, a, v);
    forall n, w | Hits(f.cfg, s.jobs, n, target, a, w) ensures n == last || Precedes(n, last) { assert hit(n); }
  }
}
