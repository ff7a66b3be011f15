/**
 * Advancing simulated time without RADIUS: one step ages rows or fires the earliest job.  The run of these steps is
 * additive, performs exactly the observations its guard estimated, in order, and moves every counter and job by a closed form.
 */
module Advance {
  import opened Outcomes
  import opened Configuration
  import opened Simulation

  // ---------------------------------------------------------------------------------------------
  // Invariants
  // ---------------------------------------------------------------------------------------------

  /** Every job is current and due now or later. */
  ghost predicate JobsLive(f: Scene, now: int, jobs: map<Key, Job>) {
    forall k :: k in jobs ==> KeyOf(jobs[k]) == k && ValidJob(f, jobs[k]) && now <= jobs[k].due
  }

  predicate Metered(ports: set<Id>, counters: map<Id, Counters>) {
    ports <= counters.Keys
  }

  /** A row is for an existing VLAN and its FDB, for a port that is up, and expires one aging time after it was last seen. */
  predicate RowOk(cfg: Configuration, now: int, r: Row) {
    && r.vid in cfg.vlans && cfg.vlans[r.vid].fdbId == r.fdbId
    && Up(cfg.ports, cfg.attachments, r.port)
    && r.bridgePort == cfg.ports[r.port].hw.bridgePort && r.ifIndex == cfg.ports[r.port].hw.ifIndex
    && r.expiresAt == r.lastSeen + cfg.switch.agingSeconds * 1000
    && r.lastSeen <= now < r.expiresAt
  }

  predicate Keyed(fdb: seq<Row>) {
    forall i, j :: 0 <= i < j < |fdb| ==> fdb[i].fdbId != fdb[j].fdbId || fdb[i].mac != fdb[j].mac
  }

  ghost predicate FdbOk(cfg: Configuration, now: int, fdb: seq<Row>) {
    Keyed(fdb) && forall r :: r in fdb ==> RowOk(cfg, now, r)
  }

  ghost predicate PortIds(ports: map<Id, Port>) {
    forall p :: p in ports ==> ports[p].hw.id == p
  }

  ghost predicate Live(f: Scene, s: Sim) {
    && PortIds(f.cfg.ports)
    && JobsLive(f, s.now, s.jobs)
    && Metered(f.cfg.ports.Keys, s.counters)
    && FdbOk(f.cfg, s.now, s.fdb)
  }

  // ---------------------------------------------------------------------------------------------
  // Steps
  // ---------------------------------------------------------------------------------------------

  /** Heap order. */
  predicate Before(a: Job, b: Job) {
    a.due < b.due || (a.due == b.due && (a.endpoint < b.endpoint || (a.endpoint == b.endpoint && a.source <= b.source)))
  }

  ghost predicate IsEarliest(jobs: map<Key, Job>, k: Key) {
    k in jobs && forall j :: j in jobs ==> Before(jobs[k], jobs[j])
  }

  lemma {:induction false} EarliestExists(jobs: map<Key, Job>)
    requires jobs != map[]
    ensures exists k :: IsEarliest(jobs, k)
    decreases |jobs|
  {
    var k :| k in jobs;
    var rest := jobs - {k};
    if rest == map[] {
      assert forall j :: j in jobs ==> j == k by { assert forall j :: j in jobs && j != k ==> j in rest; }
      assert IsEarliest(jobs, k);
    } else {
      EarliestExists(rest);
      var e :| IsEarliest(rest, e);
      assert forall j :: j in jobs ==> j == k || j in rest;
      assert IsEarliest(jobs, if Before(jobs[k], jobs[e]) then k else e);
    }
  }

  ghost function Earliest(jobs: map<Key, Job>): (k: Key)
    requires jobs != map[]
    ensures IsEarliest(jobs, k)
  {
    EarliestExists(jobs);
    var k :| IsEarliest(jobs, k);
    k
  }

  ghost predicate IsNext(s: Sim, at: int) {
    && (forall k :: k in s.jobs ==> at <= s.jobs[k].due)
    && (forall r :: r in s.fdb ==> at <= r.expiresAt)
    && ((exists k :: k in s.jobs && s.jobs[k].due == at) || (exists r :: r in s.fdb && r.expiresAt == at))
  }

  predicate Idle(s: Sim) {
    s.jobs == map[] && s.fdb == []
  }

  /** The first expiry of the list. */
  function FirstExpiry(fdb: seq<Row>): (at: int)
    requires fdb != []
    ensures forall r :: r in fdb ==> at <= r.expiresAt
    ensures exists r :: r in fdb && r.expiresAt == at
  {
    if |fdb| == 1 then fdb[0].expiresAt else
    var rest := FirstExpiry(fdb[1..]);
    assert forall r :: r in fdb <==> r == fdb[0] || r in fdb[1..];
    if fdb[0].expiresAt < rest then assert fdb[0] in fdb; fdb[0].expiresAt
    else
      assert exists r :: r in fdb && r.expiresAt == rest by { var r :| r in fdb[1..] && r.expiresAt == rest; assert r in fdb; }
      rest
  }

  ghost function NextAt(s: Sim): (at: int)
    requires !Idle(s)
    ensures IsNext(s, at)
  {
    if s.jobs == map[] then FirstExpiry(s.fdb)
    else if s.fdb == [] then s.jobs[Earliest(s.jobs)].due
    else if FirstExpiry(s.fdb) < s.jobs[Earliest(s.jobs)].due then FirstExpiry(s.fdb)
    else s.jobs[Earliest(s.jobs)].due
  }

  predicate Stale(s: Sim, at: int) {
    exists r :: r in s.fdb && r.expiresAt <= at
  }

  function Interval(cfg: Configuration, k: Key): (i: int)
    ensures i >= 1
  {
    var src := SourceOf(cfg, k);
    if src.Some? then src.value.interval else 1
  }

  /** One job is scheduled again one interval later. */
  function Refired(cfg: Configuration, jobs: map<Key, Job>, k: Key, now: int): map<Key, Job>
    requires k in jobs
  {
    jobs[k := jobs[k].(due := now + Interval(cfg, k))]
  }

  /** The earliest job is observed and scheduled again one interval later. */
  function Fire(f: Scene, s: Sim, k: Key, session: Option<VlanId>): Sim
    requires k in s.jobs && (ValidJob(f, s.jobs[k]) ==> s.jobs[k].port in s.counters)
  {
    var t := Observe(f, s, s.jobs[k], session);
    if ValidJob(f, s.jobs[k])
    then t.(jobs := Refired(f.cfg, s.jobs, k, s.now))
    else t.(jobs := t.jobs - {k})
  }

  ghost function Step(f: Scene, s: Sim): Sim
    requires Live(f, s) && !Idle(s)
  {
    var at := NextAt(s);
    if Stale(s, at) then Age(s.(now := at)) else Fire(f, s.(now := at), Earliest(s.jobs), None)
  }

  ghost predicate Finished(s: Sim, target: int) {
    Idle(s) || NextAt(s) > target
  }

  // ---------------------------------------------------------------------------------------------
  // Steps keep the invariant
  // ---------------------------------------------------------------------------------------------

  lemma RescheduledValid(f: Scene, j: Job, due: int)
    ensures ValidJob(f, j.(due := due)) == ValidJob(f, j)
  {
  }

  lemma ObserveFrame(f: Scene, s: Sim, j: Job, session: Option<VlanId>)
    requires ValidJob(f, j) && j.port in s.counters
    ensures var t := Observe(f, s, j, session);
            t.now == s.now && t.jobs == s.jobs && t.counters.Keys == s.counters.Keys
  {
  }

  lemma PutKeeps(cfg: Configuration, now: int, fdb: seq<Row>, r: Row)
    requires FdbOk(cfg, now, fdb) && RowOk(cfg, now, r)
    ensures var i := RowAt(fdb, r.fdbId, r.mac);
            FdbOk(cfg, now, if i == |fdb| then fdb + [r] else fdb[i := r])
  {
    var i := RowAt(fdb, r.fdbId, r.mac);
    var after := if i == |fdb| then fdb + [r] else fdb[i := r];
    forall q | q in after ensures RowOk(cfg, now, q) {
      assert q == r || q in fdb;
    }
  }

  lemma ObserveRow(f: Scene, s: Sim, j: Job, session: Option<VlanId>)
    requires ValidJob(f, j) && j.port in s.counters && PortIds(f.cfg.ports)
    ensures var t := Observe(f, s, j, session);
            t.fdb == s.fdb || exists r :: RowOk(f.cfg, s.now, r) && var i := RowAt(s.fdb, r.fdbId, r.mac);
                                t.fdb == if i == |s.fdb| then s.fdb + [r] else s.fdb[i := r]
  {
    var src := SourceOf(f.cfg, KeyOf(j)).value;
    var vid := Admitted(f.cfg, j, src.tag, session);
    if vid.Some? {
      var hw := f.cfg.ports[j.port].hw;
      var row := Row(f.cfg.vlans[vid.value].fdbId, j.mac, vid.value, hw.id, hw.bridgePort, hw.ifIndex, s.now,
                     s.now + f.cfg.switch.agingSeconds * 1000);
      assert RowOk(f.cfg, s.now, row);
    }
  }

  lemma ObserveKeepsRows(f: Scene, s: Sim, j: Job, session: Option<VlanId>)
    requires ValidJob(f, j) && j.port in s.counters && PortIds(f.cfg.ports) && FdbOk(f.cfg, s.now, s.fdb)
    ensures FdbOk(f.cfg, s.now, Observe(f, s, j, session).fdb)
  {
    ObserveRow(f, s, j, session);
    var t := Observe(f, s, j, session);
    if t.fdb != s.fdb {
      var r :| RowOk(f.cfg, s.now, r) && var i := RowAt(s.fdb, r.fdbId, r.mac);
               t.fdb == if i == |s.fdb| then s.fdb + [r] else s.fdb[i := r];
      PutKeeps(f.cfg, s.now, s.fdb, r);
    }
  }

  lemma FireJobs(f: Scene, now: int, jobs: map<Key, Job>, k: Key)
    requires JobsLive(f, now, jobs) && k in jobs
    ensures JobsLive(f, now, Refired(f.cfg, jobs, k, now))
  {
    RescheduledValid(f, jobs[k], now + Interval(f.cfg, k));
  }

  lemma FireFrame(f: Scene, s: Sim, k: Key, session: Option<VlanId>)
    requires Live(f, s) && k in s.jobs
    ensures Fire(f, s, k, session).jobs == Refired(f.cfg, s.jobs, k, s.now)
    ensures Fire(f, s, k, session).now == s.now
    ensures Fire(f, s, k, session).counters == Observe(f, s, s.jobs[k], session).counters
  {
    ObserveFrame(f, s, s.jobs[k], session);
  }

  /** Any due job may fire, whatever grant an `auto` port holds for it. */
  lemma FireKeeps(f: Scene, s: Sim, k: Key, session: Option<VlanId>)
    requires Live(f, s) && k in s.jobs
    ensures Live(f, Fire(f, s, k, session))
    ensures Fire(f, s, k, session).jobs == Refired(f.cfg, s.jobs, k, s.now)
    ensures Fire(f, s, k, session).now == s.now
  {
    FireFrame(f, s, k, session);
    ObserveFrame(f, s, s.jobs[k], session);
    ObserveKeepsRows(f, s, s.jobs[k], session);
    FireJobs(f, s.now, s.jobs, k);
  }

  lemma {:induction false} ExpireKeepsRows(s: Sim, fdb: seq<Row>)
    requires Keyed(s.fdb + fdb)
    ensures Keyed(Expire(s, fdb).fdb)
    decreases |fdb|
  {
    if fdb == [] {
      assert s.fdb + fdb == s.fdb;
    } else if fdb[0].expiresAt <= s.now {
      var t := Emit(s, MacAge(fdb[0].mac, fdb[0].vid, fdb[0].port));
      var n := |s.fdb|;
      assert t.fdb + fdb[1..] == (s.fdb + fdb)[..n] + (s.fdb + fdb)[n + 1..];
      ExpireKeepsRows(t, fdb[1..]);
    } else {
      assert s.fdb + [fdb[0]] + fdb[1..] == s.fdb + fdb;
      ExpireKeepsRows(s.(fdb := s.fdb + [fdb[0]]), fdb[1..]);
    }
  }

  /** Rows as they stand when the clock has just reached `now`: some may have to leave. */
  ghost predicate FdbDue(cfg: Configuration, now: int, fdb: seq<Row>) {
    Keyed(fdb) && forall r :: r in fdb ==> r.expiresAt > now ==> RowOk(cfg, now, r)
  }

  lemma AgeKeeps(cfg: Configuration, s: Sim)
    requires FdbDue(cfg, s.now, s.fdb)
    ensures FdbOk(cfg, s.now, Age(s).fdb)
  {
    assert [] + s.fdb == s.fdb;
    ExpireKeepsRows(s.(fdb := []), s.fdb);
  }

  /** The clock may move up to the next deadline. */
  lemma ReachKeeps(f: Scene, s: Sim, at: int)
    requires Live(f, s) && s.now <= at && forall k :: k in s.jobs ==> at <= s.jobs[k].due
    ensures JobsLive(f, at, s.jobs) && FdbDue(f.cfg, at, s.fdb)
    ensures (forall r :: r in s.fdb ==> at < r.expiresAt) ==> Live(f, s.(now := at))
  {
  }

  lemma NextIsLater(f: Scene, s: Sim)
    requires Live(f, s) && !Idle(s)
    ensures s.now <= NextAt(s)
  {
  }

  lemma ReachedLive(f: Scene, s: Sim, at: int)
    requires Live(f, s) && !Idle(s) && at == NextAt(s) && !Stale(s, at)
    ensures Live(f, s.(now := at)) && s.jobs != map[] && s.jobs[Earliest(s.jobs)].due == at
  {
    ReachKeeps(f, s, at);
  }

  lemma AgedLive(f: Scene, s: Sim, at: int)
    requires Live(f, s) && !Idle(s) && at == NextAt(s)
    ensures Live(f, Age(s.(now := at)))
    ensures Age(s.(now := at)).jobs == s.jobs && Age(s.(now := at)).now == at
  {
    NextIsLater(f, s);
    ReachKeeps(f, s, at);
    AgeKeeps(f.cfg, s.(now := at));
  }

  lemma StepKeeps(f: Scene, s: Sim)
    requires Live(f, s) && !Idle(s)
    ensures Live(f, Step(f, s)) && Step(f, s).now == NextAt(s) >= s.now
  {
    var at := NextAt(s);
    NextIsLater(f, s);
    if Stale(s, at) {
      AgedLive(f, s, at);
    } else {
      ReachedLive(f, s, at);
      FireKeeps(f, s.(now := at), Earliest(s.jobs), None);
    }
  }

  // ---------------------------------------------------------------------------------------------
  // How much is left to do
  // ---------------------------------------------------------------------------------------------

  /** How often a job due at `due` fires up to `target`. */
  function Occasions(due: int, interval: int, target: int): nat
    requires interval >= 1
  {
    if due > target then 0 else (target - due) / interval + 1
  }

  /** What one observation adds to: their number, or a counter of a port. */
  datatype Measure = Observations | Octets(port: Id) | Unicast(port: Id) | Discards(port: Id)

  predicate Accepted(cfg: Configuration, j: Job) {
    j.port in cfg.ports && SourceOf(cfg, KeyOf(j)).Some? && Admitted(cfg, j, SourceOf(cfg, KeyOf(j)).value.tag, None).Some?
  }

  function Weight(cfg: Configuration, m: Measure, j: Job): nat {
    match m
    case Observations => 1
    case Octets(p) => if j.port == p && SourceOf(cfg, KeyOf(j)).Some? then SourceOf(cfg, KeyOf(j)).value.octets else 0
    case Unicast(p) => if j.port == p && Accepted(cfg, j) then 1 else 0
    case Discards(p) => if j.port == p && !Accepted(cfg, j) then 1 else 0
  }

  function Share(cfg: Configuration, m: Measure, k: Key, j: Job, target: int): nat {
    Weight(cfg, m, j) * Occasions(j.due, Interval(cfg, k), target)
  }

  /** What all observations up to `target` add. */
  ghost function Total(cfg: Configuration, m: Measure, jobs: map<Key, Job>, target: int): nat
    decreases |jobs|
  {
    if jobs == map[] then 0 else
    var k :| k in jobs;
    Share(cfg, m, k, jobs[k], target) + Total(cfg, m, jobs - {k}, target)
  }

  lemma RemovedEitherWay<K, V>(m: map<K, V>, a: K, b: K)
    ensures m - {a} - {b} == m - {b} - {a}
    ensures a != b ==> (a in m ==> a in m - {b} && (m - {b})[a] == m[a]) && (b in m ==> b in m - {a} && (m - {a})[b] == m[b])
  {
  }

  lemma {:induction false} TotalSplits(cfg: Configuration, m: Measure, jobs: map<Key, Job>, target: int, k: Key)
    requires k in jobs
    ensures Total(cfg, m, jobs, target) == Share(cfg, m, k, jobs[k], target) + Total(cfg, m, jobs - {k}, target)
    decreases |jobs|
  {
    var c :| c in jobs && Total(cfg, m, jobs, target) == Share(cfg, m, c, jobs[c], target) + Total(cfg, m, jobs - {c}, target);
    if c != k {
      RemovedEitherWay(jobs, c, k);
      TotalSplits(cfg, m, jobs - {c}, target, k);
      TotalSplits(cfg, m, jobs - {k}, target, c);
    }
  }

  lemma Multiples(i: int, e: int)
    requires i > 0
    ensures e >= 1 ==> i * e >= i
    ensures e <= -1 ==> i * e <= -i
  {
    assert i * e - i == i * (e - 1) && i * e + i == i * (e + 1);
  }

  lemma Quotient(d: int, i: int, q: int, r: int)
    requires 0 <= r < i && d == i * q + r
    ensures d / i == q
  {
    var e := d / i - q;
    assert i * e == r - d % i;
    Multiples(i, e);
  }

  lemma OneFewerOccasion(due: int, interval: int, target: int)
    requires interval >= 1 && due <= target
    ensures Occasions(due, interval, target) == 1 + Occasions(due + interval, interval, target)
  {
    var d := target - due;
    if d < interval {
      Quotient(d, interval, 0, d);
    } else {
      var q, r := (d - interval) / interval, (d - interval) % interval;
      assert d == interval * (q + 1) + r;
      Quotient(d, interval, q + 1, r);
      assert target - (due + interval) == d - interval;
    }
  }

  lemma TotalFires(cfg: Configuration, m: Measure, jobs: map<Key, Job>, target: int, k: Key)
    requires k in jobs && jobs[k].due <= target
    ensures Total(cfg, m, jobs, target) == Weight(cfg, m, jobs[k]) + Total(cfg, m, Refired(cfg, jobs, k, jobs[k].due), target)
  {
    var after := Refired(cfg, jobs, k, jobs[k].due);
    TotalSplits(cfg, m, jobs, target, k);
    TotalSplits(cfg, m, after, target, k);
    assert after - {k} == jobs - {k};
    OneFewerOccasion(jobs[k].due, Interval(cfg, k), target);
    SameWeight(cfg, m, jobs[k], after[k].due);
    var w, n := Weight(cfg, m, jobs[k]), Occasions(after[k].due, Interval(cfg, k), target);
    assert w * (1 + n) == w + w * n;
  }

  lemma SameWeight(cfg: Configuration, m: Measure, j: Job, due: int)
    ensures Weight(cfg, m, j.(due := due)) == Weight(cfg, m, j)
  {
  }

  lemma {:induction false} NothingDue(cfg: Configuration, m: Measure, jobs: map<Key, Job>, target: int)
    requires forall k :: k in jobs ==> jobs[k].due > target
    ensures Total(cfg, m, jobs, target) == 0
    decreases |jobs|
  {
    if jobs != map[] {
      var k :| k in jobs;
      TotalSplits(cfg, m, jobs, target, k);
      NothingDue(cfg, m, jobs - {k}, target);
    }
  }

  lemma FireJobsTotal(f: Scene, s: Sim, k: Key, target: int, m: Measure)
    requires Live(f, s) && k in s.jobs && s.jobs[k].due == s.now <= target
    ensures Total(f.cfg, m, s.jobs, target) == Weight(f.cfg, m, s.jobs[k]) + Total(f.cfg, m, Fire(f, s, k, None).jobs, target)
  {
    FireFrame(f, s, k, None);
    TotalFires(f.cfg, m, s.jobs, target, k);
  }

  /** Every turn either removes a row and keeps the jobs, or performs one of the remaining observations. */
  lemma StepDecreases(f: Scene, s: Sim, target: int)
    requires Live(f, s) && !Finished(s, target)
    ensures Stale(s, NextAt(s)) ==> Step(f, s).jobs == s.jobs && |Step(f, s).fdb| < |s.fdb|
    ensures !Stale(s, NextAt(s)) ==>
      Total(f.cfg, Observations, Step(f, s).jobs, target) == Total(f.cfg, Observations, s.jobs, target) - 1
  {
    var at := NextAt(s);
    if Stale(s, at) {
      AgedLive(f, s, at);
    } else {
      ReachedLive(f, s, at);
      FireJobsTotal(f, s.(now := at), Earliest(s.jobs), target, Observations);
    }
  }

  /** `Runtime.advance` past its guard: step until the next deadline lies beyond the target, then move the clock there. */
  ghost function Run(f: Scene, s: Sim, target: int): Sim
    requires Live(f, s)
    decreases Total(f.cfg, Observations, s.jobs, target), |s.fdb|
  {
    if Finished(s, target) then s.(now := target) else
    StepKeeps(f, s);
    StepDecreases(f, s, target);
    Run(f, Step(f, s), target)
  }

  lemma FinishedLive(f: Scene, s: Sim, target: int)
    requires Live(f, s) && Finished(s, target) && s.now <= target
    ensures Live(f, s.(now := target))
  {
    ReachKeeps(f, s, target);
  }

  /** An advance keeps the invariant: in particular every row left expires strictly after the time reached. */
  lemma {:induction false} RunKeeps(f: Scene, s: Sim, target: int)
    requires Live(f, s) && s.now <= target
    ensures Live(f, Run(f, s, target)) && Run(f, s, target).now == target
    decreases Total(f.cfg, Observations, s.jobs, target), |s.fdb|
  {
    if Finished(s, target) {
      FinishedLive(f, s, target);
    } else {
      StepKeeps(f, s);
      StepDecreases(f, s, target);
      RunKeeps(f, Step(f, s), target);
    }
  }

  // ---------------------------------------------------------------------------------------------
  // Additivity
  // ---------------------------------------------------------------------------------------------

  /** Where the clock stands before the next deadline makes no difference to any step. */
  lemma ClockIrrelevant(f: Scene, s: Sim, at: int, target: int)
    requires Live(f, s) && Live(f, s.(now := at))
    ensures Run(f, s.(now := at), target) == Run(f, s, target)
  {
    var t := s.(now := at);
    assert Idle(t) == Idle(s);
    if !Idle(s) {
      assert NextAt(t) == NextAt(s);
      assert t.(now := NextAt(s)) == s.(now := NextAt(s));
      assert Step(f, t) == Step(f, s);
    }
    assert t.(now := target) == s.(now := target);
  }

  /** Advancing to a time between and then on is advancing there at once: same clock, jobs, rows, counters and events. */
  lemma {:induction false} RunAdds(f: Scene, s: Sim, between: int, target: int)
    requires Live(f, s) && s.now <= between <= target
    ensures Live(f, Run(f, s, between)) && Run(f, Run(f, s, between), target) == Run(f, s, target)
    decreases Total(f.cfg, Observations, s.jobs, between), |s.fdb|
  {
    if Finished(s, between) {
      FinishedLive(f, s, between);
      ClockIrrelevant(f, s, between, target);
    } else {
      StepKeeps(f, s);
      StepDecreases(f, s, between);
      RunAdds(f, Step(f, s), between, target);
    }
  }

  /** The jobs after a run: each has moved on by as many intervals as it had occasions. */
  function Moved(cfg: Configuration, k: Key, j: Job, target: int): Job {
    j.(due := j.due + Occasions(j.due, Interval(cfg, k), target) * Interval(cfg, k))
  }

  lemma MovedOnce(cfg: Configuration, k: Key, j: Job, target: int)
    requires j.due <= target
    ensures Moved(cfg, k, j.(due := j.due + Interval(cfg, k)), target) == Moved(cfg, k, j, target)
  {
    var i := Interval(cfg, k);
    OneFewerOccasion(j.due, i, target);
    var n := Occasions(j.due + i, i, target);
    assert (1 + n) * i == i + n * i;
  }

  function AllMoved(cfg: Configuration, jobs: map<Key, Job>, target: int): map<Key, Job> {
    map k | k in jobs :: Moved(cfg, k, jobs[k], target)
  }

  lemma AllMovedOnce(cfg: Configuration, jobs: map<Key, Job>, k: Key, target: int)
    requires k in jobs && jobs[k].due <= target
    ensures AllMoved(cfg, Refired(cfg, jobs, k, jobs[k].due), target) == AllMoved(cfg, jobs, target)
  {
    MovedOnce(cfg, k, jobs[k], target);
  }

  lemma FireMoves(f: Scene, s: Sim, k: Key, target: int)
    requires Live(f, s) && k in s.jobs && s.jobs[k].due == s.now <= target
    ensures AllMoved(f.cfg, Fire(f, s, k, None).jobs, target) == AllMoved(f.cfg, s.jobs, target)
  {
    FireFrame(f, s, k, None);
    AllMovedOnce(f.cfg, s.jobs, k, target);
  }

  lemma StepMoves(f: Scene, s: Sim, target: int)
    requires Live(f, s) && !Finished(s, target)
    ensures AllMoved(f.cfg, Step(f, s).jobs, target) == AllMoved(f.cfg, s.jobs, target)
  {
    var at := NextAt(s);
    if Stale(s, at) {
      AgedLive(f, s, at);
    } else {
      ReachedLive(f, s, at);
      FireMoves(f, s.(now := at), Earliest(s.jobs), target);
    }
  }

  lemma NoneMoved(cfg: Configuration, jobs: map<Key, Job>, target: int)
    requires forall k :: k in jobs ==> jobs[k].due > target
    ensures AllMoved(cfg, jobs, target) == jobs
  {
    forall k | k in jobs ensures Moved(cfg, k, jobs[k], target) == jobs[k] {
      assert Occasions(jobs[k].due, Interval(cfg, k), target) == 0;
    }
  }

  lemma {:induction false} RunMovesJobs(f: Scene, s: Sim, target: int)
    requires Live(f, s)
    ensures Run(f, s, target).jobs == AllMoved(f.cfg, s.jobs, target)
    decreases Total(f.cfg, Observations, s.jobs, target), |s.fdb|
  {
    if Finished(s, target) {
      NoneMoved(f.cfg, s.jobs, target);
    } else {
      StepKeeps(f, s);
      StepDecreases(f, s, target);
      StepMoves(f, s, target);
      RunMovesJobs(f, Step(f, s), target);
    }
  }

  // ---------------------------------------------------------------------------------------------
  // Exact counters
  // ---------------------------------------------------------------------------------------------

  function Reading(counters: map<Id, Counters>, m: Measure): nat
    requires m.Observations? || m.port in counters
  {
    match m
    case Observations => 0
    case Octets(p) => counters[p].octets
    case Unicast(p) => counters[p].unicast
    case Discards(p) => counters[p].discards
  }

  /** One observation adds its octets and exactly one of the two packet counters, to its own port only. */
  lemma ObserveCounts(f: Scene, s: Sim, j: Job, m: Measure)
    requires ValidJob(f, j) && j.port in s.counters && !m.Observations? && m.port in s.counters
    ensures m.port in Observe(f, s, j, None).counters
    ensures Reading(Observe(f, s, j, None).counters, m) == Reading(s.counters, m) + Weight(f.cfg, m, j)
  {
    ObserveFrame(f, s, j, None);
  }

  /** What a counter shows plus what is still to come to it. */
  ghost function Eventual(f: Scene, s: Sim, target: int, m: Measure): nat
    requires m.Observations? || m.port in s.counters
  {
    Reading(s.counters, m) + Total(f.cfg, m, s.jobs, target)
  }

  lemma FireEventual(f: Scene, s: Sim, k: Key, target: int, m: Measure)
    requires Live(f, s) && k in s.jobs && s.jobs[k].due == s.now <= target
    requires !m.Observations? && m.port in s.counters
    ensures m.port in Fire(f, s, k, None).counters
    ensures Eventual(f, Fire(f, s, k, None), target, m) == Eventual(f, s, target, m)
  {
    FireJobsTotal(f, s, k, target, m);
    ObserveCounts(f, s, s.jobs[k], m);
  }

  lemma StepEventual(f: Scene, s: Sim, target: int, m: Measure)
    requires Live(f, s) && !Finished(s, target) && !m.Observations? && m.port in s.counters
    ensures m.port in Step(f, s).counters
    ensures Eventual(f, Step(f, s), target, m) == Eventual(f, s, target, m)
  {
    var at := NextAt(s);
    if Stale(s, at) {
      AgedLive(f, s, at);
    } else {
      ReachedLive(f, s, at);
      FireEventual(f, s.(now := at), Earliest(s.jobs), target, m);
    }
  }

  /**
   * Every counter of every port grows by the closed form: the sum, over the jobs on the port, of what one of its observations
   * adds times its number of occasions.
   */
  lemma {:induction false} RunCounts(f: Scene, s: Sim, target: int, m: Measure)
    requires Live(f, s) && !m.Observations? && m.port in s.counters
    ensures m.port in Run(f, s, target).counters
    ensures Reading(Run(f, s, target).counters, m) == Reading(s.counters, m) + Total(f.cfg, m, s.jobs, target)
    decreases Total(f.cfg, Observations, s.jobs, target), |s.fdb|
  {
    if Finished(s, target) {
      NothingDue(f.cfg, m, s.jobs, target);
    } else {
      StepKeeps(f, s);
      StepDecreases(f, s, target);
      StepEventual(f, s, target, m);
      RunCounts(f, Step(f, s), target, m);
    }
  }

  // ---------------------------------------------------------------------------------------------
  // The command and its guard
  // ---------------------------------------------------------------------------------------------

  ghost predicate Accepts(f: Scene, s: Sim, target: int) {
    1 <= target - s.now <= 86400000 && Total(f.cfg, Observations, s.jobs, target) <= MAX_WORK
  }

  /** `advance(d)` moves to `now + d`, if the duration is in range and the estimated work is within bounds. */
  ghost function AdvanceTo(f: Scene, s: Sim, target: int): Option<Sim>
    requires Live(f, s)
  {
    if Accepts(f, s, target) then Some(Run(f, s, target)) else None
  }

  lemma StepWork(f: Scene, s: Sim, between: int, target: int)
    requires Live(f, s) && !Finished(s, between) && between <= target
    ensures Total(f.cfg, Observations, s.jobs, between) - Total(f.cfg, Observations, Step(f, s).jobs, between)
         == Total(f.cfg, Observations, s.jobs, target) - Total(f.cfg, Observations, Step(f, s).jobs, target)
  {
    StepDecreases(f, s, between);
    StepDecreases(f, s, target);
  }

  /** The work up to a time between and the work left there make up the whole. */
  lemma {:induction false} WorkAdds(f: Scene, s: Sim, between: int, target: int)
    requires Live(f, s) && between <= target
    ensures Total(f.cfg, Observations, s.jobs, between) + Total(f.cfg, Observations, Run(f, s, between).jobs, target)
         == Total(f.cfg, Observations, s.jobs, target)
    decreases Total(f.cfg, Observations, s.jobs, between), |s.fdb|
  {
    if Finished(s, between) {
      NothingDue(f.cfg, Observations, s.jobs, between);
    } else {
      StepKeeps(f, s);
      StepDecreases(f, s, between);
      StepWork(f, s, between, target);
      WorkAdds(f, Step(f, s), between, target);
    }
  }

  /**
   * Whenever an advance by `a + b` is accepted, the advance by `a` is, then the one by `b` is, and both ways end in the same
   * clock, jobs, rows, counters and events.
   */
  lemma AdvanceAdds(f: Scene, s: Sim, between: int, target: int)
    requires Live(f, s) && s.now < between < target && AdvanceTo(f, s, target).Some?
    ensures AdvanceTo(f, s, between).Some? && Live(f, AdvanceTo(f, s, between).value)
    ensures AdvanceTo(f, AdvanceTo(f, s, between).value, target) == AdvanceTo(f, s, target)
  {
    WorkAdds(f, s, between, target);
    RunKeeps(f, s, between);
    RunAdds(f, s, between, target);
  }

  // ---------------------------------------------------------------------------------------------
  // Which observations happen, and in which order
  // ---------------------------------------------------------------------------------------------

  datatype Moment = Moment(at: int, key: Key)

  predicate Precedes(a: Moment, b: Moment) {
    || a.at < b.at
    || (a.at == b.at && (a.key.endpoint < b.key.endpoint || (a.key.endpoint == b.key.endpoint && a.key.source < b.key.source)))
  }

  /** The observations of a run, in the order in which they are made. */
  ghost function Trace(f: Scene, s: Sim, target: int): seq<Moment>
    requires Live(f, s)
    decreases Total(f.cfg, Observations, s.jobs, target), |s.fdb|
  {
    if Finished(s, target) then [] else
    StepKeeps(f, s);
    StepDecreases(f, s, target);
    (if Stale(s, NextAt(s)) then [] else [Moment(NextAt(s), Earliest(s.jobs))]) + Trace(f, Step(f, s), target)
  }

  /** A job has an occasion every interval from its due time on. */
  predicate Occurs(cfg: Configuration, jobs: map<Key, Job>, m: Moment, target: int) {
    m.key in jobs && jobs[m.key].due <= m.at <= target && (m.at - jobs[m.key].due) % Interval(cfg, m.key) == 0
  }

  lemma Remainder(d: int, i: int)
    requires 0 <= d && i >= 1
    ensures d >= i ==> (d - i) % i == d % i
    ensures 0 < d < i ==> d % i != 0
  {
    if d >= i {
      var q, r := (d - i) / i, (d - i) % i;
      assert d == i * (q + 1) + r;
      Quotient(d, i, q + 1, r);
    } else {
      Quotient(d, i, 0, d);
    }
  }

  lemma LaterOccasion(due: int, i: int, at: int)
    requires i >= 1
    ensures due <= at && (at - due) % i == 0 <==> at == due || (due + i <= at && (at - (due + i)) % i == 0)
  {
    if due <= at {
      Remainder(at - due, i);
      assert at - (due + i) == at - due - i;
    }
  }

  lemma FiredOccurs(cfg: Configuration, jobs: map<Key, Job>, e: Key, m: Moment, target: int)
    requires e in jobs && jobs[e].due <= target
    ensures var after := Refired(cfg, jobs, e, jobs[e].due);
            Occurs(cfg, jobs, m, target) <==> m == Moment(jobs[e].due, e) || Occurs(cfg, after, m, target)
  {
    LaterOccasion(jobs[e].due, Interval(cfg, e), m.at);
  }

  lemma StepOccurs(f: Scene, s: Sim, m: Moment, target: int)
    requires Live(f, s) && !Finished(s, target)
    ensures Occurs(f.cfg, s.jobs, m, target) <==>
            (!Stale(s, NextAt(s)) && m == Moment(NextAt(s), Earliest(s.jobs))) || Occurs(f.cfg, Step(f, s).jobs, m, target)
  {
    var at := NextAt(s);
    if Stale(s, at) {
      AgedLive(f, s, at);
    } else {
      ReachedLive(f, s, at);
      FireFrame(f, s.(now := at), Earliest(s.jobs), None);
      FiredOccurs(f.cfg, s.jobs, Earliest(s.jobs), m, target);
    }
  }

  lemma {:induction false} TraceOccurs(f: Scene, s: Sim, target: int)
    requires Live(f, s)
    ensures forall m :: m in Trace(f, s, target) <==> Occurs(f.cfg, s.jobs, m, target)
    decreases Total(f.cfg, Observations, s.jobs, target), |s.fdb|
  {
    if Finished(s, target) {
      NothingDue(f.cfg, Observations, s.jobs, target);
    } else {
      StepKeeps(f, s);
      StepDecreases(f, s, target);
      TraceOccurs(f, Step(f, s), target);
      forall m ensures m in Trace(f, s, target) <==> Occurs(f.cfg, s.jobs, m, target) {
        StepOccurs(f, s, m, target);
      }
    }
  }

  lemma {:induction false} TraceCounts(f: Scene, s: Sim, target: int)
    requires Live(f, s)
    ensures |Trace(f, s, target)| == Total(f.cfg, Observations, s.jobs, target)
    decreases Total(f.cfg, Observations, s.jobs, target), |s.fdb|
  {
    if Finished(s, target) {
      NothingDue(f.cfg, Observations, s.jobs, target);
    } else {
      StepKeeps(f, s);
      StepDecreases(f, s, target);
      TraceCounts(f, Step(f, s), target);
    }
  }

  /** A run makes exactly the observations that fall due, as many as its guard estimated. */
  lemma TraceIsExact(f: Scene, s: Sim, target: int)
    requires Live(f, s)
    ensures forall m :: m in Trace(f, s, target) <==> Occurs(f.cfg, s.jobs, m, target)
    ensures |Trace(f, s, target)| == Total(f.cfg, Observations, s.jobs, target)
  {
    TraceOccurs(f, s, target);
    TraceCounts(f, s, target);
  }

  lemma EarliestPrecedes(f: Scene, s: Sim, m: Moment, target: int)
    requires Live(f, s) && !Finished(s, target) && !Stale(s, NextAt(s)) && Occurs(f.cfg, Step(f, s).jobs, m, target)
    ensures Precedes(Moment(NextAt(s), Earliest(s.jobs)), m)
  {
    var at, e := NextAt(s), Earliest(s.jobs);
    ReachedLive(f, s, at);
    FireFrame(f, s.(now := at), e, None);
    assert KeyOf(s.jobs[e]) == e && KeyOf(s.jobs[m.key]) == m.key;
    assert m.key != e ==> Before(s.jobs[e], s.jobs[m.key]);
  }

  ghost predicate InOrder(ms: seq<Moment>) {
    forall i, j :: 0 <= i < j < |ms| ==> Precedes(ms[i], ms[j])
  }

  lemma FirstInOrder(m: Moment, rest: seq<Moment>)
    requires InOrder(rest) && forall n :: n in rest ==> Precedes(m, n)
    ensures InOrder([m] + rest)
  {
  }

  /** Observations are made in strictly ascending order of time, endpoint and source. */
  lemma {:induction false} TraceAscends(f: Scene, s: Sim, target: int)
    requires Live(f, s)
    ensures InOrder(Trace(f, s, target))
    decreases Total(f.cfg, Observations, s.jobs, target), |s.fdb|
  {
    if !Finished(s, target) {
      StepKeeps(f, s);
      StepDecreases(f, s, target);
      var rest := Trace(f, Step(f, s), target);
      TraceAscends(f, Step(f, s), target);
      if !Stale(s, NextAt(s)) {
        TraceIsExact(f, Step(f, s), target);
        forall m | m in rest ensures Precedes(Moment(NextAt(s), Earliest(s.jobs)), m) {
          EarliestPrecedes(f, s, m, target);
        }
        FirstInOrder(Moment(NextAt(s), Earliest(s.jobs)), rest);
      } else {
        assert Trace(f, s, target) == rest;
      }
    }
  }
}
