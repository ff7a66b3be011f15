/** The in-place form of the simulation: a clock, jobs, rows and counters that `advance` updates from a heap of jobs. */
module Runtime {
  import opened Outcomes
  import opened Configuration
  import opened Simulation
  import opened Advance
  import P = Publication

  // ---------------------------------------------------------------------------------------------
  // One turn of the loop as steps of the specification
  // ---------------------------------------------------------------------------------------------

  lemma {:induction false} NothingExpires(s: Sim, fdb: seq<Row>)
    requires forall r :: r in fdb ==> r.expiresAt > s.now
    ensures Expire(s, fdb) == s.(fdb := s.fdb + fdb)
    decreases |fdb|
  {
    if fdb == [] {
      assert s.fdb + fdb == s.fdb;
    } else {
      assert s.fdb + [fdb[0]] + fdb[1..] == s.fdb + fdb;
      NothingExpires(s.(fdb := s.fdb + [fdb[0]]), fdb[1..]);
    }
  }

  /** Reaching the next deadline and ageing there is a step, or changes nothing that a step would notice. */
  lemma AgeStep(f: Scene, s: Sim, target: int)
    requires Live(f, s) && !Finished(s, target)
    ensures Live(f, Age(s.(now := NextAt(s)))) && Age(s.(now := NextAt(s))).jobs == s.jobs
    ensures Age(s.(now := NextAt(s))).now == NextAt(s) <= target
    ensures Run(f, Age(s.(now := NextAt(s))), target) == Run(f, s, target)
    ensures |Age(s.(now := NextAt(s))).fdb| < |s.fdb| || exists k :: k in s.jobs && s.jobs[k].due == NextAt(s)
  {
    var at := NextAt(s);
    AgedLive(f, s, at);
    if !Stale(s, at) {
      NothingExpires(s.(now := at, fdb := []), s.fdb);
      assert [] + s.fdb == s.fdb;
      ReachedLive(f, s, at);
      ClockIrrelevant(f, s, at, target);
    }
  }

  lemma OnlyOneEarliest(jobs: map<Key, Job>, a: Key, b: Key)
    requires IsEarliest(jobs, a) && IsEarliest(jobs, b) && KeyOf(jobs[a]) == a && KeyOf(jobs[b]) == b
    ensures a == b
  {
    assert Before(jobs[a], jobs[b]) && Before(jobs[b], jobs[a]);
  }

  /** Firing the job on top of the heap, when it is due now, is the step of the specification. */
  lemma FireStep(f: Scene, s: Sim, k: Key, target: int)
    requires Live(f, s) && IsEarliest(s.jobs, k) && s.jobs[k].due == s.now <= target && !Stale(s, s.now)
    ensures Live(f, Fire(f, s, k, None)) && Run(f, Fire(f, s, k, None), target) == Run(f, s, target)
    ensures Fire(f, s, k, None).now == s.now
    ensures Fire(f, s, k, None).jobs == Refired(f.cfg, s.jobs, k, s.now)
    ensures Total(f.cfg, Observations, Fire(f, s, k, None).jobs, target) == Total(f.cfg, Observations, s.jobs, target) - 1
  {
    FireKeeps(f, s, k, None);
    assert NextAt(s) == s.now;
    assert s.(now := s.now) == s;
    OnlyOneEarliest(s.jobs, k, Earliest(s.jobs));
    FireJobsTotal(f, s, k, target, Observations);
  }

  lemma {:induction false} LiveEstimate(cfg: Configuration, jobs: map<Key, Job>, k: Key, target: int)
    requires k in jobs
    ensures var n := (target - jobs[k].due) / Interval(cfg, k) + 1;
            (if n < 0 then 0 else n) == Share(cfg, Observations, k, jobs[k], target)
  {
    var d, i := target - jobs[k].due, Interval(cfg, k);
    if d < 0 {
      Multiples(i, d / i);
      assert d / i <= -1;
    }
  }

  lemma EstimateOff(cfg: Configuration, jobs: map<Key, Job>, k: Key, target: int)
    requires k in jobs
    ensures var n := (target - jobs[k].due) / Interval(cfg, k) + 1;
            Total(cfg, Observations, jobs, target) == (if n < 0 then 0 else n) + Total(cfg, Observations, jobs - {k}, target)
    ensures |jobs - {k}| < |jobs|
  {
    TotalSplits(cfg, Observations, jobs, target, k);
    LiveEstimate(cfg, jobs, k, target);
    assert (jobs - {k}).Keys == jobs.Keys - {k};
  }

  /** The rows of a list that are kept so far, and the rest, make up the specified result. */
  lemma ExpireOnce(s: Sim, fdb: seq<Row>)
    requires fdb != []
    ensures Expire(s, fdb) ==
            if fdb[0].expiresAt <= s.now then Expire(Emit(s, MacAge(fdb[0].mac, fdb[0].vid, fdb[0].port)), fdb[1..])
            else Expire(s.(fdb := s.fdb + [fdb[0]]), fdb[1..])
  {
  }

  lemma FirstMoves<T>(kept: seq<T>, rest: seq<T>)
    requires rest != []
    ensures kept + rest == kept + [rest[0]] + rest[1..]
  {
  }

  lemma EmitFrame(s: Sim, fdb: seq<Row>, what: Occurrence)
    ensures Emit(s.(fdb := fdb), what) == Emit(s, what).(fdb := fdb)
  {
  }

  /** The heap holds the jobs. */
  ghost predicate HeapOf(heap: set<Job>, jobs: map<Key, Job>) {
    forall j :: j in heap <==> KeyOf(j) in jobs && jobs[KeyOf(j)] == j
  }

  lemma HeapTop(f: Scene, s: Sim, heap: set<Job>, top: Job)
    requires Live(f, s) && HeapOf(heap, s.jobs) && top in heap && forall j :: j in heap ==> Before(top, j)
    ensures IsEarliest(s.jobs, KeyOf(top)) && s.jobs[KeyOf(top)] == top
    ensures s.now <= top.due && (s.now < top.due ==> forall k :: k in s.jobs ==> s.jobs[k].due != s.now)
    ensures !Stale(s, s.now)
  {
    forall k | k in s.jobs ensures Before(top, s.jobs[k]) {
      assert KeyOf(s.jobs[k]) == k;
    }
  }

  lemma HeapDeadline(heap: set<Job>, s: Sim, deadline: Option<int>)
    requires HeapOf(heap, s.jobs) && forall k :: k in s.jobs ==> KeyOf(s.jobs[k]) == k
    requires deadline.None? ==> heap == {} && s.fdb == []
    requires deadline.Some? ==> (forall j :: j in heap ==> deadline.value <= j.due) && (forall r :: r in s.fdb ==> deadline.value <= r.expiresAt)
    requires deadline.Some? ==> (exists j :: j in heap && j.due == deadline.value) || (exists r :: r in s.fdb && r.expiresAt == deadline.value)
    ensures deadline == if Idle(s) then None else Some(NextAt(s))
  {
    forall k | k in s.jobs ensures s.jobs[k] in heap {}
    if deadline.None? {
      assert s.jobs.Keys == {};
    } else {
      assert IsNext(s, deadline.value);
    }
  }

  lemma HeapFires(jobs: map<Key, Job>, heap: set<Job>, top: Job, next: Job)
    requires HeapOf(heap, jobs) && top in heap && KeyOf(next) == KeyOf(top)
    ensures HeapOf(heap - {top} + {next}, jobs[KeyOf(top) := next])
  {
  }

  // ---------------------------------------------------------------------------------------------
  // Scheduling one endpoint after another
  // ---------------------------------------------------------------------------------------------

  lemma {:induction false} FindUnique(sources: seq<Source>, i: nat)
    requires SourcesOk(sources) && i < |sources|
    ensures Find(sources, sources[i].id) == Some(sources[i])
  {
    if i > 0 {
      assert sources[1..][i - 1] == sources[i];
      FindUnique(sources[1..], i - 1);
    }
  }

  /** The job that scheduling captures for one source. */
  function SourceJob(f: Scene, now: int, e: Id, p: Id, src: Source): Job
    requires p in f.cfg.ports
  {
    Job(e, src.id, p, f.epoch, P.Generation(f.egens, e), P.Generation(f.pgens, p), src.mac, Effective(f.cfg.ports[p], src.tag),
        now + src.initialDelay)
  }

  predicate Runnable(cfg: Configuration, e: Id) {
    e in cfg.endpoints && cfg.endpoints[e].active && e in cfg.attachments && Up(cfg.ports, cfg.attachments, cfg.attachments[e])
  }

  lemma IdleRescheduled(f: Scene, now: int, jobs: map<Key, Job>, e: Id)
    requires !Runnable(f.cfg, e)
    ensures P.Rescheduled(f, now, jobs, {e}) == jobs - set k | k in jobs && k.endpoint == e
  {
  }

  lemma RescheduledAt(f: Scene, now: int, jobs: map<Key, Job>, endpoints: set<Id>, k: Key)
    ensures var after := P.Rescheduled(f, now, jobs, endpoints);
            && (k in after <==> if k.endpoint in endpoints then P.Wanted(f.cfg, k) else k in jobs)
            && (k in after && k.endpoint in endpoints ==> after[k] == P.NewJob(f, now, k))
            && (k in after && k.endpoint !in endpoints ==> after[k] == jobs[k])
  {
    if k.endpoint in endpoints && P.Wanted(f.cfg, k) { P.WantedIsSourced(f.cfg, k, endpoints); }
  }

  lemma SameMaps(m: map<Key, Job>, n: map<Key, Job>)
    requires forall k :: (k in m <==> k in n) && (k in m ==> m[k] == n[k])
    ensures m == n
  {
  }

  lemma CapturedRescheduled(f: Scene, now: int, jobs: map<Key, Job>, e: Id, next: map<Key, Job>)
    requires Runnable(f.cfg, e) && SourcesOk(f.cfg.endpoints[e].sources)
    requires forall k: Key :: k.endpoint != e ==> (k in next <==> k in jobs) && (k in next ==> next[k] == jobs[k])
    requires var sources := f.cfg.endpoints[e].sources;
             && (forall i :: 0 <= i < |sources| ==> Key(e, sources[i].id) in next
                                                    && next[Key(e, sources[i].id)] == SourceJob(f, now, e, f.cfg.attachments[e], sources[i]))
             && (forall k :: k in next && k.endpoint == e ==> exists i :: 0 <= i < |sources| && k.source == sources[i].id)
    ensures next == P.Rescheduled(f, now, jobs, {e})
  {
    var sources, after := f.cfg.endpoints[e].sources, P.Rescheduled(f, now, jobs, {e});
    forall k ensures (k in next <==> k in after) && (k in next ==> next[k] == after[k]) {
      RescheduledAt(f, now, jobs, {e}, k);
      if k.endpoint == e { CapturedAt(f, now, e, next, k); }
    }
    SameMaps(next, after);
  }

  lemma CapturedAt(f: Scene, now: int, e: Id, next: map<Key, Job>, k: Key)
    requires Runnable(f.cfg, e) && SourcesOk(f.cfg.endpoints[e].sources) && k.endpoint == e
    requires var sources := f.cfg.endpoints[e].sources;
             && (forall i :: 0 <= i < |sources| ==> Key(e, sources[i].id) in next
                                                    && next[Key(e, sources[i].id)] == SourceJob(f, now, e, f.cfg.attachments[e], sources[i]))
             && (k in next ==> exists i :: 0 <= i < |sources| && k.source == sources[i].id)
    ensures (k in next <==> P.Wanted(f.cfg, k)) && (k in next ==> next[k] == P.NewJob(f, now, k))
  {
    var sources := f.cfg.endpoints[e].sources;
    P.FoundIsListed(sources, k.source);
    if i :| 0 <= i < |sources| && k.source == sources[i].id {
      FindUnique(sources, i);
      assert k == Key(e, sources[i].id);
    }
  }

  lemma RescheduledOneMore(f: Scene, now: int, jobs: map<Key, Job>, done: set<Id>, e: Id)
    ensures P.Rescheduled(f, now, P.Rescheduled(f, now, jobs, done), {e}) == P.Rescheduled(f, now, jobs, done + {e})
  {
    var once := P.Rescheduled(f, now, jobs, done);
    var twice, all := P.Rescheduled(f, now, once, {e}), P.Rescheduled(f, now, jobs, done + {e});
    forall k ensures (k in twice <==> k in all) && (k in twice ==> twice[k] == all[k]) {
      RescheduledAt(f, now, jobs, done, k);
      RescheduledAt(f, now, once, {e}, k);
      RescheduledAt(f, now, jobs, done + {e}, k);
    }
    SameMaps(twice, all);
  }

  lemma NothingRescheduled(f: Scene, now: int, jobs: map<Key, Job>)
    ensures P.Rescheduled(f, now, jobs, {}) == jobs
  {
  }

  class Runtime {
    var cfg: Configuration
    var epoch: nat
    var egens: map<Id, nat>
    var pgens: map<Id, nat>
    var now: int
    var jobs: map<Key, Job>
    var fdb: seq<Row>
    var counters: map<Id, Counters>
    var learnedDiscards: nat
    var events: seq<Event>
    var lastEvent: nat

    ghost function Facts(): Scene
      reads this
    {
      Scene(cfg, epoch, egens, pgens)
    }

    ghost function View(): Sim
      reads this
    {
      Sim(now, jobs, fdb, counters, learnedDiscards, events, lastEvent)
    }

    constructor (cfg: Configuration, epoch: nat, egens: map<Id, nat>, pgens: map<Id, nat>)
      ensures Facts() == Scene(cfg, epoch, egens, pgens)
      ensures View() == Sim(0, map[], [], map p | p in cfg.ports :: Counters(0, 0, 0), 0, [], 0)
    {
      this.cfg, this.epoch, this.egens, this.pgens := cfg, epoch, egens, pgens;
      now, jobs, fdb, learnedDiscards, events, lastEvent := 0, map[], [], 0, [], 0;
      counters := map p | p in cfg.ports :: Counters(0, 0, 0);
    }

    /** `schedule`: the endpoint's jobs are dropped and, where it can be heard, captured anew for each of its sources. */
    method Schedule(e: Id)
      requires e in cfg.endpoints ==> SourcesOk(cfg.endpoints[e].sources)
      modifies this`jobs
      ensures jobs == P.Rescheduled(Facts(), now, old(jobs), {e})
    {
      ghost var before := jobs;
      jobs := jobs - set k | k in jobs && k.endpoint == e;
      if !Runnable(cfg, e) {
        IdleRescheduled(Facts(), now, before, e);
        return;
      }
      var p, sources := cfg.attachments[e], cfg.endpoints[e].sources;
      for i := 0 to |sources|
        invariant forall k: Key :: k.endpoint != e ==> (k in jobs <==> k in before) && (k in jobs ==> jobs[k] == before[k])
        invariant forall n :: 0 <= n < i ==> Key(e, sources[n].id) in jobs
                                             && jobs[Key(e, sources[n].id)] == SourceJob(Facts(), now, e, p, sources[n])
        invariant forall k :: k in jobs && k.endpoint == e ==> exists n :: 0 <= n < i && k.source == sources[n].id
      {
        var job := SourceJob(Scene(cfg, epoch, egens, pgens), now, e, p, sources[i]);
        jobs := jobs[Key(e, sources[i].id) := job];
      }
      CapturedRescheduled(Facts(), now, before, e, jobs);
    }

    /** The wrapper's loop over the affected endpoints */
    method ScheduleAll(endpoints: set<Id>)
      requires forall e :: e in cfg.endpoints ==> SourcesOk(cfg.endpoints[e].sources)
      modifies this`jobs
      ensures jobs == P.Rescheduled(Facts(), now, old(jobs), endpoints)
    {
      var todo := endpoints;
      NothingRescheduled(Facts(), now, jobs);
      while todo != {}
        invariant todo <= endpoints && jobs == P.Rescheduled(Facts(), now, old(jobs), endpoints - todo)
        decreases |todo|
      {
        var e :| e in todo;
        RescheduledOneMore(Facts(), now, old(jobs), endpoints - todo, e);
        assert endpoints - todo + {e} == endpoints - (todo - {e});
        Schedule(e);
        todo := todo - {e};
      }
      assert endpoints - {} == endpoints;
    }

    method Record(what: Occurrence)
      modifies this`events, this`lastEvent
      ensures View() == Emit(old(View()), what)
    {
      lastEvent := lastEvent + 1;
      events := events + [Event(lastEvent, now, what)];
      if |events| > HISTORY {
        events := events[|events| - HISTORY..];
      }
    }

    method Valid(job: Job) returns (ok: bool)
      ensures ok == ValidJob(Facts(), job)
    {
      ok := ValidJob(Scene(cfg, epoch, egens, pgens), job);
    }

    method Refuse(job: Job)
      requires job.port in counters
      modifies this`counters, this`events, this`lastEvent
      ensures View() == Reject(old(View()), job)
    {
      var c := counters[job.port];
      counters := counters[job.port := c.(discards := c.discards + 1)];
      if c.discards + 1 == 1 {
        Record(AdmissionRejected(job.endpoint, job.vid, job.port));
      }
    }

    method Remember(job: Job, vid: VlanId) returns (learned: bool)
      requires job.port in counters && job.port in cfg.ports && vid in cfg.vlans
      modifies this`counters, this`fdb, this`learnedDiscards, this`events, this`lastEvent
      ensures View() == Learn(cfg, old(View()), job, vid)
    {
      var c := counters[job.port];
      counters := counters[job.port := c.(unicast := c.unicast + 1)];
      var fdbId := cfg.vlans[vid].fdbId;
      var i := RowAt(fdb, fdbId, job.mac);
      if i == |fdb| && |fdb| >= cfg.chassis.fdbLimit {
        learnedDiscards := learnedDiscards + 1;
        if learnedDiscards == 1 {
          Record(LearningCapacity(cfg.chassis.fdbLimit));
        }
        return false;
      }
      var hw := cfg.ports[job.port].hw;
      var row := Row(fdbId, job.mac, vid, hw.id, hw.bridgePort, hw.ifIndex, now, now + cfg.switch.agingSeconds * 1000);
      if i == |fdb| {
        fdb := fdb + [row];
        Record(MacLearn(job.mac, vid, hw.id));
      } else {
        var moved := fdb[i].port != hw.id;
        fdb := fdb[i := row];
        if moved {
          Record(MacMove(job.mac, vid, hw.id));
        }
      }
      return true;
    }

    method Notice(job: Job) returns (learned: bool)
      requires ValidJob(Facts(), job) ==> job.port in counters
      modifies this`counters, this`fdb, this`learnedDiscards, this`events, this`lastEvent
      ensures View() == Observe(Facts(), old(View()), job, None)
    {
      var ok := Valid(job);
      if !ok {
        Record(InvalidatedWork(job.endpoint));
        return false;
      }
      var src := SourceOf(cfg, KeyOf(job)).value;
      var c := counters[job.port];
      counters := counters[job.port := c.(octets := c.octets + src.octets)];
      assert View() == Heard(old(View()), job.port, src.octets);
      var vid := Admitted(cfg, job, src.tag, None);
      if vid.None? {
        Refuse(job);
        return false;
      }
      learned := Remember(job, vid.value);
    }

    method RetireRows()
      modifies this`fdb, this`events, this`lastEvent
      ensures View() == Age(old(View()))
    {
      var kept, rest := [], fdb;
      ghost var s := View().(fdb := []);
      while rest != []
        invariant fdb == kept + rest && s.fdb == kept && View() == s.(fdb := fdb)
        invariant Expire(s, rest) == Age(old(View()))
        decreases |rest|
      {
        ExpireOnce(s, rest);
        var row := rest[0];
        if row.expiresAt <= now {
          var what := MacAge(row.mac, row.vid, row.port);
          fdb := kept + rest[1..];
          EmitFrame(s, fdb, what);
          Record(what);
          s := Emit(s, what);
        } else {
          FirstMoves(kept, rest);
          kept := kept + [row];
          s := s.(fdb := kept);
        }
        rest := rest[1..];
      }
    }

    method Estimate(target: int, ghost f: Scene, ghost s: Sim) returns (n: nat)
      requires Facts() == f && View() == s && JobsLive(f, s.now, s.jobs)
      ensures n == Total(f.cfg, Observations, s.jobs, target)
    {
      n := 0;
      var rest := jobs;
      while rest != map[]
        invariant forall k :: k in rest ==> k in jobs && rest[k] == jobs[k]
        invariant n + Total(cfg, Observations, rest, target) == Total(cfg, Observations, jobs, target)
        decreases |rest|
      {
        var k :| k in rest;
        EstimateOff(cfg, rest, k, target);
        var ok := Valid(rest[k]);
        if ok {
          var share := (target - rest[k].due) / Interval(cfg, k) + 1;
          n := n + if share < 0 then 0 else share;
        }
        rest := rest - {k};
      }
    }

    /** The first entry, which is the least. */
    static method Top(heap: set<Job>) returns (j: Job)
      requires heap != {}
      ensures j in heap && forall i :: i in heap ==> Before(j, i)
    {
      j :| j in heap;
      var rest := heap - {j};
      while rest != {}
        invariant rest <= heap && j in heap
        invariant forall i :: i in heap && i !in rest ==> Before(j, i)
        decreases |rest|
      {
        var i :| i in rest;
        if Before(i, j) {
          j := i;
        }
        rest := rest - {i};
      }
    }

    method Perform(job: Job)
      requires Live(Facts(), View()) && KeyOf(job) in jobs && jobs[KeyOf(job)] == job
      modifies this`jobs, this`counters, this`fdb, this`learnedDiscards, this`events, this`lastEvent
      ensures View() == Fire(Facts(), old(View()), KeyOf(job), None)
    {
      var learned := Notice(job);
      var current := Valid(job);
      if current {
        jobs := Refired(cfg, jobs, KeyOf(job), now);
      }
    }

    /** One turn of the inner loop. */
    method PerformTop(before: set<Job>, top: Job, ghost f: Scene, ghost s: Sim) returns (heap: set<Job>)
      requires Facts() == f && View() == s && Live(f, s) && HeapOf(before, s.jobs) && top in before && top.due == s.now
      modifies this`jobs, this`counters, this`fdb, this`learnedDiscards, this`events, this`lastEvent
      ensures Facts() == f && View() == Fire(f, s, KeyOf(top), None)
      ensures HeapOf(heap, View().jobs) && heap != {}
    {
      var next := top.(due := now + Interval(cfg, KeyOf(top)));
      FireFrame(f, s, KeyOf(top), None);
      HeapFires(s.jobs, before, top, next);
      Perform(top);
      heap := before - {top} + {next};
    }

    /** The inner loop: everything due at the deadline the clock has just reached. */
    method PerformDue(before: set<Job>, ghost f: Scene, ghost s: Sim, ghost target: int) returns (heap: set<Job>, ghost t: Sim)
      requires Facts() == f && View() == s && Live(f, s) && HeapOf(before, s.jobs) && s.now <= target
      modifies this`jobs, this`counters, this`fdb, this`learnedDiscards, this`events, this`lastEvent
      ensures Facts() == f && View() == t && Live(f, t) && HeapOf(heap, t.jobs)
      ensures Run(f, t, target) == Run(f, s, target)
      ensures t == s || Total(f.cfg, Observations, t.jobs, target) < Total(f.cfg, Observations, s.jobs, target)
      ensures t == s ==> forall k :: k in s.jobs ==> s.jobs[k].due != s.now
    {
      heap, t := before, s;
      var more := heap != {};
      while more
        invariant Facts() == f && View() == t && Live(f, t) && t.now <= target
        invariant HeapOf(heap, t.jobs) && (more ==> heap != {})
        invariant Run(f, t, target) == Run(f, s, target)
        invariant t == s || Total(f.cfg, Observations, t.jobs, target) < Total(f.cfg, Observations, s.jobs, target)
        invariant !more ==> forall k :: k in t.jobs ==> t.jobs[k].due != t.now
        decreases Total(f.cfg, Observations, t.jobs, target), more
      {
        var top := Top(heap);
        HeapTop(f, t, heap, top);
        if top.due == now {
          FireStep(f, t, KeyOf(top), target);
          heap := PerformTop(heap, top, f, t);
          t := Fire(f, t, KeyOf(top), None);
        } else {
          more := false;
        }
      }
    }

    /** The earliest candidate, when there are any. */
    method Deadline(heap: set<Job>, ghost s: Sim) returns (deadline: Option<int>)
      requires View() == s && HeapOf(heap, s.jobs) && forall k :: k in s.jobs ==> KeyOf(s.jobs[k]) == k
      ensures deadline == if Idle(s) then None else Some(NextAt(s))
    {
      deadline := None;
      if heap != {} {
        var top := Top(heap);
        deadline := Some(top.due);
      }
      if fdb != [] {
        var expiry := FirstExpiry(fdb);
        if deadline.None? || expiry < deadline.value {
          deadline := Some(expiry);
        }
      }
      HeapDeadline(heap, s, deadline);
    }

    /** The clock reaches the next deadline, and rows that expire there leave. */
    method ReachDeadline(deadline: int, ghost f: Scene, ghost s: Sim)
      requires Facts() == f && View() == s
      modifies this`now, this`fdb, this`events, this`lastEvent
      ensures Facts() == f && View() == Age(s.(now := deadline))
    {
      now := deadline;
      assert View() == s.(now := deadline);
      RetireRows();
    }

    /** One turn of the outer loop. */
    method Turn(before: set<Job>, deadline: int, ghost f: Scene, ghost s: Sim, ghost target: int)
      returns (heap: set<Job>, ghost t: Sim)
      requires Facts() == f && View() == s && Live(f, s) && HeapOf(before, s.jobs)
      requires !Finished(s, target) && deadline == NextAt(s)
      modifies this`now, this`jobs, this`counters, this`fdb, this`learnedDiscards, this`events, this`lastEvent
      ensures Facts() == f && View() == t && Live(f, t) && HeapOf(heap, t.jobs)
      ensures Run(f, t, target) == Run(f, s, target)
      ensures Total(f.cfg, Observations, t.jobs, target) < Total(f.cfg, Observations, s.jobs, target)
              || (t.jobs == s.jobs && |t.fdb| < |s.fdb|)
    {
      AgeStep(f, s, target);
      ReachDeadline(deadline, f, s);
      heap, t := PerformDue(before, f, Age(s.(now := deadline)), target);
    }

    /** The outer loop. */
    method Elapse(target: int, ghost f: Scene, ghost s: Sim)
      requires Facts() == f && View() == s && Live(f, s)
      modifies this`now, this`jobs, this`counters, this`fdb, this`learnedDiscards, this`events, this`lastEvent
      ensures Facts() == f && View() == Run(f, s, target)
    {
      var heap := set k | k in jobs :: jobs[k];
      ghost var t := s;
      var deadline := Deadline(heap, t);
      while deadline.Some? && deadline.value <= target
        invariant Facts() == f && View() == t && HeapOf(heap, t.jobs) && Live(f, t)
        invariant Run(f, t, target) == Run(f, s, target)
        invariant deadline == if Idle(t) then None else Some(NextAt(t))
        decreases Total(f.cfg, Observations, t.jobs, target), |t.fdb|
      {
        heap, t := Turn(heap, deadline.value, f, t, target);
        deadline := Deadline(heap, t);
      }
      now := target;
    }

    /** `advance`, when no port is in `auto` control and there is no session; the target is `now + duration` */
    method AdvanceTime(target: int, ghost f: Scene, ghost s: Sim) returns (ok: bool)
      requires Facts() == f && View() == s && Live(f, s) && 1 <= target - s.now <= 86400000
      modifies this`now, this`jobs, this`counters, this`fdb, this`learnedDiscards, this`events, this`lastEvent
      ensures Facts() == f && ok == AdvanceTo(f, s, target).Some?
      ensures ok ==> View() == AdvanceTo(f, s, target).value
      ensures !ok ==> View() == s
    {
      var estimated := Estimate(target, f, s);
      ok := estimated <= MAX_WORK;
      if ok {
        Elapse(target, f, s);
      }
    }
  }
}
