/** The accounting queue as the runtime changes it in place, the choice of records to send, and the order this gives to every run. */
module AccountingQueue {
  import opened Outcomes
  import opened Accounting
  import Codec
  import Budgets

  // ---------------------------------------------------------------------------------------------
  // Which records may be sent
  // ---------------------------------------------------------------------------------------------

  /** No earlier record of its subject and no earlier lifecycle record is queued; a lifecycle record is the first of all. */
  predicate Unblocked(outbox: seq<Record>, i: nat)
    requires i < |outbox|
  {
    && (forall j :: 0 <= j < i ==> outbox[j].subject != outbox[i].subject && !Lifecycle(outbox[j]))
    && (Lifecycle(outbox[i]) ==> i == 0)
  }

  method FirstLifecycle(outbox: seq<Record>) returns (k: nat)
    ensures k <= |outbox| && (k < |outbox| ==> Lifecycle(outbox[k])) && forall i :: 0 <= i < k ==> !Lifecycle(outbox[i])
  {
    k := 0;
    while k < |outbox| && !Lifecycle(outbox[k])
      invariant k <= |outbox| && forall i :: 0 <= i < k ==> !Lifecycle(outbox[i])
    {
      k := k + 1;
    }
  }

  /** The records queued before the k-th one. */
  method Earlier(outbox: seq<Record>, k: nat) returns (earlier: seq<Record>)
    requires Ordered(outbox) && k < |outbox|
    ensures earlier == outbox[..k]
  {
    earlier := [];
    for i := 0 to |outbox|
      invariant earlier == if i <= k then outbox[..i] else outbox[..k]
    {
      if outbox[i].sequence < outbox[k].sequence {
        assert i < k;
        earlier := earlier + [outbox[i]];
      }
    }
  }

  predicate HasSubject(heads: seq<Record>, subject: Subject) {
    exists i :: 0 <= i < |heads| && heads[i].subject == subject
  }

  ghost predicate FirstOfSubject(records: seq<Record>, i: nat)
    requires i < |records|
  {
    forall j :: 0 <= j < i ==> records[j].subject != records[i].subject
  }

  /** The first record of every subject, in queue order. */
  function Firsts(records: seq<Record>): seq<Record> {
    if records == [] then [] else
    var heads, last := Firsts(records[..|records| - 1]), records[|records| - 1];
    if HasSubject(heads, last.subject) then heads else heads + [last]
  }

  method FirstOfEach(records: seq<Record>) returns (heads: seq<Record>)
    ensures heads == Firsts(records)
  {
    heads := [];
    for n := 0 to |records|
      invariant heads == Firsts(records[..n])
    {
      assert records[..n + 1][..n] == records[..n];
      if !HasSubject(heads, records[n].subject) {
        heads := heads + [records[n]];
      }
    }
    assert records[..|records|] == records;
  }

  lemma {:induction false} FirstsSeen(records: seq<Record>)
    ensures forall h :: h in Firsts(records) ==> h in records
    ensures forall i :: 0 <= i < |records| ==> HasSubject(Firsts(records), records[i].subject)
  {
    if records != [] {
      var before, last := records[..|records| - 1], records[|records| - 1];
      FirstsSeen(before);
      var heads := Firsts(before);
      forall s | HasSubject(heads, s) ensures HasSubject(heads + [last], s) {
        var k :| 0 <= k < |heads| && heads[k].subject == s;
        assert (heads + [last])[k].subject == s;
      }
      assert (heads + [last])[|heads|].subject == last.subject;
      forall i | 0 <= i < |records| ensures HasSubject(Firsts(records), records[i].subject) {
        if i < |before| { assert HasSubject(heads, before[i].subject); }
      }
    }
  }

  lemma LastIsFirst(records: seq<Record>)
    requires records != [] && Ordered(records)
    ensures records[|records| - 1] in Firsts(records) <==> FirstOfSubject(records, |records| - 1)
  {
    var before, last := records[..|records| - 1], records[|records| - 1];
    FirstsSeen(before);
    forall h | h in Firsts(before) ensures h != last {
      assert h in before;
      var j :| 0 <= j < |before| && before[j] == h;
      assert records[j] == h;
    }
    if k :| 0 <= k < |Firsts(before)| && Firsts(before)[k].subject == last.subject {
      assert Firsts(before)[k] in before;
      var j :| 0 <= j < |before| && before[j] == Firsts(before)[k];
      assert records[j].subject == last.subject;
    } else {
      assert forall j :: 0 <= j < |before| ==> records[j] == before[j];
    }
  }

  lemma {:induction false} FirstsExact(records: seq<Record>, i: nat)
    requires Ordered(records) && i < |records|
    ensures records[i] in Firsts(records) <==> FirstOfSubject(records, i)
  {
    var last := |records| - 1;
    if i < last {
      FirstsSeen(records[..last]);
      FirstsExact(records[..last], i);
    } else {
      LastIsFirst(records);
    }
  }

  /** Exactly the unblocked records may be sent. */
  method Heads(outbox: seq<Record>) returns (heads: seq<Record>)
    requires Ordered(outbox)
    ensures forall i :: 0 <= i < |outbox| ==> (outbox[i] in heads <==> Unblocked(outbox, i))
    ensures forall h :: h in heads ==> h in outbox
  {
    var records := outbox;
    var k := FirstLifecycle(outbox);
    if k < |outbox| {
      records := Earlier(outbox, k);
      if records == [] {
        records := [outbox[k]];
      }
    }
    heads := FirstOfEach(records);
    FirstsSeen(records);
    forall i | 0 <= i < |records| { FirstsExact(records, i); }
    BlockedOnly(outbox, k, records, heads);
  }

  lemma BlockedOnly(outbox: seq<Record>, k: nat, records: seq<Record>, heads: seq<Record>)
    requires Ordered(outbox) && k <= |outbox| && (k < |outbox| ==> Lifecycle(outbox[k])) && forall i :: 0 <= i < k ==> !Lifecycle(outbox[i])
    requires records == if k == |outbox| then outbox else if k == 0 then [outbox[0]] else outbox[..k]
    requires forall i :: 0 <= i < |records| ==> (records[i] in heads <==> FirstOfSubject(records, i))
    requires forall h :: h in heads ==> h in records
    ensures forall i :: 0 <= i < |outbox| ==> (outbox[i] in heads <==> Unblocked(outbox, i))
  {
    forall i | 0 <= i < |outbox| ensures outbox[i] in heads <==> Unblocked(outbox, i) {
      if i < |records| {
        assert records[i] == outbox[i];
        assert FirstOfSubject(records, i) <==> forall j :: 0 <= j < i ==> outbox[j].subject != outbox[i].subject;
      } else {
        assert outbox[i] !in records;
        assert Lifecycle(outbox[k]) && k <= i;
      }
    }
  }

  lemma {:induction false} KeepEverything(outbox: seq<Record>, keep: Record -> bool)
    requires forall i :: 0 <= i < |outbox| ==> keep(outbox[i])
    ensures Keep(outbox, keep) == outbox
  {
    if outbox != [] {
      KeepEverything(outbox[..|outbox| - 1], keep);
      assert outbox == outbox[..|outbox| - 1] + [outbox[|outbox| - 1]];
    }
  }

  ghost predicate Startable(outbox: seq<Record>, s: Settings, now: Reading, running: set<nat>, r: Record) {
    && r.id !in running && Matches(r, s) && !IsExpired(r, now)
    && exists i :: 0 <= i < |outbox| && outbox[i] == r && Unblocked(outbox, i)
  }

  function Ids(records: seq<Record>): set<nat> {
    set i | 0 <= i < |records| :: records[i].id
  }

  /** Start heads while tasks are free: whatever starts may be sent, and what may be sent starts unless all tasks are taken. */
  method Start(outbox: seq<Record>, heads: seq<Record>, s: Settings, now: Reading, running: set<nat>)
    returns (started: seq<Record>, tasks: set<nat>)
    requires |running| <= MAX_TASKS && forall h :: h in heads ==> exists i :: 0 <= i < |outbox| && outbox[i] == h && Unblocked(outbox, i)
    ensures forall r :: r in started ==> Startable(outbox, s, now, running, r)
    ensures tasks == running + Ids(started) && |tasks| <= MAX_TASKS
    ensures |tasks| < MAX_TASKS ==> forall h :: h in heads && Matches(h, s) && !IsExpired(h, now) ==> h.id in tasks
  {
    started, tasks := [], running;
    for i := 0 to |heads|
      invariant forall r :: r in started ==> Startable(outbox, s, now, running, r)
      invariant tasks == running + Ids(started) && |tasks| <= MAX_TASKS
      invariant |tasks| < MAX_TASKS ==> forall j :: 0 <= j < i && Matches(heads[j], s) && !IsExpired(heads[j], now) ==> heads[j].id in tasks
    {
      if |tasks| >= MAX_TASKS {
        return;
      }
      var h := heads[i];
      if h.id !in tasks && Matches(h, s) && !IsExpired(h, now) {
        assert h in heads;
        OneMore(started, h);
        started, tasks := started + [h], tasks + {h.id};
      }
    }
  }

  lemma OneMore(records: seq<Record>, r: Record)
    ensures Ids(records + [r]) == Ids(records) + {r.id}
  {
    forall id ensures id in Ids(records + [r]) <==> id in Ids(records) + {r.id} {
      if i :| 0 <= i < |records| && records[i].id == id { assert (records + [r])[i].id == id; }
      if id == r.id { assert (records + [r])[|records|].id == id; }
    }
  }

  // ---------------------------------------------------------------------------------------------
  // The queue in place
  // ---------------------------------------------------------------------------------------------

  lemma AddOne(drops: map<Reason, nat>, reason: Reason, n: nat)
    ensures Add(Add(drops, reason, n), reason, 1) == Add(drops, reason, n + 1)
  {
  }

  /** Records are kept or counted one by one. */
  method Sift(records: seq<Record>, drops: map<Reason, nat>, keep: Record -> bool, reason: Reason)
    returns (remaining: seq<Record>, counted: map<Reason, nat>)
    ensures remaining == Keep(records, keep) && counted == Add(drops, reason, |records| - |remaining|)
  {
    remaining, counted := [], drops;
    for i := 0 to |records|
      invariant remaining == Keep(records[..i], keep) && counted == Add(drops, reason, i - |remaining|)
    {
      assert records[..i + 1][..i] == records[..i];
      if keep(records[i]) {
        remaining := remaining + [records[i]];
      } else {
        AddOne(drops, reason, i - |remaining|);
        counted := Add(counted, reason, 1);
      }
    }
    assert records[..|records|] == records;
  }

  class Outbox {
    var outbox: seq<Record>
    var sequence: nat
    var drops: map<Reason, nat>
    var issued: nat
    var tasks: set<nat>
    ghost var delivered: nat

    ghost function View(): Ledger
      reads this
    {
      Ledger(outbox, sequence, drops, issued, delivered)
    }

    ghost predicate Valid()
      reads this
    {
      KEPT(View()) && |tasks| <= MAX_TASKS
    }

    constructor ()
      ensures Valid() && View() == FRESH && tasks == {}
    {
      outbox, sequence, drops, issued, tasks, delivered := [], 0, map[], 0, {}, 0;
    }

    method Drop(reason: Reason)
      modifies `drops
      ensures drops == Add(old(drops), reason, 1)
    {
      drops := drops[reason := (if reason in drops then drops[reason] else 0) + 1];
    }

    /** The record takes a number, whether there is room for it or not. */
    method Append(s: Settings, d: Draft, values: seq<Codec.Attribute>)
      modifies `outbox, `sequence, `drops, `issued
      ensures View() == Entered(old(View()), s, d, values)
    {
      var r := Record(issued, sequence + 1, SubjectOf(d.session), d.status, values, d.generated, Enabled(s.targets), s.delivery,
                      false, 0, d.late);
      sequence, issued := sequence + 1, issued + 1;
      if |outbox| >= CAPACITY || d.bytesFull {
        Drop(Overflow);
      } else {
        outbox := outbox + [r];
      }
    }

    /** `queue_accounting` */
    method Enqueue(s: Settings, d: Draft)
      requires Valid() && Fitting(d)
      modifies `outbox, `sequence, `drops, `issued
      ensures Valid() && View() == Queue(old(View()), s, d)
    {
      QueueKeeps(View(), s, d);
      if !s.enabled || Enabled(s.targets) == [] {
        return;
      }
      var values := Values(d.session, d.nas, d.status, d.cause, d.now);
      if values.None? || !Budgets.Enqueued(values.value) {
        Drop(Representation);
        return;
      }
      Append(s, d, values.value);
    }

    /** The records that do not pass the test leave the queue. */
    method Filter(keep: Record -> bool, reason: Reason)
      requires Valid() && reason != Representation
      modifies `outbox, `drops
      ensures Valid() && View() == Remove(old(View()), keep, reason)
    {
      RemoveKeeps(View(), keep, reason);
      outbox, drops := Sift(outbox, drops, keep, reason);
    }

    static method Retime(t: Timer, changed: bool, interval: nat, now: int) returns (r: Timer)
      ensures r == if changed || interval != t.interval then Timer(interval, if interval == 0 then None else Some(now + interval * 1000)) else t
    {
      r := t;
      if changed || interval != t.interval {
        r := Timer(interval, if interval == 0 then None else Some(now + interval * 1000));
      }
    }

    /** `reconcile_accounting`: one timer and one draft of a late start for each session, in their order */
    method Reconcile(before: Settings, s: Settings, timers: seq<Timer>, periods: seq<nat>, drafts: seq<Draft>, now: int)
      returns (after: seq<Timer>)
      requires Valid() && |timers| == |periods| == |drafts| && forall i :: 0 <= i < |drafts| ==> Fitting(drafts[i])
      modifies `outbox, `sequence, `drops, `issued
      ensures Valid() && View() == Reconciled(old(View()), before, s, drafts)
      ensures |after| == |timers| && forall i :: 0 <= i < |timers| ==> after[i] == Retimed(timers[i], before, s, periods[i], now)
    {
      var changed := before != s;
      if changed {
        Filter((r: Record) => false, ConfigurationChange);
      }
      ghost var cleared := View();
      after := [];
      for i := 0 to |timers|
        invariant Valid() && View() == if changed && s.enabled then Requeue(cleared, s, drafts[..i]) else cleared
        invariant |after| == i && forall j :: 0 <= j < i ==> after[j] == Retimed(timers[j], before, s, periods[j], now)
      {
        var t := Retime(timers[i], changed, if s.enabled then periods[i] else 0, now);
        assert t == Retimed(timers[i], before, s, periods[i], now);
        after := after + [t];
        if changed && s.enabled {
          assert drafts[..i + 1][..i] == drafts[..i];
          Enqueue(s, drafts[i]);
        }
      }
      assert drafts[..|drafts|] == drafts;
    }

    /** The action "accounting-result" */
    method Complete(id: nat, done: bool)
      requires Valid()
      modifies `outbox, `drops, `delivered
      ensures Valid() && View() == Finish(old(View()), id, done)
    {
      FinishKeeps(View(), id, done);
      if !Queued(outbox, id) {
        return;
      }
      outbox := Keep(outbox, (r: Record) => r.id != id);
      if done {
        delivered := delivered + 1;
      } else {
        Drop(Exhausted);
      }
    }

    /** The action "accounting-event" */
    method Attempting(id: nat)
      requires Valid()
      modifies `outbox
      ensures Valid() && View() == Attempt(old(View()), id)
    {
      AttemptKeeps(View(), id);
      var records := outbox;
      for i := 0 to |records|
        invariant |outbox| == |records| && View() == old(View()).(outbox := outbox)
        invariant forall j :: i <= j < |records| ==> outbox[j] == records[j]
        invariant forall j :: 0 <= j < i ==> outbox[j] == Attempt(old(View()), id).outbox[j]
      {
        if records[i].id == id {
          outbox := outbox[i := Attempted(records[i])];
        }
      }
      assert outbox == Attempt(old(View()), id).outbox;
    }

    /** A restarted process keeps the saved records that still match the policy; none of them is being sent. */
    method Reopen(s: Settings)
      requires Valid()
      modifies `outbox, `drops, `tasks
      ensures Valid() && View() == Restore(old(View()), s) && tasks == {}
    {
      tasks := {};
      Filter((r: Record) => Matches(r, s), ConfigurationChange);
    }

    /** The queue is only written when a record in it has expired. */
    method PruneExpired(now: Reading)
      requires Valid()
      modifies `outbox, `drops
      ensures Valid() && View() == Prune(old(View()), now)
    {
      if exists i :: 0 <= i < |outbox| && IsExpired(outbox[i], now) {
        Filter((r: Record) => !IsExpired(r, now), Reason.Expired);
      } else {
        KeepEverything(outbox, (r: Record) => !IsExpired(r, now));
      }
    }

    /** `service_accounting`: finished tasks are forgotten, expired records pruned, and heads started while tasks are free. */
    method Service(s: Settings, pruning: Reading, starting: Reading, stopped: bool, finished: set<nat>) returns (started: seq<Record>)
      requires Valid()
      modifies `outbox, `drops, `tasks
      ensures Valid() && View() == if stopped then old(View()) else Prune(old(View()), pruning)
      ensures stopped ==> started == []
      ensures forall r :: r in started ==> Startable(outbox, s, starting, old(tasks) - finished, r)
      ensures tasks == old(tasks) - finished + Ids(started)
      ensures !stopped && |tasks| < MAX_TASKS ==>
                forall i :: 0 <= i < |outbox| && Unblocked(outbox, i) && Matches(outbox[i], s) && !IsExpired(outbox[i], starting) ==>
                  outbox[i].id in tasks
    {
      Fewer(tasks, finished);
      tasks := tasks - finished;
      if stopped {
        return [];
      }
      PruneExpired(pruning);
      var heads := Heads(outbox);
      HeadsUnblocked(outbox, heads);
      started, tasks := Start(outbox, heads, s, starting, tasks);
    }
  }

  lemma Fewer(tasks: set<nat>, finished: set<nat>)
    ensures |tasks - finished| <= |tasks|
  {
    assert tasks == (tasks - finished) + (tasks * finished);
  }

  lemma HeadsUnblocked(outbox: seq<Record>, heads: seq<Record>)
    requires forall i :: 0 <= i < |outbox| ==> (outbox[i] in heads <==> Unblocked(outbox, i))
    requires forall h :: h in heads ==> h in outbox
    ensures forall h :: h in heads ==> exists i :: 0 <= i < |outbox| && outbox[i] == h && Unblocked(outbox, i)
  {
    forall h | h in heads ensures exists i :: 0 <= i < |outbox| && outbox[i] == h && Unblocked(outbox, i) {
      var i :| 0 <= i < |outbox| && outbox[i] == h;
    }
  }
}
