/** Every run of the accounting queue: conservation, and the order records are sent in. */
module AccountingRuns {
  import opened Accounting
  import opened AccountingQueue
  import opened Runs

  /** Serving the queue may change it by pruning only, so it needs no turn of its own. */
  datatype Turn =
    | Enqueuing(settings: Settings, draft: Draft)
    | Changing(before: Settings, settings: Settings, drafts: seq<Draft>)
    | Pruning(now: Reading)
    | Attempting(id: nat)
    | Completing(id: nat, done: bool)
    | Restarting(settings: Settings)

  ghost predicate Possible(t: Turn) {
    match t
    case Enqueuing(_, draft) => Fitting(draft)
    case Changing(_, _, drafts) => forall i :: 0 <= i < |drafts| ==> Fitting(drafts[i])
    case _ => true
  }

  function After(l: Ledger, t: Turn): Ledger {
    match t
    case Enqueuing(s, draft) => Queue(l, s, draft)
    case Changing(before, s, drafts) => Reconciled(l, before, s, drafts)
    case Pruning(now) => Prune(l, now)
    case Attempting(id) => Attempt(l, id)
    case Completing(id, done) => Finish(l, id, done)
    case Restarting(s) => Restore(l, s)
  }

  ghost predicate Taken(l: Ledger, t: Turn, m: Ledger) {
    Possible(t) && m == After(l, t)
  }

  ghost const STEP: (Ledger, Turn, Ledger) -> bool := (l: Ledger, t: Turn, m: Ledger) => Taken(l, t, m)

  lemma StepKeeps(l: Ledger, t: Turn, m: Ledger)
    requires Kept(l) && Taken(l, t, m)
    ensures Kept(m)
  {
    match t
    case Enqueuing(s, draft) => QueueKeeps(l, s, draft);
    case Changing(_, s, drafts) =>
      RemoveKeeps(l, (r: Record) => false, ConfigurationChange);
      RequeueKeeps(Clear(l), s, drafts);
    case Pruning(now) => RemoveKeeps(l, (r: Record) => !IsExpired(r, now), Reason.Expired);
    case Attempting(id) => AttemptKeeps(l, id);
    case Completing(id, done) => FinishKeeps(l, id, done);
    case Restarting(s) => RemoveKeeps(l, (r: Record) => Matches(r, s), ConfigurationChange);
  }

  /**
   * From a fresh start, in every state of every run: each sequence number issued belongs to a queued record, to a delivered one or
   * to a drop other than for its representation; numbers ascend along the queue, which never exceeds its capacity.
   */
  lemma RunConserves(states: seq<Ledger>, turns: seq<Turn>, n: nat)
    requires Path(states, turns, STEP) && states[0] == FRESH && n < |states|
    ensures Kept(states[n])
    ensures states[n].sequence == |states[n].outbox| + states[n].delivered + Counted(states[n].drops)
  {
    forall p, t, q | KEPT(p) && STEP(p, t, q) ensures KEPT(q) { StepKeeps(p, t, q); }
    Along(states, turns, STEP, KEPT, 0, n);
  }

  // ---------------------------------------------------------------------------------------------
  // Order
  // ---------------------------------------------------------------------------------------------

  /** What identifies a record for as long as it is queued. */
  datatype Tag = Tag(sequence: nat, subject: Subject, status: nat)

  function TagOf(r: Record): Tag {
    Tag(r.sequence, r.subject, r.status)
  }

  ghost predicate HasTag(outbox: seq<Record>, t: Tag) {
    exists i :: 0 <= i < |outbox| && TagOf(outbox[i]) == t
  }

  /** Below a sequence number already issued, nothing is queued that was not queued before. */
  ghost predicate Shrinks(l: Ledger, m: Ledger) {
    && l.sequence <= m.sequence
    && forall i :: 0 <= i < |m.outbox| ==> m.outbox[i].sequence > l.sequence || HasTag(l.outbox, TagOf(m.outbox[i]))
  }

  lemma ShrinksOn(l: Ledger, m: Ledger, k: Ledger)
    requires Shrinks(l, m) && Shrinks(m, k)
    ensures Shrinks(l, k)
  {
    forall i | 0 <= i < |k.outbox| && k.outbox[i].sequence <= l.sequence ensures HasTag(l.outbox, TagOf(k.outbox[i])) {
      var j :| 0 <= j < |m.outbox| && TagOf(m.outbox[j]) == TagOf(k.outbox[i]);
    }
  }

  lemma SubsetShrinks(l: Ledger, m: Ledger)
    requires l.sequence == m.sequence && forall r :: r in m.outbox ==> r in l.outbox
    ensures Shrinks(l, m)
  {
    forall i | 0 <= i < |m.outbox| ensures HasTag(l.outbox, TagOf(m.outbox[i])) {
      assert m.outbox[i] in l.outbox;
      var j :| 0 <= j < |l.outbox| && l.outbox[j] == m.outbox[i];
    }
  }

  lemma RemoveShrinks(l: Ledger, keep: Record -> bool, reason: Reason)
    ensures Shrinks(l, Remove(l, keep, reason))
  {
    forall r { KeepMembers(l.outbox, keep, r); }
    SubsetShrinks(l, Remove(l, keep, reason));
  }

  lemma QueueShrinks(l: Ledger, s: Settings, d: Draft)
    ensures Shrinks(l, Queue(l, s, d))
  {
    var m := Queue(l, s, d);
    forall i | 0 <= i < |m.outbox| && m.outbox[i].sequence <= l.sequence ensures HasTag(l.outbox, TagOf(m.outbox[i])) {
      assert m.outbox[i] == l.outbox[i];
    }
  }

  lemma {:induction false} RequeueShrinks(l: Ledger, s: Settings, drafts: seq<Draft>)
    ensures Shrinks(l, Requeue(l, s, drafts))
  {
    if drafts == [] {
      SubsetShrinks(l, l);
    } else {
      var before := drafts[..|drafts| - 1];
      RequeueShrinks(l, s, before);
      QueueShrinks(Requeue(l, s, before), s, drafts[|drafts| - 1]);
      ShrinksOn(l, Requeue(l, s, before), Requeue(l, s, drafts));
    }
  }

  lemma ReconcileShrinks(l: Ledger, before: Settings, s: Settings, drafts: seq<Draft>)
    ensures Shrinks(l, Reconciled(l, before, s, drafts))
  {
    SubsetShrinks(l, l);
    RemoveShrinks(l, (r: Record) => false, ConfigurationChange);
    RequeueShrinks(Clear(l), s, drafts);
    ShrinksOn(l, Clear(l), Requeue(Clear(l), s, drafts));
  }

  lemma AttemptShrinks(l: Ledger, id: nat)
    ensures Shrinks(l, Attempt(l, id))
  {
    forall i | 0 <= i < |l.outbox| ensures HasTag(l.outbox, TagOf(Attempt(l, id).outbox[i])) {
      assert TagOf(l.outbox[i]) == TagOf(Attempt(l, id).outbox[i]);
    }
  }

  lemma FinishShrinks(l: Ledger, id: nat, done: bool)
    ensures Shrinks(l, Finish(l, id, done))
  {
    forall r { KeepMembers(l.outbox, (r: Record) => r.id != id, r); }
    SubsetShrinks(l, Finish(l, id, done));
  }

  lemma StepShrinks(l: Ledger, t: Turn, m: Ledger)
    requires Taken(l, t, m)
    ensures Shrinks(l, m)
  {
    match t
    case Enqueuing(s, draft) => QueueShrinks(l, s, draft);
    case Changing(before, s, drafts) => ReconcileShrinks(l, before, s, drafts);
    case Pruning(now) => RemoveShrinks(l, (r: Record) => !IsExpired(r, now), Reason.Expired);
    case Attempting(id) => AttemptShrinks(l, id);
    case Completing(id, done) => FinishShrinks(l, id, done);
    case Restarting(s) => RemoveShrinks(l, (r: Record) => Matches(r, s), ConfigurationChange);
  }

  lemma {:induction false} RunShrinks(states: seq<Ledger>, turns: seq<Turn>, m: nat, n: nat)
    requires Path(states, turns, STEP) && m <= n < |states|
    ensures Shrinks(states[m], states[n])
    decreases n
  {
    if m == n {
      SubsetShrinks(states[m], states[m]);
    } else {
      RunShrinks(states, turns, m, n - 1);
      assert STEP(states[n - 1], turns[n - 1], states[n]);
      StepShrinks(states[n - 1], turns[n - 1], states[n]);
      ShrinksOn(states[m], states[n - 1], states[n]);
    }
  }

  /**
   * Once a record may be sent, no earlier record of its subject and no earlier lifecycle record is queued then or ever again; and
   * once a lifecycle record may be sent, no earlier record at all.
   */
  lemma NothingOvertakes(states: seq<Ledger>, turns: seq<Turn>, m: nat, n: nat, i: nat, j: nat)
    requires Path(states, turns, STEP) && states[0] == FRESH && m <= n < |states|
    requires i < |states[m].outbox| && Unblocked(states[m].outbox, i) && j < |states[n].outbox|
    requires states[n].outbox[j].sequence < states[m].outbox[i].sequence
    ensures var sent, waiting := states[m].outbox[i], states[n].outbox[j];
            waiting.subject != sent.subject && !Lifecycle(waiting) && !Lifecycle(sent)
  {
    RunConserves(states, turns, m);
    RunShrinks(states, turns, m, n);
    var outbox := states[m].outbox;
    assert Sound(states[m], outbox[i]);
    assert HasTag(outbox, TagOf(states[n].outbox[j]));
    var k :| 0 <= k < |outbox| && TagOf(outbox[k]) == TagOf(states[n].outbox[j]);
    assert k < i;
  }
}
