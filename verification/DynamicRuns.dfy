/** Over every run: neither an effect nor a stored response crosses a change of its sender. */
module DynamicRuns {
  import opened Outcomes
  import opened DynamicAuthorization
  import opened DynamicSenders

  // ---------------------------------------------------------------------------------------------
  // Runs step by step
  // ---------------------------------------------------------------------------------------------

  /** The state before the step with this number. */
  function At(s: State, steps: seq<Step>, k: nat, after: Successor): State
    requires k <= |steps|
  {
    Run(s, steps[..k], after)
  }

  lemma {:induction false} RunOneMore(s: State, steps: seq<Step>, step: Step, after: Successor)
    ensures Run(s, steps + [step], after) == Next(Run(s, steps, after), step, after)
    decreases |steps|
  {
    if steps == [] {
      assert [step][1..] == [];
      assert steps + [step] == [step];
    } else {
      assert (steps + [step])[1..] == steps[1..] + [step];
      RunOneMore(Next(s, steps[0], after), steps[1..], step, after);
    }
  }

  lemma AtNext(s: State, steps: seq<Step>, k: nat, after: Successor)
    requires k < |steps|
    ensures At(s, steps, k + 1, after) == Next(At(s, steps, k, after), steps[k], after)
  {
    assert steps[..k + 1] == steps[..k] + [steps[k]];
    RunOneMore(s, steps[..k], steps[k], after);
  }

  /** The uids that a step draws are carried by nothing yet. */
  ghost predicate Draws(s: State, step: Step) {
    match step
    case Deciding(_, h) => Unused(s, h.stamp)
    case Commanded(c) => Unused(s, c.stamp)
    case Restarted(b) => Unused(s, b.stamp)
    case _ => true
  }

  /** An engine that has just started over an empty store, and steps that validate senders and draw fresh uids. */
  ghost predicate Lawful(s: State, steps: seq<Step>, after: Successor) {
    && Fresh(s) && Aligned(s) && s.generations == s.store.generations
    && forall k :: 0 <= k < |steps| ==> Sensible(steps[k]) && Draws(At(s, steps, k, after), steps[k])
  }

  ghost predicate SameGenerations(s: State) {
    !s.fault ==> s.generations == s.store.generations
  }

  // ---------------------------------------------------------------------------------------------
  // What a step leaves of tokens and reservations
  // ---------------------------------------------------------------------------------------------

  /** Tokens only leave. */
  ghost predicate Fewer(before: map<nat, Generation>, later: map<nat, Generation>) {
    forall id :: id in later ==> id in before && later[id] == before[id]
  }

  /** Reservations only leave, or are marked as done. */
  ghost predicate Leaving(before: map<Fingerprint, Pending>, later: map<Fingerprint, Pending>) {
    forall fp :: fp in later ==> fp in before && later[fp].(done := before[fp].done) == before[fp]
  }

  /** A step that draws nothing and reserves nothing. */
  ghost predicate Quiet(s: State, t: State) {
    && t.senders == s.senders && Fewer(s.generations, t.generations) && Fewer(s.store.generations, t.store.generations)
    && Leaving(s.pending, t.pending) && SameGenerations(t)
  }

  lemma QuietTwice(s: State, t: State, u: State)
    requires Quiet(s, t) && Quiet(t, u)
    ensures Quiet(s, u)
  {
  }

  lemma QuietAlone(s: State, t: State)
    requires SameGenerations(s) && t.senders == s.senders && t.generations == s.generations
    requires t.store.generations == s.store.generations && t.fault == s.fault && Leaving(s.pending, t.pending)
    ensures Quiet(s, t)
  {
  }

  lemma CommitStays(s: State, c: Changes, outcome: Outcome)
    requires SameGenerations(s) && (c.generations.Some? ==> Fewer(s.generations, c.generations.value))
    ensures Quiet(s, Commit(s, c, outcome).0)
  {
  }

  lemma FinishStays(s: State, fp: Fingerprint, keep: bool)
    requires SameGenerations(s)
    ensures Quiet(s, Finish(s, fp, keep))
  {
    FinishFrame(s, fp, keep);
    QuietAlone(s, Finish(s, fp, keep));
  }

  lemma SendersKeepTokens(s: State, stamp: nat)
    requires Aligned(s)
    ensures Fewer(s.generations, NextGenerations(s.generations, s.senders, stamp))
  {
    forall id | id in NextGenerations(s.generations, s.senders, stamp) { NextGenerationsKeep(s.generations, s.senders, stamp, id); }
  }

  lemma DecideStays(s: State, fp: Fingerprint, p: Pending, h: Handling, answer: Answer)
    requires Aligned(s) && SameGenerations(s)
    ensures Quiet(s, Decide(s, fp, p, h, answer))
  {
    SendersKeepTokens(s, h.stamp);
    var t := Commit(s, Verdict(s, fp, p, answer, h.now.wall, h.stamp), h.outcome).0;
    CommitStays(s, Verdict(s, fp, p, answer, h.now.wall, h.stamp), h.outcome);
    DecideFrame(s, fp, p, h, answer);
    QuietAlone(t, Decide(s, fp, p, h, answer));
    QuietTwice(s, t, Decide(s, fp, p, h, answer));
  }

  lemma RetireExpiredStays(s: State, fp: Fingerprint, p: Pending, wall: real, after: Successor, outcome: Outcome)
    requires SameGenerations(s)
    ensures Quiet(s, RetireExpired(s, fp, p, wall, after, outcome).0)
  {
    CommitStays(s, Retirement(s, fp, p, wall, after), outcome);
  }

  /** A handler retires, finishes or decides. */
  lemma HandleForms(s: State, fp: Fingerprint, h: Handling, after: Successor)
    requires fp in s.pending
    ensures var p, t := s.pending[fp], Handle(s, fp, h, after);
            || t == Finish(s, fp, false)
            || (exists keep :: t == Finish(RetireExpired(s, fp, p, h.retireWall, after, h.outcome).0, fp, keep))
            || (h.answer.Some? && t == Finish(Decide(s, fp, p, h, h.answer.value), fp, false))
  {
  }

  lemma HandleStays(s: State, fp: Fingerprint, h: Handling, after: Successor)
    requires Aligned(s) && SameGenerations(s) && fp in s.pending
    ensures Quiet(s, Handle(s, fp, h, after))
  {
    var p, t := s.pending[fp], Handle(s, fp, h, after);
    HandleForms(s, fp, h, after);
    if t == Finish(s, fp, false) {
      FinishStays(s, fp, false);
    } else if keep :| t == Finish(RetireExpired(s, fp, p, h.retireWall, after, h.outcome).0, fp, keep) {
      var u := RetireExpired(s, fp, p, h.retireWall, after, h.outcome).0;
      RetireExpiredStays(s, fp, p, h.retireWall, after, h.outcome);
      FinishStays(u, fp, keep);
      QuietTwice(s, u, t);
    } else {
      var u := Decide(s, fp, p, h, h.answer.value);
      DecideStays(s, fp, p, h, h.answer.value);
      FinishStays(u, fp, false);
      QuietTwice(s, u, t);
    }
  }

  lemma {:induction false} VisitsStay(s: State, visits: seq<Visit>, after: Successor)
    requires SameGenerations(s)
    ensures Quiet(s, Visits(s, visits, after).0)
    decreases |visits|
  {
    if visits != [] {
      var v := visits[0];
      if v.fp in s.pending && s.pending[v.fp].done &&
         PastLife(s.pending[v.fp].expiresWall, s.pending[v.fp].expiresElapsed, v.now)
      {
        RetireExpiredStays(s, v.fp, s.pending[v.fp], v.retireWall, after, v.outcome);
        var (t, ok) := RetireExpired(s, v.fp, s.pending[v.fp], v.retireWall, after, v.outcome);
        if ok {
          var u := t.(pending := t.pending - {v.fp});
          QuietAlone(t, u);
          VisitsStay(u, visits[1..], after);
          QuietTwice(s, t, u);
          QuietTwice(s, u, Visits(u, visits[1..], after).0);
        }
      } else {
        VisitsStay(s, visits[1..], after);
      }
    }
  }

  lemma PruneForms(s: State, p: Pruning, after: Successor)
    ensures var t, u := Visits(s, p.visits, after).0, Prune(s, p, after);
            u == s || u == t || u == Commit(t, Deletion(t, Outlived(t.cache, p.tests), p.wall, after), p.outcome).0
  {
  }

  lemma PruneStays(s: State, p: Pruning, after: Successor)
    requires SameGenerations(s)
    ensures Quiet(s, Prune(s, p, after))
  {
    var t := Visits(s, p.visits, after).0;
    var c := Deletion(t, Outlived(t.cache, p.tests), p.wall, after);
    VisitsStay(s, p.visits, after);
    CommitStays(t, c, p.outcome);
    QuietTwice(s, t, Commit(t, c, p.outcome).0);
    QuietAlone(s, s);
    PruneForms(s, p, after);
  }

  lemma ClosingStays(s: State, step: Step, after: Successor)
    requires SameGenerations(s) && (step.Closed? || step.Draining? || step.Released?)
    ensures Quiet(s, Next(s, step, after))
  {
    match step
    case Closed => QuietAlone(s, BeginClose(s));
    case Released => QuietAlone(s, EndClose(s));
    case Draining(o) =>
      var t := Commit(s, Changes(Undecided(s), {}, None, None), o).0;
      CommitStays(s, Changes(Undecided(s), {}, None, None), o);
      QuietAlone(s, s);
      QuietAlone(s, s.(phase := Drained));
      QuietAlone(t, t.(phase := Drained));
      QuietTwice(s, t, t.(phase := Drained));
      DrainCases(s, o, u => Quiet(s, u));
  }

  /** Every step but a reception, a command and a restart. */
  ghost predicate Minor(step: Step) {
    !step.Receiving? && !step.Commanded? && !step.Restarted?
  }

  lemma MinorStays(s: State, step: Step, after: Successor)
    requires Aligned(s) && SameGenerations(s) && Minor(step)
    ensures Quiet(s, Next(s, step, after))
  {
    if step.Closed? || step.Draining? || step.Released? {
      ClosingStays(s, step, after);
    } else {
      QuietAlone(s, s);
      match step
      case Deciding(fp, h) => if fp in s.pending { HandleStays(s, fp, h, after); }
      case Pruned(p) => PruneStays(s, p, after);
      case Rebound(l) => QuietAlone(s, s.(listener := l));
      case Shut => QuietAlone(s, s.(closed := true));
    }
  }

  // ---------------------------------------------------------------------------------------------
  // A reservation whose sender still has its token
  // ---------------------------------------------------------------------------------------------

  /** The sender of a reservation still has the reservation's token. */
  ghost predicate Stands(s: State, fp: Fingerprint) {
    && fp in s.pending && s.pending[fp].sender in s.generations
    && s.generations[s.pending[fp].sender].token == s.pending[fp].generation
  }

  ghost predicate SameReservation(s: State, t: State, fp: Fingerprint) {
    fp in s.pending && fp in t.pending && t.pending[fp].(done := s.pending[fp].done) == s.pending[fp]
  }

  /** The sender with this number has this signature. */
  ghost predicate Signs(s: State, id: nat) {
    id in s.generations && Sender(id, s.generations[id].signature) in s.senders
  }

  lemma CommandForms(s: State, c: Command)
    requires SameGenerations(s)
    ensures var t, g := Execute(s, c), NextGenerations(s.generations, c.senders, c.stamp);
            && t.pending == s.pending && SameGenerations(t)
            && ((t.senders == s.senders && t.generations == s.generations) || (t.senders == c.senders && t.generations == g))
            && (t.store.generations == s.store.generations || (s.store.generations == s.generations && t.store.generations == g))
  {
  }

  lemma QuietStands(s: State, t: State, fp: Fingerprint)
    requires Quiet(s, t) && Stands(t, fp)
    ensures Stands(s, fp) && SameReservation(s, t, fp)
    ensures Signs(s, s.pending[fp].sender) ==> Signs(t, s.pending[fp].sender)
    ensures t.generations[s.pending[fp].sender] == s.generations[s.pending[fp].sender]
  {
  }

  lemma CommandStands(s: State, c: Command, fp: Fingerprint)
    requires SameGenerations(s) && Distinct(c.senders) && Unused(s, c.stamp) && Stands(Execute(s, c), fp)
    ensures Stands(s, fp) && SameReservation(s, Execute(s, c), fp)
    ensures Signs(s, s.pending[fp].sender) ==> Signs(Execute(s, c), s.pending[fp].sender)
    ensures Execute(s, c).generations[s.pending[fp].sender] == s.generations[s.pending[fp].sender]
  {
    CommandForms(s, c);
    var t, id := Execute(s, c), s.pending[fp].sender;
    assert s.pending[fp].generation != c.stamp by { assert !Held(s.pending, c.stamp); }
    if t.generations != s.generations || t.senders != s.senders {
      TokenFromBefore(s.generations, c.senders, c.stamp, id);
    }
  }

  lemma ReceiveForms(s: State, a: Arrival)
    ensures var t := Receive(s, a);
            && t.senders == s.senders && t.generations == s.generations && t.store == s.store && t.fault == s.fault
            && (forall fp :: fp in t.pending && fp in s.pending ==> t.pending[fp] == s.pending[fp])
  {
  }

  /** A reservation that outlives a step with its sender's token had it, and its sender's signature, before the step. */
  lemma StepStands(s: State, step: Step, after: Successor, fp: Fingerprint)
    requires Aligned(s) && SameGenerations(s) && Sensible(step) && Draws(s, step)
    requires fp in s.pending && Stands(Next(s, step, after), fp)
    ensures Stands(s, fp) && SameReservation(s, Next(s, step, after), fp)
    ensures Signs(s, s.pending[fp].sender) ==> Signs(Next(s, step, after), s.pending[fp].sender)
    ensures Next(s, step, after).generations[s.pending[fp].sender] == s.generations[s.pending[fp].sender]
  {
    if step.Receiving? {
      ReceiveForms(s, step.arrival);
    } else if step.Commanded? {
      CommandStands(s, step.command, fp);
    } else if !step.Restarted? {
      MinorStays(s, step, after);
      QuietStands(s, Next(s, step, after), fp);
    }
  }

  lemma StepSameGenerations(s: State, step: Step, after: Successor)
    requires Aligned(s) && SameGenerations(s)
    ensures SameGenerations(Next(s, step, after))
  {
    if step.Receiving? {
      ReceiveForms(s, step.arrival);
    } else if step.Commanded? {
      CommandForms(s, step.command);
    } else if step.Restarted? {
    } else {
      MinorStays(s, step, after);
    }
  }

  // ---------------------------------------------------------------------------------------------
  // Every state of a run
  // ---------------------------------------------------------------------------------------------

  ghost predicate Sound(s: State) {
    INVARIANT(s) && Aligned(s) && SameGenerations(s)
  }

  ghost const SOUND: State -> bool := s => Sound(s)

  lemma StepSound(s: State, step: Step, after: Successor)
    requires SOUND(s) && Sensible(step)
    ensures SOUND(Next(s, step, after))
  {
    StepKeeps(s, step, after);
    StepAligns(s, step, after);
    StepSameGenerations(s, step, after);
  }

  lemma StartsSound(s: State, steps: seq<Step>, after: Successor)
    requires Lawful(s, steps, after)
    ensures SOUND(s) && At(s, steps, 0, after) == s
  {
    FreshHolds(s);
  }

  lemma LawfulStep(s: State, steps: seq<Step>, k: nat, after: Successor)
    requires Lawful(s, steps, after) && k < |steps|
    ensures Sensible(steps[k]) && Draws(At(s, steps, k, after), steps[k])
  {
  }

  lemma {:induction false} AtSound(s: State, steps: seq<Step>, k: nat, after: Successor)
    requires Lawful(s, steps, after) && k <= |steps|
    ensures SOUND(At(s, steps, k, after))
    decreases k
  {
    if k == 0 {
      StartsSound(s, steps, after);
    } else {
      AtSound(s, steps, k - 1, after);
      AtNext(s, steps, k - 1, after);
      LawfulStep(s, steps, k - 1, after);
      StepSound(At(s, steps, k - 1, after), steps[k - 1], after);
    }
  }

  /** The step after which a request was last reserved. */
  lemma {:induction false} ReservedSince(s: State, steps: seq<Step>, j: nat, after: Successor, fp: Fingerprint) returns (i: nat)
    requires Lawful(s, steps, after) && j <= |steps| && fp in At(s, steps, j, after).pending
    ensures i < j && fp !in At(s, steps, i, after).pending
    ensures forall k :: i < k <= j ==> fp in At(s, steps, k, after).pending
    decreases j
  {
    i := j - 1;
    if fp in At(s, steps, j - 1, after).pending {
      i := ReservedSince(s, steps, j - 1, after, fp);
    }
  }

  /** Backwards through a stretch in which the request is reserved: its sender had the same generation throughout. */
  lemma {:induction false} StoodSince(s: State, steps: seq<Step>, i: nat, j: nat, after: Successor, fp: Fingerprint)
    requires Lawful(s, steps, after) && i <= j <= |steps| && Stands(At(s, steps, j, after), fp)
    requires forall k :: i <= k <= j ==> fp in At(s, steps, k, after).pending
    ensures var t, u := At(s, steps, i, after), At(s, steps, j, after);
            && Stands(t, fp) && SameReservation(t, u, fp)
            && u.generations[u.pending[fp].sender] == t.generations[u.pending[fp].sender]
            && (Signs(t, u.pending[fp].sender) ==> Signs(u, u.pending[fp].sender))
    decreases j - i
  {
    if i < j {
      StoodSince(s, steps, i + 1, j, after, fp);
      AtSound(s, steps, i, after);
      LawfulStep(s, steps, i, after);
      AtNext(s, steps, i, after);
      StepStands(At(s, steps, i, after), steps[i], after, fp);
    }
  }

  // ---------------------------------------------------------------------------------------------
  // Where reservations and effects come from
  // ---------------------------------------------------------------------------------------------

  /** Nothing took effect. */
  ghost predicate Silent(s: State, t: State) {
    t.history.applied == s.history.applied
  }

  lemma {:induction false} VisitsSilent(s: State, visits: seq<Visit>, after: Successor)
    ensures Silent(s, Visits(s, visits, after).0)
    decreases |visits|
  {
    if visits != [] {
      var v := visits[0];
      if v.fp in s.pending && s.pending[v.fp].done &&
         PastLife(s.pending[v.fp].expiresWall, s.pending[v.fp].expiresElapsed, v.now)
      {
        CommitQuiet(s, Retirement(s, v.fp, s.pending[v.fp], v.retireWall, after), v.outcome);
        var (t, ok) := RetireExpired(s, v.fp, s.pending[v.fp], v.retireWall, after, v.outcome);
        if ok { VisitsSilent(t.(pending := t.pending - {v.fp}), visits[1..], after); }
      } else {
        VisitsSilent(s, visits[1..], after);
      }
    }
  }

  lemma PruneSilent(s: State, p: Pruning, after: Successor)
    ensures Silent(s, Prune(s, p, after))
  {
    var t := Visits(s, p.visits, after).0;
    VisitsSilent(s, p.visits, after);
    CommitQuiet(t, Deletion(t, Outlived(t.cache, p.tests), p.wall, after), p.outcome);
    PruneForms(s, p, after);
  }

  lemma ExecuteSilent(s: State, c: Command)
    ensures Silent(s, Execute(s, c))
  {
    var generations := NextGenerations(s.generations, c.senders, c.stamp);
    CommitQuiet(s, Changes(Retirees(s, generations, c.retireAll), {}, None, Some(generations)), c.outcome);
  }

  lemma DrainSilent(s: State, outcome: Outcome)
    ensures Silent(s, Drain(s, outcome))
  {
    CommitQuiet(s, Changes(Undecided(s), {}, None, None), outcome);
    DrainCases(s, outcome, (u: State) => Silent(s, u));
  }

  lemma RestartSilent(s: State, b: Boot)
    ensures Silent(s, Restart(s, b))
  {
  }

  lemma ClosingSilent(s: State, step: Step, after: Successor)
    requires step.Closed? || step.Draining? || step.Released?
    ensures Silent(s, Next(s, step, after))
  {
    match step
    case Closed =>
    case Draining(o) => DrainSilent(s, o);
    case Released =>
  }

  lemma OthersSilent(s: State, step: Step, after: Successor)
    requires !step.Deciding?
    ensures Silent(s, Next(s, step, after))
  {
    if step.Receiving? { ReceiveForms(s, step.arrival); }
    else if step.Pruned? { PruneSilent(s, step.pruning, after); }
    else if step.Commanded? { ExecuteSilent(s, step.command); }
    else if step.Restarted? { RestartSilent(s, step.boot); }
    else if step.Closed? || step.Draining? || step.Released? { ClosingSilent(s, step, after); }
  }

  lemma DecidingApplies(s: State, g: Fingerprint, h: Handling, after: Successor, fp: Fingerprint)
    requires SOUND(s) && g in s.pending && Handle(s, g, h, after).history.applied[fp] > s.history.applied[fp]
    ensures g == fp && Decides(s, fp, h) && h.answer.value.ack && Reaches(h.outcome)
  {
    HandleExactly(s, g, h, after);
  }

  /** Only the handler of a request makes it take effect. */
  lemma EffectFromDeciding(s: State, step: Step, after: Successor, fp: Fingerprint)
    requires SOUND(s) && Next(s, step, after).history.applied[fp] > s.history.applied[fp]
    ensures step.Deciding? && step.fp == fp && Decides(s, fp, step.handling) && !s.pending[fp].done
    ensures step.handling.answer.value.ack && Reaches(step.handling.outcome)
  {
    if step.Deciding? {
      DecidingApplies(s, step.fp, step.handling, after, fp);
    } else {
      OthersSilent(s, step, after);
    }
  }

  lemma ReservesSomeone(s: State, a: Arrival, fp: Fingerprint)
    requires fp !in s.pending && fp in Receive(s, a).pending
    ensures exists sender :: Reserves(s, a, sender)
  {
    if sender :| Considered(s, a, sender) {
      ReceiveConsidered(s, a, sender);
    } else {
      ReceiveUnconsidered(s, a);
    }
  }

  lemma OnlyReceptionReserves(s: State, step: Step, after: Successor, fp: Fingerprint)
    requires Aligned(s) && SameGenerations(s) && fp !in s.pending && fp in Next(s, step, after).pending
    ensures step.Receiving?
  {
    if step.Commanded? {
      CommandForms(s, step.command);
    } else if !step.Receiving? && !step.Restarted? {
      MinorStays(s, step, after);
    }
  }

  /** Only a reception reserves, from a sender that the datagram was verified for. */
  lemma ReservedByReception(s: State, step: Step, after: Successor, fp: Fingerprint) returns (sender: Sender)
    requires Aligned(s) && SameGenerations(s) && fp !in s.pending && fp in Next(s, step, after).pending
    ensures step.Receiving? && Reserves(s, step.arrival, sender) && Print(step.arrival) == fp
    ensures Next(s, step, after).pending[fp] == Reservation(s, step.arrival, sender)
  {
    OnlyReceptionReserves(s, step, after, fp);
    ReservesSomeone(s, step.arrival, fp);
    sender :| Reserves(s, step.arrival, sender);
    ReceiveConsidered(s, step.arrival, sender);
  }

  /** A sender that a datagram was reserved for signs its reservation. */
  lemma ReservationSigns(s: State, a: Arrival, sender: Sender, t: State)
    requires Aligned(s) && Reserves(s, a, sender) && t == s.(pending := s.pending[Print(a) := Reservation(s, a, sender)])
    ensures Signs(t, sender.id) && t.generations[sender.id].signature == sender.signature && sender in s.senders
  {
    var i :| 0 <= i < |s.senders| && s.senders[i] == sender;
  }

  /**
   * A request takes effect only if the sender it was received from, with the very address, secret and permission, is configured in
   * every state from the reception to the decision.
   */
  lemma EffectNeedsUnchangedSender(s: State, steps: seq<Step>, j: nat, after: Successor, fp: Fingerprint)
    returns (i: nat, sender: Sender)
    requires Lawful(s, steps, after) && j < |steps|
    requires At(s, steps, j + 1, after).history.applied[fp] > At(s, steps, j, after).history.applied[fp]
    ensures i < j && steps[i].Receiving? && Reserves(At(s, steps, i, after), steps[i].arrival, sender) && Print(steps[i].arrival) == fp
    ensures forall k :: i <= k <= j ==> sender in At(s, steps, k, after).senders
  {
    AtSound(s, steps, j, after);
    AtNext(s, steps, j, after);
    EffectFromDeciding(At(s, steps, j, after), steps[j], after, fp);
    i := ReservedSince(s, steps, j, after, fp);
    AtSound(s, steps, i, after);
    AtNext(s, steps, i, after);
    var t, u := At(s, steps, i, after), At(s, steps, i + 1, after);
    sender := ReservedByReception(t, steps[i], after, fp);
    ReceiveExactly(t, steps[i].arrival);
    ReservationSigns(t, steps[i].arrival, sender, u);
    forall k | i < k <= j ensures sender in At(s, steps, k, after).senders {
      StoodSince(s, steps, k, j, after, fp);
      StoodSince(s, steps, i + 1, k, after, fp);
    }
  }

  // ---------------------------------------------------------------------------------------------
  // Stored responses
  // ---------------------------------------------------------------------------------------------

  /** No response was added to the store, except perhaps for one request. */
  ghost predicate NoOtherAnswers(before: map<Fingerprint, Record>, later: map<Fingerprint, Record>, but: set<Fingerprint>) {
    forall fp :: fp in later && later[fp].response.Some? && fp !in but ==> fp in before && later[fp] == before[fp]
  }

  lemma CommitAnswers(s: State, c: Changes, outcome: Outcome, but: set<Fingerprint>)
    requires forall fp :: fp in c.put && fp !in but ==> c.put[fp].response.None?
    ensures NoOtherAnswers(s.store.decisions, Commit(s, c, outcome).0.store.decisions, but)
  {
  }

  lemma {:induction false} VisitsAnswer(s: State, visits: seq<Visit>, after: Successor)
    ensures NoOtherAnswers(s.store.decisions, Visits(s, visits, after).0.store.decisions, {})
    decreases |visits|
  {
    if visits != [] {
      var v := visits[0];
      if v.fp in s.pending && s.pending[v.fp].done &&
         PastLife(s.pending[v.fp].expiresWall, s.pending[v.fp].expiresElapsed, v.now)
      {
        CommitAnswers(s, Retirement(s, v.fp, s.pending[v.fp], v.retireWall, after), v.outcome, {});
        var (t, ok) := RetireExpired(s, v.fp, s.pending[v.fp], v.retireWall, after, v.outcome);
        if ok { VisitsAnswer(t.(pending := t.pending - {v.fp}), visits[1..], after); }
      } else {
        VisitsAnswer(s, visits[1..], after);
      }
    }
  }

  lemma PruneAnswers(s: State, p: Pruning, after: Successor)
    ensures NoOtherAnswers(s.store.decisions, Prune(s, p, after).store.decisions, {})
  {
    var t := Visits(s, p.visits, after).0;
    VisitsAnswer(s, p.visits, after);
    CommitAnswers(t, Deletion(t, Outlived(t.cache, p.tests), p.wall, after), p.outcome, {});
    PruneForms(s, p, after);
  }

  lemma DrainAnswers(s: State, outcome: Outcome)
    ensures NoOtherAnswers(s.store.decisions, Drain(s, outcome).store.decisions, {})
  {
    CommitAnswers(s, Changes(Undecided(s), {}, None, None), outcome, {});
    DrainCases(s, outcome, (u: State) => NoOtherAnswers(s.store.decisions, u.store.decisions, {}));
  }

  lemma ClosingAnswers(s: State, step: Step, after: Successor)
    requires step.Closed? || step.Draining? || step.Released?
    ensures NoOtherAnswers(s.store.decisions, Next(s, step, after).store.decisions, {})
  {
    match step
    case Closed =>
    case Draining(o) => DrainAnswers(s, o);
    case Released =>
  }

  lemma ExecuteAnswers(s: State, c: Command)
    ensures NoOtherAnswers(s.store.decisions, Execute(s, c).store.decisions, {})
  {
    var generations := NextGenerations(s.generations, c.senders, c.stamp);
    CommitAnswers(s, Changes(Retirees(s, generations, c.retireAll), {}, None, Some(generations)), c.outcome, {});
  }

  lemma RestartAnswers(s: State, b: Boot)
    ensures Restart(s, b).store.decisions == s.store.decisions
  {
  }

  lemma OthersAnswer(s: State, step: Step, after: Successor)
    requires !step.Deciding?
    ensures NoOtherAnswers(s.store.decisions, Next(s, step, after).store.decisions, {})
  {
    if step.Receiving? { ReceiveForms(s, step.arrival); }
    else if step.Pruned? { PruneAnswers(s, step.pruning, after); }
    else if step.Commanded? { ExecuteAnswers(s, step.command); }
    else if step.Restarted? { RestartAnswers(s, step.boot); }
    else if step.Closed? || step.Draining? || step.Released? { ClosingAnswers(s, step, after); }
  }

  lemma DecideAnswers(s: State, fp: Fingerprint, p: Pending, h: Handling, answer: Answer)
    ensures NoOtherAnswers(s.store.decisions, Decide(s, fp, p, h, answer).store.decisions, {fp})
  {
    CommitAnswers(s, Verdict(s, fp, p, answer, h.now.wall, h.stamp), h.outcome, {fp});
    DecideFrame(s, fp, p, h, answer);
  }

  lemma UndecidedAnswers(s: State, fp: Fingerprint, h: Handling, after: Successor)
    requires Aligned(s) && fp in s.pending && !Decides(s, fp, h)
    ensures NoOtherAnswers(s.store.decisions, Handle(s, fp, h, after).store.decisions, {})
  {
    var p := s.pending[fp];
    DecidesExactly(s, fp, h);
    if PastLife(p.expiresWall, p.expiresElapsed, h.now) {
      CommitAnswers(s, Retirement(s, fp, p, h.retireWall, after), h.outcome, {});
      FinishFrame(RetireExpired(s, fp, p, h.retireWall, after, h.outcome).0, fp, !RetireExpired(s, fp, p, h.retireWall, after, h.outcome).1);
    } else {
      FinishFrame(s, fp, false);
    }
  }

  lemma DecidedAnswers(s: State, fp: Fingerprint, h: Handling, after: Successor)
    requires Aligned(s) && Decides(s, fp, h)
    ensures NoOtherAnswers(s.store.decisions, Handle(s, fp, h, after).store.decisions, {fp})
  {
    HandleDecides(s, fp, h, after);
    DecideAnswers(s, fp, s.pending[fp], h, h.answer.value);
    FinishFrame(Decide(s, fp, s.pending[fp], h, h.answer.value), fp, false);
  }

  lemma HandleAnswers(s: State, g: Fingerprint, h: Handling, after: Successor, fp: Fingerprint)
    requires SOUND(s) && g in s.pending && fp !in s.store.decisions
    requires fp in Handle(s, g, h, after).store.decisions && Handle(s, g, h, after).store.decisions[fp].response.Some?
    ensures g == fp && Decides(s, fp, h)
    ensures Handle(s, g, h, after).store.decisions[fp].response == Some(h.answer.value.response)
  {
    if !Decides(s, g, h) {
      UndecidedAnswers(s, g, h, after);
    } else {
      DecidedAnswers(s, g, h, after);
      HandleExactly(s, g, h, after);
    }
  }

  /** Only the handler of a request stores a response to it. */
  lemma AnswerFromDeciding(s: State, step: Step, after: Successor, fp: Fingerprint)
    requires SOUND(s) && fp !in s.store.decisions
    requires fp in Next(s, step, after).store.decisions && Next(s, step, after).store.decisions[fp].response.Some?
    ensures step.Deciding? && step.fp == fp && Decides(s, fp, step.handling)
    ensures Next(s, step, after).store.decisions[fp].response == Some(step.handling.answer.value.response)
  {
    if step.Deciding? {
      HandleAnswers(s, step.fp, step.handling, after, fp);
    } else {
      OthersAnswer(s, step, after);
    }
  }

  /** A stored token that a stored decision carries was there, with its signature, before the step. */
  lemma StoredStep(s: State, step: Step, after: Successor, id: nat, token: nat)
    requires Aligned(s) && SameGenerations(s) && Sensible(step) && Draws(s, step) && Noted(s.store.decisions, token)
    requires var g := Next(s, step, after).store.generations; id in g && g[id].token == token
    ensures id in s.store.generations && s.store.generations[id] == Next(s, step, after).store.generations[id]
  {
    if step.Receiving? {
      ReceiveForms(s, step.arrival);
    } else if step.Commanded? {
      CommandForms(s, step.command);
      if Next(s, step, after).store.generations != s.store.generations {
        TokenFromBefore(s.generations, step.command.senders, step.command.stamp, id);
      }
    } else if step.Restarted? {
      TokenFromBefore(s.store.generations, step.boot.senders, step.boot.stamp, id);
    } else {
      MinorStays(s, step, after);
    }
  }

  /** The step after which a decision was last stored. */
  lemma {:induction false} StoredSince(s: State, steps: seq<Step>, j: nat, after: Successor, fp: Fingerprint) returns (i: nat)
    requires Lawful(s, steps, after) && j <= |steps| && fp in At(s, steps, j, after).store.decisions
    ensures i < j && fp !in At(s, steps, i, after).store.decisions
    ensures forall k :: i < k <= j ==> fp in At(s, steps, k, after).store.decisions
    decreases j
  {
    i := j - 1;
    if fp in At(s, steps, j - 1, after).store.decisions {
      i := StoredSince(s, steps, j - 1, after, fp);
    }
  }

  lemma SoundMarks(s: State)
    requires SOUND(s)
    ensures SameMark(s)
  {
  }

  /** Backwards through a stretch in which a decision is stored: it is the same record, and its token had the same signature. */
  lemma {:induction false} SignedSince(s: State, steps: seq<Step>, i: nat, j: nat, after: Successor, fp: Fingerprint, id: nat)
    requires Lawful(s, steps, after) && i <= j <= |steps|
    requires forall k :: i <= k <= j ==> fp in At(s, steps, k, after).store.decisions
    requires var u := At(s, steps, j, after).store; id in u.generations && u.generations[id].token == u.decisions[fp].generation
    ensures var t, u := At(s, steps, i, after).store, At(s, steps, j, after).store;
            && t.decisions[fp] == u.decisions[fp] && id in t.generations && t.generations[id] == u.generations[id]
    decreases j - i
  {
    if i < j {
      SignedSince(s, steps, i + 1, j, after, fp, id);
      AtSound(s, steps, i, after);
      AtNext(s, steps, i, after);
      LawfulStep(s, steps, i, after);
      var t := At(s, steps, i, after);
      SoundMarks(t);
      StepFollows(t, steps[i], after);
      StoredStep(t, steps[i], after, id, t.store.decisions[fp].generation);
    }
  }

  lemma ReplayedIsStored(s: State, a: Arrival, sender: Sender, response: Bytes)
    requires SOUND(s) && Replays(s, a, sender, response)
    ensures var st, fp := s.store, Print(a);
            && fp in st.decisions && st.decisions[fp].response == Some(response)
            && sender.id in st.generations && st.generations[sender.id].token == st.decisions[fp].generation
            && st.generations[sender.id].signature == sender.signature
  {
    SameKeys(s);
    assert Print(a) in s.cache.Keys;
    var i :| 0 <= i < |s.senders| && s.senders[i] == sender;
  }

  lemma SignedThroughout(s: State, steps: seq<Step>, i: nat, j: nat, after: Successor, fp: Fingerprint, id: nat)
    requires Lawful(s, steps, after) && i < j <= |steps|
    requires forall k :: i < k <= j ==> fp in At(s, steps, k, after).store.decisions
    requires var u := At(s, steps, j, after).store; id in u.generations && u.generations[id].token == u.decisions[fp].generation
    ensures At(s, steps, i + 1, after).store.decisions[fp] == At(s, steps, j, after).store.decisions[fp]
    ensures forall k :: i < k <= j ==>
              id in At(s, steps, k, after).store.generations
              && At(s, steps, k, after).store.generations[id] == At(s, steps, j, after).store.generations[id]
  {
    forall k | i < k <= j
      ensures id in At(s, steps, k, after).store.generations
              && At(s, steps, k, after).store.generations[id] == At(s, steps, j, after).store.generations[id]
    {
      SignedSince(s, steps, k, j, after, fp, id);
    }
    SignedSince(s, steps, i + 1, j, after, fp, id);
  }

  lemma AnsweredAt(s: State, steps: seq<Step>, i: nat, after: Successor, fp: Fingerprint, response: Bytes)
    requires Lawful(s, steps, after) && i < |steps| && fp !in At(s, steps, i, after).store.decisions
    requires var d := At(s, steps, i + 1, after).store.decisions; fp in d && d[fp].response == Some(response)
    ensures steps[i].Deciding? && steps[i].fp == fp && Decides(At(s, steps, i, after), fp, steps[i].handling)
    ensures steps[i].handling.answer.value.response == response
  {
    AtSound(s, steps, i, after);
    AtNext(s, steps, i, after);
    AnswerFromDeciding(At(s, steps, i, after), steps[i], after, fp);
  }

  /**
   * A stored response is sent again only if the sender it goes to has had the same address, secret and permission, in everything
   * that was made durable, ever since the response was decided.
   */
  lemma NoReplayAfterChange(s: State, steps: seq<Step>, j: nat, after: Successor, sender: Sender, response: Bytes) returns (i: nat)
    requires Lawful(s, steps, after) && j < |steps| && steps[j].Receiving?
    requires Replays(At(s, steps, j, after), steps[j].arrival, sender, response)
    ensures i < j && steps[i].Deciding? && steps[i].fp == Print(steps[j].arrival)
    ensures Decides(At(s, steps, i, after), steps[i].fp, steps[i].handling) && steps[i].handling.answer.value.response == response
    ensures forall k :: i < k <= j ==>
              var g := At(s, steps, k, after).store.generations; sender.id in g && g[sender.id].signature == sender.signature
  {
    var fp := Print(steps[j].arrival);
    AtSound(s, steps, j, after);
    ReplayedIsStored(At(s, steps, j, after), steps[j].arrival, sender, response);
    i := StoredSince(s, steps, j, after, fp);
    SignedThroughout(s, steps, i, j, after, fp, sender.id);
    AnsweredAt(s, steps, i, after, fp, response);
  }
}
