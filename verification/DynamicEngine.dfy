/** The in-place form of the dynamic-authorization steps: one method per step, each proved to compute it. */
module DynamicEngine {
  import opened Outcomes
  import opened DynamicAuthorization

  class Engine {
    var store: Store
    var cache: map<Fingerprint, Record>
    var highWater: real
    var generations: map<nat, Generation>
    var pending: map<Fingerprint, Pending>
    var senders: seq<Sender>
    var binding: nat
    var listener: Option<Listener>
    var epoch: nat
    var origin: nat
    var phase: Phase
    var closed: bool
    var fault: bool
    ghost var history: History
    const after: Successor

    ghost function View(): State
      reads this
    {
      State(store, cache, highWater, generations, pending, senders, binding, listener,
            epoch, origin, phase, closed, fault, history)
    }

    /** A process starts over the store an earlier one left behind. */
    constructor (s: Store, boot: Boot, after: Successor, ghost past: State)
      requires past.store == s
      ensures View() == Restart(past, boot) && this.after == after
    {
      var next := NextGenerations(s.generations, boot.senders, boot.stamp);
      store := s.(generations := next);
      cache := map fp | fp in s.decisions :: Rebased(s.decisions[fp], boot);
      highWater, generations := s.highWater, next;
      pending, listener := map[], None;
      senders, binding, epoch, origin := boot.senders, boot.binding, boot.epoch, boot.origin;
      phase, closed, fault := Running, false, false;
      history := past.history;
      this.after := after;
    }

    method CommitChanges(c: Changes, outcome: Outcome) returns (ok: bool)
      modifies this
      ensures (View(), ok) == Commit(old(View()), c, outcome)
    {
      if closed || fault || c.put.Keys * store.decisions.Keys != {} || outcome == RolledBack {
        return false;
      }
      if outcome == Committed || outcome.written {
        store := Written(store, c);
        history := Recorded(history, c.put);
      }
      if outcome != Committed {
        fault := true;
        return false;
      }
      if c.generations.Some? { generations := c.generations.value; }
      if c.high.Some? { highWater := c.high.value; }
      cache := (cache + c.put) - c.drop;
      return true;
    }

    predicate IsCurrent(id: nat)
      reads this
      ensures IsCurrent(id) == Current(View(), id)
    {
      && !closed && phase == Running && !fault
      && listener.Some? && listener.value.id == id && listener.value.open && listener.value.binding == binding
    }

    /** The reply a datagram is answered with at once, if any. */
    method ReceiveDatagram(a: Arrival) returns (reply: Option<Bytes>)
      modifies this
      ensures View() == Receive(old(View()), a)
      ensures reply.Some? ==> a.verified.Some?
      ensures reply.Some? ==>
                var fp := Fingerprint(a.address, a.port, a.verified.value);
                fp in cache && cache[fp].response == reply
    {
      reply := None;
      if !IsCurrent(a.listener) { return; }
      var sender := ByAddress(senders, a.address);
      if sender.None? || a.verified.None? || a.safeWall < highWater { return; }
      var fp := Fingerprint(a.address, a.port, a.verified.value);
      if !InWindow(a.windowWall, fp) || sender.value.id !in generations { return; }
      var generation := generations[sender.value.id].token;
      if fp in cache {
        var cached := cache[fp];
        if cached.generation != generation { return; }
        if PastLife(cached.expiresWall, cached.expiresElapsed, a.cachedNow) { return; }
        if cached.response.Some? && a.delivered {
          reply := cached.response;
          history := history.(replies := history.replies + {(fp, cached.response.value)});
        }
        return;
      }
      if fp in pending { return; }
      if |cache.Keys + pending.Keys| >= CAPACITY { return; }
      pending := pending[fp := Pending(
        sender.value.id, generation, epoch, a.listener, Expiry(fp),
        a.lifeNow.elapsed + Max(0.0, Expiry(fp) - a.lifeNow.wall), false)];
    }

    method RetireReservation(fp: Fingerprint, p: Pending, wall: real, outcome: Outcome) returns (ok: bool)
      modifies this
      ensures (View(), ok) == RetireExpired(old(View()), fp, p, wall, after, outcome)
    {
      var high := Max(Max(highWater, wall), after(p.expiresWall));
      var put: map<Fingerprint, Record> := map[];
      if fp !in cache {
        put := map[fp := Record(p.sender, p.generation, None, p.expiresWall, p.expiresElapsed, origin, ExpiredReservation)];
      }
      ok := CommitChanges(Changes(put, {}, Some(high), None), outcome);
    }

    method FinishHandling(fp: Fingerprint, keep: bool)
      modifies this`pending
      ensures View() == Finish(old(View()), fp, keep)
    {
      if fp !in pending { return; }
      if !keep && phase == Running {
        pending := pending - {fp};
      } else {
        pending := pending[fp := pending[fp].(done := true)];
      }
    }

    /** Decide one reserved request while the engine's lock is held, then answer it. */
    method HandleReservation(fp: Fingerprint, h: Handling)
      requires fp in pending
      modifies this
      ensures View() == Handle(old(View()), fp, h, after)
    {
      var p := pending[fp];
      if PastLife(p.expiresWall, p.expiresElapsed, h.now) {
        var ok := RetireReservation(fp, p, h.retireWall, h.outcome);
        FinishHandling(fp, !ok);
        return;
      }
      var sender := ById(senders, p.sender);
      if closed || fault || !IsCurrent(p.listener) || sender.None? || !sender.value.signature.enabled
         || p.sender !in generations || generations[p.sender].token != p.generation || epoch != p.epoch
         || h.now.wall < highWater || !InWindow(h.now.wall, fp) || fp in cache || h.answer.None?
      {
        FinishHandling(fp, false);
        return;
      }
      DecideReservation(fp, p, h, h.answer.value);
      FinishHandling(fp, false);
    }

    method DecideReservation(fp: Fingerprint, p: Pending, h: Handling, answer: Answer)
      modifies this
      ensures View() == Decide(old(View()), fp, p, h, answer)
    {
      var put := map[fp := Record(p.sender, p.generation, Some(answer.response), p.expiresWall, p.expiresElapsed, origin,
                                  if answer.ack then Ack else Nak)];
      var high := Max(highWater, h.now.wall);
      var changes := Changes(put, {}, Some(high), None);
      if answer.ack {
        var next := NextGenerations(generations, senders, h.stamp);
        changes := Changes(put + FindRetirees(next, false), {}, Some(high), Some(next));
      }
      ghost var landed := Landed(View(), changes, h.outcome);
      var ok := CommitChanges(changes, h.outcome);
      history := TakeEffect(View(), fp, answer.ack && landed).history;
      if !ok { return; }
      if IsCurrent(p.listener) && h.safeWall >= highWater && !PastLife(p.expiresWall, p.expiresElapsed, h.replyNow)
         && p.sender in generations && generations[p.sender].token == p.generation
         && InWindow(h.windowWall, fp) && h.delivered
      {
        history := history.(replies := history.replies + {(fp, answer.response)});
      }
    }

    function FindRetirees(next: map<nat, Generation>, all: bool): (put: map<Fingerprint, Record>)
      reads this
      ensures put == Retirees(View(), next, all)
    {
      map fp | fp in pending && fp !in cache &&
               (all || pending[fp].sender !in next || next[pending[fp].sender].token != pending[fp].generation)
        :: Record(pending[fp].sender, pending[fp].generation, None, pending[fp].expiresWall, pending[fp].expiresElapsed,
                  origin, Retired)
    }

    method PruneReservations(visits: seq<Visit>) returns (ok: bool)
      modifies this
      ensures (View(), ok) == Visits(old(View()), visits, after)
    {
      ghost var s := View();
      var i := 0;
      while i < |visits|
        invariant i <= |visits|
        invariant Visits(s, visits, after) == Visits(View(), visits[i..], after)
      {
        var v := visits[i];
        ghost var rest := visits[i..];
        assert rest[0] == v && rest[1..] == visits[i + 1..];
        if v.fp in pending && pending[v.fp].done && PastLife(pending[v.fp].expiresWall, pending[v.fp].expiresElapsed, v.now) {
          ok := RetireReservation(v.fp, pending[v.fp], v.retireWall, v.outcome);
          if !ok { return; }
          pending := pending - {v.fp};
        }
        i := i + 1;
      }
      ok := true;
    }

    /** Collect the expired decisions and the mark to delete them behind, in one walk over the cache. */
    method FindExpired(tests: seq<Test>, wall: real) returns (expired: seq<Fingerprint>, high: real)
      ensures expired == Outlived(cache, tests)
      ensures high == Above(Max(highWater, wall), cache, expired, after)
    {
      expired, high := [], Max(highWater, wall);
      var j := 0;
      while j < |tests|
        invariant j <= |tests|
        invariant expired == Outlived(cache, tests[..j])
        invariant forall fp :: fp in expired ==> fp in cache
        invariant high == Above(Max(highWater, wall), cache, expired, after)
      {
        var t := tests[j];
        assert tests[..j + 1][..j] == tests[..j];
        if t.fp in cache && PastLife(cache[t.fp].expiresWall, cache[t.fp].expiresElapsed, t.now) {
          AboveMore(Max(highWater, wall), cache, expired, t.fp, after);
          expired := expired + [t.fp];
          high := Max(high, after(cache[t.fp].expiresWall));
        }
        j := j + 1;
      }
      assert tests[..j] == tests;
    }

    method PruneExpired(p: Pruning)
      modifies this
      ensures View() == Prune(old(View()), p, after)
    {
      if fault || p.firstWall < highWater { return; }
      var ok := PruneReservations(p.visits);
      if !ok || p.secondWall < highWater { return; }
      var expired, high := FindExpired(p.tests, p.wall);
      if expired == [] { return; }
      ok := CommitChanges(Changes(map[], (set fp | fp in expired), Some(high), None), p.outcome);
    }

    method ExecuteCommand(c: Command) returns (ok: bool)
      modifies this
      ensures View() == Execute(old(View()), c)
    {
      var next := NextGenerations(generations, c.senders, c.stamp);
      ok := CommitChanges(Changes(FindRetirees(next, c.retireAll), {}, None, Some(next)), c.outcome);
      if ok {
        senders, binding, epoch := c.senders, c.binding, c.epoch;
      }
    }

    method StartClosing()
      modifies this`phase
      ensures View() == BeginClose(old(View()))
    {
      if phase == Running { phase := Closing; }
    }

    method RetireReservations(outcome: Outcome)
      modifies this
      ensures View() == Drain(old(View()), outcome)
    {
      if phase != Closing { return; }
      var undecided := map fp | fp in pending && fp !in cache
        :: Record(pending[fp].sender, pending[fp].generation, None, pending[fp].expiresWall, pending[fp].expiresElapsed,
                  origin, Retired);
      assert undecided == Undecided(View());
      if undecided != map[] {
        var ok := CommitChanges(Changes(undecided, {}, None, None), outcome);
        if !ok { return; }
      }
      phase := Drained;
    }

    method FinishClosing()
      modifies this
      ensures View() == EndClose(old(View()))
    {
      if phase == Drained {
        listener, pending := None, map[];
      }
    }
  }
}
