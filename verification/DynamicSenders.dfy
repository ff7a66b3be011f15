/**
 * What a change of a dynamic-authorization sender does: its token is replaced, its reservations are retired, and neither an
 * effect nor a stored response crosses the change.  A uid is a number that nothing in memory or in the store carries yet.
 */
module DynamicSenders {
  import opened Outcomes
  import opened DynamicAuthorization

  // ---------------------------------------------------------------------------------------------
  // Tokens
  // ---------------------------------------------------------------------------------------------

  ghost predicate Bears(generations: map<nat, Generation>, token: nat) {
    exists id :: id in generations && generations[id].token == token
  }

  ghost predicate Noted(decisions: map<Fingerprint, Record>, token: nat) {
    exists fp :: fp in decisions && decisions[fp].generation == token
  }

  ghost predicate Held(pending: map<Fingerprint, Pending>, token: nat) {
    exists fp :: fp in pending && pending[fp].generation == token
  }

  /** Nothing that is kept carries the token. */
  ghost predicate Unused(s: State, token: nat) {
    && !Bears(s.generations, token) && !Bears(s.store.generations, token)
    && !Noted(s.cache, token) && !Noted(s.store.decisions, token) && !Held(s.pending, token)
  }

  lemma {:induction false} NextAt(previous: map<nat, Generation>, senders: seq<Sender>, stamp: nat, i: nat)
    requires Distinct(senders) && i < |senders|
    ensures var id, g := senders[i].id, NextGenerations(previous, senders, stamp);
            && id in g
            && g[id] == if id in previous && previous[id].signature == senders[i].signature then previous[id]
                        else Generation(senders[i].signature, stamp)
    decreases |senders|
  {
    var last := |senders| - 1;
    if i < last {
      NextAt(previous, senders[..last], stamp, i);
    }
  }

  /** A sender keeps its token exactly when its signature is unchanged; otherwise, and when it is new, it gets the drawn one. */
  lemma TokenKeptExactly(previous: map<nat, Generation>, senders: seq<Sender>, stamp: nat, i: nat)
    requires Distinct(senders) && i < |senders| && !Bears(previous, stamp)
    ensures var id, g := senders[i].id, NextGenerations(previous, senders, stamp);
            && id in g && g[id].signature == senders[i].signature
            && (id in previous ==> (g[id].token == previous[id].token <==> previous[id].signature == senders[i].signature))
            && (id !in previous || previous[id].signature != senders[i].signature ==> g[id].token == stamp)
  {
    NextAt(previous, senders, stamp, i);
  }

  /** Whose token is another one than the drawn stamp had its signature before. */
  lemma TokenFromBefore(previous: map<nat, Generation>, senders: seq<Sender>, stamp: nat, id: nat)
    requires Distinct(senders) && id in NextGenerations(previous, senders, stamp)
    requires NextGenerations(previous, senders, stamp)[id].token != stamp
    ensures id in previous && previous[id] == NextGenerations(previous, senders, stamp)[id]
    ensures Sender(id, previous[id].signature) in senders
  {
    NextGenerationsInStep(previous, senders, stamp);
    var i :| 0 <= i < |senders| && senders[i].id == id;
    NextAt(previous, senders, stamp, i);
  }

  // ---------------------------------------------------------------------------------------------
  // A committed command
  // ---------------------------------------------------------------------------------------------

  /** The sender of a reservation still has the token of the reservation, and the command leaves its signature. */
  predicate Retained(s: State, c: Command, p: Pending) {
    && !c.retireAll
    && p.sender in s.generations && s.generations[p.sender].token == p.generation
    && Sender(p.sender, s.generations[p.sender].signature) in c.senders
  }

  lemma RetainedExactly(s: State, c: Command, fp: Fingerprint)
    requires Distinct(c.senders) && Unused(s, c.stamp) && fp in s.pending && fp !in s.cache
    ensures fp in Retirees(s, NextGenerations(s.generations, c.senders, c.stamp), c.retireAll) <==> !Retained(s, c, s.pending[fp])
  {
    var p, g := s.pending[fp], NextGenerations(s.generations, c.senders, c.stamp);
    assert p.generation != c.stamp by { assert !Held(s.pending, c.stamp); }
    if p.sender in g && g[p.sender].token == p.generation {
      TokenFromBefore(s.generations, c.senders, c.stamp, p.sender);
    }
    if Retained(s, c, p) {
      var i :| 0 <= i < |c.senders| && c.senders[i] == Sender(p.sender, s.generations[p.sender].signature);
      NextAt(s.generations, c.senders, c.stamp, i);
    }
  }

  /** What retirement leaves of a reservation: a decision without a response, under the reservation's sender and token. */
  predicate IsRetired(decisions: map<Fingerprint, Record>, fp: Fingerprint, p: Pending) {
    && fp in decisions && decisions[fp].disposition == Retired && decisions[fp].response == None
    && decisions[fp].sender == p.sender && decisions[fp].generation == p.generation && decisions[fp].expiresWall == p.expiresWall
  }

  lemma SameKeys(s: State)
    requires INVARIANT(s) && !s.fault
    ensures s.cache.Keys == s.store.decisions.Keys
  {
  }

  lemma RetireesAreNew(s: State, generations: map<nat, Generation>, all: bool)
    requires s.cache.Keys == s.store.decisions.Keys
    ensures Retirees(s, generations, all).Keys * s.store.decisions.Keys == {}
  {
    forall fp | fp in Retirees(s, generations, all) ensures fp !in s.store.decisions.Keys { assert fp !in s.cache.Keys; }
  }

  lemma CommittedIsPublished(s: State, c: Changes)
    requires !s.closed && !s.fault && c.put.Keys * s.store.decisions.Keys == {}
    ensures Commit(s, c, Committed) == (Published(s, c), true)
  {
  }

  lemma CommandCommits(s: State, c: Command)
    requires s.cache.Keys == s.store.decisions.Keys && !s.closed && !s.fault && c.outcome == Committed
    ensures var g := NextGenerations(s.generations, c.senders, c.stamp);
            var changes := Changes(Retirees(s, g, c.retireAll), {}, None, Some(g));
            Execute(s, c) == Published(s, changes).(senders := c.senders, binding := c.binding, epoch := c.epoch)
  {
    var g := NextGenerations(s.generations, c.senders, c.stamp);
    RetireesAreNew(s, g, c.retireAll);
    CommittedIsPublished(s, Changes(Retirees(s, g, c.retireAll), {}, None, Some(g)));
  }

  /**
   * A committed command retires, in memory and in the store, exactly the undecided reservations whose sender it changes or
   * removes, and, in a reboot or a shutdown, all of them.
   */
  lemma CommandRetires(s: State, c: Command, fp: Fingerprint)
    requires INVARIANT(s) && Distinct(c.senders) && Unused(s, c.stamp)
    requires !s.closed && !s.fault && c.outcome == Committed && fp in s.pending && fp !in s.cache
    ensures var t := Execute(s, c);
            if Retained(s, c, s.pending[fp]) then fp !in t.cache && fp !in t.store.decisions
            else IsRetired(t.cache, fp, s.pending[fp]) && IsRetired(t.store.decisions, fp, s.pending[fp])
  {
    RetainedExactly(s, c, fp);
    SameKeys(s);
    CommandCommits(s, c);
  }

  // ---------------------------------------------------------------------------------------------
  // Exactly when a datagram is answered, reserved or ignored
  // ---------------------------------------------------------------------------------------------

  /** The datagram came through the listener that is open on the present binding of a running engine. */
  ghost predicate Listening(s: State, listener: nat) {
    && !s.closed && s.phase.Running? && !s.fault && s.listener == Some(Listener(listener, true, s.binding))
  }

  /** The first enabled sender with this address. */
  ghost predicate Trusted(senders: seq<Sender>, address: string, sender: Sender) {
    exists i :: 0 <= i < |senders| && senders[i] == sender && sender.signature.enabled && sender.signature.address == address
                && forall k :: 0 <= k < i ==> !(senders[k].signature.enabled && senders[k].signature.address == address)
  }

  /** A wall reading within five minutes of the request's timestamp, on either side. */
  predicate Near(wall: real, request: Request) {
    request.timestamp as real - 300.0 <= wall <= request.timestamp as real + 300.0
  }

  ghost predicate Considered(s: State, a: Arrival, sender: Sender) {
    && Listening(s, a.listener) && Trusted(s.senders, a.address, sender) && sender.id in s.generations
    && a.verified.Some? && a.safeWall >= s.highWater && Near(a.windowWall, a.verified.value)
  }

  function Print(a: Arrival): Fingerprint
    requires a.verified.Some?
  {
    Fingerprint(a.address, a.port, a.verified.value)
  }

  /** The stored response is sent again: it was given under the sender's present token and neither of its lifetimes is over. */
  ghost predicate Replays(s: State, a: Arrival, sender: Sender, response: Bytes) {
    && Considered(s, a, sender) && Print(a) in s.cache
    && var r := s.cache[Print(a)];
       && r.response == Some(response) && r.generation == s.generations[sender.id].token
       && a.cachedNow.wall <= r.expiresWall && a.cachedNow.elapsed <= r.expiresElapsed && a.delivered
  }

  ghost predicate Reserves(s: State, a: Arrival, sender: Sender) {
    && Considered(s, a, sender) && Print(a) !in s.cache && Print(a) !in s.pending
    && |s.cache.Keys + s.pending.Keys| < CAPACITY
  }

  /** The reservation ends five minutes after the timestamp, by the wall and by as much of the other clock as is left until then. */
  function Reservation(s: State, a: Arrival, sender: Sender): Pending
    requires a.verified.Some? && sender.id in s.generations
  {
    var ends := a.verified.value.timestamp as real + 300.0;
    Pending(sender.id, s.generations[sender.id].token, s.epoch, a.listener, ends,
            if a.lifeNow.wall < ends then a.lifeNow.elapsed + (ends - a.lifeNow.wall) else a.lifeNow.elapsed, false)
  }

  lemma {:induction false} TrustedExactly(senders: seq<Sender>, address: string, sender: Sender)
    ensures ByAddress(senders, address) == Some(sender) <==> Trusted(senders, address, sender)
  {
    if senders != [] {
      var rest := senders[1..];
      TrustedExactly(rest, address, sender);
      if !(senders[0].signature.enabled && senders[0].signature.address == address) {
        if Trusted(rest, address, sender) {
          var i :| 0 <= i < |rest| && rest[i] == sender && sender.signature.enabled && sender.signature.address == address
                && forall k :: 0 <= k < i ==> !(rest[k].signature.enabled && rest[k].signature.address == address);
          forall k | 0 <= k < i + 1 ensures !(senders[k].signature.enabled && senders[k].signature.address == address) {
            if k > 0 { assert senders[k] == rest[k - 1]; }
          }
          assert senders[i + 1] == sender;
        }
        if Trusted(senders, address, sender) {
          var i :| 0 <= i < |senders| && senders[i] == sender && sender.signature.enabled && sender.signature.address == address
                && forall k :: 0 <= k < i ==> !(senders[k].signature.enabled && senders[k].signature.address == address);
          assert rest[i - 1] == sender;
          forall k | 0 <= k < i - 1 ensures !(rest[k].signature.enabled && rest[k].signature.address == address) {
            assert rest[k] == senders[k + 1];
          }
        }
      } else {
        assert senders[0] == senders[0];
        if Trusted(senders, address, sender) { assert sender == senders[0]; }
      }
    }
  }

  lemma NearExactly(wall: real, fp: Fingerprint)
    ensures InWindow(wall, fp) <==> Near(wall, fp.request)
  {
  }

  lemma ListeningExactly(s: State, listener: nat)
    ensures Current(s, listener) <==> Listening(s, listener)
  {
  }

  /** The gates of reception, whatever is behind them. */
  lemma ConsideredExactly(s: State, a: Arrival, sender: Sender)
    ensures Considered(s, a, sender) <==>
            && Current(s, a.listener) && ByAddress(s.senders, a.address) == Some(sender) && a.verified.Some?
            && a.safeWall >= s.highWater && InWindow(a.windowWall, Print(a)) && sender.id in s.generations
  {
    TrustedExactly(s.senders, a.address, sender);
    ListeningExactly(s, a.listener);
    if a.verified.Some? { NearExactly(a.windowWall, Print(a)); }
  }

  /** A datagram from a considered sender. */
  lemma ReceiveConsidered(s: State, a: Arrival, sender: Sender)
    requires Considered(s, a, sender)
    ensures var fp := Print(a);
            if fp in s.cache && s.cache[fp].response.Some? && Replays(s, a, sender, s.cache[fp].response.value)
            then Receive(s, a) == Replied(s, fp, s.cache[fp].response.value)
            else if Reserves(s, a, sender) then Receive(s, a) == s.(pending := s.pending[fp := Reservation(s, a, sender)])
            else Receive(s, a) == s
  {
    ConsideredExactly(s, a, sender);
  }

  lemma ReceiveUnconsidered(s: State, a: Arrival)
    requires forall sender :: !Considered(s, a, sender)
    ensures Receive(s, a) == s
  {
    var found := ByAddress(s.senders, a.address);
    if found.Some? { ConsideredExactly(s, a, found.value); }
  }

  ghost predicate Answers(s: State, a: Arrival, sender: Sender) {
    exists response :: Replays(s, a, sender, response)
  }

  lemma ReceiveChanges(s: State, a: Arrival, sender: Sender)
    requires Considered(s, a, sender) && Receive(s, a) != s
    ensures Reserves(s, a, sender) || Answers(s, a, sender)
  {
    ReceiveConsidered(s, a, sender);
    if Print(a) in s.cache && s.cache[Print(a)].response.Some? && Replays(s, a, sender, s.cache[Print(a)].response.value) {
      assert Answers(s, a, sender);
    }
  }

  /** A datagram is answered from the store, or reserved, exactly under these conditions; otherwise it changes nothing. */
  lemma ReceiveExactly(s: State, a: Arrival)
    ensures forall sender, response :: Replays(s, a, sender, response) ==>
              Receive(s, a) == s.(history := s.history.(replies := s.history.replies + {(Print(a), response)}))
    ensures forall sender :: Reserves(s, a, sender) ==> Receive(s, a) == s.(pending := s.pending[Print(a) := Reservation(s, a, sender)])
    ensures Receive(s, a) != s ==> exists sender :: Reserves(s, a, sender) || Answers(s, a, sender)
  {
    forall sender, response | Replays(s, a, sender, response)
      ensures Receive(s, a) == s.(history := s.history.(replies := s.history.replies + {(Print(a), response)}))
    {
      ReceiveConsidered(s, a, sender);
    }
    forall sender | Reserves(s, a, sender)
      ensures Receive(s, a) == s.(pending := s.pending[Print(a) := Reservation(s, a, sender)])
    {
      ReceiveConsidered(s, a, sender);
    }
    if sender :| Considered(s, a, sender) {
      if Receive(s, a) != s { ReceiveChanges(s, a, sender); }
    } else {
      ReceiveUnconsidered(s, a);
    }
  }

  // ---------------------------------------------------------------------------------------------
  // Exactly when a reservation takes effect
  // ---------------------------------------------------------------------------------------------

  /** The handler decides the request: nothing has lapsed and nothing that it was received under has changed. */
  ghost predicate Decides(s: State, fp: Fingerprint, h: Handling) {
    && fp in s.pending && fp !in s.cache && h.answer.Some?
    && var p := s.pending[fp];
       && h.now.wall <= p.expiresWall && h.now.elapsed <= p.expiresElapsed
       && Listening(s, p.listener) && s.epoch == p.epoch
       && (exists i :: 0 <= i < |s.senders| && s.senders[i].id == p.sender && s.senders[i].signature.enabled)
       && p.sender in s.generations && s.generations[p.sender].token == p.generation
       && s.highWater <= h.now.wall && Near(h.now.wall, fp.request)
  }

  /** The commit reaches the disk, confirmed or not. */
  predicate Reaches(outcome: Outcome) {
    outcome.Committed? || (outcome.Faulted? && outcome.written)
  }

  /** After the lock is released nothing has changed the listener, the sender's token or the clocks' verdict. */
  predicate Delivers(p: Pending, fp: Fingerprint, h: Handling, mark: real) {
    && h.outcome.Committed? && mark <= h.safeWall && h.now.wall <= h.safeWall
    && h.replyNow.wall <= p.expiresWall && h.replyNow.elapsed <= p.expiresElapsed
    && Near(h.windowWall, fp.request) && h.delivered
  }

  lemma {:induction false} EnabledExactly(senders: seq<Sender>, id: nat)
    requires Distinct(senders)
    ensures ById(senders, id).Some? && ById(senders, id).value.signature.enabled <==>
            exists i :: 0 <= i < |senders| && senders[i].id == id && senders[i].signature.enabled
  {
    if senders != [] {
      var rest := senders[1..];
      assert forall k :: 0 <= k < |rest| ==> rest[k] == senders[k + 1];
      EnabledExactly(rest, id);
      if senders[0].id != id {
        if i :| 0 <= i < |senders| && senders[i].id == id && senders[i].signature.enabled { assert rest[i - 1] == senders[i]; }
      }
    }
  }

  lemma DecidesExactly(s: State, fp: Fingerprint, h: Handling)
    requires Distinct(s.senders) && fp in s.pending
    ensures var p := s.pending[fp];
            Decides(s, fp, h) <==>
              !PastLife(p.expiresWall, p.expiresElapsed, h.now) && !s.closed && !s.fault && Admissible(s, fp, p, h.now.wall)
              && fp !in s.cache && h.answer.Some?
  {
    var p := s.pending[fp];
    ListeningExactly(s, p.listener);
    NearExactly(h.now.wall, fp);
    EnabledExactly(s.senders, p.sender);
  }

  lemma VerdictIsNew(s: State, fp: Fingerprint, p: Pending, answer: Answer, wall: real, stamp: nat)
    requires s.cache.Keys == s.store.decisions.Keys && fp !in s.cache
    ensures Verdict(s, fp, p, answer, wall, stamp).put.Keys * s.store.decisions.Keys == {}
  {
    RetireesAreNew(s, NextGenerations(s.generations, s.senders, stamp), false);
    forall g | g in Verdict(s, fp, p, answer, wall, stamp).put ensures g !in s.store.decisions.Keys {
      assert g == fp || g in Retirees(s, NextGenerations(s.generations, s.senders, stamp), false).Keys;
      assert fp !in s.cache.Keys;
    }
  }

  /** What the verdict of a decision leaves of the sender, the mark and the decision itself. */
  lemma VerdictShape(s: State, fp: Fingerprint, h: Handling)
    requires Aligned(s) && Decides(s, fp, h)
    ensures var p, answer := s.pending[fp], h.answer.value;
            var c := Verdict(s, fp, p, answer, h.now.wall, h.stamp);
            && c.drop == {} && fp in c.put && c.put[fp] == Note(s, p, Some(answer.response), if answer.ack then Ack else Nak)
            && c.high == Some(Max(s.highWater, h.now.wall))
            && (c.generations.Some? ==> p.sender in c.generations.value && c.generations.value[p.sender] == s.generations[p.sender])
  {
    var p, answer := s.pending[fp], h.answer.value;
    DecidesExactly(s, fp, h);
    VerdictAnswers(s, fp, p, answer, h.now.wall, h.stamp);
    if answer.ack {
      ByIdFinds(s.senders, p.sender);
      NextGenerationsInStep(s.generations, s.senders, h.stamp);
      NextGenerationsKeep(s.generations, s.senders, h.stamp, p.sender);
    }
  }

  /** What became of a request that was decided. */
  ghost predicate Decided(s: State, t: State, fp: Fingerprint, h: Handling)
    requires Decides(s, fp, h)
  {
    var p, answer := s.pending[fp], h.answer.value;
    && t.history.applied == s.history.applied + (if answer.ack && Reaches(h.outcome) then multiset{fp} else multiset{})
    && t.history.replies == s.history.replies + (if Delivers(p, fp, h, s.highWater) then {(fp, answer.response)} else {})
    && (if Reaches(h.outcome)
        then fp in t.store.decisions
             && t.store.decisions[fp] == Note(s, p, Some(answer.response), if answer.ack then Ack else Nak)
             && t.store.highWater == Max(s.highWater, h.now.wall)
        else t.store == s.store)
  }

  lemma NoEffect(s: State)
    ensures s.history.applied + multiset{} == s.history.applied && s.history.replies + {} == s.history.replies
  {
  }

  /** A commit adds to neither the effects nor the replies, and writes exactly when it reaches the disk. */
  lemma CommitWrites(s: State, c: Changes, outcome: Outcome)
    requires !s.closed && !s.fault && c.put.Keys * s.store.decisions.Keys == {}
    ensures Landed(s, c, outcome) == Reaches(outcome) && Commit(s, c, outcome).1 == outcome.Committed?
    ensures Commit(s, c, outcome).0.store == if Reaches(outcome) then Written(s.store, c) else s.store
  {
  }

  lemma CommitQuiet(s: State, c: Changes, outcome: Outcome)
    ensures Commit(s, c, outcome).0.history.applied == s.history.applied && Commit(s, c, outcome).0.history.replies == s.history.replies
  {
  }

  lemma TakeEffectAdds(s: State, fp: Fingerprint, effective: bool)
    ensures TakeEffect(s, fp, effective).history.applied == s.history.applied + (if effective then multiset{fp} else multiset{})
    ensures TakeEffect(s, fp, effective).history.replies == s.history.replies && TakeEffect(s, fp, effective).store == s.store
  {
    NoEffect(s);
  }

  lemma ReplyAdds(s: State, fp: Fingerprint, p: Pending, h: Handling, response: Bytes)
    requires Listening(s, p.listener) && p.sender in s.generations && s.generations[p.sender].token == p.generation
    ensures var t := Reply(s, fp, p, h, response);
            && t.history.applied == s.history.applied && t.store == s.store
            && t.history.replies == s.history.replies +
               if s.highWater <= h.safeWall && h.replyNow.wall <= p.expiresWall && h.replyNow.elapsed <= p.expiresElapsed
                  && Near(h.windowWall, fp.request) && h.delivered then {(fp, response)} else {}
  {
    NoEffect(s);
    ListeningExactly(s, p.listener);
    NearExactly(h.windowWall, fp);
  }

  lemma PublishedStands(s: State, fp: Fingerprint, h: Handling, c: Changes, effective: bool)
    requires Decides(s, fp, h) && c.high == Some(Max(s.highWater, h.now.wall))
    requires c.generations.Some? ==>
               s.pending[fp].sender in c.generations.value && c.generations.value[s.pending[fp].sender] == s.generations[s.pending[fp].sender]
    ensures var p, t := s.pending[fp], TakeEffect(Published(s, c), fp, effective);
            && Listening(t, p.listener) && p.sender in t.generations && t.generations[p.sender].token == p.generation
            && t.highWater == Max(s.highWater, h.now.wall)
  {
  }

  lemma DecideHistory(s: State, fp: Fingerprint, h: Handling, c: Changes)
    requires Decides(s, fp, h) && c == Verdict(s, fp, s.pending[fp], h.answer.value, h.now.wall, h.stamp)
    requires c.put.Keys * s.store.decisions.Keys == {} && c.high == Some(Max(s.highWater, h.now.wall))
    requires c.generations.Some? ==>
               s.pending[fp].sender in c.generations.value && c.generations.value[s.pending[fp].sender] == s.generations[s.pending[fp].sender]
    ensures var p, answer, t := s.pending[fp], h.answer.value, Decide(s, fp, s.pending[fp], h, h.answer.value);
            && t.history.applied == s.history.applied + (if answer.ack && Reaches(h.outcome) then multiset{fp} else multiset{})
            && t.history.replies == s.history.replies + (if Delivers(p, fp, h, s.highWater) then {(fp, answer.response)} else {})
            && t.store == (if Reaches(h.outcome) then Written(s.store, c) else s.store)
  {
    var p, answer := s.pending[fp], h.answer.value;
    var t := Commit(s, c, h.outcome).0;
    var effective := answer.ack && Reaches(h.outcome);
    CommitWrites(s, c, h.outcome);
    CommitQuiet(s, c, h.outcome);
    TakeEffectAdds(t, fp, effective);
    if h.outcome.Committed? {
      CommittedIsPublished(s, c);
      PublishedStands(s, fp, h, c, effective);
      ReplyAdds(TakeEffect(t, fp, effective), fp, p, h, answer.response);
    } else {
      NoEffect(s);
    }
  }

  lemma DecideIsDecided(s: State, fp: Fingerprint, h: Handling)
    requires s.cache.Keys == s.store.decisions.Keys && Aligned(s) && Decides(s, fp, h)
    ensures Decided(s, Decide(s, fp, s.pending[fp], h, h.answer.value), fp, h)
  {
    VerdictIsNew(s, fp, s.pending[fp], h.answer.value, h.now.wall, h.stamp);
    VerdictShape(s, fp, h);
    DecideHistory(s, fp, h, Verdict(s, fp, s.pending[fp], h.answer.value, h.now.wall, h.stamp));
  }

  lemma DecidedFinishes(s: State, t: State, fp: Fingerprint, h: Handling, keep: bool)
    requires Decides(s, fp, h) && Decided(s, t, fp, h)
    ensures Decided(s, Finish(t, fp, keep), fp, h)
  {
    FinishFrame(t, fp, keep);
  }

  lemma RetireExpiredQuiet(s: State, fp: Fingerprint, p: Pending, wall: real, after: Successor, outcome: Outcome, keep: bool)
    ensures var t := Finish(RetireExpired(s, fp, p, wall, after, outcome).0, fp, keep);
            t.history.applied == s.history.applied && t.history.replies == s.history.replies
  {
    CommitQuiet(s, Retirement(s, fp, p, wall, after), outcome);
    FinishFrame(RetireExpired(s, fp, p, wall, after, outcome).0, fp, keep);
  }

  lemma HandleDecides(s: State, fp: Fingerprint, h: Handling, after: Successor)
    requires Aligned(s) && Decides(s, fp, h)
    ensures Handle(s, fp, h, after) == Finish(Decide(s, fp, s.pending[fp], h, h.answer.value), fp, false)
  {
    DecidesExactly(s, fp, h);
  }

  lemma HandleUndecided(s: State, fp: Fingerprint, h: Handling, after: Successor)
    requires Aligned(s) && fp in s.pending && !Decides(s, fp, h)
    ensures var t := Handle(s, fp, h, after); t.history.applied == s.history.applied && t.history.replies == s.history.replies
  {
    var p := s.pending[fp];
    DecidesExactly(s, fp, h);
    if PastLife(p.expiresWall, p.expiresElapsed, h.now) {
      RetireExpiredQuiet(s, fp, p, h.retireWall, after, h.outcome, !RetireExpired(s, fp, p, h.retireWall, after, h.outcome).1);
    } else {
      FinishFrame(s, fp, false);
    }
  }

  /** A handler has exactly these effects, and a request that is not decided has none. */
  lemma HandleExactly(s: State, fp: Fingerprint, h: Handling, after: Successor)
    requires INVARIANT(s) && Aligned(s) && fp in s.pending
    ensures var t := Handle(s, fp, h, after);
            if Decides(s, fp, h) then Decided(s, t, fp, h)
            else t.history.applied == s.history.applied && t.history.replies == s.history.replies
  {
    if Decides(s, fp, h) {
      SameKeys(s);
      DecideIsDecided(s, fp, h);
      DecidedFinishes(s, Decide(s, fp, s.pending[fp], h, h.answer.value), fp, h, false);
      HandleDecides(s, fp, h, after);
    } else {
      HandleUndecided(s, fp, h, after);
    }
  }

  // ---------------------------------------------------------------------------------------------
  // Closing, restarting and pruning
  // ---------------------------------------------------------------------------------------------

  lemma UndecidedAreNew(s: State)
    requires s.cache.Keys == s.store.decisions.Keys
    ensures Undecided(s).Keys * s.store.decisions.Keys == {}
  {
    forall fp | fp in Undecided(s) ensures fp !in s.store.decisions.Keys { assert fp !in s.cache.Keys; }
  }

  lemma DrainCommits(s: State)
    requires s.cache.Keys == s.store.decisions.Keys && !s.closed && !s.fault && s.phase == Closing && Undecided(s) != map[]
    ensures Drain(s, Committed) == Published(s, Changes(Undecided(s), {}, None, None)).(phase := Drained)
  {
    UndecidedAreNew(s);
    CommittedIsPublished(s, Changes(Undecided(s), {}, None, None));
  }

  /** A drained engine has a durable decision on every reservation: the one it had, or a retirement. */
  lemma DrainRetires(s: State, fp: Fingerprint)
    requires INVARIANT(s) && !s.closed && !s.fault && s.phase == Closing && fp in s.pending
    ensures var t := Drain(s, Committed);
            && t.phase == Drained && fp in t.store.decisions
            && if fp in s.cache then t.store.decisions[fp] == s.store.decisions[fp] else IsRetired(t.store.decisions, fp, s.pending[fp])
  {
    SameKeys(s);
    assert fp in s.cache ==> fp in s.store.decisions.Keys;
    if Undecided(s) != map[] {
      DrainCommits(s);
    } else {
      assert fp in s.cache by { assert fp !in Undecided(s); }
    }
  }

  /** A new process keeps every stored decision; what is left of a wall lifetime is left on the new elapsed clock. */
  lemma RestartRebases(s: State, b: Boot, fp: Fingerprint)
    ensures var t := Restart(s, b);
            && t.pending == map[] && t.store.decisions == s.store.decisions && t.highWater == s.store.highWater
            && (fp in t.cache <==> fp in s.store.decisions)
            && (fp in t.cache ==>
                  var was, now := s.store.decisions[fp], t.cache[fp];
                  && now.(expiresElapsed := was.expiresElapsed, origin := was.origin) == was && now.origin == b.origin
                  && (was.origin == b.origin ==> now.expiresElapsed == was.expiresElapsed)
                  && (was.origin != b.origin ==>
                        now.expiresElapsed - b.now.elapsed == if b.now.wall < was.expiresWall then was.expiresWall - b.now.wall else 0.0))
  {
  }

  /** A decision is over by one of its clocks when it is tested. */
  ghost predicate Lapses(cache: map<Fingerprint, Record>, tests: seq<Test>, fp: Fingerprint) {
    fp in cache && exists i :: 0 <= i < |tests| && tests[i].fp == fp
                               && (tests[i].now.wall > cache[fp].expiresWall || tests[i].now.elapsed > cache[fp].expiresElapsed)
  }

  lemma {:induction false} OutlivedExactly(cache: map<Fingerprint, Record>, tests: seq<Test>, fp: Fingerprint)
    ensures fp in Outlived(cache, tests) <==> Lapses(cache, tests, fp)
  {
    if tests != [] {
      var last := |tests| - 1;
      OutlivedExactly(cache, tests[..last], fp);
      assert forall i :: 0 <= i < last ==> tests[..last][i] == tests[i];
    }
  }

  lemma DeletionCommits(s: State, gone: seq<Fingerprint>, wall: real, after: Successor)
    requires !s.closed && !s.fault
    ensures Commit(s, Deletion(s, gone, wall, after), Committed) == (Published(s, Deletion(s, gone, wall, after)), true)
  {
    CommittedIsPublished(s, Deletion(s, gone, wall, after));
  }

  lemma PruneForm(s: State, p: Pruning, after: Successor)
    requires !s.closed && !s.fault && p.visits == [] && p.outcome == Committed
    requires s.highWater <= p.firstWall && s.highWater <= p.secondWall
    ensures var gone := Outlived(s.cache, p.tests);
            Prune(s, p, after) == if gone == [] then s else Published(s, Deletion(s, gone, p.wall, after))
  {
    var gone := Outlived(s.cache, p.tests);
    if gone != [] { DeletionCommits(s, gone, p.wall, after); }
  }

  lemma DeletionLeaves(s: State, gone: seq<Fingerprint>, wall: real, after: Successor, fp: Fingerprint)
    ensures var t := Published(s, Deletion(s, gone, wall, after));
            && (fp in t.store.decisions <==> fp in s.store.decisions && fp !in gone)
            && (fp in t.store.decisions ==> t.store.decisions[fp] == s.store.decisions[fp])
            && (fp in gone && fp in s.cache ==> t.store.highWater > s.cache[fp].expiresWall)
  {
  }

  /** Pruning deletes exactly the decisions that are over, and the mark it leaves lies past each of them. */
  lemma PruneExactly(s: State, p: Pruning, after: Successor, fp: Fingerprint)
    requires !s.closed && !s.fault && p.visits == [] && p.outcome == Committed
    requires s.highWater <= p.firstWall && s.highWater <= p.secondWall
    ensures var t := Prune(s, p, after);
            && (fp in t.store.decisions <==> fp in s.store.decisions && !Lapses(s.cache, p.tests, fp))
            && (fp in t.store.decisions ==> t.store.decisions[fp] == s.store.decisions[fp])
            && (Lapses(s.cache, p.tests, fp) ==> t.store.highWater > s.cache[fp].expiresWall)
  {
    var gone := Outlived(s.cache, p.tests);
    OutlivedExactly(s.cache, p.tests, fp);
    PruneForm(s, p, after);
    DeletionLeaves(s, gone, p.wall, after, fp);
  }
}
