/**
 * Replay protection of RADIUS dynamic authorization (section 6.3 of RFC 5176).
 *
 * A request is reserved when it is received, decided by a task that holds the engine's lock, and its
 * decision is written together with a high-water mark of the wall clock.  The functions below give every
 * atomic step as a function of the state; the class performs the steps in place, and each of its methods
 * is proved to compute the step.  The lemmas at the end speak of every run.
 *
 * Every reading of a clock is an input of its own, so that either clock may move between any two readings.
 * A fingerprint is the triple that a request is hashed by: peer address, peer port and packet.  The packet is
 * kept together with the timestamp that it carries.
 */
module DynamicAuthorization {
  import opened Outcomes
  import Budgets
  import Codec

  const LIFETIME := 300.0
  const CAPACITY := 4096

  /** The next representable number; only that it lies strictly above its argument is used. */
  type Successor = f: real -> real | forall x :: f(x) > x witness x => x + 1.0

  datatype Stamped = Stamped(packet: Codec.Octets, timestamp: nat)
  type Request = r: Stamped | r.timestamp == Budgets.EventTimestamp(r.packet) witness Stamped([], 0)

  datatype Fingerprint = Fingerprint(address: string, port: nat, request: Request)

  /** The settings whose change retires a sender's outstanding requests. */
  datatype Signature = Signature(address: string, secret: Bytes, enabled: bool)

  datatype Sender = Sender(id: nat, signature: Signature)

  datatype Generation = Generation(signature: Signature, token: nat)

  datatype Reading = Reading(wall: real, elapsed: real)

  datatype Disposition = Ack | Nak | Retired | ExpiredReservation

  datatype Record = Record(
    sender: nat, generation: nat, response: Option<Bytes>,
    expiresWall: real, expiresElapsed: real, origin: nat, disposition: Disposition)

  datatype Pending = Pending(
    sender: nat, generation: nat, epoch: nat, listener: nat,
    expiresWall: real, expiresElapsed: real, done: bool)

  datatype Listener = Listener(id: nat, open: bool, binding: nat)

  /** What survives a restart. */
  datatype Store = Store(decisions: map<Fingerprint, Record>, highWater: real, generations: map<nat, Generation>)

  /**
   * What has happened so far, in this and in every earlier process: which requests took effect and how often,
   * which ever had a decision written, the response each of them was given, and the replies that were sent.
   */
  datatype History = History(
    applied: multiset<Fingerprint>, decided: set<Fingerprint>,
    answers: map<Fingerprint, Bytes>, replies: set<(Fingerprint, Bytes)>)

  /** `_das_closing` holds in every phase but `Running`. */
  datatype Phase = Running | Closing | Drained

  datatype State = State(
    store: Store,
    cache: map<Fingerprint, Record>, highWater: real, generations: map<nat, Generation>,
    pending: map<Fingerprint, Pending>,
    senders: seq<Sender>, binding: nat, listener: Option<Listener>,
    epoch: nat, origin: nat, phase: Phase, closed: bool, fault: bool,
    history: History)

  /** How a storage transaction ends.  A faulted commit may or may not have reached the disk. */
  datatype Outcome = Committed | RolledBack | Faulted(written: bool)

  datatype Changes = Changes(
    put: map<Fingerprint, Record>, drop: set<Fingerprint>,
    high: Option<real>, generations: Option<map<nat, Generation>>)

  function Max(x: real, y: real): real {
    if x < y then y else x
  }

  function Distance(x: real, y: real): real {
    if x < y then y - x else x - y
  }

  function Expiry(fp: Fingerprint): real {
    fp.request.timestamp as real + LIFETIME
  }

  predicate InWindow(wall: real, fp: Fingerprint) {
    Distance(wall, fp.request.timestamp as real) <= LIFETIME
  }

  predicate PastLife(expiresWall: real, expiresElapsed: real, now: Reading) {
    now.wall > expiresWall || now.elapsed > expiresElapsed
  }

  predicate Current(s: State, listener: nat) {
    && !s.closed && s.phase == Running && !s.fault
    && s.listener.Some? && s.listener.value.id == listener && s.listener.value.open
    && s.listener.value.binding == s.binding
  }

  function ByAddress(senders: seq<Sender>, address: string): Option<Sender> {
    if senders == [] then None
    else if senders[0].signature.enabled && senders[0].signature.address == address then Some(senders[0])
    else ByAddress(senders[1..], address)
  }

  function ById(senders: seq<Sender>, id: nat): Option<Sender> {
    if senders == [] then None
    else if senders[0].id == id then Some(senders[0])
    else ById(senders[1..], id)
  }

  function NextGenerations(previous: map<nat, Generation>, senders: seq<Sender>, stamp: nat): map<nat, Generation> {
    if senders == [] then map[]
    else
      var last := |senders| - 1;
      var sender := senders[last];
      NextGenerations(previous, senders[..last], stamp)[sender.id :=
        if sender.id in previous && previous[sender.id].signature == sender.signature then previous[sender.id]
        else Generation(sender.signature, stamp)]
  }

  // ---------------------------------------------------------------------------------------------
  // The steps
  // ---------------------------------------------------------------------------------------------

  function Decisions(m: map<Fingerprint, Record>, c: Changes): map<Fingerprint, Record> {
    (m + c.put) - c.drop
  }

  function Written(st: Store, c: Changes): Store {
    Store(Decisions(st.decisions, c),
          if c.high.Some? then c.high.value else st.highWater,
          if c.generations.Some? then c.generations.value else st.generations)
  }

  /** The history once the puts of a transaction are in the store. */
  function Recorded(h: History, put: map<Fingerprint, Record>): History {
    h.(decided := h.decided + put.Keys,
       answers := h.answers + map fp | fp in put && put[fp].response.Some? :: put[fp].response.value)
  }

  /** The state once a transaction is confirmed and published. */
  function Published(s: State, c: Changes): State {
    s.(store := Written(s.store, c),
       cache := Decisions(s.cache, c),
       highWater := if c.high.Some? then c.high.value else s.highWater,
       generations := if c.generations.Some? then c.generations.value else s.generations,
       history := Recorded(s.history, c.put))
  }

  /** The state once a transaction has reached the disk without a confirmation: memory is not updated. */
  function Unconfirmed(s: State, c: Changes): State {
    s.(store := Written(s.store, c), fault := true, history := Recorded(s.history, c.put))
  }

  /** Every put is an SQL INSERT, so a fingerprint that is already stored makes the transaction fail. */
  predicate Attempted(s: State, c: Changes, outcome: Outcome) {
    !s.closed && !s.fault && c.put.Keys * s.store.decisions.Keys == {} && outcome != RolledBack
  }

  /** The transaction reaches the disk, confirmed or not. */
  predicate Landed(s: State, c: Changes, outcome: Outcome) {
    Attempted(s, c, outcome) && (outcome == Committed || outcome.written)
  }

  function Commit(s: State, c: Changes, outcome: Outcome): (r: (State, bool)) {
    if !Attempted(s, c, outcome) then (s, false)
    else if outcome == Committed then (Published(s, c), true)
    else (if outcome.written then Unconfirmed(s, c) else s.(fault := true), false)
  }

  datatype Arrival = Arrival(
    listener: nat, address: string, port: nat,
    verified: Option<Request>,        // the outcome of verify_dynamic_request under the sender's secret
    safeWall: real, windowWall: real, // the readings of the two gates
    cachedNow: Reading,               // the reading that tests a cached decision
    lifeNow: Reading,                 // the readings that fix the elapsed lifetime
    delivered: bool)                  // whether sendto succeeded

  function Replied(s: State, fp: Fingerprint, response: Bytes): State {
    s.(history := s.history.(replies := s.history.replies + {(fp, response)}))
  }

  function Receive(s: State, a: Arrival): State {
    if !Current(s, a.listener) then s else
    var sender := ByAddress(s.senders, a.address);
    if sender.None? || a.verified.None? || a.safeWall < s.highWater then s else
    var fp := Fingerprint(a.address, a.port, a.verified.value);
    if !InWindow(a.windowWall, fp) || sender.value.id !in s.generations then s else
    var generation := s.generations[sender.value.id].token;
    if fp in s.cache then
      var cached := s.cache[fp];
      if cached.generation != generation || PastLife(cached.expiresWall, cached.expiresElapsed, a.cachedNow)
         || cached.response.None? || !a.delivered then s
      else Replied(s, fp, cached.response.value)
    else if fp in s.pending || |s.cache.Keys + s.pending.Keys| >= CAPACITY then s
    else
      s.(pending := s.pending[fp := Pending(
           sender.value.id, generation, s.epoch, a.listener, Expiry(fp),
           a.lifeNow.elapsed + Max(0.0, Expiry(fp) - a.lifeNow.wall), false)])
  }

  function Note(s: State, p: Pending, response: Option<Bytes>, disposition: Disposition): Record {
    Record(p.sender, p.generation, response, p.expiresWall, p.expiresElapsed, s.origin, disposition)
  }

  function Retirement(s: State, fp: Fingerprint, p: Pending, wall: real, after: Successor): Changes {
    Changes(if fp in s.cache then map[] else map[fp := Note(s, p, None, ExpiredReservation)], {},
            Some(Max(Max(s.highWater, wall), after(p.expiresWall))), None)
  }

  function RetireExpired(s: State, fp: Fingerprint, p: Pending, wall: real, after: Successor, outcome: Outcome): (State, bool) {
    Commit(s, Retirement(s, fp, p, wall, after), outcome)
  }

  /** The handler's `finally` clause: while closing, or after a failed retirement, the reservation is kept. */
  function Finish(s: State, fp: Fingerprint, keep: bool): State {
    if fp !in s.pending then s
    else if keep || s.phase != Running then s.(pending := s.pending[fp := s.pending[fp].(done := true)])
    else s.(pending := s.pending - {fp})
  }

  /** The pending requests a command of the engine retires with its own commit. */
  function Retirees(s: State, generations: map<nat, Generation>, all: bool): map<Fingerprint, Record> {
    map fp | fp in s.pending && fp !in s.cache &&
             (all || s.pending[fp].sender !in generations ||
              generations[s.pending[fp].sender].token != s.pending[fp].generation)
      :: Note(s, s.pending[fp], None, Retired)
  }

  datatype Answer = Answer(ack: bool, response: Bytes)

  datatype Handling = Handling(
    now: Reading, retireWall: real,
    answer: Option<Answer>,     // the plan and its encoded response; None when either raises
    stamp: nat, outcome: Outcome,
    safeWall: real, replyNow: Reading, windowWall: real, delivered: bool)

  predicate Admissible(s: State, fp: Fingerprint, p: Pending, wall: real) {
    && Current(s, p.listener)
    && ById(s.senders, p.sender).Some? && ById(s.senders, p.sender).value.signature.enabled
    && p.sender in s.generations && s.generations[p.sender].token == p.generation
    && s.epoch == p.epoch
    && wall >= s.highWater
    && InWindow(wall, fp)
  }

  /** What deciding `fp` commits: the decision, the advanced mark and, for an ACK, the engine's own bookkeeping. */
  function Verdict(s: State, fp: Fingerprint, p: Pending, answer: Answer, wall: real, stamp: nat): Changes {
    var decision := map[fp := Note(s, p, Some(answer.response), if answer.ack then Ack else Nak)];
    var high := Some(Max(s.highWater, wall));
    if answer.ack then
      var generations := NextGenerations(s.generations, s.senders, stamp);
      Changes(decision + Retirees(s, generations, false), {}, high, Some(generations))
    else Changes(decision, {}, high, None)
  }

  /** The plan of an ACK takes effect with the commit that records it, also when that commit is never confirmed. */
  function TakeEffect(s: State, fp: Fingerprint, effective: bool): State {
    if effective then s.(history := s.history.(applied := s.history.applied + multiset{fp})) else s
  }

  /** After the lock is released the response is sent, unless anything it depends on has changed meanwhile. */
  function Reply(s: State, fp: Fingerprint, p: Pending, h: Handling, response: Bytes): State {
    if Current(s, p.listener) && h.safeWall >= s.highWater && !PastLife(p.expiresWall, p.expiresElapsed, h.replyNow)
       && p.sender in s.generations && s.generations[p.sender].token == p.generation
       && InWindow(h.windowWall, fp) && h.delivered
    then Replied(s, fp, response)
    else s
  }

  function Decide(s: State, fp: Fingerprint, p: Pending, h: Handling, answer: Answer): State {
    var c := Verdict(s, fp, p, answer, h.now.wall, h.stamp);
    var (t, ok) := Commit(s, c, h.outcome);
    var u := TakeEffect(t, fp, answer.ack && Landed(s, c, h.outcome));
    if ok then Reply(u, fp, p, h, answer.response) else u
  }

  function Handle(s: State, fp: Fingerprint, h: Handling, after: Successor): State
    requires fp in s.pending
  {
    var p := s.pending[fp];
    if PastLife(p.expiresWall, p.expiresElapsed, h.now) then
      var (t, ok) := RetireExpired(s, fp, p, h.retireWall, after, h.outcome);
      Finish(t, fp, !ok)
    else if s.closed || s.fault || !Admissible(s, fp, p, h.now.wall) || fp in s.cache || h.answer.None? then
      Finish(s, fp, false)
    else
      Finish(Decide(s, fp, p, h, h.answer.value), fp, false)
  }

  datatype Visit = Visit(fp: Fingerprint, now: Reading, retireWall: real, outcome: Outcome)

  /** The first loop of `prune_dynamic`; a failed commit ends it. */
  function Visits(s: State, visits: seq<Visit>, after: Successor): (State, bool)
    decreases |visits|
  {
    if visits == [] then (s, true) else
    var v := visits[0];
    if v.fp in s.pending && s.pending[v.fp].done &&
       PastLife(s.pending[v.fp].expiresWall, s.pending[v.fp].expiresElapsed, v.now)
    then
      var (t, ok) := RetireExpired(s, v.fp, s.pending[v.fp], v.retireWall, after, v.outcome);
      if ok then Visits(t.(pending := t.pending - {v.fp}), visits[1..], after) else (t, false)
    else Visits(s, visits[1..], after)
  }

  /** One cached decision, in the order the dictionary is walked, with the reading it is tested with. */
  datatype Test = Test(fp: Fingerprint, now: Reading)

  datatype Pruning = Pruning(
    firstWall: real, visits: seq<Visit>, secondWall: real,
    tests: seq<Test>, wall: real, outcome: Outcome)

  function Outlived(cache: map<Fingerprint, Record>, tests: seq<Test>): seq<Fingerprint> {
    if tests == [] then [] else
    var last := |tests| - 1;
    var t := tests[last];
    Outlived(cache, tests[..last]) +
    if t.fp in cache && PastLife(cache[t.fp].expiresWall, cache[t.fp].expiresElapsed, t.now) then [t.fp] else []
  }

  /** The greatest of `base` and of a value strictly above the wall expiry of each decision in `gone`. */
  function Above(base: real, cache: map<Fingerprint, Record>, gone: seq<Fingerprint>, after: Successor): (high: real)
    ensures base <= high
    ensures forall fp :: fp in gone && fp in cache ==> high > cache[fp].expiresWall
  {
    if gone == [] then base else
    var last := |gone| - 1;
    var rest := Above(base, cache, gone[..last], after);
    if gone[last] in cache then Max(rest, after(cache[gone[last]].expiresWall)) else rest
  }

  lemma AboveMore(base: real, cache: map<Fingerprint, Record>, gone: seq<Fingerprint>, fp: Fingerprint, after: Successor)
    requires fp in cache
    ensures Above(base, cache, gone + [fp], after) == Max(Above(base, cache, gone, after), after(cache[fp].expiresWall))
  {
    assert (gone + [fp])[..|gone|] == gone;
  }

  function Deletion(s: State, gone: seq<Fingerprint>, wall: real, after: Successor): Changes {
    Changes(map[], (set fp | fp in gone), Some(Above(Max(s.highWater, wall), s.cache, gone, after)), None)
  }

  function Prune(s: State, p: Pruning, after: Successor): State {
    if s.fault || p.firstWall < s.highWater then s else
    var (t, ok) := Visits(s, p.visits, after);
    if !ok || p.secondWall < t.highWater then t else
    var gone := Outlived(t.cache, p.tests);
    if gone == [] then t else
    Commit(t, Deletion(t, gone, p.wall, after), p.outcome).0
  }

  /** Any other command of the engine: it may edit senders and the binding, reboot, or announce a shutdown. */
  datatype Command = Command(senders: seq<Sender>, binding: nat, epoch: nat, retireAll: bool, stamp: nat, outcome: Outcome)

  function Execute(s: State, c: Command): State {
    var generations := NextGenerations(s.generations, c.senders, c.stamp);
    var (t, ok) := Commit(s, Changes(Retirees(s, generations, c.retireAll), {}, None, Some(generations)), c.outcome);
    if ok then t.(senders := c.senders, binding := c.binding, epoch := c.epoch) else t
  }

  function BeginClose(s: State): State {
    if s.phase == Running then s.(phase := Closing) else s
  }

  function Undecided(s: State): map<Fingerprint, Record> {
    map fp | fp in s.pending && fp !in s.cache :: Note(s, s.pending[fp], None, Retired)
  }

  /** The locked part of `close_dynamic`: every undecided reservation is retired, or none is. */
  function Drain(s: State, outcome: Outcome): State {
    if s.phase != Closing then s else
    if Undecided(s) == map[] then s.(phase := Drained) else
    var (t, ok) := Commit(s, Changes(Undecided(s), {}, None, None), outcome);
    if ok then t.(phase := Drained) else t
  }

  function EndClose(s: State): State {
    if s.phase == Drained then s.(listener := None, pending := map[]) else s
  }

  datatype Boot = Boot(now: Reading, origin: nat, senders: seq<Sender>, binding: nat, epoch: nat, stamp: nat)

  function Rebased(r: Record, b: Boot): Record {
    if r.origin == b.origin then r
    else r.(expiresElapsed := b.now.elapsed + Max(0.0, r.expiresWall - b.now.wall), origin := b.origin)
  }

  function Reloaded(decisions: map<Fingerprint, Record>, b: Boot): map<Fingerprint, Record> {
    map fp | fp in decisions :: Rebased(decisions[fp], b)
  }

  /** A new process over the same store, after a crash at any moment or after a shutdown. */
  function Restart(s: State, b: Boot): State {
    var generations := NextGenerations(s.store.generations, b.senders, b.stamp);
    State(s.store.(generations := generations),
          Reloaded(s.store.decisions, b),
          s.store.highWater, generations, map[],
          b.senders, b.binding, None, b.epoch, b.origin, Running, false, false, s.history)
  }

  datatype Step =
    | Receiving(arrival: Arrival)
    | Deciding(fp: Fingerprint, handling: Handling)
    | Pruned(pruning: Pruning)
    | Commanded(command: Command)
    | Rebound(listener: Option<Listener>)
    | Closed
    | Draining(outcome: Outcome)
    | Released
    | Shut
    | Restarted(boot: Boot)

  function Next(s: State, step: Step, after: Successor): State {
    match step
    case Receiving(a) => Receive(s, a)
    case Deciding(fp, h) => if fp in s.pending && !s.pending[fp].done then Handle(s, fp, h, after) else s
    case Pruned(p) => Prune(s, p, after)
    case Commanded(c) => Execute(s, c)
    case Rebound(l) => s.(listener := l)
    case Closed => BeginClose(s)
    case Draining(o) => Drain(s, o)
    case Released => EndClose(s)
    case Shut => s.(closed := true)
    case Restarted(b) => Restart(s, b)
  }

  function Run(s: State, steps: seq<Step>, after: Successor): State
    decreases |steps|
  {
    if steps == [] then s else Run(Next(s, steps[0], after), steps[1..], after)
  }

  /** An engine over an empty store. */
  predicate Fresh(s: State) {
    && s.store.decisions == map[] && s.cache == map[] && s.pending == map[]
    && s.store.highWater == s.highWater == 0.0
    && s.phase == Running && !s.closed && !s.fault
    && s.history == History(multiset{}, {}, map[], {})
  }

  // ---------------------------------------------------------------------------------------------
  // What every step keeps
  // ---------------------------------------------------------------------------------------------

  /** Every decision ever written is still stored, or no admissible wall clock reads its window again. */
  ghost predicate Remembered(decided: set<Fingerprint>, st: Store) {
    forall fp :: fp in decided ==> fp in st.decisions || st.highWater > Expiry(fp)
  }

  ghost predicate Dated(decisions: map<Fingerprint, Record>) {
    forall fp :: fp in decisions ==> decisions[fp].expiresWall == Expiry(fp)
  }

  ghost predicate Consistent(h: History) {
    && (forall fp :: h.applied[fp] <= 1)
    && (forall fp :: fp in h.applied ==> fp in h.answers)
    && (forall fp :: fp in h.answers ==> fp in h.decided)
    && (forall fp, r :: (fp, r) in h.replies ==> fp in h.answers && h.answers[fp] == r)
  }

  /** Everything in the store is known to the history, with the response it was first given. */
  ghost predicate Explained(decisions: map<Fingerprint, Record>, h: History) {
    && decisions.Keys <= h.decided
    && forall fp :: fp in decisions && decisions[fp].response.Some? ==>
         fp in h.answers && h.answers[fp] == decisions[fp].response.value
  }

  ghost predicate Durable(st: Store, h: History) {
    && Remembered(h.decided, st)
    && Dated(st.decisions)
    && Consistent(h)
    && Explained(st.decisions, h)
    && |st.decisions.Keys| <= CAPACITY
  }

  /** Memory and store hold the same decisions under the same tokens; a restart may have moved the elapsed lifetimes. */
  ghost predicate Mirrors(cache: map<Fingerprint, Record>, decisions: map<Fingerprint, Record>) {
    && cache.Keys == decisions.Keys
    && forall fp :: fp in cache ==>
         && cache[fp].response == decisions[fp].response && cache[fp].expiresWall == decisions[fp].expiresWall
         && cache[fp].generation == decisions[fp].generation
  }

  ghost predicate Reserved(cache: map<Fingerprint, Record>, pending: map<Fingerprint, Pending>) {
    && Timely(pending)
    && |cache.Keys + pending.Keys| <= CAPACITY
  }

  /** Each sender's generation carries its present signature. */
  ghost predicate InStep(senders: seq<Sender>, generations: map<nat, Generation>) {
    forall i :: 0 <= i < |senders| ==>
      senders[i].id in generations && generations[senders[i].id].signature == senders[i].signature
  }

  ghost predicate Distinct(senders: seq<Sender>) {
    forall i, j :: 0 <= i < j < |senders| ==> senders[i].id != senders[j].id
  }

  ghost predicate Invariant(s: State) {
    && Durable(s.store, s.history)
    && Reserved(s.cache, s.pending)
    && (!s.fault ==> Mirrors(s.cache, s.store.decisions) && s.highWater == s.store.highWater)
    && Dated(s.cache)
  }

  ghost const INVARIANT: State -> bool := s => Invariant(s)

  /** The senders' generations carry their present signatures. */
  ghost predicate Aligned(s: State) {
    Distinct(s.senders) && InStep(s.senders, s.generations)
  }

  ghost predicate FirstAnswers(put: map<Fingerprint, Record>, h: History) {
    forall fp :: fp in put && put[fp].response.Some? ==> fp !in h.decided
  }

  /** The mark a transaction leaves does not fall, and lies past every decision the transaction deletes. */
  ghost predicate Covers(high: real, highWater: real, drop: set<Fingerprint>) {
    && highWater <= high
    && forall fp :: fp in drop ==> high > Expiry(fp)
  }

  function HighAfter(highWater: real, c: Changes): real {
    if c.high.Some? then c.high.value else highWater
  }

  /**
   * What a transaction of this module may write: dated decisions about reserved requests, a mark that does not
   * fall, deletions only behind that mark, and a response only for a request that was never decided.
   */
  ghost predicate Safe(s: State, c: Changes) {
    && Covers(HighAfter(s.highWater, c), s.highWater, c.drop)
    && c.put.Keys <= s.pending.Keys
    && Dated(c.put)
    && FirstAnswers(c.put, s.history)
  }

  lemma SubsetSize<T>(a: set<T>, b: set<T>)
    requires a <= b
    ensures |a| <= |b|
  {
    assert b == a + (b - a);
  }

  lemma WrittenIsRemembered(st: Store, c: Changes, decided: set<Fingerprint>)
    requires Remembered(decided, st) && Covers(HighAfter(st.highWater, c), st.highWater, c.drop)
    ensures Remembered(decided + c.put.Keys, Written(st, c))
  {
  }

  lemma RecordedIsConsistent(h: History, put: map<Fingerprint, Record>)
    requires Consistent(h) && FirstAnswers(put, h)
    ensures Consistent(Recorded(h, put))
  {
    var g := Recorded(h, put);
    forall fp, r | (fp, r) in g.replies ensures fp in g.answers && g.answers[fp] == r {
      assert (fp, r) in h.replies;
      assert fp in h.decided;
    }
  }

  lemma WrittenIsExplained(decisions: map<Fingerprint, Record>, c: Changes, h: History)
    requires Explained(decisions, h) && FirstAnswers(c.put, h)
    requires forall fp :: fp in h.answers ==> fp in h.decided
    ensures Explained(Decisions(decisions, c), Recorded(h, c.put))
  {
    var d, g := Decisions(decisions, c), Recorded(h, c.put);
    forall fp | fp in d ensures fp in g.decided {
      if fp !in c.put { assert fp in decisions.Keys; }
    }
    forall fp | fp in d && d[fp].response.Some?
      ensures fp in g.answers && g.answers[fp] == d[fp].response.value
    {
      if fp !in c.put { assert fp in decisions; }
    }
  }

  lemma WrittenIsBounded(decisions: map<Fingerprint, Record>, pending: map<Fingerprint, Pending>, c: Changes)
    requires c.put.Keys <= pending.Keys && |decisions.Keys + pending.Keys| <= CAPACITY
    ensures |Decisions(decisions, c).Keys| <= CAPACITY
    ensures |Decisions(decisions, c).Keys + pending.Keys| <= CAPACITY
  {
    var reserved := decisions.Keys + pending.Keys;
    var left := Decisions(decisions, c).Keys;
    assert left <= decisions.Keys + c.put.Keys;
    SubsetSize(left, reserved);
    SubsetSize(left + pending.Keys, reserved);
  }

  lemma WrittenIsMirrored(cache: map<Fingerprint, Record>, decisions: map<Fingerprint, Record>, c: Changes)
    requires Mirrors(cache, decisions)
    ensures Mirrors(Decisions(cache, c), Decisions(decisions, c))
  {
    var m, d := Decisions(cache, c), Decisions(decisions, c);
    forall fp | fp in m
      ensures fp in d && m[fp].response == d[fp].response && m[fp].expiresWall == d[fp].expiresWall
              && m[fp].generation == d[fp].generation
    {
      if fp !in c.put { assert fp in cache; }
    }
    forall fp | fp in d ensures fp in m {
      if fp !in c.put { assert fp in cache.Keys; }
    }
  }

  lemma WrittenIsDurable(s: State, c: Changes)
    requires Invariant(s) && Safe(s, c) && !s.fault
    ensures Durable(Written(s.store, c), Recorded(s.history, c.put))
  {
    WrittenIsRemembered(s.store, c, s.history.decided);
    RecordedIsConsistent(s.history, c.put);
    WrittenIsExplained(s.store.decisions, c, s.history);
    WrittenIsBounded(s.store.decisions, s.pending, c);
  }

  lemma WrittenIsDated(decisions: map<Fingerprint, Record>, c: Changes)
    requires Dated(decisions) && Dated(c.put)
    ensures Dated(Decisions(decisions, c))
  {
  }

  lemma PublishedKeeps(s: State, c: Changes)
    requires Invariant(s) && Safe(s, c) && !s.fault
    ensures Invariant(Published(s, c)) && Invariant(Unconfirmed(s, c))
  {
    WrittenIsDurable(s, c);
    WrittenIsBounded(s.cache, s.pending, c);
    WrittenIsMirrored(s.cache, s.store.decisions, c);
    WrittenIsDated(s.cache, c);
  }

  lemma CommitKeeps(s: State, c: Changes, outcome: Outcome)
    requires INVARIANT(s) && Safe(s, c)
    ensures INVARIANT(Commit(s, c, outcome).0)
  {
    if Landed(s, c, outcome) { PublishedKeeps(s, c); }
  }

  ghost predicate Timely(pending: map<Fingerprint, Pending>) {
    forall fp :: fp in pending ==> pending[fp].expiresWall == Expiry(fp)
  }

  lemma FewerReserved(cache: map<Fingerprint, Record>, pending: map<Fingerprint, Pending>, fewer: map<Fingerprint, Pending>)
    requires Reserved(cache, pending) && fewer.Keys <= pending.Keys && Timely(fewer)
    ensures Reserved(cache, fewer)
  {
    SubsetSize(cache.Keys + fewer.Keys, cache.Keys + pending.Keys);
  }

  lemma OneMoreKey<K, V>(s: set<K>, m: map<K, V>, k: K, v: V)
    ensures |s + m[k := v].Keys| <= |s + m.Keys| + 1
  {
    assert s + m[k := v].Keys == (s + m.Keys) + {k};
  }

  lemma OneMoreReserved(cache: map<Fingerprint, Record>, pending: map<Fingerprint, Pending>, fp: Fingerprint, p: Pending)
    requires Timely(pending) && p.expiresWall == Expiry(fp)
    requires |cache.Keys + pending.Keys| < CAPACITY
    ensures Reserved(cache, pending[fp := p])
  {
    OneMoreKey(cache.Keys, pending, fp, p);
  }

  lemma StillTimely(pending: map<Fingerprint, Pending>, fp: Fingerprint, p: Pending)
    requires Timely(pending) && fp in pending && p.expiresWall == pending[fp].expiresWall
    ensures Timely(pending[fp := p]) && pending[fp := p].Keys == pending.Keys
    ensures Timely(pending - {fp}) && (pending - {fp}).Keys <= pending.Keys
  {
  }

  lemma FinishReserves(s: State, fp: Fingerprint, keep: bool)
    requires Reserved(s.cache, s.pending)
    ensures Reserved(s.cache, Finish(s, fp, keep).pending)
  {
    if fp in s.pending {
      StillTimely(s.pending, fp, s.pending[fp].(done := true));
      FewerReserved(s.cache, s.pending, Finish(s, fp, keep).pending);
    }
  }

  lemma ReservationsKeep(s: State, t: State)
    requires INVARIANT(s) && Reserved(s.cache, t.pending) && t == s.(pending := t.pending)
    ensures INVARIANT(t)
  {
  }

  lemma FinishFrame(s: State, fp: Fingerprint, keep: bool)
    ensures Finish(s, fp, keep) == s.(pending := Finish(s, fp, keep).pending)
  {
  }

  lemma FinishKeeps(s: State, fp: Fingerprint, keep: bool)
    requires INVARIANT(s)
    ensures INVARIANT(Finish(s, fp, keep))
  {
    FinishReserves(s, fp, keep);
    FinishFrame(s, fp, keep);
    ReservationsKeep(s, Finish(s, fp, keep));
  }

  lemma RepliedKeeps(s: State, fp: Fingerprint, response: Bytes)
    requires INVARIANT(s) && fp in s.history.answers && s.history.answers[fp] == response
    ensures INVARIANT(Replied(s, fp, response))
  {
    var h := s.history;
    var g := h.(replies := h.replies + {(fp, response)});
    assert Consistent(g);
    assert Explained(s.store.decisions, g);
  }

  lemma ReceiveKeeps(s: State, a: Arrival)
    requires INVARIANT(s)
    ensures INVARIANT(Receive(s, a)) && Receive(s, a).store == s.store
  {
    var t := Receive(s, a);
    if t != s {
      var fp := Fingerprint(a.address, a.port, a.verified.value);
      if fp in s.cache {
        assert fp in s.store.decisions;
        RepliedKeeps(s, fp, s.cache[fp].response.value);
      } else {
        OneMoreReserved(s.cache, s.pending, fp, t.pending[fp]);
      }
    }
  }

  lemma RetirementIsSafe(s: State, fp: Fingerprint, wall: real, after: Successor)
    requires Reserved(s.cache, s.pending) && fp in s.pending
    ensures Safe(s, Retirement(s, fp, s.pending[fp], wall, after))
  {
    var put := Retirement(s, fp, s.pending[fp], wall, after).put;
    assert forall g :: g in put ==> g == fp && put[g].response.None? && put[g].expiresWall == Expiry(fp);
  }

  lemma RetireExpiredKeeps(s: State, fp: Fingerprint, wall: real, after: Successor, outcome: Outcome)
    requires INVARIANT(s) && fp in s.pending
    ensures INVARIANT(RetireExpired(s, fp, s.pending[fp], wall, after, outcome).0)
  {
    RetirementIsSafe(s, fp, wall, after);
    CommitKeeps(s, Retirement(s, fp, s.pending[fp], wall, after), outcome);
  }

  /** The gate that replay safety rests on: an admissible request that is not cached was never decided. */
  lemma AdmissibleIsUndecided(s: State, fp: Fingerprint, p: Pending, wall: real)
    requires Invariant(s) && Admissible(s, fp, p, wall) && fp !in s.cache
    ensures fp !in s.history.decided
  {
    assert wall <= Expiry(fp);
    assert fp !in s.store.decisions;
  }

  lemma NextGenerationsInStep(previous: map<nat, Generation>, senders: seq<Sender>, stamp: nat)
    requires Distinct(senders)
    ensures InStep(senders, NextGenerations(previous, senders, stamp))
    ensures NextGenerations(previous, senders, stamp).Keys == set i | 0 <= i < |senders| :: senders[i].id
  {
    if senders != [] {
      var last := |senders| - 1;
      var rest := senders[..last];
      NextGenerationsInStep(previous, rest, stamp);
      var g := NextGenerations(previous, senders, stamp);
      forall i | 0 <= i < |senders| ensures senders[i].id in g && g[senders[i].id].signature == senders[i].signature {
        if i < last { assert senders[i] == rest[i]; }
      }
    }
  }

  /** A sender whose signature did not change keeps its generation. */
  lemma NextGenerationsKeep(previous: map<nat, Generation>, senders: seq<Sender>, stamp: nat, id: nat)
    requires Distinct(senders) && InStep(senders, previous)
    requires id in NextGenerations(previous, senders, stamp)
    ensures id in previous && NextGenerations(previous, senders, stamp)[id] == previous[id]
  {
    if senders != [] {
      var last := |senders| - 1;
      var rest := senders[..last];
      assert forall i :: 0 <= i < last ==> rest[i] == senders[i];
      if id != senders[last].id {
        NextGenerationsKeep(previous, rest, stamp, id);
      }
    }
  }

  lemma ByIdFinds(senders: seq<Sender>, id: nat)
    requires ById(senders, id).Some?
    ensures exists i :: 0 <= i < |senders| && senders[i].id == id
  {
    if senders[0].id != id {
      ByIdFinds(senders[1..], id);
      var i :| 0 <= i < |senders[1..]| && senders[1..][i].id == id;
      assert senders[i + 1].id == id;
    }
  }

  /** The command a handler issues leaves its own decision as it was planned. */
  lemma VerdictAnswers(s: State, fp: Fingerprint, p: Pending, answer: Answer, wall: real, stamp: nat)
    requires InStep(s.senders, s.generations) && Distinct(s.senders)
    requires Admissible(s, fp, p, wall) && fp in s.pending && s.pending[fp] == p
    ensures fp in Verdict(s, fp, p, answer, wall, stamp).put
    ensures Verdict(s, fp, p, answer, wall, stamp).put[fp].response == Some(answer.response)
  {
    var g := NextGenerations(s.generations, s.senders, stamp);
    ByIdFinds(s.senders, p.sender);
    NextGenerationsInStep(s.generations, s.senders, stamp);
    NextGenerationsKeep(s.generations, s.senders, stamp, p.sender);
    assert fp !in Retirees(s, g, false);
  }

  /** What a transaction may put: dated decisions about reserved requests, and only first responses. */
  ghost predicate Puttable(put: map<Fingerprint, Record>, reserved: set<Fingerprint>, h: History) {
    put.Keys <= reserved && Dated(put) && FirstAnswers(put, h)
  }

  lemma RetireesArePuttable(s: State, generations: map<nat, Generation>, all: bool)
    requires Timely(s.pending)
    ensures Puttable(Retirees(s, generations, all), s.pending.Keys, s.history)
  {
  }

  lemma BothPuttable(a: map<Fingerprint, Record>, b: map<Fingerprint, Record>, reserved: set<Fingerprint>, h: History)
    requires Puttable(a, reserved, h) && Puttable(b, reserved, h)
    ensures Puttable(a + b, reserved, h)
  {
    forall fp | fp in a + b
      ensures fp in reserved && (a + b)[fp].expiresWall == Expiry(fp) && ((a + b)[fp].response.Some? ==> fp !in h.decided)
    {
      if fp in b { assert (a + b)[fp] == b[fp]; } else { assert fp in a && (a + b)[fp] == a[fp]; }
    }
  }

  lemma VerdictIsSafe(s: State, fp: Fingerprint, answer: Answer, wall: real, stamp: nat)
    requires Timely(s.pending) && fp in s.pending && fp !in s.history.decided
    ensures Safe(s, Verdict(s, fp, s.pending[fp], answer, wall, stamp))
  {
    var decision := map[fp := Note(s, s.pending[fp], Some(answer.response), if answer.ack then Ack else Nak)];
    assert Puttable(decision, s.pending.Keys, s.history);
    if answer.ack {
      var g := NextGenerations(s.generations, s.senders, stamp);
      RetireesArePuttable(s, g, false);
      BothPuttable(decision, Retirees(s, g, false), s.pending.Keys, s.history);
    }
  }

  lemma TakeEffectKeeps(s: State, fp: Fingerprint, effective: bool)
    requires INVARIANT(s) && fp in s.history.answers && fp !in s.history.applied
    ensures INVARIANT(TakeEffect(s, fp, effective)) && TakeEffect(s, fp, effective).history.answers == s.history.answers
  {
    var g := s.history.(applied := s.history.applied + multiset{fp});
    assert Consistent(g);
    assert Explained(s.store.decisions, g);
  }

  lemma ReplyKeeps(s: State, fp: Fingerprint, p: Pending, h: Handling, response: Bytes)
    requires INVARIANT(s) && fp in s.history.answers && s.history.answers[fp] == response
    ensures INVARIANT(Reply(s, fp, p, h, response))
  {
    RepliedKeeps(s, fp, response);
  }

  lemma CommitConfirms(s: State, c: Changes, outcome: Outcome)
    requires Commit(s, c, outcome).1
    ensures !s.fault && Commit(s, c, outcome).0 == Published(s, c)
  {
  }

  /** A verdict that reaches the disk is the first decision on its request: it may now take effect, once. */
  lemma LandedVerdict(s: State, fp: Fingerprint, answer: Answer, wall: real, stamp: nat, outcome: Outcome)
    requires Invariant(s) && Aligned(s)
    requires fp in s.pending && Admissible(s, fp, s.pending[fp], wall) && fp !in s.cache
    requires Landed(s, Verdict(s, fp, s.pending[fp], answer, wall, stamp), outcome)
    ensures var t := Commit(s, Verdict(s, fp, s.pending[fp], answer, wall, stamp), outcome).0;
            INVARIANT(t) && fp !in t.history.applied
            && fp in t.history.answers && t.history.answers[fp] == answer.response
  {
    AdmissibleIsUndecided(s, fp, s.pending[fp], wall);
    VerdictIsSafe(s, fp, answer, wall, stamp);
    VerdictAnswers(s, fp, s.pending[fp], answer, wall, stamp);
    PublishedKeeps(s, Verdict(s, fp, s.pending[fp], answer, wall, stamp));
  }

  lemma DecideKeeps(s: State, fp: Fingerprint, h: Handling, answer: Answer)
    requires Invariant(s) && Aligned(s)
    requires fp in s.pending && Admissible(s, fp, s.pending[fp], h.now.wall) && fp !in s.cache
    ensures INVARIANT(Decide(s, fp, s.pending[fp], h, answer))
  {
    var p := s.pending[fp];
    var c := Verdict(s, fp, p, answer, h.now.wall, h.stamp);
    var (t, ok) := Commit(s, c, h.outcome);
    if Landed(s, c, h.outcome) {
      LandedVerdict(s, fp, answer, h.now.wall, h.stamp, h.outcome);
      TakeEffectKeeps(t, fp, answer.ack);
      if ok { ReplyKeeps(TakeEffect(t, fp, answer.ack), fp, p, h, answer.response); }
    } else {
      AdmissibleIsUndecided(s, fp, p, h.now.wall);
      VerdictIsSafe(s, fp, answer, h.now.wall, h.stamp);
      CommitKeeps(s, c, h.outcome);
    }
  }

  lemma HandleKeeps(s: State, fp: Fingerprint, h: Handling, after: Successor)
    requires INVARIANT(s) && Aligned(s) && fp in s.pending
    ensures INVARIANT(Handle(s, fp, h, after))
  {
    var p := s.pending[fp];
    if PastLife(p.expiresWall, p.expiresElapsed, h.now) {
      var (t, ok) := RetireExpired(s, fp, p, h.retireWall, after, h.outcome);
      RetireExpiredKeeps(s, fp, h.retireWall, after, h.outcome);
      FinishKeeps(t, fp, !ok);
    } else if s.closed || s.fault || !Admissible(s, fp, p, h.now.wall) || fp in s.cache || h.answer.None? {
      FinishKeeps(s, fp, false);
    } else {
      DecideKeeps(s, fp, h, h.answer.value);
      FinishKeeps(Decide(s, fp, p, h, h.answer.value), fp, false);
    }
  }

  lemma VisitsKeep(s: State, visits: seq<Visit>, after: Successor)
    requires INVARIANT(s)
    ensures INVARIANT(Visits(s, visits, after).0)
    decreases |visits|
  {
    if visits != [] {
      var v := visits[0];
      if v.fp in s.pending && s.pending[v.fp].done &&
         PastLife(s.pending[v.fp].expiresWall, s.pending[v.fp].expiresElapsed, v.now)
      {
        RetireExpiredKeeps(s, v.fp, v.retireWall, after, v.outcome);
        var (t, ok) := RetireExpired(s, v.fp, s.pending[v.fp], v.retireWall, after, v.outcome);
        if ok {
          var u := t.(pending := t.pending - {v.fp});
          FewerReserved(t.cache, t.pending, u.pending);
          ReservationsKeep(t, u);
          VisitsKeep(u, visits[1..], after);
        }
      } else {
        VisitsKeep(s, visits[1..], after);
      }
    }
  }

  lemma OutlivedAreCached(cache: map<Fingerprint, Record>, tests: seq<Test>)
    ensures forall fp :: fp in Outlived(cache, tests) ==> fp in cache
  {
  }

  lemma DeletionIsSafe(s: State, gone: seq<Fingerprint>, wall: real, after: Successor)
    requires Dated(s.cache) && forall fp :: fp in gone ==> fp in s.cache
    ensures Safe(s, Deletion(s, gone, wall, after))
  {
    var high := Above(Max(s.highWater, wall), s.cache, gone, after);
    forall fp | fp in gone ensures high > Expiry(fp) {
      assert s.cache[fp].expiresWall == Expiry(fp);
    }
  }

  lemma PruneKeeps(s: State, p: Pruning, after: Successor)
    requires INVARIANT(s)
    ensures INVARIANT(Prune(s, p, after))
  {
    VisitsKeep(s, p.visits, after);
    var t := Visits(s, p.visits, after).0;
    var gone := Outlived(t.cache, p.tests);
    OutlivedAreCached(t.cache, p.tests);
    DeletionIsSafe(t, gone, p.wall, after);
    CommitKeeps(t, Deletion(t, gone, p.wall, after), p.outcome);
  }

  lemma ExecuteKeeps(s: State, c: Command)
    requires INVARIANT(s)
    ensures INVARIANT(Execute(s, c))
  {
    var generations := NextGenerations(s.generations, c.senders, c.stamp);
    RetireesArePuttable(s, generations, c.retireAll);
    var changes := Changes(Retirees(s, generations, c.retireAll), {}, None, Some(generations));
    CommitKeeps(s, changes, c.outcome);
    FrameKeeps(Commit(s, changes, c.outcome).0, Execute(s, c));
  }

  lemma UndecidedAreSafe(s: State)
    requires Timely(s.pending)
    ensures Safe(s, Changes(Undecided(s), {}, None, None))
  {
  }

  /** The invariant reads only what is stored, cached and reserved. */
  lemma FrameKeeps(s: State, t: State)
    requires INVARIANT(s)
    requires (t.store, t.cache, t.highWater) == (s.store, s.cache, s.highWater)
    requires (t.pending, t.fault, t.history) == (s.pending, s.fault, s.history)
    ensures INVARIANT(t)
  {
  }

  /** What every outcome of a draining meets, draining meets. */
  lemma DrainCases(s: State, outcome: Outcome, inv: State -> bool)
    requires inv(s) && inv(s.(phase := Drained))
    requires var t := Commit(s, Changes(Undecided(s), {}, None, None), outcome).0; inv(t) && inv(t.(phase := Drained))
    ensures inv(Drain(s, outcome))
  {
  }

  lemma DrainKeeps(s: State, outcome: Outcome)
    requires INVARIANT(s)
    ensures INVARIANT(Drain(s, outcome))
  {
    var c := Changes(Undecided(s), {}, None, None);
    UndecidedAreSafe(s);
    CommitKeeps(s, c, outcome);
    FrameKeeps(s, s.(phase := Drained));
    FrameKeeps(Commit(s, c, outcome).0, Commit(s, c, outcome).0.(phase := Drained));
    DrainCases(s, outcome, INVARIANT);
  }

  lemma EndCloseKeeps(s: State)
    requires INVARIANT(s)
    ensures INVARIANT(EndClose(s))
  {
    FewerReserved(s.cache, s.pending, map[]);
  }

  lemma ReloadedMirrors(decisions: map<Fingerprint, Record>, b: Boot)
    requires Dated(decisions) && |decisions.Keys| <= CAPACITY
    ensures Mirrors(Reloaded(decisions, b), decisions)
    ensures Dated(Reloaded(decisions, b)) && Reserved(Reloaded(decisions, b), map[])
  {
    var none: map<Fingerprint, Pending> := map[];
    assert Reloaded(decisions, b).Keys == decisions.Keys;
    assert decisions.Keys + none.Keys == decisions.Keys;
  }

  lemma SameStore(a: Store, b: Store, h: History)
    requires Durable(a, h) && b == a.(generations := b.generations)
    ensures Durable(b, h)
  {
  }

  lemma RestartKeeps(s: State, b: Boot)
    requires INVARIANT(s)
    ensures INVARIANT(Restart(s, b))
  {
    ReloadedMirrors(s.store.decisions, b);
    SameStore(s.store, Restart(s, b).store, s.history);
  }

  /** The engine validates its configuration: sender ids are distinct. */
  ghost predicate Sensible(step: Step) {
    && (step.Commanded? ==> Distinct(step.command.senders))
    && (step.Restarted? ==> Distinct(step.boot.senders))
  }

  lemma MessageKeeps(s: State, step: Step, after: Successor)
    requires INVARIANT(s) && Aligned(s) && (step.Receiving? || step.Deciding? || step.Pruned?)
    ensures INVARIANT(Next(s, step, after))
  {
    match step
    case Receiving(a) => ReceiveKeeps(s, a);
    case Deciding(fp, h) => if fp in s.pending { HandleKeeps(s, fp, h, after); }
    case Pruned(p) => PruneKeeps(s, p, after);
  }

  lemma ClosingKeeps(s: State, step: Step, after: Successor)
    requires INVARIANT(s) && (step.Closed? || step.Draining? || step.Released?)
    ensures INVARIANT(Next(s, step, after))
  {
    match step
    case Closed => FrameKeeps(s, BeginClose(s));
    case Draining(o) => DrainKeeps(s, o);
    case Released => EndCloseKeeps(s);
  }

  lemma ControlKeeps(s: State, step: Step, after: Successor)
    requires INVARIANT(s) && (step.Rebound? || step.Shut? || step.Commanded? || step.Restarted?)
    ensures INVARIANT(Next(s, step, after))
  {
    match step
    case Rebound(l) => FrameKeeps(s, s.(listener := l));
    case Shut => FrameKeeps(s, s.(closed := true));
    case Commanded(c) => ExecuteKeeps(s, c);
    case Restarted(b) => RestartKeeps(s, b);
  }

  lemma StepKeeps(s: State, step: Step, after: Successor)
    requires INVARIANT(s) && Aligned(s)
    ensures INVARIANT(Next(s, step, after))
  {
    if step.Receiving? || step.Deciding? || step.Pruned? {
      MessageKeeps(s, step, after);
    } else if step.Closed? || step.Draining? || step.Released? {
      ClosingKeeps(s, step, after);
    } else {
      ControlKeeps(s, step, after);
    }
  }

  // ---------------------------------------------------------------------------------------------
  // Stored decisions are only added, and deleted behind the mark
  // ---------------------------------------------------------------------------------------------

  ghost predicate Extends(st: Store, t: Store) {
    && st.highWater <= t.highWater
    && forall fp :: fp in st.decisions ==> fp in t.decisions && t.decisions[fp] == st.decisions[fp]
  }

  /** No stored decision is replaced, and the mark does not fall. */
  ghost predicate Follows(st: Store, t: Store) {
    && st.highWater <= t.highWater
    && forall fp :: fp in st.decisions && fp in t.decisions ==> t.decisions[fp] == st.decisions[fp]
  }

  ghost predicate SameMark(s: State) {
    !s.fault ==> s.highWater == s.store.highWater
  }

  lemma CommitExtends(s: State, c: Changes, outcome: Outcome)
    requires SameMark(s) && s.highWater <= HighAfter(s.highWater, c) && c.drop == {}
    ensures Extends(s.store, Commit(s, c, outcome).0.store) && SameMark(Commit(s, c, outcome).0)
  {
  }

  lemma DeletionFollows(s: State, c: Changes, outcome: Outcome)
    requires SameMark(s) && s.highWater <= HighAfter(s.highWater, c) && c.put == map[]
    ensures Follows(s.store, Commit(s, c, outcome).0.store)
  {
  }

  lemma VisitsExtend(s: State, visits: seq<Visit>, after: Successor)
    requires SameMark(s)
    ensures Extends(s.store, Visits(s, visits, after).0.store) && SameMark(Visits(s, visits, after).0)
    decreases |visits|
  {
    if visits != [] {
      var v := visits[0];
      if v.fp in s.pending && s.pending[v.fp].done &&
         PastLife(s.pending[v.fp].expiresWall, s.pending[v.fp].expiresElapsed, v.now)
      {
        CommitExtends(s, Retirement(s, v.fp, s.pending[v.fp], v.retireWall, after), v.outcome);
        var (t, ok) := RetireExpired(s, v.fp, s.pending[v.fp], v.retireWall, after, v.outcome);
        if ok {
          VisitsExtend(t.(pending := t.pending - {v.fp}), visits[1..], after);
        }
      } else {
        VisitsExtend(s, visits[1..], after);
      }
    }
  }

  lemma PruneFollows(s: State, p: Pruning, after: Successor)
    requires SameMark(s)
    ensures Follows(s.store, Prune(s, p, after).store)
  {
    VisitsExtend(s, p.visits, after);
    var t := Visits(s, p.visits, after).0;
    DeletionFollows(t, Deletion(t, Outlived(t.cache, p.tests), p.wall, after), p.outcome);
  }

  lemma DecideExtends(s: State, fp: Fingerprint, p: Pending, h: Handling, answer: Answer)
    requires SameMark(s)
    ensures Extends(s.store, Decide(s, fp, p, h, answer).store)
  {
    CommitExtends(s, Verdict(s, fp, p, answer, h.now.wall, h.stamp), h.outcome);
    var t := Commit(s, Verdict(s, fp, p, answer, h.now.wall, h.stamp), h.outcome).0;
    assert Decide(s, fp, p, h, answer).store == t.store;
  }

  lemma HandleExtends(s: State, fp: Fingerprint, h: Handling, after: Successor)
    requires SameMark(s) && fp in s.pending
    ensures Extends(s.store, Handle(s, fp, h, after).store)
  {
    var p := s.pending[fp];
    if PastLife(p.expiresWall, p.expiresElapsed, h.now) {
      var (t, ok) := RetireExpired(s, fp, p, h.retireWall, after, h.outcome);
      CommitExtends(s, Retirement(s, fp, p, h.retireWall, after), h.outcome);
      FinishFrame(t, fp, !ok);
    } else if s.closed || s.fault || !Admissible(s, fp, p, h.now.wall) || fp in s.cache || h.answer.None? {
      FinishFrame(s, fp, false);
    } else {
      DecideExtends(s, fp, p, h, h.answer.value);
      FinishFrame(Decide(s, fp, p, h, h.answer.value), fp, false);
    }
  }

  lemma ExecuteExtends(s: State, c: Command)
    requires SameMark(s)
    ensures Extends(s.store, Execute(s, c).store)
  {
    var generations := NextGenerations(s.generations, c.senders, c.stamp);
    CommitExtends(s, Changes(Retirees(s, generations, c.retireAll), {}, None, Some(generations)), c.outcome);
  }

  lemma DrainExtends(s: State, outcome: Outcome)
    requires SameMark(s)
    ensures Extends(s.store, Drain(s, outcome).store)
  {
    CommitExtends(s, Changes(Undecided(s), {}, None, None), outcome);
  }

  lemma StepFollows(s: State, step: Step, after: Successor)
    requires SameMark(s)
    ensures Follows(s.store, Next(s, step, after).store)
  {
    match step
    case Receiving(_) =>
    case Deciding(fp, h) => if fp in s.pending { HandleExtends(s, fp, h, after); }
    case Pruned(p) => PruneFollows(s, p, after);
    case Commanded(c) => ExecuteExtends(s, c);
    case Rebound(_) =>
    case Closed =>
    case Draining(o) => DrainExtends(s, o);
    case Released =>
    case Shut =>
    case Restarted(_) =>
  }

  // ---------------------------------------------------------------------------------------------
  // The senders and their generations
  // ---------------------------------------------------------------------------------------------

  lemma CommitAligns(s: State, c: Changes, outcome: Outcome)
    requires Aligned(s) && (c.generations.Some? ==> InStep(s.senders, c.generations.value))
    ensures Aligned(Commit(s, c, outcome).0)
  {
  }

  lemma VisitsAlign(s: State, visits: seq<Visit>, after: Successor)
    requires Aligned(s)
    ensures Aligned(Visits(s, visits, after).0)
    decreases |visits|
  {
    if visits != [] {
      var v := visits[0];
      if v.fp in s.pending && s.pending[v.fp].done &&
         PastLife(s.pending[v.fp].expiresWall, s.pending[v.fp].expiresElapsed, v.now)
      {
        var (t, ok) := RetireExpired(s, v.fp, s.pending[v.fp], v.retireWall, after, v.outcome);
        CommitAligns(s, Retirement(s, v.fp, s.pending[v.fp], v.retireWall, after), v.outcome);
        if ok {
          VisitsAlign(t.(pending := t.pending - {v.fp}), visits[1..], after);
        }
      } else {
        VisitsAlign(s, visits[1..], after);
      }
    }
  }

  lemma SameSenders(s: State, t: State)
    requires Aligned(s) && t.senders == s.senders && t.generations == s.generations
    ensures Aligned(t)
  {
  }

  lemma DecideFrame(s: State, fp: Fingerprint, p: Pending, h: Handling, answer: Answer)
    ensures var t := Commit(s, Verdict(s, fp, p, answer, h.now.wall, h.stamp), h.outcome).0;
            Decide(s, fp, p, h, answer) == t.(history := Decide(s, fp, p, h, answer).history)
  {
  }

  lemma DecideAligns(s: State, fp: Fingerprint, p: Pending, h: Handling, answer: Answer)
    requires Aligned(s)
    ensures Aligned(Decide(s, fp, p, h, answer))
  {
    NextGenerationsInStep(s.generations, s.senders, h.stamp);
    CommitAligns(s, Verdict(s, fp, p, answer, h.now.wall, h.stamp), h.outcome);
    DecideFrame(s, fp, p, h, answer);
    SameSenders(Commit(s, Verdict(s, fp, p, answer, h.now.wall, h.stamp), h.outcome).0, Decide(s, fp, p, h, answer));
  }

  lemma HandleAligns(s: State, fp: Fingerprint, h: Handling, after: Successor)
    requires Aligned(s) && fp in s.pending
    ensures Aligned(Handle(s, fp, h, after))
  {
    var p := s.pending[fp];
    if PastLife(p.expiresWall, p.expiresElapsed, h.now) {
      var (t, ok) := RetireExpired(s, fp, p, h.retireWall, after, h.outcome);
      CommitAligns(s, Retirement(s, fp, p, h.retireWall, after), h.outcome);
      FinishFrame(t, fp, !ok);
      SameSenders(t, Finish(t, fp, !ok));
    } else if s.closed || s.fault || !Admissible(s, fp, p, h.now.wall) || fp in s.cache || h.answer.None? {
      FinishFrame(s, fp, false);
      SameSenders(s, Finish(s, fp, false));
    } else {
      var t := Decide(s, fp, p, h, h.answer.value);
      DecideAligns(s, fp, p, h, h.answer.value);
      FinishFrame(t, fp, false);
      SameSenders(t, Finish(t, fp, false));
    }
  }

  lemma ReceiveAligns(s: State, a: Arrival)
    requires Aligned(s)
    ensures Aligned(Receive(s, a))
  {
    SameSenders(s, Receive(s, a));
  }

  lemma PruneAligns(s: State, p: Pruning, after: Successor)
    requires Aligned(s)
    ensures Aligned(Prune(s, p, after))
  {
    VisitsAlign(s, p.visits, after);
    var t := Visits(s, p.visits, after).0;
    CommitAligns(t, Deletion(t, Outlived(t.cache, p.tests), p.wall, after), p.outcome);
  }

  lemma DrainAligns(s: State, outcome: Outcome)
    requires Aligned(s)
    ensures Aligned(Drain(s, outcome))
  {
    SameSenders(s, Drain(s, outcome));
  }

  lemma ExecuteAligns(s: State, c: Command)
    requires Aligned(s) && Distinct(c.senders)
    ensures Aligned(Execute(s, c))
  {
    var generations := NextGenerations(s.generations, c.senders, c.stamp);
    NextGenerationsInStep(s.generations, c.senders, c.stamp);
    var changes := Changes(Retirees(s, generations, c.retireAll), {}, None, Some(generations));
    if Commit(s, changes, c.outcome).1 {
      CommitConfirms(s, changes, c.outcome);
    } else {
      SameSenders(s, Execute(s, c));
    }
  }

  lemma StepAligns(s: State, step: Step, after: Successor)
    requires Aligned(s) && Sensible(step)
    ensures Aligned(Next(s, step, after))
  {
    match step
    case Receiving(a) => ReceiveAligns(s, a);
    case Deciding(fp, h) => if fp in s.pending { HandleAligns(s, fp, h, after); }
    case Pruned(p) => PruneAligns(s, p, after);
    case Commanded(c) => ExecuteAligns(s, c);
    case Rebound(_) =>
    case Closed =>
    case Draining(o) => DrainAligns(s, o);
    case Released =>
    case Shut =>
    case Restarted(b) => NextGenerationsInStep(s.store.generations, b.senders, b.stamp);
  }

  // ---------------------------------------------------------------------------------------------
  // Every run
  // ---------------------------------------------------------------------------------------------

  lemma {:induction false} RunKeeps(s: State, steps: seq<Step>, after: Successor)
    requires INVARIANT(s) && Aligned(s) && forall i :: 0 <= i < |steps| ==> Sensible(steps[i])
    ensures INVARIANT(Run(s, steps, after)) && Aligned(Run(s, steps, after))
    ensures s.store.highWater <= Run(s, steps, after).store.highWater
    decreases |steps|
  {
    if steps != [] {
      StepKeeps(s, steps[0], after);
      StepAligns(s, steps[0], after);
      StepFollows(s, steps[0], after);
      RunKeeps(Next(s, steps[0], after), steps[1..], after);
    }
  }

  lemma FreshHolds(s: State)
    requires Fresh(s)
    ensures INVARIANT(s)
  {
  }

  /** No request takes effect twice, whatever the clocks, the senders, the storage and the process do. */
  lemma AppliedAtMostOnce(s: State, steps: seq<Step>, after: Successor, fp: Fingerprint)
    requires Fresh(s) && Aligned(s) && forall i :: 0 <= i < |steps| ==> Sensible(steps[i])
    ensures Run(s, steps, after).history.applied[fp] <= 1
  {
    FreshHolds(s);
    RunKeeps(s, steps, after);
  }

  /** Every decision ever written is still stored, or the mark lies strictly past the request's window. */
  lemma DecidedIsStoredOrPast(s: State, steps: seq<Step>, after: Successor, fp: Fingerprint)
    requires Fresh(s) && Aligned(s) && forall i :: 0 <= i < |steps| ==> Sensible(steps[i])
    requires fp in Run(s, steps, after).history.decided
    ensures var t := Run(s, steps, after); fp in t.store.decisions || t.store.highWater > Expiry(fp)
  {
    FreshHolds(s);
    RunKeeps(s, steps, after);
  }

  /** All replies ever sent for one request carry the same octets. */
  lemma RepliesAgree(s: State, steps: seq<Step>, after: Successor, fp: Fingerprint, one: Bytes, other: Bytes)
    requires Fresh(s) && Aligned(s) && forall i :: 0 <= i < |steps| ==> Sensible(steps[i])
    requires (fp, one) in Run(s, steps, after).history.replies && (fp, other) in Run(s, steps, after).history.replies
    ensures one == other
  {
    FreshHolds(s);
    RunKeeps(s, steps, after);
  }

  /** Decisions and reservations together never exceed the capacity, in memory or in the store. */
  lemma CapacityHolds(s: State, steps: seq<Step>, after: Successor)
    requires Fresh(s) && Aligned(s) && forall i :: 0 <= i < |steps| ==> Sensible(steps[i])
    ensures var t := Run(s, steps, after);
            |t.cache.Keys + t.pending.Keys| <= CAPACITY && |t.store.decisions.Keys| <= CAPACITY
  {
    FreshHolds(s);
    RunKeeps(s, steps, after);
  }
}
