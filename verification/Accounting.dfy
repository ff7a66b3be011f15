/**
 * The durable accounting queue: every operation as a function of its ledger, and what every run of them keeps.  A record
 * that leaves the queue is delivered or counted under the reason it was dropped for.
 */
module Accounting {
  import opened Outcomes
  import opened Codec
  import opened Authenticators
  import opened Budgets

  datatype Subject = Nas | OfSession(id: nat)

  /** The clocks a record was generated at; elapsed readings of different processes are not comparable. */
  datatype Reading = Reading(origin: nat, wall: real, elapsed: real)

  datatype Target = Target(id: nat, enabled: bool, signature: nat)

  /** The settings that records are queued and sent by; a change of any of them empties the queue. */
  datatype Settings = Settings(enabled: bool, targets: seq<Target>, delivery: nat)

  datatype Record = Record(id: nat, sequence: nat, subject: Subject, status: nat, attributes: seq<Attribute>,
                           generated: Reading, targets: seq<Target>, delivery: nat, sending: bool, attempts: nat, late: bool)

  datatype Reason = Representation | Overflow | ConfigurationChange | Expired | Exhausted

  /** `issued` counts the record identifiers handed out, `delivered` the records a target has answered. */
  datatype Ledger = Ledger(outbox: seq<Record>, sequence: nat, drops: map<Reason, nat>, issued: nat, delivered: nat)

  const FRESH := Ledger([], 0, map[], 0, 0)
  const CAPACITY := 1024
  const LIFETIME := 300.0
  const MAX_TASKS := 8

  // ---------------------------------------------------------------------------------------------
  // The attributes of a record
  // ---------------------------------------------------------------------------------------------

  datatype Nas = Identity(identifier: Octets, ipv4: Option<Octets>)

  /** What a record reads of an access session; `identity` holds its access attributes. */
  datatype Session = Session(id: nat, identity: seq<Attribute>, userName: Option<Octets>, classes: seq<Octets>, vid: nat,
                             started: int, octets: nat, packets: nat)

  const ACCESS_KINDS := {4, 5, 31, 32, 44, 61, 87}

  ghost predicate Described(s: Session) {
    forall i :: 0 <= i < |s.identity| ==> s.identity[i].kind in ACCESS_KINDS
  }

  /** The decimal digits of a VLAN number. */
  function Decimal(n: nat): Octets {
    if n < 10 then [48 + n] else Decimal(n / 10) + [48 + n % 10]
  }

  function Named(s: Session): seq<Attribute> {
    s.identity + (if s.userName.Some? then [Attribute(1, s.userName.value)] else [])
      + seq(|s.classes|, i requires 0 <= i < |s.classes| => Attribute(25, s.classes[i]))
      + [Attribute(64, Octets32(13)), Attribute(65, Octets32(6)), Attribute(81, Decimal(s.vid))]
  }

  /** The counters of an interim or a stop record, unless one of them cannot be represented. */
  function Usage(s: Session, status: nat, now: int): Option<seq<Attribute>> {
    if status !in {2, 3} then Some([]) else
    var elapsed := (now - s.started) / 1000;
    if !(0 <= elapsed <= 0xFFFF_FFFF) || s.octets > 0xFFFF_FFFF_FFFF_FFFF then None else
    Some([Attribute(46, Octets32(elapsed)), Attribute(42, Octets32(s.octets % 0x1_0000_0000)),
          Attribute(52, Octets32(s.octets / 0x1_0000_0000)), Attribute(47, Octets32(s.packets % 0x1_0000_0000))])
  }

  function Closing(status: nat, cause: Option<nat>): Option<seq<Attribute>> {
    if status != 2 || cause.None? then Some([])
    else if cause.value >= 0x1_0000_0000 then None
    else Some([Attribute(49, Octets32(cause.value))])
  }

  /** The attributes of a session's record, or of a lifecycle record when there is no session. */
  function Values(session: Option<Session>, nas: Option<Nas>, status: nat, cause: Option<nat>, now: int): Option<seq<Attribute>> {
    if session.Some? then
      var usage, closing := Usage(session.value, status, now), Closing(status, cause);
      if usage.None? || closing.None? then None else Some(Named(session.value) + usage.value + closing.value)
    else if nas.None? then None
    else Some([Attribute(32, nas.value.identifier)] + (if nas.value.ipv4.Some? then [Attribute(4, nas.value.ipv4.value)] else []))
  }

  ghost predicate Accountable(values: seq<Attribute>) {
    forall i :: 0 <= i < |values| ==> !Unaccountable(values[i])
  }

  lemma AccountableAppend(a: seq<Attribute>, b: seq<Attribute>)
    requires Accountable(a) && Accountable(b)
    ensures Accountable(a + b)
  {
  }

  lemma NamedAccountable(s: Session)
    requires Described(s)
    ensures Accountable(Named(s))
  {
    var user := if s.userName.Some? then [Attribute(1, s.userName.value)] else [];
    var classes := seq(|s.classes|, i requires 0 <= i < |s.classes| => Attribute(25, s.classes[i]));
    AccountableAppend(s.identity, user);
    AccountableAppend(s.identity + user, classes);
    AccountableAppend(s.identity + user + classes, [Attribute(64, Octets32(13)), Attribute(65, Octets32(6)), Attribute(81, Decimal(s.vid))]);
  }

  lemma ValuesAccountable(session: Option<Session>, nas: Option<Nas>, status: nat, cause: Option<nat>, now: int)
    requires (session.Some? ==> Described(session.value)) && Values(session, nas, status, cause, now).Some?
    ensures Accountable(Values(session, nas, status, cause, now).value)
  {
    if session.Some? {
      var usage, closing := Usage(session.value, status, now).value, Closing(status, cause).value;
      NamedAccountable(session.value);
      AccountableAppend(Named(session.value), usage);
      AccountableAppend(Named(session.value) + usage, closing);
    }
  }

  // ---------------------------------------------------------------------------------------------
  // The operations
  // ---------------------------------------------------------------------------------------------

  function Of(drops: map<Reason, nat>, reason: Reason): nat {
    if reason in drops then drops[reason] else 0
  }

  /** `accounting_drop`, any number of times */
  function Add(drops: map<Reason, nat>, reason: Reason, n: nat): map<Reason, nat> {
    if n == 0 then drops else drops[reason := Of(drops, reason) + n]
  }

  function Enabled(targets: seq<Target>): seq<Target> {
    if targets == [] then []
    else Enabled(targets[..|targets| - 1]) + (if targets[|targets| - 1].enabled then [targets[|targets| - 1]] else [])
  }

  predicate Lifecycle(r: Record) {
    r.status == 7 || r.status == 8
  }

  /** What one call of `queue_accounting` asks for. */
  datatype Draft = Draft(session: Option<Session>, nas: Option<Nas>, status: nat, cause: Option<nat>, now: int,
                         generated: Reading, late: bool, bytesFull: bool)

  function SubjectOf(session: Option<Session>): Subject {
    if session.Some? then OfSession(session.value.id) else Subject.Nas
  }

  function Drafted(l: Ledger, s: Settings, d: Draft, values: seq<Attribute>): Record {
    Record(l.issued, l.sequence + 1, SubjectOf(d.session), d.status, values, d.generated, Enabled(s.targets), s.delivery,
           false, 0, d.late)
  }

  function Appended(l: Ledger, r: Record): Ledger {
    l.(sequence := l.sequence + 1, issued := l.issued + 1, outbox := l.outbox + [r])
  }

  function Entered(l: Ledger, s: Settings, d: Draft, values: seq<Attribute>): Ledger {
    if |l.outbox| >= CAPACITY || d.bytesFull
    then l.(sequence := l.sequence + 1, issued := l.issued + 1, drops := Add(l.drops, Overflow, 1))
    else Appended(l, Drafted(l, s, d, values))
  }

  /** `queue_accounting` */
  function Queue(l: Ledger, s: Settings, d: Draft): Ledger {
    if !s.enabled || Enabled(s.targets) == [] then l else
    var values := Values(d.session, d.nas, d.status, d.cause, d.now);
    if values.None? || !Enqueued(values.value) then l.(drops := Add(l.drops, Representation, 1)) else
    Entered(l, s, d, values.value)
  }

  function Keep(outbox: seq<Record>, keep: Record -> bool): (r: seq<Record>)
    ensures |r| <= |outbox|
  {
    if outbox == [] then []
    else Keep(outbox[..|outbox| - 1], keep) + (if keep(outbox[|outbox| - 1]) then [outbox[|outbox| - 1]] else [])
  }

  /** Records leave the queue, each counted under one reason. */
  function Remove(l: Ledger, keep: Record -> bool, reason: Reason): Ledger {
    var kept := Keep(l.outbox, keep);
    l.(outbox := kept, drops := Add(l.drops, reason, |l.outbox| - |kept|))
  }

  /** `accounting_expired` */
  predicate IsExpired(r: Record, now: Reading) {
    || now.origin != r.generated.origin || now.elapsed > r.generated.elapsed + LIFETIME
    || now.wall > r.generated.wall + LIFETIME || now.wall < r.generated.wall
  }

  /** `accounting_policy_matches` */
  predicate Matches(r: Record, s: Settings) {
    s.enabled && r.targets == Enabled(s.targets) && r.delivery == s.delivery
  }

  function Prune(l: Ledger, now: Reading): Ledger {
    Remove(l, (r: Record) => !IsExpired(r, now), Reason.Expired)
  }

  function Clear(l: Ledger): Ledger {
    Remove(l, (r: Record) => false, ConfigurationChange)
  }

  /** What a restart keeps of the saved queue. */
  function Restore(l: Ledger, s: Settings): Ledger {
    Remove(l, (r: Record) => Matches(r, s), ConfigurationChange)
  }

  predicate Queued(outbox: seq<Record>, id: nat) {
    exists i :: 0 <= i < |outbox| && outbox[i].id == id
  }

  /** The action "accounting-result" */
  function Finish(l: Ledger, id: nat, delivered: bool): Ledger {
    if !Queued(l.outbox, id) then l
    else if delivered then l.(outbox := Keep(l.outbox, (r: Record) => r.id != id), delivered := l.delivered + 1)
    else l.(outbox := Keep(l.outbox, (r: Record) => r.id != id), drops := Add(l.drops, Exhausted, 1))
  }

  function Attempted(r: Record): Record {
    r.(sending := true, attempts := r.attempts + 1)
  }

  /** The action "accounting-event" of a record that is being sent */
  function Attempt(l: Ledger, id: nat): Ledger {
    l.(outbox := seq(|l.outbox|, i requires 0 <= i < |l.outbox| =>
                       if l.outbox[i].id == id then Attempted(l.outbox[i]) else l.outbox[i]))
  }

  function Requeue(l: Ledger, s: Settings, drafts: seq<Draft>): Ledger {
    if drafts == [] then l else Queue(Requeue(l, s, drafts[..|drafts| - 1]), s, drafts[|drafts| - 1])
  }

  /** After a change of settings every record is dropped and, unless accounting is off, every session starts again. */
  function Reconciled(l: Ledger, before: Settings, s: Settings, drafts: seq<Draft>): Ledger {
    if before == s then l else if s.enabled then Requeue(Clear(l), s, drafts) else Clear(l)
  }

  /** When a session reports next, if it does; times are in milliseconds, intervals in seconds. */
  datatype Timer = Timer(interval: nat, next: Option<int>)

  function Retimed(t: Timer, before: Settings, s: Settings, period: nat, now: int): Timer {
    var interval := if s.enabled then period else 0;
    if before == s && interval == t.interval then t
    else Timer(interval, if interval == 0 then None else Some(now + interval * 1000))
  }

  /** A session with an interval reports within one interval from now; one without never does. */
  predicate Timed(t: Timer, now: int) {
    (t.next.Some? <==> t.interval > 0) && (t.next.Some? ==> now < t.next.value <= now + t.interval * 1000)
  }

  lemma RetimedKeeps(t: Timer, before: Settings, s: Settings, period: nat, now: int)
    requires Timed(t, now)
    ensures Timed(Retimed(t, before, s, period, now), now)
    ensures Retimed(t, before, s, period, now).interval == if s.enabled then period else 0
  {
  }

  // ---------------------------------------------------------------------------------------------
  // What every operation keeps
  // ---------------------------------------------------------------------------------------------

  function Counted(drops: map<Reason, nat>): nat {
    Of(drops, Overflow) + Of(drops, ConfigurationChange) + Of(drops, Reason.Expired) + Of(drops, Exhausted)
  }

  ghost predicate Ordered(outbox: seq<Record>) {
    forall i, j :: 0 <= i < j < |outbox| ==> outbox[i].sequence < outbox[j].sequence && outbox[i].id != outbox[j].id
  }

  ghost predicate Sound(l: Ledger, r: Record) {
    && 1 <= r.sequence <= l.sequence && r.id < l.issued && r.status in {1, 2, 3, 7, 8}
    && Enqueued(r.attributes) && Accountable(r.attributes)
  }

  /** Sequence numbers ascend, every record still encodes, and each number issued is queued, delivered or counted as dropped. */
  ghost predicate Kept(l: Ledger) {
    && Ordered(l.outbox) && |l.outbox| <= CAPACITY && (forall i :: 0 <= i < |l.outbox| ==> Sound(l, l.outbox[i]))
    && l.sequence == |l.outbox| + l.delivered + Counted(l.drops)
  }

  ghost const KEPT: Ledger -> bool := (l: Ledger) => Kept(l)

  lemma {:induction false} KeepMembers(outbox: seq<Record>, keep: Record -> bool, r: Record)
    ensures r in Keep(outbox, keep) <==> r in outbox && keep(r)
  {
    if outbox != [] {
      KeepMembers(outbox[..|outbox| - 1], keep, r);
      assert outbox == outbox[..|outbox| - 1] + [outbox[|outbox| - 1]];
    }
  }

  lemma {:induction false} KeepOrdered(outbox: seq<Record>, keep: Record -> bool)
    requires Ordered(outbox)
    ensures Ordered(Keep(outbox, keep))
  {
    if outbox != [] {
      var before, last := outbox[..|outbox| - 1], outbox[|outbox| - 1];
      KeepOrdered(before, keep);
      forall i | 0 <= i < |Keep(before, keep)|
        ensures Keep(before, keep)[i].sequence < last.sequence && Keep(before, keep)[i].id != last.id
      {
        KeepMembers(before, keep, Keep(before, keep)[i]);
      }
    }
  }

  lemma KeepSound(l: Ledger, keep: Record -> bool)
    requires Kept(l)
    ensures Ordered(Keep(l.outbox, keep)) && forall i :: 0 <= i < |Keep(l.outbox, keep)| ==> Sound(l, Keep(l.outbox, keep)[i])
  {
    KeepOrdered(l.outbox, keep);
    forall i | 0 <= i < |Keep(l.outbox, keep)| ensures Sound(l, Keep(l.outbox, keep)[i]) {
      KeepMembers(l.outbox, keep, Keep(l.outbox, keep)[i]);
    }
  }

  lemma RemoveKeeps(l: Ledger, keep: Record -> bool, reason: Reason)
    requires Kept(l) && reason != Representation
    ensures Kept(Remove(l, keep, reason))
  {
    KeepSound(l, keep);
  }

  lemma {:induction false} KeepOthers(outbox: seq<Record>, id: nat)
    requires Ordered(outbox)
    ensures |Keep(outbox, (r: Record) => r.id != id)| == |outbox| - (if Queued(outbox, id) then 1 else 0)
  {
    if outbox != [] {
      var before, last := outbox[..|outbox| - 1], outbox[|outbox| - 1];
      KeepOthers(before, id);
      if i :| 0 <= i < |before| && before[i].id == id {
        assert outbox[i].id == id && last.id != id;
      } else {
        assert Queued(outbox, id) <==> last.id == id;
      }
    }
  }

  lemma FinishKeeps(l: Ledger, id: nat, delivered: bool)
    requires Kept(l)
    ensures Kept(Finish(l, id, delivered))
  {
    KeepSound(l, (r: Record) => r.id != id);
    KeepOthers(l.outbox, id);
  }

  lemma AttemptKeeps(l: Ledger, id: nat)
    requires Kept(l)
    ensures Kept(Attempt(l, id))
  {
  }

  ghost predicate Fitting(d: Draft) {
    d.status in {1, 2, 3, 7, 8} && (d.session.Some? ==> Described(d.session.value))
  }

  lemma AppendedKeeps(l: Ledger, r: Record)
    requires Kept(l) && |l.outbox| < CAPACITY && r.sequence == l.sequence + 1 && r.id == l.issued
    requires r.status in {1, 2, 3, 7, 8} && Enqueued(r.attributes) && Accountable(r.attributes)
    ensures Kept(Appended(l, r))
  {
    var after := Appended(l, r);
    forall i | 0 <= i < |after.outbox| ensures Sound(after, after.outbox[i]) {
      if i < |l.outbox| { assert Sound(l, l.outbox[i]); }
    }
    assert forall i :: 0 <= i < |l.outbox| ==> Sound(l, l.outbox[i]);
  }

  lemma UncountedKeeps(l: Ledger)
    requires Kept(l)
    ensures Kept(l.(drops := Add(l.drops, Representation, 1)))
  {
    var after := l.(drops := Add(l.drops, Representation, 1));
    forall i | 0 <= i < |l.outbox| ensures Sound(after, l.outbox[i]) { assert Sound(l, l.outbox[i]); }
  }

  lemma OverflowKeeps(l: Ledger)
    requires Kept(l)
    ensures Kept(l.(sequence := l.sequence + 1, issued := l.issued + 1, drops := Add(l.drops, Overflow, 1)))
  {
    var after := l.(sequence := l.sequence + 1, issued := l.issued + 1, drops := Add(l.drops, Overflow, 1));
    forall i | 0 <= i < |l.outbox| ensures Sound(after, l.outbox[i]) { assert Sound(l, l.outbox[i]); }
  }

  lemma QueueKeeps(l: Ledger, s: Settings, d: Draft)
    requires Kept(l) && Fitting(d)
    ensures Kept(Queue(l, s, d))
  {
    var values := Values(d.session, d.nas, d.status, d.cause, d.now);
    UncountedKeeps(l);
    OverflowKeeps(l);
    if values.Some? && Enqueued(values.value) && |l.outbox| < CAPACITY {
      ValuesAccountable(d.session, d.nas, d.status, d.cause, d.now);
      AppendedKeeps(l, Drafted(l, s, d, values.value));
    }
  }

  lemma {:induction false} RequeueKeeps(l: Ledger, s: Settings, drafts: seq<Draft>)
    requires Kept(l) && forall i :: 0 <= i < |drafts| ==> Fitting(drafts[i])
    ensures Kept(Requeue(l, s, drafts))
  {
    if drafts != [] {
      RequeueKeeps(l, s, drafts[..|drafts| - 1]);
      QueueKeeps(Requeue(l, s, drafts[..|drafts| - 1]), s, drafts[|drafts| - 1]);
    }
  }

  /** Whatever its delay has become by then, a queued record still makes a packet of at most 4095 octets. */
  lemma QueuedStillEncodes(h: Hashes, l: Ledger, i: nat, identifier: int, delay: nat, secret: Octets)
    requires Kept(l) && i < |l.outbox| && 0 <= identifier <= 255 && delay < 0x1_0000_0000
    ensures var r := AccountingRequest(h, identifier, l.outbox[i].status, l.outbox[i].attributes + [Attribute(41, Octets32(delay))], secret);
            r.Ok? && |r.value| <= 4095
  {
    assert Sound(l, l.outbox[i]);
    EnqueuedStillEncodes(h, identifier, l.outbox[i].status, l.outbox[i].attributes, delay, secret);
  }
}
