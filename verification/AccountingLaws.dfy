/** What a queued record says, and what every operation of the accounting queue leaves, said of the ledger before and after it. */
module AccountingLaws {
  import opened Outcomes
  import opened Codec
  import opened Budgets
  import opened Accounting

  // ---------------------------------------------------------------------------------------------
  // What a record says (sections 5 of RFC 2866 and RFC 2869)
  // ---------------------------------------------------------------------------------------------

  lemma NumberOctets(n: nat)
    requires n < 0x1_0000_0000
    ensures Number32(Octets32(n)) == n
  {
    var a, b, c := n / 0x100, n / 0x1_0000, n / 0x100_0000;
    assert n == a * 0x100 + n % 0x100 && a == b * 0x100 + a % 0x100 && b == c * 0x100 + b % 0x100;
  }

  lemma OctetsOfNumber(value: Octets)
    requires |value| == 4
    ensures Number32(value) < 0x1_0000_0000 && Octets32(Number32(value)) == value
  {
    var a: int, b: int, c: int := value[0], value[1], value[2];
    var n := Number32(value);
    assert n / 0x100_0000 == a && n / 0x1_0000 == a * 256 + b && n / 256 == (a * 256 + b) * 256 + c;
  }

  /** The attribute holds this number in four octets. */
  predicate Holds(a: Attribute, kind: int, n: int) {
    a.kind == kind && |a.value| == 4 && Number32(a.value) == n
  }

  lemma HoldsExactly(a: Attribute, kind: int, n: nat)
    requires n < 0x1_0000_0000
    ensures a == Attribute(kind, Octets32(n)) <==> Holds(a, kind, n)
  {
    NumberOctets(n);
    if |a.value| == 4 { OctetsOfNumber(a.value); }
  }

  function ReadDecimal(s: Octets): int {
    if s == [] then 0 else ReadDecimal(s[..|s| - 1]) * 10 + (s[|s| - 1] as int - 48)
  }

  /** The digits of a number read back as the number. */
  lemma {:induction false} DecimalReads(n: nat)
    ensures ReadDecimal(Decimal(n)) == n && forall i :: 0 <= i < |Decimal(n)| ==> 48 <= Decimal(n)[i] <= 57
    decreases n
  {
    if n >= 10 {
      DecimalReads(n / 10);
      assert Decimal(n)[..|Decimal(n)| - 1] == Decimal(n / 10);
    } else {
      assert Decimal(n)[..0] == [];
    }
  }

  /** The whole seconds of a session. */
  function Seconds(s: Session, now: int): int {
    (now - s.started) / 1000
  }

  /** Interim and stop records carry time, octets in two words, and packets. */
  ghost predicate Metering(s: Session, status: nat, now: int, a: Attribute) {
    && (status == 2 || status == 3)
    && (Holds(a, 46, Seconds(s, now)) || Holds(a, 42, s.octets % 0x1_0000_0000) || Holds(a, 52, s.octets / 0x1_0000_0000)
        || Holds(a, 47, s.packets % 0x1_0000_0000))
  }

  /** Everything that a record of a session says. */
  ghost predicate Says(s: Session, status: nat, cause: Option<nat>, now: int, a: Attribute) {
    || a in s.identity
    || (a.kind == 1 && s.userName == Some(a.value))
    || (a.kind == 25 && a.value in s.classes)
    || Holds(a, 64, 13) || Holds(a, 65, 6)
    || a == Attribute(81, Decimal(s.vid))
    || Metering(s, status, now, a)
    || (status == 2 && cause.Some? && Holds(a, 49, cause.value))
  }

  lemma UsageExactly(s: Session, status: nat, now: int, a: Attribute)
    ensures Usage(s, status, now).None? <==>
            status in {2, 3} && !(0 <= Seconds(s, now) < 0x1_0000_0000 && s.octets < 0x1_0000_0000_0000_0000)
    ensures Usage(s, status, now).Some? ==> (a in Usage(s, status, now).value <==> Metering(s, status, now, a))
  {
    if Usage(s, status, now).Some? && status in {2, 3} {
      HoldsExactly(a, 46, Seconds(s, now));
      HoldsExactly(a, 42, s.octets % 0x1_0000_0000);
      HoldsExactly(a, 52, s.octets / 0x1_0000_0000);
      HoldsExactly(a, 47, s.packets % 0x1_0000_0000);
    }
  }

  lemma ClosingExactly(status: nat, cause: Option<nat>, a: Attribute)
    ensures Closing(status, cause).None? <==> status == 2 && cause.Some? && cause.value >= 0x1_0000_0000
    ensures Closing(status, cause).Some? ==>
              (a in Closing(status, cause).value <==> status == 2 && cause.Some? && Holds(a, 49, cause.value))
  {
    if cause.Some? && cause.value < 0x1_0000_0000 { HoldsExactly(a, 49, cause.value); }
  }

  lemma NamedExactly(s: Session, a: Attribute)
    ensures a in Named(s) <==>
            || a in s.identity || (a.kind == 1 && s.userName == Some(a.value)) || (a.kind == 25 && a.value in s.classes)
            || Holds(a, 64, 13) || Holds(a, 65, 6) || a == Attribute(81, Decimal(s.vid))
  {
    var classes := seq(|s.classes|, i requires 0 <= i < |s.classes| => Attribute(25, s.classes[i]));
    HoldsExactly(a, 64, 13);
    HoldsExactly(a, 65, 6);
    if a.kind == 25 && a.value in s.classes {
      var i :| 0 <= i < |s.classes| && s.classes[i] == a.value;
      assert classes[i] == a;
    }
  }

  /** A record of a session says exactly this, and it cannot be made exactly when a number does not fit. */
  lemma SessionSays(s: Session, status: nat, cause: Option<nat>, now: int, a: Attribute)
    ensures var values := Values(Some(s), None, status, cause, now);
            && (values.None? <==>
                  || ((status == 2 || status == 3) && !(0 <= Seconds(s, now) < 0x1_0000_0000 && s.octets < 0x1_0000_0000_0000_0000))
                  || (status == 2 && cause.Some? && cause.value >= 0x1_0000_0000))
            && (values.Some? ==> (a in values.value <==> Says(s, status, cause, now, a)))
  {
    UsageExactly(s, status, now, a);
    ClosingExactly(status, cause, a);
    NamedExactly(s, a);
  }

  // ---------------------------------------------------------------------------------------------
  // Counting
  // ---------------------------------------------------------------------------------------------

  /** One reason's count grew by this much, no other changed. */
  ghost predicate Grew(was: map<Reason, nat>, now: map<Reason, nat>, reason: Reason, n: nat) {
    Of(now, reason) == Of(was, reason) + n && forall other :: other != reason ==> Of(now, other) == Of(was, other)
  }

  /** The records that pass a test remain, in their order; the others are counted under one reason. */
  ghost predicate Sifted(l: Ledger, m: Ledger, keep: Record -> bool, reason: Reason) {
    && Ordered(m.outbox) && (forall r :: r in m.outbox <==> r in l.outbox && keep(r))
    && |m.outbox| <= |l.outbox| && Grew(l.drops, m.drops, reason, |l.outbox| - |m.outbox|)
    && m == l.(outbox := m.outbox, drops := m.drops)
  }

  lemma RemoveExactly(l: Ledger, keep: Record -> bool, reason: Reason)
    requires Ordered(l.outbox)
    ensures Sifted(l, Remove(l, keep, reason), keep, reason)
  {
    KeepOrdered(l.outbox, keep);
    forall r ensures r in Keep(l.outbox, keep) <==> r in l.outbox && keep(r) { KeepMembers(l.outbox, keep, r); }
  }

  /** A record may be sent for five minutes, by both clocks of the process that made it, and never before it was made. */
  ghost predicate InTime(r: Record, now: Reading) {
    && now.origin == r.generated.origin
    && r.generated.wall <= now.wall <= r.generated.wall + 300.0 && now.elapsed <= r.generated.elapsed + 300.0
  }

  ghost function TimelyAt(now: Reading): Record -> bool {
    (r: Record) => InTime(r, now)
  }

  /** Pruning keeps exactly the records that are in time. */
  lemma PruneExactly(l: Ledger, now: Reading)
    requires Ordered(l.outbox)
    ensures Sifted(l, Prune(l, now), TimelyAt(now), Reason.Expired)
  {
    RemoveExactly(l, (r: Record) => !IsExpired(r, now), Reason.Expired);
    forall r ensures InTime(r, now) == !IsExpired(r, now) {}
  }

  /** The record is meant for the targets enabled now, in their order, under the present delivery policy. */
  ghost predicate Current(r: Record, s: Settings) {
    s.enabled && r.targets == Enabled(s.targets) && r.delivery == s.delivery
  }

  /** The targets that are enabled. */
  lemma {:induction false} EnabledExactly(targets: seq<Target>, t: Target)
    ensures t in Enabled(targets) <==> t in targets && t.enabled
  {
    if targets != [] {
      EnabledExactly(targets[..|targets| - 1], t);
      assert targets == targets[..|targets| - 1] + [targets[|targets| - 1]];
    }
  }

  /** They stand in the order in which they are configured. */
  lemma {:induction false} EnabledInOrder(targets: seq<Target>, i: nat, j: nat) returns (p: nat, q: nat)
    requires i < j < |Enabled(targets)|
    ensures p < q < |targets| && targets[p] == Enabled(targets)[i] && targets[q] == Enabled(targets)[j]
  {
    var last := |targets| - 1;
    if j < |Enabled(targets[..last])| {
      p, q := EnabledInOrder(targets[..last], i, j);
    } else {
      q := last;
      EnabledExactly(targets[..last], Enabled(targets)[i]);
      assert Enabled(targets)[i] in Enabled(targets[..last]);
      p :| 0 <= p < last && targets[p] == Enabled(targets)[i];
    }
  }

  // ---------------------------------------------------------------------------------------------
  // The operations
  // ---------------------------------------------------------------------------------------------

  /** The values can be encoded and leave room for delay and status. */
  ghost predicate Fits(values: Option<seq<Attribute>>) {
    values.Some? && AllEncodable(values.value) && |Flat(values.value)| <= 4063
  }

  ghost predicate Switched(s: Settings) {
    s.enabled && exists t :: t in s.targets && t.enabled
  }

  /** A record with the next number and a new identifier, unsent, stands behind the others. */
  ghost predicate Queues(l: Ledger, m: Ledger, s: Settings, d: Draft) {
    && |m.outbox| == |l.outbox| + 1 && m.outbox[..|l.outbox|] == l.outbox
    && m.drops == l.drops && m.delivered == l.delivered && m.sequence == l.sequence + 1 && m.issued == l.issued + 1
    && var r := m.outbox[|l.outbox|];
       && r.sequence == m.sequence && r.id == l.issued && r.status == d.status && r.generated == d.generated && r.late == d.late
       && r.subject == (if d.session.Some? then OfSession(d.session.value.id) else Subject.Nas)
       && Values(d.session, d.nas, d.status, d.cause, d.now) == Some(r.attributes)
       && Current(r, s) && !r.sending && r.attempts == 0
  }

  lemma SwitchedExactly(s: Settings)
    ensures s.enabled && Enabled(s.targets) != [] <==> Switched(s)
  {
    if Enabled(s.targets) != [] { EnabledExactly(s.targets, Enabled(s.targets)[0]); }
    if t :| t in s.targets && t.enabled { EnabledExactly(s.targets, t); }
  }

  /**
   * With accounting on, a record is queued, or counted as an overflow when the queue is full, or as a misfit when it cannot be
   * represented; with accounting off nothing happens.
   */
  lemma QueueExactly(l: Ledger, s: Settings, d: Draft)
    ensures var m, values := Queue(l, s, d), Values(d.session, d.nas, d.status, d.cause, d.now);
            if !Switched(s) then m == l
            else if !Fits(values) then m == l.(drops := m.drops) && Grew(l.drops, m.drops, Representation, 1)
            else if |l.outbox| >= 1024 || d.bytesFull
            then m == l.(drops := m.drops, sequence := l.sequence + 1, issued := l.issued + 1) && Grew(l.drops, m.drops, Overflow, 1)
            else Queues(l, m, s, d)
  {
    SwitchedExactly(s);
    FitsExactly(Values(d.session, d.nas, d.status, d.cause, d.now));
  }

  lemma FitsExactly(values: Option<seq<Attribute>>)
    ensures Fits(values) <==> values.Some? && Enqueued(values.value)
  {
  }

  /** A finished record leaves, delivered or counted as exhausted; a record that is gone changes nothing. */
  lemma FinishExactly(l: Ledger, id: nat, delivered: bool)
    requires Ordered(l.outbox)
    ensures var m := Finish(l, id, delivered);
            if forall r :: r in l.outbox ==> r.id != id then m == l
            else && Ordered(m.outbox) && (forall r :: r in m.outbox <==> r in l.outbox && r.id != id) && |m.outbox| == |l.outbox| - 1
                 && m == l.(outbox := m.outbox, drops := m.drops, delivered := m.delivered)
                 && (if delivered then m.delivered == l.delivered + 1 && m.drops == l.drops
                     else m.delivered == l.delivered && Grew(l.drops, m.drops, Exhausted, 1))
  {
    var keep := (r: Record) => r.id != id;
    RemoveExactly(l, keep, Exhausted);
    KeepOthers(l.outbox, id);
    if i :| 0 <= i < |l.outbox| && l.outbox[i].id == id { assert l.outbox[i] in l.outbox; }
  }

  /** An attempt marks its record and no other. */
  lemma AttemptExactly(l: Ledger, id: nat, i: nat)
    requires i < |l.outbox|
    ensures var m := Attempt(l, id);
            && m == l.(outbox := m.outbox) && |m.outbox| == |l.outbox|
            && m.outbox[i] == if l.outbox[i].id == id then l.outbox[i].(sending := true, attempts := l.outbox[i].attempts + 1) else l.outbox[i]
  {
  }

  ghost function CurrentUnder(s: Settings): Record -> bool {
    (r: Record) => Current(r, s)
  }

  /** A restart keeps exactly the records that are still meant for the present targets and policy. */
  lemma RestoreExactly(l: Ledger, s: Settings)
    requires Ordered(l.outbox)
    ensures Sifted(l, Restore(l, s), CurrentUnder(s), ConfigurationChange)
  {
    RemoveExactly(l, (r: Record) => Matches(r, s), ConfigurationChange);
  }

  /** Queueing several records keeps what is queued and adds behind it. */
  lemma {:induction false} RequeueAdds(l: Ledger, s: Settings, drafts: seq<Draft>)
    ensures var m := Requeue(l, s, drafts);
            && |l.outbox| <= |m.outbox| && m.outbox[..|l.outbox|] == l.outbox && m.delivered == l.delivered
            && Of(m.drops, ConfigurationChange) == Of(l.drops, ConfigurationChange)
            && forall i :: |l.outbox| <= i < |m.outbox| ==> Current(m.outbox[i], s) && exists d :: d in drafts && m.outbox[i].generated == d.generated
  {
    if drafts != [] {
      var init, last := drafts[..|drafts| - 1], drafts[|drafts| - 1];
      var k := Requeue(l, s, init);
      RequeueAdds(l, s, init);
      QueueExactly(k, s, last);
      assert forall d :: d in init ==> d in drafts;
      assert last in drafts;
    }
  }

  /** A change of settings drops every queued record and, with accounting on, starts the sessions anew under the new settings. */
  lemma ReconciledExactly(l: Ledger, before: Settings, s: Settings, drafts: seq<Draft>)
    ensures var m := Reconciled(l, before, s, drafts);
            if before == s then m == l
            else && Of(m.drops, ConfigurationChange) == Of(l.drops, ConfigurationChange) + |l.outbox| && m.delivered == l.delivered
                 && (!s.enabled ==> m.outbox == [])
                 && forall r :: r in m.outbox ==> Current(r, s) && exists d :: d in drafts && r.generated == d.generated
  {
    NothingKept(l.outbox);
    RequeueAdds(Clear(l), s, drafts);
  }

  lemma {:induction false} NothingKept(outbox: seq<Record>)
    ensures Keep(outbox, (r: Record) => false) == []
  {
    if outbox != [] { NothingKept(outbox[..|outbox| - 1]); }
  }
}
