/** Planning a verified Disconnect- or CoA-Request (section 3 of RFC 5176) against the current access sessions. */
module DynamicPlanner {
  import opened Outcomes
  import opened Codec

  type Id = nat
  type Mac = nat

  datatype Nas = Nas(identifier: Octets, ipv4: Option<Octets>)

  datatype Policy = Policy(vid: int, byRadius: bool, sessionTimeout: Option<nat>, idleTimeout: Option<nat>, termination: nat,
                           state: Option<Octets>, rest: nat)

  datatype Session = Session(id: Octets, port: Id, mac: Mac, userName: Option<Octets>, nas: Option<Nas>, grant: nat,
                             policy: Policy, lease: Option<int>)

  datatype Port = Port(bridgePort: nat, name: Octets, forbidden: set<int>)

  datatype Entry = Entry(key: (Id, Mac), session: Session)

  /** The sessions in key order, and what else a plan reads of the runtime. */
  datatype Runtime = Runtime(entries: seq<Entry>, ports: map<Id, Port>, vlans: set<int>, now: int)

  datatype Proposal = Proposal(key: (Id, Mac), sessionId: Octets, grant: nat, policy: Option<Policy>, lease: Option<int>)

  datatype Plan = Nak(cause: nat) | Ack(sessions: seq<Proposal>)

  // ---------------------------------------------------------------------------------------------
  // Attributes by type
  // ---------------------------------------------------------------------------------------------

  /** The values of one type in the order of the request. */
  function Listed(attributes: seq<Attribute>, kind: int): seq<Octets> {
    if attributes == [] then [] else
    (if attributes[0].kind == kind then [attributes[0].value] else []) + Listed(attributes[1..], kind)
  }

  /** As much of them as a plan looks at: how many there are, which there are, and the one if there is only one. */
  datatype Values = Values(count: nat, members: set<Octets>, only: Option<Octets>)

  function Summary(l: seq<Octets>): Values {
    Values(|l|, set v | v in l, if |l| == 1 then Some(l[0]) else None)
  }

  function Of(attributes: seq<Attribute>, kind: int): Values {
    Summary(Listed(attributes, kind))
  }

  predicate Given(attributes: seq<Attribute>, kind: int) {
    Of(attributes, kind).count > 0
  }

  function Number(value: Octets): nat {
    if value == [] then 0 else Number(value[..|value| - 1]) * 256 + value[|value| - 1]
  }

  const SELECTORS := {1, 5, 31, 44, 87}
  const TUNNELS := {64, 65, 81}

  /** Attributes that may occur once only, that hold four octets, and that may not be empty. */
  const SINGLE := SELECTORS + {4, 32, 27, 28, 29}
  const SIZED := {4, 5, 27, 28, 29}
  const FILLED := {1, 32, 44, 87}

  predicate AllowedKind(coa: bool, kind: int) {
    kind in SELECTORS || kind in {4, 32, 33, 55, 80} || (coa && kind in {6, 24, 27, 28, 29, 64, 65, 81})
  }

  predicate Digits(s: Octets) {
    s != [] && forall i :: 0 <= i < |s| ==> 48 <= s[i] <= 57
  }

  function Decimal(s: Octets): int {
    if s == [] then 0 else Decimal(s[..|s| - 1]) * 10 + (s[|s| - 1] as int - 48)
  }

  /** The VLAN of a complete tunnel group of type VLAN over 802 (section 3.31 of RFC 3580), all under one tag. */
  function Tunnel(tt: Octets, medium: Octets, group: Octets): Option<int> {
    if |tt| != 4 || |medium| != 4 || tt[0] > 31 || medium[0] > 31 || Number(tt[1..]) != 13 || Number(medium[1..]) != 6 || group == []
    then None else
    var tag := if group[0] <= 31 then group[0] else 0;
    var text := if group[0] <= 31 then group[1..] else group;
    if tt[0] != medium[0] || tt[0] != tag || !Digits(text) then None else Some(Decimal(text))
  }

  // ---------------------------------------------------------------------------------------------
  // The plan
  // ---------------------------------------------------------------------------------------------

  type MacReader = Octets -> Option<Mac>

  predicate Repeated(attributes: seq<Attribute>, kinds: set<int>) {
    exists k :: k in kinds && Of(attributes, k).count > 1
  }

  predicate AnyEmpty(attributes: seq<Attribute>, kinds: set<int>) {
    exists k :: k in kinds && [] in Of(attributes, k).members
  }

  predicate AnyUnsized(attributes: seq<Attribute>, kinds: set<int>) {
    exists k, v :: k in kinds && v in Of(attributes, k).members && |v| != 4
  }

  /** What a request asks for, or the cause it is refused with before any session is looked at. */
  datatype Ask = Refused(cause: nat) | Asked(vid: Option<int>, timeout: Option<nat>, idle: Option<nat>, termination: Option<nat>)

  function Control(attributes: seq<Attribute>, kind: int): Option<nat> {
    var only := Of(attributes, kind).only;
    if only.Some? then Some(Number(only.value)) else None
  }

  function TunnelsGiven(attributes: seq<Attribute>): set<int> {
    set k | k in TUNNELS && Given(attributes, k)
  }

  predicate SelectorGiven(attributes: seq<Attribute>) {
    exists k :: k in SELECTORS && Given(attributes, k)
  }

  predicate BadMac(attributes: seq<Attribute>, mac: MacReader) {
    exists v :: v in Of(attributes, 31).members && mac(v).None?
  }

  predicate Unsupported(coa: bool, attributes: seq<Attribute>) {
    exists i :: 0 <= i < |attributes| && !AllowedKind(coa, attributes[i].kind)
  }

  predicate BadState(attributes: seq<Attribute>) {
    Of(attributes, 24).count > 1 || [] in Of(attributes, 24).members
  }

  predicate Malformed(attributes: seq<Attribute>, mac: MacReader) {
    AnyUnsized(attributes, SIZED) || AnyEmpty(attributes, FILLED) || BadMac(attributes, mac)
  }

  predicate Incomplete(attributes: seq<Attribute>) {
    !SelectorGiven(attributes) || (TunnelsGiven(attributes) != {} && TunnelsGiven(attributes) != TUNNELS)
  }

  /** The first refusal that applies before any value is interpreted. */
  function Refusal(coa: bool, attributes: seq<Attribute>, mac: MacReader): Option<nat> {
    if coa && BadState(attributes) then Some(404)
    else if Unsupported(coa, attributes) then Some(401)
    else if coa && Given(attributes, 6) then Some(405)
    else if Repeated(attributes, SINGLE) then Some(404)
    else if Incomplete(attributes) then Some(402)
    else if Malformed(attributes, mac) then Some(407)
    else None
  }

  /** The controls asked for, from the termination action and the tunnel group of the request. */
  function Controls(timeout: Option<nat>, idle: Option<nat>, termination: Option<nat>, tunnelled: bool, tt: Option<Octets>,
                    medium: Option<Octets>, group: Option<Octets>, vlans: set<int>): Ask
  {
    if termination.Some? && termination.value > 1 then Refused(407)
    else if !tunnelled then Asked(None, timeout, idle, termination)
    else if tt.None? || medium.None? || group.None? then Refused(407)
    else
      var vid := Tunnel(tt.value, medium.value, group.value);
      if vid.None? || !(1 <= vid.value <= 4094) || vid.value !in vlans then Refused(407)
      else Asked(vid, timeout, idle, termination)
  }

  function Read(coa: bool, attributes: seq<Attribute>, mac: MacReader, vlans: set<int>): Ask {
    var refusal := Refusal(coa, attributes, mac);
    if refusal.Some? then Refused(refusal.value) else
    Controls(Control(attributes, 27), Control(attributes, 28), Control(attributes, 29), TunnelsGiven(attributes) != {},
             Of(attributes, 64).only, Of(attributes, 65).only, Of(attributes, 81).only, vlans)
  }

  /** The NAS attributes of the request agree with the identity captured on the grant. */
  predicate Identified(attributes: seq<Attribute>, s: Session) {
    && s.nas.Some?
    && (forall v :: v in Of(attributes, 4).members ==> s.nas.value.ipv4 == Some(v))
    && (forall v :: v in Of(attributes, 32).members ==> s.nas.value.identifier == v)
  }

  predicate Matches(attributes: seq<Attribute>, mac: MacReader, ports: map<Id, Port>, s: Session) {
    && s.port in ports
    && (forall v :: v in Of(attributes, 5).members ==> Number(v) == ports[s.port].bridgePort)
    && (forall v :: v in Of(attributes, 87).members ==> v == ports[s.port].name)
    && (forall v :: v in Of(attributes, 44).members ==> v == s.id)
    && (forall v :: v in Of(attributes, 1).members ==> s.userName == Some(v))
    && (forall v :: v in Of(attributes, 31).members ==> mac(v) == Some(s.mac))
  }

  function Keep(entries: seq<Entry>, keep: Session -> bool): (kept: seq<Entry>)
    ensures forall e :: e in kept <==> e in entries && keep(e.session)
  {
    if entries == [] then [] else
    assert forall e :: e in entries <==> e == entries[0] || e in entries[1..];
    (if keep(entries[0].session) then [entries[0]] else []) + Keep(entries[1..], keep)
  }

  predicate NasGiven(attributes: seq<Attribute>) {
    Given(attributes, 4) || Given(attributes, 32)
  }

  function Candidates(attributes: seq<Attribute>, entries: seq<Entry>): seq<Entry> {
    if NasGiven(attributes) then Keep(entries, s => Identified(attributes, s)) else entries
  }

  function Selected(attributes: seq<Attribute>, mac: MacReader, r: Runtime): seq<Entry> {
    Keep(Candidates(attributes, r.entries), s => Matches(attributes, mac, r.ports, s))
  }

  function Changed(ask: Ask, state: Option<Octets>, p: Policy): Policy
    requires ask.Asked?
  {
    var q := if ask.vid.Some? then p.(vid := ask.vid.value, byRadius := true) else p;
    q.(sessionTimeout := if ask.timeout.Some? then ask.timeout else q.sessionTimeout,
       idleTimeout := if ask.idle.Some? then ask.idle else q.idleTimeout,
       termination := if ask.termination.Some? then ask.termination.value else q.termination,
       state := if state.Some? then state else q.state)
  }

  function Proposed(coa: bool, ask: Ask, state: Option<Octets>, now: int, e: Entry): Proposal
    requires ask.Asked?
  {
    if !coa then Proposal(e.key, e.session.id, e.session.grant, None, None) else
    Proposal(e.key, e.session.id, e.session.grant, Some(Changed(ask, state, e.session.policy)),
             if ask.timeout.Some? then Some(now + ask.timeout.value * 1000) else e.session.lease)
  }

  predicate Forbidden(r: Runtime, vid: int, s: Session) {
    s.port in r.ports && vid in r.ports[s.port].forbidden
  }

  /** `plan_dynamic_request` */
  function PlanDynamic(coa: bool, attributes: seq<Attribute>, mac: MacReader, r: Runtime): Plan {
    var ask := Read(coa, attributes, mac, r.vlans);
    if ask.Refused? then Nak(ask.cause)
    else if r.entries == [] then Nak(503)
    else if Candidates(attributes, r.entries) == [] then Nak(403)
    else
      var selected := Selected(attributes, mac, r);
      if selected == [] then Nak(503)
      else if ask.vid.Some? && exists i :: 0 <= i < |selected| && Forbidden(r, ask.vid.value, selected[i].session) then Nak(501)
      else
        var state := Of(attributes, 24).only;
        Ack(seq(|selected|, i requires 0 <= i < |selected| => Proposed(coa, ask, state, r.now, selected[i])))
  }

  // ---------------------------------------------------------------------------------------------
  // Order of attributes
  // ---------------------------------------------------------------------------------------------

  lemma {:induction false} ListedCounts(attributes: seq<Attribute>, kind: int, v: Octets)
    ensures multiset(Listed(attributes, kind))[v] == multiset(attributes)[Attribute(kind, v)]
  {
    if attributes != [] {
      ListedCounts(attributes[1..], kind, v);
      assert attributes == [attributes[0]] + attributes[1..];
      assert attributes[0] == Attribute(attributes[0].kind, attributes[0].value);
      if attributes[0].kind == kind {
        assert Listed(attributes, kind) == [attributes[0].value] + Listed(attributes[1..], kind);
      } else {
        assert Listed(attributes, kind) == Listed(attributes[1..], kind);
      }
    }
  }

  lemma SameSummary(a: seq<Octets>, b: seq<Octets>)
    requires multiset(a) == multiset(b)
    ensures Summary(a) == Summary(b)
  {
    assert |a| == |multiset(a)| == |multiset(b)| == |b|;
    forall v ensures v in a <==> v in b {
      assert v in multiset(a) <==> v in multiset(b);
    }
    if |a| == 1 {
      assert a[0] in b;
      assert a[0] == b[0];
    }
  }

  lemma SameValues(a: seq<Attribute>, b: seq<Attribute>, kind: int)
    requires multiset(a) == multiset(b)
    ensures Of(a, kind) == Of(b, kind)
  {
    forall v ensures multiset(Listed(a, kind))[v] == multiset(Listed(b, kind))[v] {
      ListedCounts(a, kind, v);
      ListedCounts(b, kind, v);
    }
    SameSummary(Listed(a, kind), Listed(b, kind));
  }

  ghost predicate Alike(a: seq<Attribute>, b: seq<Attribute>) {
    && (forall kind :: Of(a, kind) == Of(b, kind))
    && (forall x :: x in a <==> x in b)
  }

  lemma PermutedAlike(a: seq<Attribute>, b: seq<Attribute>)
    requires multiset(a) == multiset(b)
    ensures Alike(a, b)
  {
    forall kind ensures Of(a, kind) == Of(b, kind) { SameValues(a, b, kind); }
    forall x ensures x in a <==> x in b { assert x in multiset(a) <==> x in multiset(b); }
  }

  lemma SameAllowed(coa: bool, a: seq<Attribute>, b: seq<Attribute>)
    requires Alike(a, b)
    ensures Unsupported(coa, a) == Unsupported(coa, b)
  {
    if i :| 0 <= i < |a| && !AllowedKind(coa, a[i].kind) {
      assert a[i] in b;
      var j :| 0 <= j < |b| && b[j] == a[i];
    }
    if j :| 0 <= j < |b| && !AllowedKind(coa, b[j].kind) {
      assert b[j] in a;
      var i :| 0 <= i < |a| && a[i] == b[j];
    }
  }

  lemma SameTests(a: seq<Attribute>, b: seq<Attribute>, mac: MacReader, kinds: set<int>)
    requires forall kind :: Of(a, kind) == Of(b, kind)
    ensures Repeated(a, kinds) == Repeated(b, kinds) && AnyEmpty(a, kinds) == AnyEmpty(b, kinds)
    ensures AnyUnsized(a, kinds) == AnyUnsized(b, kinds)
    ensures TunnelsGiven(a) == TunnelsGiven(b) && SelectorGiven(a) == SelectorGiven(b) && BadMac(a, mac) == BadMac(b, mac)
  {
    assert forall k :: Given(a, k) == Given(b, k);
  }

  lemma SameShape(a: seq<Attribute>, b: seq<Attribute>, mac: MacReader)
    requires forall kind :: Of(a, kind) == Of(b, kind)
    ensures BadState(a) == BadState(b) && Incomplete(a) == Incomplete(b) && Malformed(a, mac) == Malformed(b, mac)
  {
    SameTests(a, b, mac, SIZED);
    SameTests(a, b, mac, FILLED);
    assert Of(a, 24) == Of(b, 24);
  }

  lemma SameRefusal(coa: bool, a: seq<Attribute>, b: seq<Attribute>, mac: MacReader)
    requires Alike(a, b)
    ensures Refusal(coa, a, mac) == Refusal(coa, b, mac)
  {
    SameAllowed(coa, a, b);
    SameTests(a, b, mac, SINGLE);
    SameShape(a, b, mac);
    assert Given(a, 6) == Given(b, 6);
  }

  lemma SameControls(a: seq<Attribute>, b: seq<Attribute>)
    requires Alike(a, b)
    ensures forall k :: Control(a, k) == Control(b, k)
  {
  }

  lemma SameTunnels(a: seq<Attribute>, b: seq<Attribute>)
    requires Alike(a, b)
    ensures TunnelsGiven(a) == TunnelsGiven(b)
  {
  }

  lemma SameRead(coa: bool, a: seq<Attribute>, b: seq<Attribute>, mac: MacReader, vlans: set<int>)
    requires Alike(a, b)
    ensures Read(coa, a, mac, vlans) == Read(coa, b, mac, vlans)
  {
    SameRefusal(coa, a, b, mac);
    SameTunnels(a, b);
    SameControls(a, b);
  }

  lemma {:induction false} SameKept(entries: seq<Entry>, p: Session -> bool, q: Session -> bool)
    requires forall s :: p(s) == q(s)
    ensures Keep(entries, p) == Keep(entries, q)
  {
    if entries != [] { SameKept(entries[1..], p, q); }
  }

  lemma SameSelected(a: seq<Attribute>, b: seq<Attribute>, mac: MacReader, r: Runtime)
    requires Alike(a, b)
    ensures Candidates(a, r.entries) == Candidates(b, r.entries) && Selected(a, mac, r) == Selected(b, mac, r)
  {
    SameKept(r.entries, s => Identified(a, s), s => Identified(b, s));
    SameKept(Candidates(a, r.entries), s => Matches(a, mac, r.ports, s), s => Matches(b, mac, r.ports, s));
  }

  /** The plan is the same for every order of the request's attributes: which error is reported never depends on it. */
  lemma PlanOrderIrrelevant(coa: bool, a: seq<Attribute>, b: seq<Attribute>, mac: MacReader, r: Runtime)
    requires multiset(a) == multiset(b)
    ensures PlanDynamic(coa, a, mac, r) == PlanDynamic(coa, b, mac, r)
  {
    PermutedAlike(a, b);
    SameRead(coa, a, b, mac, r.vlans);
    SameSelected(a, b, mac, r);
  }

  // ---------------------------------------------------------------------------------------------
  // What an acknowledged plan proposes
  // ---------------------------------------------------------------------------------------------

  /** The commit-time check: the session is still there under the same grant. */
  predicate Fresh(sessions: map<(Id, Mac), Session>, p: Proposal) {
    p.key in sessions && sessions[p.key].id == p.sessionId && sessions[p.key].grant == p.grant
  }

  ghost predicate Lists(entries: seq<Entry>, sessions: map<(Id, Mac), Session>) {
    && (forall e :: e in entries ==> e.key in sessions && sessions[e.key] == e.session)
    && Apart(entries)
  }

  ghost predicate Apart(entries: seq<Entry>) {
    forall i, j :: 0 <= i < j < |entries| ==> entries[i].key != entries[j].key
  }

  lemma ApartFrom(e: Entry, rest: seq<Entry>)
    requires Apart(rest) && forall d :: d in rest ==> d.key != e.key
    ensures Apart([e] + rest)
  {
  }

  lemma FirstApart(entries: seq<Entry>, d: Entry)
    requires Apart(entries) && entries != [] && d in entries[1..]
    ensures d.key != entries[0].key
  {
    var k :| 0 <= k < |entries[1..]| && entries[1..][k] == d;
    assert entries[k + 1] == d;
  }

  lemma {:induction false} KeptApart(entries: seq<Entry>, keep: Session -> bool)
    requires Apart(entries)
    ensures Apart(Keep(entries, keep))
  {
    if entries != [] {
      var rest := Keep(entries[1..], keep);
      KeptApart(entries[1..], keep);
      if keep(entries[0].session) {
        forall d | d in rest { FirstApart(entries, d); }
        ApartFrom(entries[0], rest);
      } else {
        assert [] + rest == rest;
      }
    }
  }

  lemma SelectedApart(attributes: seq<Attribute>, mac: MacReader, r: Runtime)
    requires Apart(r.entries)
    ensures Apart(Selected(attributes, mac, r))
    ensures forall e :: e in Selected(attributes, mac, r) ==> e in r.entries
  {
    if NasGiven(attributes) { KeptApart(r.entries, s => Identified(attributes, s)); }
    KeptApart(Candidates(attributes, r.entries), s => Matches(attributes, mac, r.ports, s));
  }

  lemma ProposedFresh(coa: bool, ask: Ask, state: Option<Octets>, now: int, e: Entry, sessions: map<(Id, Mac), Session>)
    requires ask.Asked? && e.key in sessions && sessions[e.key] == e.session
    ensures Fresh(sessions, Proposed(coa, ask, state, now, e)) && Proposed(coa, ask, state, now, e).key == e.key
  {
  }

  lemma ProposedAll(coa: bool, ask: Ask, state: Option<Octets>, now: int, entries: seq<Entry>, proposals: seq<Proposal>,
                    sessions: map<(Id, Mac), Session>)
    requires ask.Asked? && Lists(entries, sessions)
    requires |proposals| == |entries| && forall i :: 0 <= i < |entries| ==> proposals[i] == Proposed(coa, ask, state, now, entries[i])
    ensures forall i :: 0 <= i < |proposals| ==> Fresh(sessions, proposals[i])
    ensures forall i, j :: 0 <= i < j < |proposals| ==> proposals[i].key != proposals[j].key
  {
    forall i | 0 <= i < |entries| ensures Fresh(sessions, proposals[i]) && proposals[i].key == entries[i].key {
      assert entries[i] in entries;
      ProposedFresh(coa, ask, state, now, entries[i], sessions);
    }
  }

  /** An acknowledgement proposes at least one session, each once, and all pass the commit-time check. */
  lemma AckIsFresh(coa: bool, attributes: seq<Attribute>, mac: MacReader, r: Runtime, sessions: map<(Id, Mac), Session>)
    requires Lists(r.entries, sessions) && PlanDynamic(coa, attributes, mac, r).Ack?
    ensures var proposals := PlanDynamic(coa, attributes, mac, r).sessions;
            && |proposals| >= 1
            && (forall i :: 0 <= i < |proposals| ==> Fresh(sessions, proposals[i]))
            && (forall i, j :: 0 <= i < j < |proposals| ==> proposals[i].key != proposals[j].key)
  {
    SelectedApart(attributes, mac, r);
    ProposedAll(coa, Read(coa, attributes, mac, r.vlans), Of(attributes, 24).only, r.now, Selected(attributes, mac, r),
                PlanDynamic(coa, attributes, mac, r).sessions, sessions);
  }

  /** Exactly the sessions that agree with every supplied attribute are selected. */
  lemma SelectedExactly(attributes: seq<Attribute>, mac: MacReader, r: Runtime, e: Entry)
    ensures e in Selected(attributes, mac, r) <==>
            e in r.entries && (NasGiven(attributes) ==> Identified(attributes, e.session)) && Matches(attributes, mac, r.ports, e.session)
  {
  }

  // ---------------------------------------------------------------------------------------------
  // Applying an acknowledged plan
  // ---------------------------------------------------------------------------------------------

  /** What becomes of a proposal's session; any change of its grant draws another identifier. */
  function Settled(s: Session, p: Proposal, stamp: nat): Option<Session> {
    if p.policy.None? then None
    else if p.policy.value == s.policy && p.lease == s.lease then Some(s)
    else Some(s.(policy := p.policy.value, lease := p.lease, grant := stamp))
  }

  /** The action "radius-dynamic" on the access sessions */
  function Applied(sessions: map<(Id, Mac), Session>, proposals: seq<Proposal>, stamp: nat): map<(Id, Mac), Session> {
    if proposals == [] then sessions else
    var last := |proposals| - 1;
    var before, p := Applied(sessions, proposals[..last], stamp), proposals[last];
    if p.key !in before then before else
    var t := Settled(before[p.key], p, stamp + last);
    if t.None? then before - {p.key} else before[p.key := t.value]
  }

  lemma {:induction false} AppliedElsewhere(sessions: map<(Id, Mac), Session>, proposals: seq<Proposal>, stamp: nat, k: (Id, Mac))
    requires forall i :: 0 <= i < |proposals| ==> proposals[i].key != k
    ensures var after := Applied(sessions, proposals, stamp);
            (k in after <==> k in sessions) && (k in sessions ==> after[k] == sessions[k])
  {
    if proposals != [] { AppliedElsewhere(sessions, proposals[..|proposals| - 1], stamp, k); }
  }

  lemma {:induction false} AppliedOnce(sessions: map<(Id, Mac), Session>, proposals: seq<Proposal>, stamp: nat, i: nat)
    requires i < |proposals| && proposals[i].key in sessions
    requires forall j :: 0 <= j < |proposals| && j != i ==> proposals[j].key != proposals[i].key
    ensures var after, k := Applied(sessions, proposals, stamp), proposals[i].key;
            var t := Settled(sessions[k], proposals[i], stamp + i);
            (k in after <==> t.Some?) && (t.Some? ==> after[k] == t.value)
  {
    var last := |proposals| - 1;
    if i < last {
      assert proposals[..last][i] == proposals[i];
      AppliedOnce(sessions, proposals[..last], stamp, i);
    } else {
      AppliedElsewhere(sessions, proposals[..last], stamp, proposals[i].key);
    }
  }

  /** The session agrees with everything the request says about sessions. */
  predicate Chosen(attributes: seq<Attribute>, mac: MacReader, ports: map<Id, Port>, s: Session) {
    (NasGiven(attributes) ==> Identified(attributes, s)) && Matches(attributes, mac, ports, s)
  }

  /** The session has what the request asks for and otherwise what it had before; who it is has not changed. */
  predicate Amended(ask: Ask, state: Option<Octets>, now: int, s: Session, t: Session)
    requires ask.Asked?
  {
    && t.(policy := s.policy, lease := s.lease, grant := s.grant) == s
    && t.policy.rest == s.policy.rest
    && t.policy.vid == (if ask.vid.Some? then ask.vid.value else s.policy.vid)
    && t.policy.byRadius == (ask.vid.Some? || s.policy.byRadius)
    && t.policy.sessionTimeout == (if ask.timeout.Some? then ask.timeout else s.policy.sessionTimeout)
    && t.policy.idleTimeout == (if ask.idle.Some? then ask.idle else s.policy.idleTimeout)
    && t.policy.termination == (if ask.termination.Some? then ask.termination.value else s.policy.termination)
    && t.policy.state == (if state.Some? then state else s.policy.state)
    && t.lease == (if ask.timeout.Some? then Some(now + ask.timeout.value * 1000) else s.lease)
  }

  predicate Usable(r: Runtime, s: Session) {
    s.policy.vid in r.vlans && !Forbidden(r, s.policy.vid, s)
  }

  ghost predicate Covers(entries: seq<Entry>, sessions: map<(Id, Mac), Session>) {
    forall k :: k in sessions ==> Entry(k, sessions[k]) in entries
  }

  lemma AskedVlanUsable(coa: bool, attributes: seq<Attribute>, mac: MacReader, r: Runtime, i: nat)
    requires PlanDynamic(coa, attributes, mac, r).Ack? && i < |Selected(attributes, mac, r)|
    ensures var ask := Read(coa, attributes, mac, r.vlans);
            ask.vid.Some? ==> ask.vid.value in r.vlans && !Forbidden(r, ask.vid.value, Selected(attributes, mac, r)[i].session)
  {
  }

  lemma ProposalAmends(ask: Ask, state: Option<Octets>, now: int, e: Entry, stamp: nat)
    requires ask.Asked?
    ensures Settled(e.session, Proposed(false, ask, state, now, e), stamp).None?
    ensures var t := Settled(e.session, Proposed(true, ask, state, now, e), stamp);
            t.Some? && Amended(ask, state, now, e.session, t.value)
  {
  }

  lemma ChosenProposal(coa: bool, attributes: seq<Attribute>, mac: MacReader, r: Runtime, sessions: map<(Id, Mac), Session>, k: (Id, Mac))
    returns (i: nat)
    requires Lists(r.entries, sessions) && Covers(r.entries, sessions) && PlanDynamic(coa, attributes, mac, r).Ack?
    requires k in sessions && Chosen(attributes, mac, r.ports, sessions[k])
    ensures var ask, proposals := Read(coa, attributes, mac, r.vlans), PlanDynamic(coa, attributes, mac, r).sessions;
            && ask.Asked? && i < |proposals|
            && proposals[i] == Proposed(coa, ask, Of(attributes, 24).only, r.now, Entry(k, sessions[k]))
            && (forall j :: 0 <= j < |proposals| && j != i ==> proposals[j].key != k)
            && (ask.vid.Some? ==> ask.vid.value in r.vlans && !Forbidden(r, ask.vid.value, sessions[k]))
  {
    var selected := Selected(attributes, mac, r);
    SelectedApart(attributes, mac, r);
    SelectedExactly(attributes, mac, r, Entry(k, sessions[k]));
    i :| 0 <= i < |selected| && selected[i] == Entry(k, sessions[k]);
    AskedVlanUsable(coa, attributes, mac, r, i);
  }

  lemma ChosenApplied(coa: bool, attributes: seq<Attribute>, mac: MacReader, r: Runtime, sessions: map<(Id, Mac), Session>, stamp: nat,
                      k: (Id, Mac))
    requires Lists(r.entries, sessions) && Covers(r.entries, sessions) && PlanDynamic(coa, attributes, mac, r).Ack?
    requires k in sessions && Chosen(attributes, mac, r.ports, sessions[k])
    ensures var after := Applied(sessions, PlanDynamic(coa, attributes, mac, r).sessions, stamp);
            var ask, state := Read(coa, attributes, mac, r.vlans), Of(attributes, 24).only;
            && ask.Asked? && (k in after <==> coa)
            && (coa ==> Amended(ask, state, r.now, sessions[k], after[k]) && (Usable(r, sessions[k]) ==> Usable(r, after[k])))
  {
    var ask, proposals := Read(coa, attributes, mac, r.vlans), PlanDynamic(coa, attributes, mac, r).sessions;
    var i := ChosenProposal(coa, attributes, mac, r, sessions, k);
    AppliedOnce(sessions, proposals, stamp, i);
    ProposalAmends(ask, Of(attributes, 24).only, r.now, Entry(k, sessions[k]), stamp + i);
  }

  lemma OthersKept(coa: bool, attributes: seq<Attribute>, mac: MacReader, r: Runtime, sessions: map<(Id, Mac), Session>, stamp: nat,
                   k: (Id, Mac))
    requires Lists(r.entries, sessions) && PlanDynamic(coa, attributes, mac, r).Ack?
    requires k in sessions && !Chosen(attributes, mac, r.ports, sessions[k])
    ensures var after := Applied(sessions, PlanDynamic(coa, attributes, mac, r).sessions, stamp);
            k in after && after[k] == sessions[k]
  {
    var selected, proposals := Selected(attributes, mac, r), PlanDynamic(coa, attributes, mac, r).sessions;
    forall i | 0 <= i < |proposals| ensures proposals[i].key != k {
      assert selected[i] in selected;
      SelectedExactly(attributes, mac, r, selected[i]);
    }
    AppliedElsewhere(sessions, proposals, stamp, k);
  }

  /**
   * After an acknowledged plan is applied, a disconnect has ended exactly the sessions that agree with the request, and a change
   * has given each of them exactly what was asked; no other session is touched, and no VLAN in use is missing or forbidden.
   */
  lemma AckApplied(coa: bool, attributes: seq<Attribute>, mac: MacReader, r: Runtime, sessions: map<(Id, Mac), Session>, stamp: nat,
                   k: (Id, Mac))
    requires Lists(r.entries, sessions) && Covers(r.entries, sessions) && PlanDynamic(coa, attributes, mac, r).Ack?
    requires k in sessions
    ensures Read(coa, attributes, mac, r.vlans).Asked?
    ensures var after := Applied(sessions, PlanDynamic(coa, attributes, mac, r).sessions, stamp);
            var ask, state := Read(coa, attributes, mac, r.vlans), Of(attributes, 24).only;
            && (!Chosen(attributes, mac, r.ports, sessions[k]) ==> k in after && after[k] == sessions[k])
            && (Chosen(attributes, mac, r.ports, sessions[k]) && !coa ==> k !in after)
            && (Chosen(attributes, mac, r.ports, sessions[k]) && coa ==> k in after && Amended(ask, state, r.now, sessions[k], after[k]))
            && (k in after && Usable(r, sessions[k]) ==> Usable(r, after[k]))
  {
    if Chosen(attributes, mac, r.ports, sessions[k]) {
      ChosenApplied(coa, attributes, mac, r, sessions, stamp, k);
    } else {
      OthersKept(coa, attributes, mac, r, sessions, stamp, k);
    }
  }
}
