/**
 * The cause a dynamic-authorization request is refused with, as a table of faults in order of precedence, and what an accepted one
 * selects and asks for, both said of the attributes themselves.
 */
module DynamicPlanLaws {
  import opened Outcomes
  import opened Codec
  import opened DynamicPlanner

  // ---------------------------------------------------------------------------------------------
  // Attributes
  // ---------------------------------------------------------------------------------------------

  predicate Has(attributes: seq<Attribute>, kind: int) {
    exists i :: 0 <= i < |attributes| && attributes[i].kind == kind
  }

  ghost predicate Twice(attributes: seq<Attribute>, kind: int) {
    exists i, j :: 0 <= i < j < |attributes| && attributes[i].kind == kind == attributes[j].kind
  }

  lemma {:induction false} ListedExactly(attributes: seq<Attribute>, kind: int, v: Octets)
    ensures v in Listed(attributes, kind) <==> Attribute(kind, v) in attributes
  {
    ListedCounts(attributes, kind, v);
    assert v in Listed(attributes, kind) <==> v in multiset(Listed(attributes, kind));
    assert Attribute(kind, v) in attributes <==> Attribute(kind, v) in multiset(attributes);
  }

  lemma {:induction false} HasExactly(attributes: seq<Attribute>, kind: int)
    ensures |Listed(attributes, kind)| > 0 <==> Has(attributes, kind)
  {
    if attributes != [] {
      HasExactly(attributes[1..], kind);
      if i :| 0 <= i < |attributes| && attributes[i].kind == kind && i > 0 { assert attributes[1..][i - 1].kind == kind; }
      if i :| 0 <= i < |attributes[1..]| && attributes[1..][i].kind == kind { assert attributes[i + 1].kind == kind; }
    }
  }

  lemma {:induction false} TwiceExactly(attributes: seq<Attribute>, kind: int)
    ensures |Listed(attributes, kind)| > 1 <==> Twice(attributes, kind)
  {
    if attributes != [] {
      var rest := attributes[1..];
      TwiceExactly(rest, kind);
      HasExactly(rest, kind);
      if i, j :| 0 <= i < j < |attributes| && attributes[i].kind == kind == attributes[j].kind {
        assert rest[j - 1].kind == kind;
        if i > 0 { assert rest[i - 1].kind == kind; }
      }
      if i, j :| 0 <= i < j < |rest| && rest[i].kind == kind == rest[j].kind {
        assert attributes[i + 1].kind == kind == attributes[j + 1].kind;
      }
      if attributes[0].kind == kind && Has(rest, kind) {
        var i :| 0 <= i < |rest| && rest[i].kind == kind;
        assert attributes[i + 1].kind == kind;
      }
    }
  }

  lemma MembersExactly(attributes: seq<Attribute>, kind: int)
    ensures forall v :: v in Of(attributes, kind).members <==> Attribute(kind, v) in attributes
    ensures Given(attributes, kind) <==> Has(attributes, kind)
    ensures Of(attributes, kind).count > 1 <==> Twice(attributes, kind)
  {
    forall v ensures v in Of(attributes, kind).members <==> Attribute(kind, v) in attributes { ListedExactly(attributes, kind, v); }
    HasExactly(attributes, kind);
    TwiceExactly(attributes, kind);
  }

  /** The only value of a type. */
  ghost predicate OnlyValue(attributes: seq<Attribute>, kind: int, v: Octets) {
    Attribute(kind, v) in attributes && !Twice(attributes, kind)
  }

  lemma OnlyExactly(attributes: seq<Attribute>, kind: int, v: Octets)
    ensures Of(attributes, kind).only == Some(v) <==> OnlyValue(attributes, kind, v)
  {
    MembersExactly(attributes, kind);
    ListedExactly(attributes, kind, v);
    var l := Listed(attributes, kind);
    if |l| == 1 { assert v in l <==> l[0] == v; }
  }

  // ---------------------------------------------------------------------------------------------
  // Faults, in order of precedence (section 3.5 of RFC 5176)
  // ---------------------------------------------------------------------------------------------

  ghost predicate BrokenState(attributes: seq<Attribute>) {
    Twice(attributes, 24) || Attribute(24, []) in attributes
  }

  /** A type outside those of the request: selectors, NAS, Proxy-State, timestamp and authenticator, and for a change its controls. */
  ghost predicate Unknown(coa: bool, attributes: seq<Attribute>) {
    exists a :: a in attributes && a.kind !in {1, 4, 5, 31, 32, 33, 44, 55, 80, 87} && !(coa && a.kind in {6, 24, 27, 28, 29, 64, 65, 81})
  }

  ghost predicate Doubled(attributes: seq<Attribute>) {
    exists k :: k in {1, 4, 5, 27, 28, 29, 31, 32, 44, 87} && Twice(attributes, k)
  }

  /** No session is named, or a tunnel is named in part. */
  ghost predicate Partial(attributes: seq<Attribute>) {
    || (forall a :: a in attributes ==> a.kind !in {1, 5, 31, 44, 87})
    || (exists k, l :: k in {64, 65, 81} && l in {64, 65, 81} && Has(attributes, k) && !Has(attributes, l))
  }

  ghost predicate Broken(attributes: seq<Attribute>, mac: MacReader) {
    exists a :: a in attributes
                && ((a.kind in {4, 5, 27, 28, 29} && |a.value| != 4) || (a.kind in {1, 32, 44, 87} && a.value == [])
                    || (a.kind == 31 && mac(a.value) == None))
  }

  ghost predicate OddTermination(attributes: seq<Attribute>) {
    exists v :: OnlyValue(attributes, 29, v) && Number(v) > 1
  }

  /** The group is a whole tunnel of type VLAN over 802 to this VLAN. */
  ghost predicate TunnelTo(attributes: seq<Attribute>, vid: int) {
    exists t, m, g :: OnlyValue(attributes, 64, t) && OnlyValue(attributes, 65, m) && OnlyValue(attributes, 81, g) && Tunnel(t, m, g) == Some(vid)
  }

  ghost predicate BrokenTunnel(attributes: seq<Attribute>, vlans: set<int>) {
    Has(attributes, 64) && forall vid :: TunnelTo(attributes, vid) ==> !(1 <= vid <= 4094) || vid !in vlans
  }

  /** The session agrees with one attribute of the request. */
  ghost predicate Agrees(a: Attribute, mac: MacReader, port: Port, s: Session) {
    match a.kind
    case 1 => s.userName == Some(a.value)
    case 4 => s.nas.Some? && s.nas.value.ipv4 == Some(a.value)
    case 5 => Number(a.value) == port.bridgePort
    case 31 => mac(a.value) == Some(s.mac)
    case 32 => s.nas.Some? && s.nas.value.identifier == a.value
    case 44 => a.value == s.id
    case 87 => a.value == port.name
    case _ => true
  }

  /** The NAS that the request names, if it names one, is the one captured with the session. */
  ghost predicate SameNas(attributes: seq<Attribute>, s: Session) {
    forall a :: a in attributes ==>
      (a.kind == 4 ==> s.nas.Some? && s.nas.value.ipv4 == Some(a.value)) && (a.kind == 32 ==> s.nas.Some? && s.nas.value.identifier == a.value)
  }

  /** The session agrees with every attribute. */
  ghost predicate Named(attributes: seq<Attribute>, mac: MacReader, ports: map<Id, Port>, s: Session) {
    s.port in ports && forall a :: a in attributes ==> Agrees(a, mac, ports[s.port], s)
  }

  /** A named session's port forbids the VLAN asked for. */
  ghost predicate Barred(attributes: seq<Attribute>, mac: MacReader, r: Runtime) {
    exists e, vid :: e in r.entries && Named(attributes, mac, r.ports, e.session) && TunnelTo(attributes, vid)
                     && vid in r.ports[e.session.port].forbidden
  }

  const FAULTS := 12

  /** The faults, the weightier first. */
  ghost predicate Fault(n: nat, coa: bool, attributes: seq<Attribute>, mac: MacReader, r: Runtime) {
    match n
    case 0 => coa && BrokenState(attributes)
    case 1 => Unknown(coa, attributes)
    case 2 => coa && Has(attributes, 6)
    case 3 => Doubled(attributes)
    case 4 => Partial(attributes)
    case 5 => Broken(attributes, mac)
    case 6 => OddTermination(attributes)
    case 7 => BrokenTunnel(attributes, r.vlans)
    case 8 => r.entries == []
    case 9 => forall e :: e in r.entries ==> !SameNas(attributes, e.session)
    case 10 => forall e :: e in r.entries ==> !Named(attributes, mac, r.ports, e.session)
    case _ => Barred(attributes, mac, r)
  }

  /** The Error-Cause of a fault. */
  function CauseOf(n: nat): nat
    requires n < FAULTS
  {
    [404, 401, 405, 404, 402, 407, 407, 407, 503, 403, 503, 501][n]
  }

  ghost predicate First(n: nat, coa: bool, attributes: seq<Attribute>, mac: MacReader, r: Runtime) {
    Fault(n, coa, attributes, mac, r) && forall m: nat :: m < n ==> !Fault(m, coa, attributes, mac, r)
  }

  // ---------------------------------------------------------------------------------------------
  // Each test is its fault
  // ---------------------------------------------------------------------------------------------

  lemma StateFault(attributes: seq<Attribute>)
    ensures BadState(attributes) <==> BrokenState(attributes)
  {
    MembersExactly(attributes, 24);
  }

  lemma KindFault(coa: bool, attributes: seq<Attribute>)
    ensures Unsupported(coa, attributes) <==> Unknown(coa, attributes)
  {
    if i :| 0 <= i < |attributes| && !AllowedKind(coa, attributes[i].kind) { assert attributes[i] in attributes; }
    if a :| a in attributes && !AllowedKind(coa, a.kind) { var i :| 0 <= i < |attributes| && attributes[i] == a; }
  }

  lemma ServiceFault(attributes: seq<Attribute>)
    ensures Given(attributes, 6) <==> Has(attributes, 6)
  {
    MembersExactly(attributes, 6);
  }

  lemma RepeatFault(attributes: seq<Attribute>)
    ensures Repeated(attributes, SINGLE) <==> Doubled(attributes)
  {
    forall k ensures Of(attributes, k).count > 1 <==> Twice(attributes, k) { MembersExactly(attributes, k); }
    assert SINGLE == {1, 4, 5, 27, 28, 29, 31, 32, 44, 87};
  }

  lemma SelectorFault(attributes: seq<Attribute>)
    ensures SelectorGiven(attributes) <==> exists a :: a in attributes && a.kind in {1, 5, 31, 44, 87}
  {
    forall k ensures Given(attributes, k) <==> Has(attributes, k) { MembersExactly(attributes, k); }
    if k :| k in SELECTORS && Given(attributes, k) {
      var i :| 0 <= i < |attributes| && attributes[i].kind == k;
      assert attributes[i] in attributes;
    }
    if a :| a in attributes && a.kind in {1, 5, 31, 44, 87} {
      var i :| 0 <= i < |attributes| && attributes[i] == a;
      assert Has(attributes, a.kind);
    }
  }

  lemma TunnelFault(attributes: seq<Attribute>)
    ensures TunnelsGiven(attributes) != {} && TunnelsGiven(attributes) != TUNNELS <==>
            exists k, l :: k in {64, 65, 81} && l in {64, 65, 81} && Has(attributes, k) && !Has(attributes, l)
    ensures !(exists k, l :: k in {64, 65, 81} && l in {64, 65, 81} && Has(attributes, k) && !Has(attributes, l)) ==>
              (TunnelsGiven(attributes) != {} <==> Has(attributes, 64))
  {
    MembersExactly(attributes, 64);
    MembersExactly(attributes, 65);
    MembersExactly(attributes, 81);
    var given := TunnelsGiven(attributes);
    assert 64 in given <==> Has(attributes, 64);
    assert 65 in given <==> Has(attributes, 65);
    assert 81 in given <==> Has(attributes, 81);
    assert given <= {64, 65, 81};
    if Has(attributes, 64) && Has(attributes, 65) && Has(attributes, 81) { assert given == TUNNELS; }
    if !Has(attributes, 64) && !Has(attributes, 65) && !Has(attributes, 81) { assert given == {}; }
  }

  lemma PartFault(attributes: seq<Attribute>)
    ensures Incomplete(attributes) <==> Partial(attributes)
  {
    SelectorFault(attributes);
    TunnelFault(attributes);
  }

  lemma UnsizedFault(attributes: seq<Attribute>)
    ensures AnyUnsized(attributes, SIZED) <==> exists a :: a in attributes && a.kind in {4, 5, 27, 28, 29} && |a.value| != 4
  {
    if k, v :| k in SIZED && v in Of(attributes, k).members && |v| != 4 {
      MembersExactly(attributes, k);
      assert Attribute(k, v) in attributes;
    }
    if a :| a in attributes && a.kind in {4, 5, 27, 28, 29} && |a.value| != 4 {
      MembersExactly(attributes, a.kind);
      assert a == Attribute(a.kind, a.value);
    }
  }

  lemma EmptyFault(attributes: seq<Attribute>)
    ensures AnyEmpty(attributes, FILLED) <==> exists a :: a in attributes && a.kind in {1, 32, 44, 87} && a.value == []
  {
    if k :| k in FILLED && [] in Of(attributes, k).members {
      MembersExactly(attributes, k);
      assert Attribute(k, []) in attributes;
    }
    if a :| a in attributes && a.kind in {1, 32, 44, 87} && a.value == [] {
      MembersExactly(attributes, a.kind);
      assert a == Attribute(a.kind, []);
    }
  }

  lemma MacFault(attributes: seq<Attribute>, mac: MacReader)
    ensures BadMac(attributes, mac) <==> exists a :: a in attributes && a.kind == 31 && mac(a.value) == None
  {
    MembersExactly(attributes, 31);
    if a :| a in attributes && a.kind == 31 && mac(a.value) == None { assert a == Attribute(31, a.value); }
    if v :| v in Of(attributes, 31).members && mac(v).None? { assert Attribute(31, v) in attributes; }
  }

  lemma ValueFault(attributes: seq<Attribute>, mac: MacReader)
    ensures Malformed(attributes, mac) <==> Broken(attributes, mac)
  {
    UnsizedFault(attributes);
    EmptyFault(attributes);
    MacFault(attributes, mac);
  }

  lemma TerminationFault(attributes: seq<Attribute>)
    ensures Control(attributes, 29).Some? && Control(attributes, 29).value > 1 <==> OddTermination(attributes)
  {
    forall v ensures Of(attributes, 29).only == Some(v) <==> OnlyValue(attributes, 29, v) { OnlyExactly(attributes, 29, v); }
  }

  /** The VLAN of a whole tunnel group. */
  lemma TunnelExactly(attributes: seq<Attribute>, vid: int)
    ensures TunnelTo(attributes, vid) <==>
            var t, m, g := Of(attributes, 64).only, Of(attributes, 65).only, Of(attributes, 81).only;
            t.Some? && m.Some? && g.Some? && Tunnel(t.value, m.value, g.value) == Some(vid)
  {
    forall v ensures Of(attributes, 64).only == Some(v) <==> OnlyValue(attributes, 64, v) { OnlyExactly(attributes, 64, v); }
    forall v ensures Of(attributes, 65).only == Some(v) <==> OnlyValue(attributes, 65, v) { OnlyExactly(attributes, 65, v); }
    forall v ensures Of(attributes, 81).only == Some(v) <==> OnlyValue(attributes, 81, v) { OnlyExactly(attributes, 81, v); }
  }

  lemma NasFault(attributes: seq<Attribute>, s: Session)
    ensures (NasGiven(attributes) ==> Identified(attributes, s)) <==> SameNas(attributes, s)
  {
    MembersExactly(attributes, 4);
    MembersExactly(attributes, 32);
    assert Given(attributes, 4) || Given(attributes, 32) <==> exists a :: a in attributes && (a.kind == 4 || a.kind == 32) by {
      if i :| 0 <= i < |attributes| && attributes[i].kind == 4 { assert attributes[i] in attributes; }
      if i :| 0 <= i < |attributes| && attributes[i].kind == 32 { assert attributes[i] in attributes; }
    }
    forall a | a in attributes ensures a == Attribute(a.kind, a.value) {}
  }

  /** What holds of every value of a type holds of every attribute of the type. */
  lemma ForType(attributes: seq<Attribute>, kind: int, test: Octets -> bool)
    ensures (forall v :: v in Of(attributes, kind).members ==> test(v)) <==>
            forall a :: a in attributes && a.kind == kind ==> test(a.value)
  {
    MembersExactly(attributes, kind);
    forall a | a in attributes && a.kind == kind ensures a == Attribute(kind, a.value) {}
    if v :| v in Of(attributes, kind).members && !test(v) { assert Attribute(kind, v) in attributes; }
  }

  lemma MatchForms(attributes: seq<Attribute>, mac: MacReader, ports: map<Id, Port>, s: Session)
    requires s.port in ports
    ensures Matches(attributes, mac, ports, s) <==>
            && (forall a :: a in attributes && a.kind == 5 ==> Number(a.value) == ports[s.port].bridgePort)
            && (forall a :: a in attributes && a.kind == 87 ==> a.value == ports[s.port].name)
            && (forall a :: a in attributes && a.kind == 44 ==> a.value == s.id)
            && (forall a :: a in attributes && a.kind == 1 ==> s.userName == Some(a.value))
            && (forall a :: a in attributes && a.kind == 31 ==> mac(a.value) == Some(s.mac))
  {
    ForType(attributes, 5, (v: Octets) => Number(v) == ports[s.port].bridgePort);
    ForType(attributes, 87, (v: Octets) => v == ports[s.port].name);
    ForType(attributes, 44, (v: Octets) => v == s.id);
    ForType(attributes, 1, (v: Octets) => s.userName == Some(v));
    ForType(attributes, 31, (v: Octets) => mac(v) == Some(s.mac));
  }

  lemma SessionFault(attributes: seq<Attribute>, mac: MacReader, ports: map<Id, Port>, s: Session)
    ensures Chosen(attributes, mac, ports, s) <==> Named(attributes, mac, ports, s)
  {
    NasFault(attributes, s);
    if s.port in ports {
      MatchForms(attributes, mac, ports, s);
    }
  }

  // ---------------------------------------------------------------------------------------------
  // The plan
  // ---------------------------------------------------------------------------------------------

  ghost function FaultAt(coa: bool, attributes: seq<Attribute>, mac: MacReader, r: Runtime): nat -> bool {
    (n: nat) => Fault(n, coa, attributes, mac, r)
  }

  lemma EarlyFaults(coa: bool, attributes: seq<Attribute>, mac: MacReader, r: Runtime)
    ensures var fault := FaultAt(coa, attributes, mac, r);
            && (fault(0) <==> coa && BadState(attributes)) && (fault(1) <==> Unsupported(coa, attributes))
            && (fault(2) <==> coa && Given(attributes, 6))
  {
    StateFault(attributes);
    KindFault(coa, attributes);
    ServiceFault(attributes);
  }

  lemma LaterFaults(coa: bool, attributes: seq<Attribute>, mac: MacReader, r: Runtime)
    ensures var fault := FaultAt(coa, attributes, mac, r);
            && (fault(3) <==> Repeated(attributes, SINGLE)) && (fault(4) <==> Incomplete(attributes)) && (fault(5) <==> Malformed(attributes, mac))
  {
    RepeatFault(attributes);
    PartFault(attributes);
    ValueFault(attributes, mac);
  }

  /** The faults that a request has on its own. */
  lemma RefusalExactly(coa: bool, attributes: seq<Attribute>, mac: MacReader, r: Runtime)
    ensures var fault := FaultAt(coa, attributes, mac, r);
            Refusal(coa, attributes, mac) ==
              if fault(0) then Some(404) else if fault(1) then Some(401) else if fault(2) then Some(405) else if fault(3) then Some(404)
              else if fault(4) then Some(402) else if fault(5) then Some(407) else None
  {
    EarlyFaults(coa, attributes, mac, r);
    LaterFaults(coa, attributes, mac, r);
  }

  /** The number a control attribute carries. */
  ghost predicate ControlIs(attributes: seq<Attribute>, kind: int, asked: Option<nat>) {
    match asked
    case Some(n) => exists v :: OnlyValue(attributes, kind, v) && Number(v) == n
    case None => forall v :: !OnlyValue(attributes, kind, v)
  }

  lemma ControlExactly(attributes: seq<Attribute>, kind: int)
    ensures ControlIs(attributes, kind, Control(attributes, kind))
  {
    forall v ensures Of(attributes, kind).only == Some(v) <==> OnlyValue(attributes, kind, v) { OnlyExactly(attributes, kind, v); }
  }

  /** What an accepted request asks for. */
  ghost predicate AsksFor(attributes: seq<Attribute>, ask: Ask) {
    && ask.Asked? && ControlIs(attributes, 27, ask.timeout) && ControlIs(attributes, 28, ask.idle) && ControlIs(attributes, 29, ask.termination)
    && forall vid :: ask.vid == Some(vid) <==> TunnelTo(attributes, vid)
  }

  lemma ReadForms(coa: bool, attributes: seq<Attribute>, mac: MacReader, vlans: set<int>)
    requires Refusal(coa, attributes, mac) == None && !Partial(attributes)
    ensures Read(coa, attributes, mac, vlans) ==
            Controls(Control(attributes, 27), Control(attributes, 28), Control(attributes, 29), Has(attributes, 64),
                     Of(attributes, 64).only, Of(attributes, 65).only, Of(attributes, 81).only, vlans)
  {
    TunnelFault(attributes);
  }

  lemma TunnelIsThere(attributes: seq<Attribute>, vid: int)
    ensures TunnelTo(attributes, vid) ==> Has(attributes, 64)
  {
    forall t | Attribute(64, t) in attributes ensures Has(attributes, 64) {
      var i :| 0 <= i < |attributes| && attributes[i] == Attribute(64, t);
    }
  }

  lemma ControlsExactly(attributes: seq<Attribute>, vlans: set<int>)
    ensures var ask := Controls(Control(attributes, 27), Control(attributes, 28), Control(attributes, 29), Has(attributes, 64),
                                Of(attributes, 64).only, Of(attributes, 65).only, Of(attributes, 81).only, vlans);
            if OddTermination(attributes) || BrokenTunnel(attributes, vlans) then ask == Refused(407) else AsksFor(attributes, ask)
  {
    TerminationFault(attributes);
    ControlExactly(attributes, 27);
    ControlExactly(attributes, 28);
    ControlExactly(attributes, 29);
    forall vid
      ensures TunnelTo(attributes, vid) <==>
              var t, m, g := Of(attributes, 64).only, Of(attributes, 65).only, Of(attributes, 81).only;
              Has(attributes, 64) && t.Some? && m.Some? && g.Some? && Tunnel(t.value, m.value, g.value) == Some(vid)
    {
      TunnelMeans(attributes, vid);
    }
  }

  lemma TunnelMeans(attributes: seq<Attribute>, vid: int)
    ensures TunnelTo(attributes, vid) <==>
            var t, m, g := Of(attributes, 64).only, Of(attributes, 65).only, Of(attributes, 81).only;
            Has(attributes, 64) && t.Some? && m.Some? && g.Some? && Tunnel(t.value, m.value, g.value) == Some(vid)
  {
    TunnelExactly(attributes, vid);
    TunnelIsThere(attributes, vid);
  }

  lemma NoRefusal(coa: bool, attributes: seq<Attribute>, mac: MacReader)
    requires Refusal(coa, attributes, mac) == None
    ensures !Incomplete(attributes)
  {
  }

  lemma FirstMeans(n: nat, coa: bool, attributes: seq<Attribute>, mac: MacReader, r: Runtime)
    requires First(n, coa, attributes, mac, r)
    ensures var fault := FaultAt(coa, attributes, mac, r); fault(n) && forall m: nat :: m < n ==> !fault(m)
  {
  }

  lemma ReadRefused(coa: bool, attributes: seq<Attribute>, mac: MacReader, r: Runtime, n: nat)
    requires n < 6 && First(n, coa, attributes, mac, r)
    ensures Read(coa, attributes, mac, r.vlans) == Refused(CauseOf(n))
  {
    FirstMeans(n, coa, attributes, mac, r);
    RefusalExactly(coa, attributes, mac, r);
  }

  lemma ReadAccepted(coa: bool, attributes: seq<Attribute>, mac: MacReader, vlans: set<int>)
    requires Refusal(coa, attributes, mac) == None
    ensures var ask := Read(coa, attributes, mac, vlans);
            if OddTermination(attributes) || BrokenTunnel(attributes, vlans) then ask == Refused(407) else AsksFor(attributes, ask)
  {
    PartFault(attributes);
    NoRefusal(coa, attributes, mac);
    ReadForms(coa, attributes, mac, vlans);
    ControlsExactly(attributes, vlans);
  }

  lemma NoneBefore(coa: bool, attributes: seq<Attribute>, mac: MacReader, r: Runtime)
    requires forall n: nat :: n < 6 ==> !Fault(n, coa, attributes, mac, r)
    ensures Refusal(coa, attributes, mac) == None
  {
    RefusalExactly(coa, attributes, mac, r);
  }

  lemma ReadLater(coa: bool, attributes: seq<Attribute>, mac: MacReader, r: Runtime)
    requires forall n: nat :: n < 6 ==> !Fault(n, coa, attributes, mac, r)
    ensures var ask, fault := Read(coa, attributes, mac, r.vlans), FaultAt(coa, attributes, mac, r);
            if fault(6) || fault(7) then ask == Refused(407) else AsksFor(attributes, ask)
  {
    NoneBefore(coa, attributes, mac, r);
    ReadAccepted(coa, attributes, mac, r.vlans);
  }

  lemma ReadExactly(coa: bool, attributes: seq<Attribute>, mac: MacReader, r: Runtime)
    ensures forall n: nat :: n < 8 && First(n, coa, attributes, mac, r) ==> Read(coa, attributes, mac, r.vlans) == Refused(CauseOf(n))
    ensures (forall n: nat :: n < 8 ==> !Fault(n, coa, attributes, mac, r)) ==> AsksFor(attributes, Read(coa, attributes, mac, r.vlans))
  {
    if n: nat :| n < 6 && Fault(n, coa, attributes, mac, r) {
      var m := FirstFault(n, coa, attributes, mac, r);
      ReadRefused(coa, attributes, mac, r, m);
    } else {
      ReadLater(coa, attributes, mac, r);
    }
  }

  /** Whom the request names among the sessions. */
  lemma SelectedNamed(attributes: seq<Attribute>, mac: MacReader, r: Runtime)
    ensures forall e :: e in Candidates(attributes, r.entries) <==> e in r.entries && SameNas(attributes, e.session)
    ensures forall e :: e in DynamicPlanner.Selected(attributes, mac, r) <==> e in r.entries && Named(attributes, mac, r.ports, e.session)
  {
    forall e ensures e in Candidates(attributes, r.entries) <==> e in r.entries && SameNas(attributes, e.session) {
      NasFault(attributes, e.session);
    }
    forall e ensures e in DynamicPlanner.Selected(attributes, mac, r) <==> e in r.entries && Named(attributes, mac, r.ports, e.session) {
      SelectedExactly(attributes, mac, r, e);
      SessionFault(attributes, mac, r.ports, e.session);
    }
  }

  lemma EmptySeq<T>(s: seq<T>)
    ensures s == [] <==> forall x :: x !in s
  {
    if s != [] { assert s[0] in s; }
  }

  lemma NoneNamed(attributes: seq<Attribute>, mac: MacReader, r: Runtime)
    ensures (forall e :: e in r.entries ==> !SameNas(attributes, e.session)) <==> Candidates(attributes, r.entries) == []
    ensures (forall e :: e in r.entries ==> !Named(attributes, mac, r.ports, e.session)) <==> DynamicPlanner.Selected(attributes, mac, r) == []
  {
    SelectedNamed(attributes, mac, r);
    EmptySeq(Candidates(attributes, r.entries));
    EmptySeq(DynamicPlanner.Selected(attributes, mac, r));
  }

  lemma BarredSelected(entries: seq<Entry>, r: Runtime, vid: int)
    ensures (exists i :: 0 <= i < |entries| && Forbidden(r, vid, entries[i].session)) <==> exists e :: e in entries && Forbidden(r, vid, e.session)
  {
    if i :| 0 <= i < |entries| && Forbidden(r, vid, entries[i].session) { assert entries[i] in entries; }
  }

  lemma BarredExactly(attributes: seq<Attribute>, mac: MacReader, r: Runtime, ask: Ask)
    requires AsksFor(attributes, ask)
    ensures Barred(attributes, mac, r) <==>
            var selected := DynamicPlanner.Selected(attributes, mac, r);
            ask.vid.Some? && exists i :: 0 <= i < |selected| && Forbidden(r, ask.vid.value, selected[i].session)
  {
    SelectedNamed(attributes, mac, r);
    if ask.vid.Some? { BarredSelected(DynamicPlanner.Selected(attributes, mac, r), r, ask.vid.value); }
  }

  lemma EntryFaults(coa: bool, attributes: seq<Attribute>, mac: MacReader, r: Runtime, ask: Ask)
    requires AsksFor(attributes, ask)
    ensures Fault(9, coa, attributes, mac, r) <==> Candidates(attributes, r.entries) == []
    ensures Fault(10, coa, attributes, mac, r) <==> DynamicPlanner.Selected(attributes, mac, r) == []
    ensures Fault(11, coa, attributes, mac, r) <==>
            var selected := DynamicPlanner.Selected(attributes, mac, r);
            ask.vid.Some? && exists i :: 0 <= i < |selected| && Forbidden(r, ask.vid.value, selected[i].session)
  {
    NoneNamed(attributes, mac, r);
    BarredExactly(attributes, mac, r, ask);
  }

  lemma PlanCases(coa: bool, attributes: seq<Attribute>, mac: MacReader, r: Runtime, ask: Ask)
    requires Read(coa, attributes, mac, r.vlans) == ask && ask.Asked?
    ensures var plan, selected := PlanDynamic(coa, attributes, mac, r), DynamicPlanner.Selected(attributes, mac, r);
            if r.entries == [] then plan == Nak(503)
            else if Candidates(attributes, r.entries) == [] then plan == Nak(403)
            else if selected == [] then plan == Nak(503)
            else if ask.vid.Some? && exists i :: 0 <= i < |selected| && Forbidden(r, ask.vid.value, selected[i].session) then plan == Nak(501)
            else plan.Ack?
  {
  }

  lemma PlanForms(coa: bool, attributes: seq<Attribute>, mac: MacReader, r: Runtime, ask: Ask)
    requires Read(coa, attributes, mac, r.vlans) == ask && AsksFor(attributes, ask)
    ensures var plan, fault := PlanDynamic(coa, attributes, mac, r), FaultAt(coa, attributes, mac, r);
            if fault(8) then plan == Nak(503)
            else if fault(9) then plan == Nak(403)
            else if fault(10) then plan == Nak(503)
            else if fault(11) then plan == Nak(501)
            else plan.Ack?
  {
    EntryFaults(coa, attributes, mac, r, ask);
    PlanCases(coa, attributes, mac, r, ask);
  }

  lemma PlanRefused(coa: bool, attributes: seq<Attribute>, mac: MacReader, r: Runtime, n: nat)
    requires n < FAULTS && First(n, coa, attributes, mac, r)
    ensures PlanDynamic(coa, attributes, mac, r) == Nak(CauseOf(n))
  {
    ReadExactly(coa, attributes, mac, r);
    if n >= 8 {
      FirstMeans(n, coa, attributes, mac, r);
      PlanForms(coa, attributes, mac, r, Read(coa, attributes, mac, r.vlans));
    }
  }

  lemma PlanAccepted(coa: bool, attributes: seq<Attribute>, mac: MacReader, r: Runtime)
    requires forall n: nat :: n < FAULTS ==> !Fault(n, coa, attributes, mac, r)
    ensures PlanDynamic(coa, attributes, mac, r).Ack?
  {
    ReadExactly(coa, attributes, mac, r);
    PlanForms(coa, attributes, mac, r, Read(coa, attributes, mac, r.vlans));
  }

  /** A request is refused with the cause of its first fault, and accepted exactly when it has none. */
  lemma PlanExactly(coa: bool, attributes: seq<Attribute>, mac: MacReader, r: Runtime)
    ensures forall n: nat :: n < FAULTS && First(n, coa, attributes, mac, r) ==> PlanDynamic(coa, attributes, mac, r) == Nak(CauseOf(n))
    ensures PlanDynamic(coa, attributes, mac, r).Ack? <==> forall n: nat :: n < FAULTS ==> !Fault(n, coa, attributes, mac, r)
  {
    forall n: nat | n < FAULTS && First(n, coa, attributes, mac, r) ensures PlanDynamic(coa, attributes, mac, r) == Nak(CauseOf(n)) {
      PlanRefused(coa, attributes, mac, r, n);
    }
    if n: nat :| n < FAULTS && Fault(n, coa, attributes, mac, r) {
      var m := FirstFault(n, coa, attributes, mac, r);
      PlanRefused(coa, attributes, mac, r, m);
    } else {
      PlanAccepted(coa, attributes, mac, r);
    }
  }

  lemma {:induction false} FirstFault(n: nat, coa: bool, attributes: seq<Attribute>, mac: MacReader, r: Runtime) returns (m: nat)
    requires Fault(n, coa, attributes, mac, r)
    ensures m <= n && First(m, coa, attributes, mac, r)
  {
    if k: nat :| k < n && Fault(k, coa, attributes, mac, r) {
      m := FirstFault(k, coa, attributes, mac, r);
    } else {
      m := n;
    }
  }

  /** An accepted request asks for what its attributes say, of exactly the sessions that agree with all of them. */
  lemma AckMeans(coa: bool, attributes: seq<Attribute>, mac: MacReader, r: Runtime, s: Session)
    requires PlanDynamic(coa, attributes, mac, r).Ack?
    ensures AsksFor(attributes, Read(coa, attributes, mac, r.vlans))
    ensures forall v :: Of(attributes, 24).only == Some(v) <==> OnlyValue(attributes, 24, v)
    ensures Chosen(attributes, mac, r.ports, s) <==> Named(attributes, mac, r.ports, s)
  {
    forall v ensures Of(attributes, 24).only == Some(v) <==> OnlyValue(attributes, 24, v) { OnlyExactly(attributes, 24, v); }
    PlanExactly(coa, attributes, mac, r);
    ReadExactly(coa, attributes, mac, r);
    SessionFault(attributes, mac, r.ports, s);
  }
}
