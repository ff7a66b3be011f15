/** What each command makes of the configuration: which record has changed to what, and that nothing else has. */
module CommandEffects {
  import opened Outcomes
  import opened Lists
  import opened Configuration
  import opened Commands

  /** A given field has the given value, any other the saved one. */
  ghost predicate Given<T(!new)>(patch: Option<T>, saved: T, now: T) {
    match patch
    case None => now == saved
    case Some(v) => now == v
  }

  /** One record was added or replaced. */
  ghost predicate Stored<K(!new), V(!new)>(before: map<K, V>, after: map<K, V>, key: K, record: V) {
    && key in after && after[key] == record
    && forall k :: k != key ==> (k in after <==> k in before) && (k in before ==> after[k] == before[k])
  }

  /** One record was taken out. */
  ghost predicate Gone<K(!new), V(!new)>(before: map<K, V>, after: map<K, V>, key: K) {
    && key in before && key !in after
    && forall k :: k != key ==> (k in after <==> k in before) && (k in before ==> after[k] == before[k])
  }

  // ---------------------------------------------------------------------------------------------
  // Ports
  // ---------------------------------------------------------------------------------------------

  ghost predicate NewPort(c: Chassis, port: Id, name: Option<Text>, speed: Option<nat>, mtu: Option<nat>, p: Port) {
    && p.hw.id == port && p.hw.ifIndex == c.nextIfIndex && p.hw.bridgePort == c.nextBridgePort
    && Given(name, c.nextBridgePort, p.hw.name) && Given(speed, 1000000000, p.hw.speed) && Given(mtu, 1500, p.hw.mtu)
    && p.hw.mode == Direct && !p.hw.sharedPartner && !p.hw.forcedDown
    && p.policy.alias == 0 && p.policy.adminUp && p.policy.pvid == 1 && p.policy.admitted == [1] && p.policy.untagged == [1]
    && p.policy.forbidden == [] && p.policy.linkNotifications
    && p.policy.authentication == Authentication(ForceAuthorized, Dot1xMab, SingleHost, true, false)
  }

  ghost predicate PortCreated(b: Configuration, a: Configuration, port: Id, name: Option<Text>, speed: Option<nat>, mtu: Option<nat>) {
    && a == b.(ports := a.ports, chassis := a.chassis)
    && port in a.ports && Stored(b.ports, a.ports, port, a.ports[port]) && NewPort(b.chassis, port, name, speed, mtu, a.ports[port])
    && a.chassis.portCount == b.chassis.portCount + 1
    && a.chassis.nextBridgePort == b.chassis.nextBridgePort + 1 && a.chassis.nextIfIndex == b.chassis.nextIfIndex + 1
    && a.chassis == b.chassis.(portCount := a.chassis.portCount, nextBridgePort := a.chassis.nextBridgePort,
                               nextIfIndex := a.chassis.nextIfIndex)
  }

  /** The port and the attachments to it are gone. */
  ghost predicate PortDeleted(b: Configuration, a: Configuration, port: Id) {
    && a == b.(ports := a.ports, attachments := a.attachments, chassis := a.chassis) && Gone(b.ports, a.ports, port)
    && (forall e :: e in a.attachments <==> e in b.attachments && b.attachments[e] != port)
    && (forall e :: e in a.attachments ==> a.attachments[e] == b.attachments[e])
    && a.chassis.portCount == b.chassis.portCount - 1 && a.chassis == b.chassis.(portCount := a.chassis.portCount)
  }

  ghost predicate HardwareEdited(p: Hardware, q: Hardware, patch: PortPatch) {
    && q.id == p.id && q.ifIndex == p.ifIndex && q.bridgePort == p.bridgePort
    && Given(patch.name, p.name, q.name) && Given(patch.mode, p.mode, q.mode) && Given(patch.forcedDown, p.forcedDown, q.forcedDown)
    && Given(patch.speed, p.speed, q.speed) && Given(patch.mtu, p.mtu, q.mtu)
    && (if patch.mode == Some(Shared) && p.mode == Direct then q.sharedPartner else Given(patch.sharedPartner, p.sharedPartner, q.sharedPartner))
  }

  /** A new PVID that comes without an untagged list takes the place of the old one in it. */
  ghost predicate UntaggedFollows(p: Policy, q: Policy, patch: PortPatch) {
    match (patch.untagged, patch.pvid)
    case (Some(list), _) => q.untagged == list
    case (None, None) => q.untagged == p.untagged
    case (None, Some(pvid)) =>
      if pvid == p.pvid then q.untagged == p.untagged
      else Ascending(q.untagged) && forall v :: v in q.untagged <==> v == pvid || (v in p.untagged && v != p.pvid)
  }

  ghost predicate PolicyEdited(p: Policy, q: Policy, patch: PortPatch) {
    && Given(patch.alias, p.alias, q.alias) && Given(patch.adminUp, p.adminUp, q.adminUp) && Given(patch.pvid, p.pvid, q.pvid)
    && Given(patch.admitted, p.admitted, q.admitted) && Given(patch.forbidden, p.forbidden, q.forbidden)
    && Given(patch.linkNotifications, p.linkNotifications, q.linkNotifications)
    && Given(patch.authentication, p.authentication, q.authentication)
    && UntaggedFollows(p, q, patch)
  }

  ghost predicate PortEdited(b: Configuration, a: Configuration, port: Id, patch: PortPatch) {
    && a == b.(ports := a.ports) && port in b.ports && port in a.ports && Stored(b.ports, a.ports, port, a.ports[port])
    && HardwareEdited(b.ports[port].hw, a.ports[port].hw, patch)
    && PolicyEdited(b.ports[port].policy, a.ports[port].policy, patch)
  }

  lemma CreatePortDoes(cfg: Configuration, port: Id, name: Option<Text>, speed: Option<nat>, mtu: Option<nat>)
    ensures var t := CreatePort(cfg, port, name, speed, mtu);
            && (t.Attempted? <==> port !in cfg.ports && |cfg.ports| < 256 && cfg.chassis.nextBridgePort <= 65535
                                  && cfg.chassis.nextIfIndex <= 2147483647)
            && (t.Attempted? ==> PortCreated(cfg, t.candidate, port, name, speed, mtu))
  {
  }

  lemma DeletePortDoes(cfg: Configuration, port: Id)
    ensures var t := DeletePort(cfg, port);
            (t.Attempted? <==> port in cfg.ports) && (t.Attempted? ==> PortDeleted(cfg, t.candidate, port))
  {
  }

  /** What a completion supplies as the untagged list. */
  lemma CompletedUntagged(patch: PortPatch, port: Port)
    ensures Completed(patch, port) == patch.(sharedPartner := Completed(patch, port).sharedPartner, untagged := Completed(patch, port).untagged)
    ensures UntaggedFollows(port.policy, port.policy.(untagged := Or(Completed(patch, port).untagged, port.policy.untagged)), patch)
  {
    if patch.pvid.Some? && patch.pvid.value != port.policy.pvid && patch.untagged.None? {
      var kept := Drop(port.policy.untagged, port.policy.pvid);
      assert forall v :: v in kept + [patch.pvid.value] <==> v in kept || v == patch.pvid.value;
    }
  }

  lemma CompletedPartner(patch: PortPatch, port: Port)
    ensures Completed(patch, port).sharedPartner ==
            if patch.mode == Some(Shared) && port.hw.mode == Direct then Some(true) else patch.sharedPartner
  {
  }

  lemma PatchedHardware(patch: PortPatch, p: PortPatch, port: Port)
    requires p == patch.(sharedPartner := p.sharedPartner, untagged := p.untagged)
    requires p.sharedPartner == if patch.mode == Some(Shared) && port.hw.mode == Direct then Some(true) else patch.sharedPartner
    ensures HardwareEdited(port.hw, Patched(port, p).hw, patch)
  {
  }

  lemma PatchedPolicy(patch: PortPatch, p: PortPatch, port: Port)
    requires p == patch.(sharedPartner := p.sharedPartner, untagged := p.untagged)
    requires UntaggedFollows(port.policy, port.policy.(untagged := Or(p.untagged, port.policy.untagged)), patch)
    ensures PolicyEdited(port.policy, Patched(port, p).policy, patch)
  {
  }

  /** The fields given and the two completions, and no more, change. */
  lemma CompletedDoes(patch: PortPatch, port: Port)
    ensures var q := Patched(port, Completed(patch, port));
            HardwareEdited(port.hw, q.hw, patch) && PolicyEdited(port.policy, q.policy, patch)
  {
    CompletedUntagged(patch, port);
    CompletedPartner(patch, port);
    PatchedHardware(patch, Completed(patch, port), port);
    PatchedPolicy(patch, Completed(patch, port), port);
  }

  /** Two endpoints share the port. */
  ghost predicate Shares(cfg: Configuration, port: Id) {
    exists d, e :: d in cfg.attachments && e in cfg.attachments && d != e && cfg.attachments[d] == port == cfg.attachments[e]
  }

  lemma TwoMembers(s: set<Id>)
    ensures |s| > 1 <==> exists d, e :: d in s && e in s && d != e
  {
    if |s| > 1 {
      var d :| d in s;
      assert |s - {d}| > 0;
      var e :| e in s - {d};
      assert e in s && d != e;
    }
    if d, e :| d in s && e in s && d != e { TwoCount(s, d, e); }
  }

  lemma TwoCount(s: set<Id>, d: Id, e: Id)
    requires d in s && e in s && d != e
    ensures |s| > 1
  {
    assert e in s - {d};
    assert |s - {d}| == |s| - 1;
  }

  lemma SharesExactly(cfg: Configuration, port: Id)
    ensures |Attached(cfg, port)| > 1 <==> Shares(cfg, port)
  {
    var all := Attached(cfg, port);
    TwoMembers(all);
    if d, e :| d in all && e in all && d != e { assert Shares(cfg, port); }
    if d, e :| d in cfg.attachments && e in cfg.attachments && d != e && cfg.attachments[d] == port == cfg.attachments[e] {
      assert d in all && e in all;
    }
  }

  lemma EditPortMakes(cfg: Configuration, port: Id, patch: PortPatch)
    requires port in cfg.ports && EditPort(cfg, port, patch).Attempted?
    ensures EditPort(cfg, port, patch).candidate == cfg.(ports := cfg.ports[port := Patched(cfg.ports[port], Completed(patch, cfg.ports[port]))])
  {
  }

  lemma OnePortEdited(cfg: Configuration, port: Id, patch: PortPatch, q: Port)
    requires port in cfg.ports
    requires HardwareEdited(cfg.ports[port].hw, q.hw, patch) && PolicyEdited(cfg.ports[port].policy, q.policy, patch)
    ensures PortEdited(cfg, cfg.(ports := cfg.ports[port := q]), port, patch)
  {
  }

  lemma EditPortTries(cfg: Configuration, port: Id, patch: PortPatch)
    ensures EditPort(cfg, port, patch).Attempted? <==> port in cfg.ports && !(patch.mode == Some(Direct) && |Attached(cfg, port)| > 1)
  {
  }

  lemma EditPortDoes(cfg: Configuration, port: Id, patch: PortPatch)
    ensures var t := EditPort(cfg, port, patch);
            && (t.Attempted? <==> port in cfg.ports && !(patch.mode == Some(Direct) && Shares(cfg, port)))
            && (t.Attempted? ==> PortEdited(cfg, t.candidate, port, patch))
  {
    SharesExactly(cfg, port);
    EditPortTries(cfg, port, patch);
    if EditPort(cfg, port, patch).Attempted? {
      EditPortMakes(cfg, port, patch);
      CompletedDoes(patch, cfg.ports[port]);
      OnePortEdited(cfg, port, patch, Patched(cfg.ports[port], Completed(patch, cfg.ports[port])));
    }
  }

  // ---------------------------------------------------------------------------------------------
  // VLANs and the switch record
  // ---------------------------------------------------------------------------------------------

  ghost predicate VlanCreated(b: Configuration, a: Configuration, vid: VlanId, name: Option<VlanName>, fdbId: Option<nat>) {
    && a == b.(vlans := a.vlans) && vid !in b.vlans && vid in a.vlans && Stored(b.vlans, a.vlans, vid, a.vlans[vid])
    && a.vlans[vid].vid == vid && Given(name, [], a.vlans[vid].name) && Given(fdbId, 1000 + vid, a.vlans[vid].fdbId)
  }

  ghost predicate VlanEdited(b: Configuration, a: Configuration, vid: VlanId, name: VlanName) {
    && a == b.(vlans := a.vlans) && vid in b.vlans && Stored(b.vlans, a.vlans, vid, Vlan(b.vlans[vid].vid, name, b.vlans[vid].fdbId))
  }

  /** The VLAN is in none of the lists; a port whose native VLAN it was has VLAN 1, untagged if it was untagged. */
  ghost predicate Stripped(p: Policy, q: Policy, vid: VlanId) {
    && q == p.(pvid := q.pvid, admitted := q.admitted, untagged := q.untagged, forbidden := q.forbidden)
    && q.pvid == (if p.pvid == vid then 1 else p.pvid)
    && (forall v :: v in q.admitted <==> (v in p.admitted && v != vid) || (v == 1 && p.pvid == vid))
    && (forall v :: v in q.untagged <==> (v in p.untagged && v != vid) || (v == 1 && p.pvid == vid && vid in p.untagged))
    && (forall v :: v in q.forbidden <==> v in p.forbidden && v != vid)
  }

  ghost predicate VlanDeleted(b: Configuration, a: Configuration, vid: VlanId) {
    && a == b.(vlans := a.vlans, ports := a.ports, switch := a.switch) && vid != 1 && Gone(b.vlans, a.vlans, vid)
    && a.switch == b.switch.(legacyVlan := if b.switch.legacyVlan == vid then 1 else b.switch.legacyVlan)
    && a.ports.Keys == b.ports.Keys
    && (forall p :: p in b.ports ==> a.ports[p].hw == b.ports[p].hw && Stripped(b.ports[p].policy, a.ports[p].policy, vid))
    && (forall p :: p in b.ports && !Mentions(b.ports[p].policy, vid) ==> a.ports[p] == b.ports[p])
  }

  ghost predicate SwitchEdited(b: Configuration, a: Configuration, e: SwitchPatch) {
    && a == b.(switch := a.switch, chassis := a.chassis)
    && Given(e.name, b.switch.name, a.switch.name) && Given(e.contact, b.switch.contact, a.switch.contact)
    && Given(e.location, b.switch.location, a.switch.location) && Given(e.identity, b.switch.identity, a.switch.identity)
    && Given(e.legacyVlan, b.switch.legacyVlan, a.switch.legacyVlan) && Given(e.agingSeconds, b.switch.agingSeconds, a.switch.agingSeconds)
    && Given(e.queueLimit, b.switch.queueLimit, a.switch.queueLimit)
    && Given(e.baseMac, b.chassis.baseMac, a.chassis.baseMac) && Given(e.description, b.chassis.description, a.chassis.description)
    && Given(e.fdbLimit, b.chassis.fdbLimit, a.chassis.fdbLimit) && Given(e.endpointLimit, b.chassis.endpointLimit, a.chassis.endpointLimit)
    && Given(e.sourceLimit, b.chassis.sourceLimit, a.chassis.sourceLimit)
    && a.chassis == b.chassis.(baseMac := a.chassis.baseMac, description := a.chassis.description, fdbLimit := a.chassis.fdbLimit,
                               endpointLimit := a.chassis.endpointLimit, sourceLimit := a.chassis.sourceLimit)
  }

  lemma CreateVlanDoes(cfg: Configuration, vid: VlanId, name: Option<VlanName>, fdbId: Option<nat>)
    ensures var t := CreateVlan(cfg, vid, name, fdbId);
            (t.Attempted? <==> vid !in cfg.vlans) && (t.Attempted? ==> VlanCreated(cfg, t.candidate, vid, name, fdbId))
  {
  }

  lemma EditVlanDoes(cfg: Configuration, vid: VlanId, name: VlanName)
    ensures var t := EditVlan(cfg, vid, name);
            (t.Attempted? <==> vid in cfg.vlans) && (t.Attempted? ==> VlanEdited(cfg, t.candidate, vid, name))
  {
  }

  lemma BereftStrips(p: Policy, vid: VlanId)
    requires vid != 1
    ensures Stripped(p, Bereft(p, vid), vid)
  {
    var admitted, untagged := Drop(p.admitted, vid), Drop(p.untagged, vid);
    assert forall v :: v in admitted + [DEFAULT_VLAN] <==> v in admitted || v == DEFAULT_VLAN;
    assert forall v :: v in untagged + [DEFAULT_VLAN] <==> v in untagged || v == DEFAULT_VLAN;
  }

  lemma UnmentionedStripped(p: Policy, vid: VlanId)
    requires !Mentions(p, vid)
    ensures Stripped(p, p, vid)
  {
  }

  lemma DeleteVlanDoes(cfg: Configuration, vid: VlanId)
    ensures var t := DeleteVlan(cfg, vid);
            (t.Attempted? <==> vid in cfg.vlans && vid != 1) && (t.Attempted? ==> VlanDeleted(cfg, t.candidate, vid))
  {
    if vid != 1 {
      forall p | p in cfg.ports && Mentions(cfg.ports[p].policy, vid) { BereftStrips(cfg.ports[p].policy, vid); }
      forall p | p in cfg.ports && !Mentions(cfg.ports[p].policy, vid) { UnmentionedStripped(cfg.ports[p].policy, vid); }
    }
  }

  lemma EditSwitchDoes(cfg: Configuration, e: SwitchPatch)
    ensures var t := EditSwitch(cfg, e); t.Attempted? && SwitchEdited(cfg, t.candidate, e)
  {
  }

  ghost predicate SwitchingPossible(cfg: Configuration, c: SwitchingCommand) {
    match c
    case PortCreate(port, _, _, _) =>
      port !in cfg.ports && |cfg.ports| < 256 && cfg.chassis.nextBridgePort <= 65535 && cfg.chassis.nextIfIndex <= 2147483647
    case PortDelete(port) => port in cfg.ports
    case PortEdit(port, patch) => port in cfg.ports && !(patch.mode == Some(Direct) && Shares(cfg, port))
    case VlanCreate(vid, _, _) => vid !in cfg.vlans
    case VlanEdit(vid, _) => vid in cfg.vlans
    case VlanDelete(vid) => vid in cfg.vlans && vid != 1
    case SwitchEdit(_) => true
  }

  ghost predicate SwitchingDone(b: Configuration, a: Configuration, c: SwitchingCommand) {
    match c
    case PortCreate(port, name, speed, mtu) => PortCreated(b, a, port, name, speed, mtu)
    case PortDelete(port) => PortDeleted(b, a, port)
    case PortEdit(port, patch) => PortEdited(b, a, port, patch)
    case VlanCreate(vid, octets, fdbId) => VlanCreated(b, a, vid, octets, fdbId)
    case VlanEdit(vid, rename) => VlanEdited(b, a, vid, rename)
    case VlanDelete(vid) => VlanDeleted(b, a, vid)
    case SwitchEdit(edit) => SwitchEdited(b, a, edit)
  }

  ghost predicate SwitchingMeant(cfg: Configuration, c: SwitchingCommand, t: Attempt) {
    (t.Attempted? <==> SwitchingPossible(cfg, c)) && (t.Attempted? ==> SwitchingDone(cfg, t.candidate, c))
  }

  /** A command on ports, VLANs or the switch is attempted exactly when it can be, and makes exactly the change that it names. */
  lemma SwitchingMeans(cfg: Configuration, c: SwitchingCommand)
    ensures SwitchingMeant(cfg, c, TrySwitching(cfg, c))
  {
    match c
    case PortCreate(port, name, speed, mtu) => CreatePortDoes(cfg, port, name, speed, mtu);
    case PortDelete(port) => DeletePortDoes(cfg, port);
    case PortEdit(port, patch) => EditPortDoes(cfg, port, patch);
    case VlanCreate(vid, octets, fdbId) => CreateVlanDoes(cfg, vid, octets, fdbId);
    case VlanEdit(vid, rename) => EditVlanDoes(cfg, vid, rename);
    case VlanDelete(vid) => DeleteVlanDoes(cfg, vid);
    case SwitchEdit(edit) => EditSwitchDoes(cfg, edit);
  }

  // ---------------------------------------------------------------------------------------------
  // Endpoints and attachments
  // ---------------------------------------------------------------------------------------------

  ghost predicate EndpointEdited(b: Configuration, a: Configuration, id: Id, name: Option<Text>, active: Option<bool>,
                                 sources: Option<seq<Source>>)
  {
    && a == b.(endpoints := a.endpoints) && id in b.endpoints && id in a.endpoints && Stored(b.endpoints, a.endpoints, id, a.endpoints[id])
    && a.endpoints[id].id == b.endpoints[id].id && a.endpoints[id].revision == b.endpoints[id].revision + 1
    && Given(name, b.endpoints[id].name, a.endpoints[id].name) && Given(active, b.endpoints[id].active, a.endpoints[id].active)
    && Given(sources, b.endpoints[id].sources, a.endpoints[id].sources)
  }

  /** The profile of one source is the given one. */
  ghost predicate SupplicantSaved(b: Configuration, a: Configuration, id: Id, source: Id, profile: Option<Profile>) {
    && a == b.(endpoints := a.endpoints) && id in b.endpoints && id in a.endpoints && Stored(b.endpoints, a.endpoints, id, a.endpoints[id])
    && a.endpoints[id] == b.endpoints[id].(sources := a.endpoints[id].sources, revision := b.endpoints[id].revision + 1)
    && |a.endpoints[id].sources| == |b.endpoints[id].sources|
    && forall i :: 0 <= i < |b.endpoints[id].sources| ==>
         var was, now := b.endpoints[id].sources[i], a.endpoints[id].sources[i];
         if was.id == source then now.supplicant == profile && now == was.(supplicant := now.supplicant) else now == was
  }

  ghost predicate EndpointsPossible(cfg: Configuration, c: EndpointCommand) {
    match c
    case EndpointCreate(record) => record.id !in cfg.endpoints && SourcesOk(record.sources)
    case EndpointEdit(id, _, _, sources) => id in cfg.endpoints && SourcesOk(Or(sources, cfg.endpoints[id].sources))
    case EndpointDelete(id) => id in cfg.endpoints && id !in cfg.attachments
    case Attach(id, port) =>
      && id in cfg.endpoints && port in cfg.ports
      && (cfg.ports[port].hw.mode == Shared || forall e :: e in cfg.attachments && cfg.attachments[e] == port ==> e == id)
    case Detach(id) => id in cfg.endpoints
    case SupplicantSave(id, source, _) => id in cfg.endpoints && exists s :: s in cfg.endpoints[id].sources && s.id == source
  }

  ghost predicate EndpointsDone(b: Configuration, a: Configuration, c: EndpointCommand) {
    match c
    case EndpointCreate(record) => a == b.(endpoints := a.endpoints) && record.id !in b.endpoints && Stored(b.endpoints, a.endpoints, record.id, record)
    case EndpointEdit(id, title, active, sources) => EndpointEdited(b, a, id, title, active, sources)
    case EndpointDelete(id) => a == b.(endpoints := a.endpoints) && Gone(b.endpoints, a.endpoints, id)
    case Attach(id, port) => a == b.(attachments := a.attachments) && Stored(b.attachments, a.attachments, id, port)
    case Detach(id) => a == b.(attachments := a.attachments) && (if id in b.attachments then Gone(b.attachments, a.attachments, id) else a == b)
    case SupplicantSave(id, source, profile) => SupplicantSaved(b, a, id, source, profile)
  }

  ghost predicate EndpointsMeant(cfg: Configuration, c: EndpointCommand, t: Attempt) {
    (t.Attempted? <==> EndpointsPossible(cfg, c)) && (t.Attempted? ==> EndpointsDone(cfg, t.candidate, c))
  }

  lemma EditEndpointDoes(cfg: Configuration, id: Id, title: Option<Text>, active: Option<bool>, sources: Option<seq<Source>>)
    ensures EndpointsMeant(cfg, EndpointEdit(id, title, active, sources), EditEndpoint(cfg, id, title, active, sources))
  {
  }

  lemma AloneExactly(cfg: Configuration, id: Id, port: Id)
    ensures Attached(cfg, port) - {id} == {} <==> forall e :: e in cfg.attachments && cfg.attachments[e] == port ==> e == id
  {
    if e :| e in cfg.attachments && cfg.attachments[e] == port && e != id { assert e in Attached(cfg, port) - {id}; }
    if e :| e in Attached(cfg, port) - {id} { assert e in cfg.attachments && cfg.attachments[e] == port && e != id; }
  }

  lemma AttachTries(cfg: Configuration, id: Id, port: Id)
    ensures var t := AttachTo(cfg, id, port);
            && (t.Attempted? <==> id in cfg.endpoints && port in cfg.ports
                                  && (cfg.ports[port].hw.mode == Shared || Attached(cfg, port) - {id} == {}))
            && (t.Attempted? ==> t.candidate == cfg.(attachments := cfg.attachments[id := port]))
  {
  }

  lemma AttachDoes(cfg: Configuration, id: Id, port: Id)
    ensures EndpointsMeant(cfg, Attach(id, port), AttachTo(cfg, id, port))
  {
    AttachTries(cfg, id, port);
    AloneExactly(cfg, id, port);
  }

  lemma DetachDoes(cfg: Configuration, id: Id)
    ensures EndpointsMeant(cfg, Detach(id), DetachFrom(cfg, id))
  {
    assert id !in cfg.attachments ==> cfg.attachments - {id} == cfg.attachments;
  }

  lemma SourceExists(sources: seq<Source>, source: Id)
    ensures (exists i :: 0 <= i < |sources| && sources[i].id == source) <==> exists s :: s in sources && s.id == source
  {
    if i :| 0 <= i < |sources| && sources[i].id == source { assert sources[i] in sources; }
  }

  lemma SupplicantMakes(cfg: Configuration, id: Id, source: Id, profile: Option<Profile>)
    requires SaveSupplicant(cfg, id, source, profile).Attempted?
    ensures SupplicantSaved(cfg, SaveSupplicant(cfg, id, source, profile).candidate, id, source, profile)
  {
  }

  lemma SupplicantDoes(cfg: Configuration, id: Id, source: Id, profile: Option<Profile>)
    ensures EndpointsMeant(cfg, SupplicantSave(id, source, profile), SaveSupplicant(cfg, id, source, profile))
  {
    if id in cfg.endpoints { SourceExists(cfg.endpoints[id].sources, source); }
    if SaveSupplicant(cfg, id, source, profile).Attempted? { SupplicantMakes(cfg, id, source, profile); }
  }

  lemma EndpointsMean(cfg: Configuration, c: EndpointCommand)
    ensures EndpointsMeant(cfg, c, TryEndpoints(cfg, c))
  {
    match c
    case EndpointCreate(_) =>
    case EndpointEdit(id, title, active, sources) => EditEndpointDoes(cfg, id, title, active, sources);
    case EndpointDelete(_) =>
    case Attach(id, port) => AttachDoes(cfg, id, port);
    case Detach(id) => DetachDoes(cfg, id);
    case SupplicantSave(id, source, profile) => SupplicantDoes(cfg, id, source, profile);
  }

  // ---------------------------------------------------------------------------------------------
  // RADIUS records
  // ---------------------------------------------------------------------------------------------

  /** The position of the only server with an id, or the length of the list. */
  ghost predicate ServerAt(servers: seq<Server>, id: Id, k: nat) {
    k <= |servers| && (k < |servers| ==> servers[k].id == id) && forall i :: 0 <= i < |servers| && servers[i].id == id ==> i == k
  }

  /** The list without the element at a position, if there is one. */
  ghost function Skipping<T>(list: seq<T>, k: nat): seq<T>
    requires k <= |list|
  {
    if k == |list| then list else list[..k] + list[k + 1..]
  }

  /** The server stands where it was asked for, or where it was, or last; the others are as they were. */
  ghost predicate ServerSaved(b: seq<Server>, a: seq<Server>, s: Server, position: Option<nat>) {
    exists k: nat, at: nat ::
      && ServerAt(b, s.id, k) && at < |a| && a[at] == s && Skipping(a, at) == Skipping(b, k)
      && var asked := if position.Some? then position.value else k;
         at == if asked < |a| - 1 then asked else |a| - 1
  }

  ghost predicate ServerGone(b: seq<Server>, a: seq<Server>, id: Id) {
    exists k: nat :: ServerAt(b, id, k) && k < |b| && a == Skipping(b, k)
  }

  lemma SkippingInit<T>(list: seq<T>, k: nat)
    requires list != [] && k <= |list|
    ensures var init := list[..|list| - 1];
            if k == |list| - 1 then Skipping(list, k) == init == Skipping(init, k)
            else if k == |list| then Skipping(list, k) == init + [list[|list| - 1]]
            else Skipping(list, k) == Skipping(init, k) + [list[|list| - 1]]
  {
    var init, last := list[..|list| - 1], list[|list| - 1];
    assert list == init + [last];
    if k < |list| - 1 {
      assert list[k + 1..] == init[k + 1..] + [last];
      assert list[..k] == init[..k];
    } else if k == |list| - 1 {
      assert list[k + 1..] == [];
    }
  }

  lemma {:induction false} OthersSkip(servers: seq<Server>, id: Id, k: nat)
    requires ServerAt(servers, id, k)
    ensures Others(servers, id) == Skipping(servers, k)
    decreases |servers|
  {
    if servers != [] {
      SkippingInit(servers, k);
      OthersSkip(servers[..|servers| - 1], id, if k < |servers| then k else |servers| - 1);
    }
  }

  lemma {:induction false} PositionIsAt(servers: seq<Server>, id: Id)
    requires forall i, j :: 0 <= i < j < |servers| ==> servers[i].id != servers[j].id
    ensures ServerAt(servers, id, Position(servers, id))
    decreases |servers|
  {
    if servers != [] && servers[0].id != id {
      var k := Position(servers[1..], id);
      PositionIsAt(servers[1..], id);
      assert k < |servers| - 1 ==> servers[k + 1] == servers[1..][k];
      forall i | 0 <= i < |servers| && servers[i].id == id ensures i == k + 1 { assert servers[i] == servers[1..][i - 1]; }
    }
  }

  lemma Inserted<T>(others: seq<T>, at: nat, s: T)
    requires at <= |others|
    ensures var a := others[..at] + [s] + others[at..]; |a| == |others| + 1 && a[at] == s && Skipping(a, at) == others
  {
    var a := others[..at] + [s] + others[at..];
    assert a[..at] == others[..at];
    if at < |others| { assert a[at + 1..] == others[at..]; }
  }

  lemma SavedAt(b: seq<Server>, a: seq<Server>, s: Server, position: Option<nat>, k: nat, at: nat)
    requires ServerAt(b, s.id, k) && at < |a| && a[at] == s && Skipping(a, at) == Skipping(b, k)
    requires at == if Or(position, k) < |a| - 1 then Or(position, k) else |a| - 1
    ensures ServerSaved(b, a, s, position)
  {
  }

  lemma PlacedSaves(servers: seq<Server>, s: Server, position: Option<nat>)
    requires forall i, j :: 0 <= i < j < |servers| ==> servers[i].id != servers[j].id
    ensures ServerSaved(servers, Placed(servers, s, position), s, position)
  {
    var k := Position(servers, s.id);
    PositionIsAt(servers, s.id);
    OthersSkip(servers, s.id, k);
    var others := Others(servers, s.id);
    var asked := Or(position, k);
    Inserted(others, if asked < |others| then asked else |others|, s);
    SavedAt(servers, Placed(servers, s, position), s, position, k, if asked < |others| then asked else |others|);
  }

  lemma OthersGone(servers: seq<Server>, id: Id)
    requires (forall i, j :: 0 <= i < j < |servers| ==> servers[i].id != servers[j].id) && Present(servers, id)
    ensures ServerGone(servers, Others(servers, id), id)
  {
    PositionIsAt(servers, id);
    OthersSkip(servers, id, Position(servers, id));
  }

  ghost predicate SenderAt(senders: seq<Sender>, id: Id, k: nat) {
    k <= |senders| && (k < |senders| ==> senders[k].id == id) && forall i :: 0 <= i < |senders| && senders[i].id == id ==> i == k
  }

  lemma {:induction false} OtherSendersSkip(senders: seq<Sender>, id: Id, k: nat)
    requires SenderAt(senders, id, k)
    ensures OtherSenders(senders, id) == Skipping(senders, k)
    decreases |senders|
  {
    if senders != [] {
      SkippingInit(senders, k);
      OtherSendersSkip(senders[..|senders| - 1], id, if k < |senders| then k else |senders| - 1);
    }
  }

  /** The sender is last, the others are as they were. */
  ghost predicate SenderSaved(b: seq<Sender>, a: seq<Sender>, s: Sender) {
    exists k: nat :: SenderAt(b, s.id, k) && a == Skipping(b, k) + [s]
  }

  ghost predicate SenderGone(b: seq<Sender>, a: seq<Sender>, id: Id) {
    exists k: nat :: SenderAt(b, id, k) && k < |b| && a == Skipping(b, k)
  }

  lemma SavedSender(senders: seq<Sender>, s: Sender)
    requires SendersOk(senders)
    ensures SenderSaved(senders, OtherSenders(senders, s.id) + [s], s)
  {
    var k := SenderFound(senders, s.id);
    OtherSendersSkip(senders, s.id, k);
  }

  lemma DeletedSender(senders: seq<Sender>, id: Id)
    requires SendersOk(senders) && exists s :: s in senders && s.id == id
    ensures SenderGone(senders, OtherSenders(senders, id), id)
  {
    var k := SenderFound(senders, id);
    OtherSendersSkip(senders, id, k);
  }

  /** Where a sender stands. */
  lemma SenderFound(senders: seq<Sender>, id: Id) returns (k: nat)
    requires forall i, j :: 0 <= i < j < |senders| ==> senders[i].id != senders[j].id
    ensures SenderAt(senders, id, k)
  {
    if i :| 0 <= i < |senders| && senders[i].id == id { k := i; } else { k := |senders|; }
  }

  ghost predicate RadiusPossible(cfg: Configuration, c: RadiusCommand) {
    match c
    case MaterialDelete(id) => id in cfg.materials
    case TemplateDelete(id) => id in cfg.templates
    case ServerDelete(id) => exists s :: s in cfg.services.servers && s.id == id
    case AccountingTargetDelete(id) => exists s :: s in cfg.services.targets && s.id == id
    case SenderDelete(id) => exists s :: s in cfg.services.senders && s.id == id
    case _ => true
  }

  /** Of the services, only these lists and texts changed. */
  ghost predicate ServicesChanged(b: Configuration, a: Configuration, s: Services) {
    a == b.(services := s)
  }

  ghost predicate RadiusDone(b: Configuration, a: Configuration, c: RadiusCommand) {
    var t := a.services;
    match c
    case MaterialSave(m) => a == b.(materials := a.materials) && Stored(b.materials, a.materials, m.id, m)
    case MaterialDelete(id) => a == b.(materials := a.materials) && Gone(b.materials, a.materials, id)
    case TemplateSave(t) => a == b.(templates := a.templates) && Stored(b.templates, a.templates, t.id, t)
    case TemplateDelete(id) => a == b.(templates := a.templates) && Gone(b.templates, a.templates, id)
    case ServerSave(s, position) =>
      ServicesChanged(b, a, b.services.(servers := t.servers)) && ServerSaved(b.services.servers, t.servers, s, position)
    case ServerDelete(id) => ServicesChanged(b, a, b.services.(servers := t.servers)) && ServerGone(b.services.servers, t.servers, id)
    case AccountingTargetSave(s, position) =>
      ServicesChanged(b, a, b.services.(targets := t.targets)) && ServerSaved(b.services.targets, t.targets, s, position)
    case AccountingTargetDelete(id) =>
      ServicesChanged(b, a, b.services.(targets := t.targets)) && ServerGone(b.services.targets, t.targets, id)
    case SenderSave(s) =>
      ServicesChanged(b, a, b.services.(senders := t.senders)) && SenderSaved(b.services.senders, t.senders, s)
    case SenderDelete(id) =>
      ServicesChanged(b, a, b.services.(senders := t.senders)) && SenderGone(b.services.senders, t.senders, id)
    case ServicesEdit(options, accounting, dynamic) =>
      && ServicesChanged(b, a, b.services.(options := t.options, accounting := t.accounting, dynamic := t.dynamic))
      && Given(options, b.services.options, t.options) && Given(accounting, b.services.accounting, t.accounting)
      && Given(dynamic, b.services.dynamic, t.dynamic)
  }

  ghost predicate RadiusMeant(cfg: Configuration, c: RadiusCommand, t: Attempt) {
    (t.Attempted? <==> RadiusPossible(cfg, c)) && (t.Attempted? ==> RadiusDone(cfg, t.candidate, c))
  }

  ghost function MeantRadius(cfg: Configuration, c: RadiusCommand): Attempt -> bool {
    (t: Attempt) => RadiusMeant(cfg, c, t)
  }

  lemma PresentExactly(servers: seq<Server>, id: Id)
    ensures Present(servers, id) <==> exists s :: s in servers && s.id == id
  {
    if i :| 0 <= i < |servers| && servers[i].id == id { assert servers[i] in servers; }
  }

  lemma MaterialsMean(cfg: Configuration, c: RadiusCommand)
    requires c.MaterialSave? || c.MaterialDelete?
    ensures MeantRadius(cfg, c)(TryRadius(cfg, c))
  {
  }

  lemma TemplatesMean(cfg: Configuration, c: RadiusCommand)
    requires c.TemplateSave? || c.TemplateDelete?
    ensures MeantRadius(cfg, c)(TryRadius(cfg, c))
  {
  }

  lemma ServersMean(cfg: Configuration, c: RadiusCommand)
    requires (c.ServerSave? || c.ServerDelete?) && ServersOk(cfg.services.servers)
    ensures MeantRadius(cfg, c)(TryRadius(cfg, c))
  {
    match c
    case ServerSave(s, position) => PlacedSaves(cfg.services.servers, s, position);
    case ServerDelete(id) =>
      PresentExactly(cfg.services.servers, id);
      if Present(cfg.services.servers, id) { OthersGone(cfg.services.servers, id); }
  }

  lemma TargetsMean(cfg: Configuration, c: RadiusCommand)
    requires (c.AccountingTargetSave? || c.AccountingTargetDelete?) && ServersOk(cfg.services.targets)
    ensures MeantRadius(cfg, c)(TryRadius(cfg, c))
  {
    match c
    case AccountingTargetSave(s, position) => PlacedSaves(cfg.services.targets, s, position);
    case AccountingTargetDelete(id) =>
      PresentExactly(cfg.services.targets, id);
      if Present(cfg.services.targets, id) { OthersGone(cfg.services.targets, id); }
  }

  lemma SenderExists(senders: seq<Sender>, id: Id)
    ensures (exists i :: 0 <= i < |senders| && senders[i].id == id) <==> exists s :: s in senders && s.id == id
  {
    if i :| 0 <= i < |senders| && senders[i].id == id { assert senders[i] in senders; }
  }

  lemma SaveSenderMeans(cfg: Configuration, s: Sender)
    requires SendersOk(cfg.services.senders)
    ensures MeantRadius(cfg, SenderSave(s))(SaveSender(cfg, s))
  {
    SavedSender(cfg.services.senders, s);
  }

  lemma DeleteSenderMeans(cfg: Configuration, id: Id)
    requires SendersOk(cfg.services.senders)
    ensures MeantRadius(cfg, SenderDelete(id))(DeleteSender(cfg, id))
  {
    SenderExists(cfg.services.senders, id);
    if exists s :: s in cfg.services.senders && s.id == id { DeletedSender(cfg.services.senders, id); }
  }

  /** A command on RADIUS records, of a valid configuration. */
  lemma RadiusMeans(cfg: Configuration, c: RadiusCommand)
    requires ServicesOk(cfg.services)
    ensures MeantRadius(cfg, c)(TryRadius(cfg, c))
  {
    if c.ServerSave? || c.ServerDelete? { ServersMean(cfg, c); }
    else if c.AccountingTargetSave? || c.AccountingTargetDelete? { TargetsMean(cfg, c); }
    else if c.SenderSave? { SaveSenderMeans(cfg, c.sender); }
    else if c.SenderDelete? { DeleteSenderMeans(cfg, c.id); }
    else if c.MaterialSave? || c.MaterialDelete? { MaterialsMean(cfg, c); }
    else if c.TemplateSave? || c.TemplateDelete? { TemplatesMean(cfg, c); }
  }

  // ---------------------------------------------------------------------------------------------
  // SNMP access records
  // ---------------------------------------------------------------------------------------------

  ghost predicate SnmpPossible(cfg: Configuration, c: SnmpCommand) {
    match c
    case ViewDelete(id) => id in cfg.views
    case GroupDelete(id) => id in cfg.groups
    case CredentialSave(_, kept) => kept.Some? ==> kept.value.id !in cfg.groups
    case CredentialDelete(id) => id in cfg.credentials
    case TargetSave(t, inline) => inline.Some? ==> inline.value.id !in cfg.credentials && inline.value.id == t.credential
    case TargetDelete(id) => id in cfg.targets
    case _ => true
  }

  ghost predicate SnmpDone(b: Configuration, a: Configuration, c: SnmpCommand) {
    match c
    case ViewSave(v) => a == b.(views := a.views) && Stored(b.views, a.views, v.id, v)
    case ViewDelete(id) => a == b.(views := a.views) && Gone(b.views, a.views, id)
    case GroupSave(g) => a == b.(groups := a.groups) && Stored(b.groups, a.groups, g.id, g)
    case GroupDelete(id) => a == b.(groups := a.groups) && Gone(b.groups, a.groups, id)
    case CredentialSave(r, kept) =>
      && a == b.(credentials := a.credentials, groups := a.groups) && Stored(b.credentials, a.credentials, r.id, r)
      && (if kept.Some? then Stored(b.groups, a.groups, kept.value.id, kept.value) else a.groups == b.groups)
    case CredentialDelete(id) => a == b.(credentials := a.credentials) && Gone(b.credentials, a.credentials, id)
    case TargetSave(t, inline) =>
      && a == b.(targets := a.targets, credentials := a.credentials) && Stored(b.targets, a.targets, t.id, t)
      && (if inline.Some? then Stored(b.credentials, a.credentials, inline.value.id, inline.value) else a.credentials == b.credentials)
    case TargetDelete(id) => a == b.(targets := a.targets) && Gone(b.targets, a.targets, id)
  }

  ghost predicate SnmpMeant(cfg: Configuration, c: SnmpCommand, t: Attempt) {
    (t.Attempted? <==> SnmpPossible(cfg, c)) && (t.Attempted? ==> SnmpDone(cfg, t.candidate, c))
  }

  ghost function MeantSnmp(cfg: Configuration, c: SnmpCommand): Attempt -> bool {
    (t: Attempt) => SnmpMeant(cfg, c, t)
  }

  lemma ViewsMean(cfg: Configuration, c: SnmpCommand)
    requires c.ViewSave? || c.ViewDelete?
    ensures MeantSnmp(cfg, c)(TrySnmp(cfg, c))
  {
  }

  lemma GroupsMean(cfg: Configuration, c: SnmpCommand)
    requires c.GroupSave? || c.GroupDelete?
    ensures MeantSnmp(cfg, c)(TrySnmp(cfg, c))
  {
  }

  lemma SaveCredentialMeans(cfg: Configuration, r: Credential, kept: Option<Group>)
    ensures MeantSnmp(cfg, CredentialSave(r, kept))(SaveCredential(cfg, r, kept))
  {
  }

  lemma DeleteCredentialMeans(cfg: Configuration, id: Id)
    ensures MeantSnmp(cfg, CredentialDelete(id))(DeleteCredential(cfg, id))
  {
  }

  lemma SaveTargetMeans(cfg: Configuration, t: Target, inline: Option<Credential>)
    ensures MeantSnmp(cfg, TargetSave(t, inline))(SaveTarget(cfg, t, inline))
  {
  }

  lemma DeleteTargetMeans(cfg: Configuration, id: Id)
    ensures MeantSnmp(cfg, TargetDelete(id))(DeleteTarget(cfg, id))
  {
  }

  lemma SnmpMeans(cfg: Configuration, c: SnmpCommand)
    ensures MeantSnmp(cfg, c)(TrySnmp(cfg, c))
  {
    match c
    case CredentialSave(r, kept) => SaveCredentialMeans(cfg, r, kept);
    case CredentialDelete(id) => DeleteCredentialMeans(cfg, id);
    case TargetSave(t, inline) => SaveTargetMeans(cfg, t, inline);
    case TargetDelete(id) => DeleteTargetMeans(cfg, id);
    case _ => if c.ViewSave? || c.ViewDelete? { ViewsMean(cfg, c); } else { GroupsMean(cfg, c); }
  }

  // ---------------------------------------------------------------------------------------------
  // All commands
  // ---------------------------------------------------------------------------------------------

  ghost predicate Possible(cfg: Configuration, c: Command) {
    match c
    case Switching(switching) => SwitchingPossible(cfg, switching)
    case Endpoints(endpoints) => EndpointsPossible(cfg, endpoints)
    case Radius(radius) => RadiusPossible(cfg, radius)
    case Snmp(snmp) => SnmpPossible(cfg, snmp)
    case _ => true
  }

  /** What the command names, and nothing else, has changed. */
  ghost predicate Done(b: Configuration, a: Configuration, c: Command) {
    match c
    case Switching(switching) => SwitchingDone(b, a, switching)
    case Endpoints(endpoints) => EndpointsDone(b, a, endpoints)
    case Radius(radius) => RadiusDone(b, a, radius)
    case Snmp(snmp) => SnmpDone(b, a, snmp)
    case SnmpSettings(text) => a.snmp == text && a == b.(snmp := a.snmp)
    case Pause(paused) => a.paused == paused && a == b.(paused := a.paused)
  }

  ghost predicate Meant(cfg: Configuration, c: Command, t: Attempt) {
    (t.Attempted? <==> Possible(cfg, c)) && (t.Attempted? ==> Done(cfg, t.candidate, c))
  }

  ghost function Meaning(cfg: Configuration, c: Command): Attempt -> bool {
    (t: Attempt) => Meant(cfg, c, t)
  }

  /** Every command is attempted exactly when it can be, and its candidate differs exactly by what the command names. */
  lemma CommandsMean(cfg: Configuration, c: Command)
    requires ServicesOk(cfg.services)
    ensures Meaning(cfg, c)(Try(cfg, c))
  {
    match c
    case Switching(switching) => SwitchingMeans(cfg, switching);
    case Endpoints(endpoints) => EndpointsMean(cfg, endpoints);
    case Radius(radius) => RadiusMeans(cfg, radius);
    case Snmp(snmp) => SnmpMeans(cfg, snmp);
    case SnmpSettings(_) =>
    case Pause(_) =>
  }
}
