/**
 * The scoped check of every command decides exactly what the whole validator decides, from any valid configuration.
 */
module ScopedChecks {
  import opened Outcomes
  import opened Configuration
  import opened Commands
  import opened CommandFrames

  ghost const VALID: Configuration -> bool := cfg => Valid(cfg)

  /** The scoped verdict is the verdict of the whole validator. */
  ghost predicate Exact(a: Attempt) {
    a.Attempted? ==> (a.checked <==> Valid(a.candidate))
  }

  // ---------------------------------------------------------------------------------------------
  // Ports
  // ---------------------------------------------------------------------------------------------

  lemma OneMorePort(ports: map<Id, Port>, c: Chassis, vids: set<VlanId>, port: Id, hw: Hardware)
    requires InventoryOk(ports, c) && PortsOk(ports, vids) && DEFAULT_VLAN in vids && port !in ports
    requires hw.id == port && hw.ifIndex == c.nextIfIndex && hw.bridgePort == c.nextBridgePort
    ensures var more := ports[port := Port(hw, DEFAULT_POLICY)];
            && PortsOk(more, vids)
            && InventoryOk(more, c.(portCount := c.portCount + 1, nextBridgePort := c.nextBridgePort + 1,
                                    nextIfIndex := c.nextIfIndex + 1))
  {
    var more := ports[port := Port(hw, DEFAULT_POLICY)];
    assert |more| == |ports| + 1;
    assert PolicyOk(DEFAULT_POLICY, vids);
  }

  lemma MorePortsAttach(attachments: map<Id, Id>, endpoints: set<Id>, ports: map<Id, Port>, more: map<Id, Port>)
    requires AttachmentsOk(attachments, endpoints, ports)
    requires forall p :: p in ports ==> p in more && more[p].hw.mode == ports[p].hw.mode
    ensures AttachmentsOk(attachments, endpoints, more)
  {
  }

  lemma PortsCombine(cfg: Configuration, c: Configuration)
    requires Valid(cfg) && c == cfg.(ports := c.ports, chassis := c.chassis)
    requires PortsOk(c.ports, c.vlans.Keys) && InventoryOk(c.ports, c.chassis)
    requires AttachmentsOk(c.attachments, c.endpoints.Keys, c.ports)
    ensures Valid(c)
  {
  }

  lemma OneMoreAttaches(ports: map<Id, Port>, c: Chassis, vids: set<VlanId>, attachments: map<Id, Id>, endpoints: set<Id>, port: Id, hw: Hardware)
    returns (more: map<Id, Port>)
    requires InventoryOk(ports, c) && PortsOk(ports, vids) && DEFAULT_VLAN in vids && port !in ports
    requires AttachmentsOk(attachments, endpoints, ports)
    requires hw.id == port && hw.ifIndex == c.nextIfIndex && hw.bridgePort == c.nextBridgePort
    ensures more == ports[port := Port(hw, DEFAULT_POLICY)] && PortsOk(more, vids) && AttachmentsOk(attachments, endpoints, more)
    ensures InventoryOk(more, c.(portCount := c.portCount + 1, nextBridgePort := c.nextBridgePort + 1, nextIfIndex := c.nextIfIndex + 1))
  {
    more := ports[port := Port(hw, DEFAULT_POLICY)];
    OneMorePort(ports, c, vids, port, hw);
    MorePortsAttach(attachments, endpoints, ports, more);
  }

  lemma AddedPort(cfg: Configuration, c: Configuration, port: Id, hw: Hardware)
    requires Valid(cfg) && port !in cfg.ports
    requires hw.id == port && hw.ifIndex == cfg.chassis.nextIfIndex && hw.bridgePort == cfg.chassis.nextBridgePort
    requires c == cfg.(ports := cfg.ports[port := Port(hw, DEFAULT_POLICY)],
                       chassis := cfg.chassis.(portCount := cfg.chassis.portCount + 1,
                                               nextBridgePort := cfg.chassis.nextBridgePort + 1,
                                               nextIfIndex := cfg.chassis.nextIfIndex + 1))
    ensures Valid(c)
  {
    var more := OneMoreAttaches(cfg.ports, cfg.chassis, cfg.vlans.Keys, cfg.attachments, cfg.endpoints.Keys, port, hw);
    PortsCombine(cfg, c);
  }

  lemma CheckedAndValid(a: Attempt)
    requires a.Attempted? ==> a.checked && Valid(a.candidate)
    ensures Exact(a)
  {
  }

  lemma CreatedPortValid(cfg: Configuration, port: Id, name: Option<Text>, speed: Option<nat>, mtu: Option<nat>, c: Configuration)
    requires Valid(cfg) && CreatePort(cfg, port, name, speed, mtu).Attempted? && c == CreatePort(cfg, port, name, speed, mtu).candidate
    ensures Valid(c)
  {
    AddedPort(cfg, c, port, c.ports[port].hw);
  }

  lemma CreatePortExact(cfg: Configuration, port: Id, name: Option<Text>, speed: Option<nat>, mtu: Option<nat>)
    requires Valid(cfg)
    ensures Exact(CreatePort(cfg, port, name, speed, mtu))
  {
    var a := CreatePort(cfg, port, name, speed, mtu);
    if a.Attempted? {
      CreatedPortValid(cfg, port, name, speed, mtu, a.candidate);
    }
    CheckedAndValid(a);
  }

  lemma OneFewerPort(ports: map<Id, Port>, c: Chassis, vids: set<VlanId>, port: Id)
    requires InventoryOk(ports, c) && PortsOk(ports, vids) && port in ports
    ensures PortsOk(ports - {port}, vids) && InventoryOk(ports - {port}, c.(portCount := c.portCount - 1))
  {
    assert (ports - {port}).Keys == ports.Keys - {port};
    assert |ports - {port}| == |ports| - 1;
  }

  lemma FewerAttachments(attachments: map<Id, Id>, endpoints: set<Id>, ports: map<Id, Port>, gone: set<Id>, port: Id)
    requires AttachmentsOk(attachments, endpoints, ports)
    requires forall e :: e in attachments && attachments[e] == port ==> e in gone
    ensures AttachmentsOk(attachments - gone, endpoints, ports - {port})
  {
  }

  lemma DeletePortExact(cfg: Configuration, port: Id)
    requires Valid(cfg)
    ensures Exact(DeletePort(cfg, port))
  {
    if port in cfg.ports {
      OneFewerPort(cfg.ports, cfg.chassis, cfg.vlans.Keys, port);
      FewerAttachments(cfg.attachments, cfg.endpoints.Keys, cfg.ports, Attached(cfg, port), port);
    }
  }

  lemma TwoAttached(cfg: Configuration, port: Id, d: Id, e: Id)
    requires d in Attached(cfg, port) && e in Attached(cfg, port) && d != e
    ensures |Attached(cfg, port)| > 1
  {
    assert {d, e} <= Attached(cfg, port);
    assert |Attached(cfg, port)| == |{d, e}| + |Attached(cfg, port) - {d, e}|;
  }

  lemma EditedInventory(ports: map<Id, Port>, c: Chassis, port: Id, edited: Port)
    requires InventoryOk(ports, c) && port in ports
    requires edited.hw.ifIndex == ports[port].hw.ifIndex && edited.hw.bridgePort == ports[port].hw.bridgePort
    ensures InventoryOk(ports[port := edited], c)
  {
    assert |ports[port := edited]| == |ports|;
  }

  lemma EditedPolicy(ports: map<Id, Port>, vids: set<VlanId>, port: Id, edited: Port)
    requires PortsOk(ports, vids) && port in ports
    ensures PortsOk(ports[port := edited], vids) <==> edited.hw.id == port && PolicyOk(edited.policy, vids)
  {
    assert ports[port := edited][port] == edited;
  }

  lemma SameMemberships(p: Policy, q: Policy, vids: set<VlanId>)
    requires p.pvid == q.pvid && p.admitted == q.admitted && p.untagged == q.untagged && p.forbidden == q.forbidden
    ensures PolicyOk(p, vids) == PolicyOk(q, vids)
  {
  }

  lemma EditedMode(cfg: Configuration, port: Id, edited: Port)
    requires AttachmentsOk(cfg.attachments, cfg.endpoints.Keys, cfg.ports) && port in cfg.ports
    requires edited.hw.mode == cfg.ports[port].hw.mode || edited.hw.mode == Shared || |Attached(cfg, port)| <= 1
    ensures AttachmentsOk(cfg.attachments, cfg.endpoints.Keys, cfg.ports[port := edited])
  {
    var ports := cfg.ports[port := edited];
    forall d, e | d in cfg.attachments && e in cfg.attachments && d != e && cfg.attachments[d] == cfg.attachments[e]
      ensures ports[cfg.attachments[d]].hw.mode == Shared
    {
      if cfg.attachments[d] == port { TwoAttached(cfg, port, d, e); }
    }
  }

  lemma PatchedHardware(port: Port, p: PortPatch)
    ensures var q := Patched(port, p).hw;
            q.id == port.hw.id && q.ifIndex == port.hw.ifIndex && q.bridgePort == port.hw.bridgePort && q.mode == Or(p.mode, port.hw.mode)
  {
  }

  lemma PatchedSwitching(port: Port, p: PortPatch)
    requires p.pvid.None? && p.admitted.None? && p.untagged.None? && p.forbidden.None?
    ensures var q := Patched(port, p).policy;
            && q.pvid == port.policy.pvid && q.admitted == port.policy.admitted
            && q.untagged == port.policy.untagged && q.forbidden == port.policy.forbidden
  {
  }

  lemma PatchedKeeps(port: Port, p: PortPatch)
    ensures var q := Patched(port, p);
            q.hw.id == port.hw.id && q.hw.ifIndex == port.hw.ifIndex && q.hw.bridgePort == port.hw.bridgePort
            && q.hw.mode == Or(p.mode, port.hw.mode)
    ensures p.pvid.None? && p.admitted.None? && p.untagged.None? && p.forbidden.None? ==>
              var q := Patched(port, p);
              q.policy.pvid == port.policy.pvid && q.policy.admitted == port.policy.admitted
              && q.policy.untagged == port.policy.untagged && q.policy.forbidden == port.policy.forbidden
    ensures Completed(p, port).mode == p.mode
  {
    PatchedHardware(port, p);
    if p.pvid.None? && p.admitted.None? && p.untagged.None? && p.forbidden.None? { PatchedSwitching(port, p); }
  }

  lemma EditPortShape(cfg: Configuration, port: Id, patch: PortPatch)
    requires EditPort(cfg, port, patch).Attempted?
    ensures port in cfg.ports
    ensures var a := EditPort(cfg, port, patch);
            var saved := cfg.ports[port];
            var edited := Patched(saved, Completed(patch, saved));
            && a.candidate == cfg.(ports := cfg.ports[port := edited])
            && edited.hw.id == saved.hw.id && edited.hw.ifIndex == saved.hw.ifIndex
            && edited.hw.bridgePort == saved.hw.bridgePort
            && (edited.hw.mode == saved.hw.mode || edited.hw.mode == Shared || |Attached(cfg, port)| <= 1)
            && (saved.hw.id == port && PolicyOk(saved.policy, cfg.vlans.Keys) ==>
                  (a.checked <==> edited.hw.id == port && PolicyOk(edited.policy, cfg.vlans.Keys)))
  {
    var saved := cfg.ports[port];
    var p := Completed(patch, saved);
    PatchedKeeps(saved, p);
    PatchedKeeps(saved, patch);
    if !(p.pvid.Some? || p.admitted.Some? || p.untagged.Some? || p.forbidden.Some?) {
      SameMemberships(saved.policy, Patched(saved, p).policy, cfg.vlans.Keys);
    }
  }

  lemma EditPortExact(cfg: Configuration, port: Id, patch: PortPatch)
    requires Valid(cfg)
    ensures Exact(EditPort(cfg, port, patch))
  {
    var a := EditPort(cfg, port, patch);
    if a.Attempted? {
      EditPortShape(cfg, port, patch);
      var edited := Patched(cfg.ports[port], Completed(patch, cfg.ports[port]));
      EditedInventory(cfg.ports, cfg.chassis, port, edited);
      EditedPolicy(cfg.ports, cfg.vlans.Keys, port, edited);
      EditedMode(cfg, port, edited);
      EditPortCombines(cfg, port, edited, a.checked);
    }
  }

  lemma EditPortCombines(cfg: Configuration, port: Id, edited: Port, checked: bool)
    requires Valid(cfg) && InventoryOk(cfg.ports[port := edited], cfg.chassis)
    requires AttachmentsOk(cfg.attachments, cfg.endpoints.Keys, cfg.ports[port := edited])
    requires PortsOk(cfg.ports[port := edited], cfg.vlans.Keys) <==> checked
    ensures Valid(cfg.(ports := cfg.ports[port := edited])) <==> checked
  {
  }

  // ---------------------------------------------------------------------------------------------
  // VLANs and the switch record
  // ---------------------------------------------------------------------------------------------

  lemma MoreVids(p: Policy, vids: set<VlanId>, more: set<VlanId>)
    requires PolicyOk(p, vids) && vids <= more
    ensures PolicyOk(p, more)
  {
  }

  lemma OneMoreVlan(vlans: map<VlanId, Vlan>, legacy: VlanId, vlan: Vlan)
    requires VlansOk(vlans, legacy) && vlan.vid !in vlans
    ensures VlansOk(vlans[vlan.vid := vlan], legacy) <==> forall v :: v in vlans ==> vlans[v].fdbId != vlan.fdbId
  {
    var more := vlans[vlan.vid := vlan];
    assert forall v :: v in vlans ==> v in more && more[v] == vlans[v] && v != vlan.vid;
    assert more[vlan.vid] == vlan;
  }

  lemma MoreVidsPorts(ports: map<Id, Port>, vids: set<VlanId>, more: set<VlanId>)
    requires PortsOk(ports, vids) && vids <= more
    ensures PortsOk(ports, more)
  {
    forall p | p in ports ensures PolicyOk(ports[p].policy, more) {
      MoreVids(ports[p].policy, vids, more);
    }
  }

  lemma CreateVlanExact(cfg: Configuration, vid: VlanId, name: Option<VlanName>, fdbId: Option<nat>)
    requires Valid(cfg)
    ensures Exact(CreateVlan(cfg, vid, name, fdbId))
  {
    var a := CreateVlan(cfg, vid, name, fdbId);
    if a.Attempted? {
      OneMoreVlan(cfg.vlans, cfg.switch.legacyVlan, a.candidate.vlans[vid]);
      MoreVidsPorts(cfg.ports, cfg.vlans.Keys, a.candidate.vlans.Keys);
    }
  }

  lemma FewerVids(p: Policy, vids: set<VlanId>, vid: VlanId)
    requires PolicyOk(p, vids) && !Mentions(p, vid)
    ensures PolicyOk(p, vids - {vid})
  {
  }

  lemma OneFewerVlan(vlans: map<VlanId, Vlan>, legacy: VlanId, vid: VlanId)
    requires VlansOk(vlans, legacy) && vid != DEFAULT_VLAN
    ensures VlansOk(vlans - {vid}, if legacy == vid then DEFAULT_VLAN else legacy)
  {
  }

  lemma HardwareCounts(ports: map<Id, Port>, after: map<Id, Port>, c: Chassis)
    requires InventoryOk(ports, c) && ports.Keys == after.Keys && forall p :: p in ports ==> after[p].hw == ports[p].hw
    ensures InventoryOk(after, c)
  {
    assert |after| == |after.Keys| == |ports.Keys| == |ports|;
  }

  ghost predicate PortOk(ports: map<Id, Port>, p: Id, vids: set<VlanId>) {
    p in ports ==> ports[p].hw.id == p && PolicyOk(ports[p].policy, vids)
  }

  lemma PortsEach(ports: map<Id, Port>, vids: set<VlanId>)
    ensures PortsOk(ports, vids) <==> forall p :: p in ports ==> PortOk(ports, p, vids)
  {
  }

  lemma UntouchedPort(ports: map<Id, Port>, after: map<Id, Port>, vids: set<VlanId>, vid: VlanId, p: Id)
    requires PortsOk(ports, vids) && p in ports && p in after && after[p] == ports[p] && !Mentions(ports[p].policy, vid)
    ensures PortOk(after, p, vids - {vid})
  {
    FewerVids(ports[p].policy, vids, vid);
  }

  lemma BereftPorts(ports: map<Id, Port>, after: map<Id, Port>, c: Chassis, vids: set<VlanId>, vid: VlanId, touched: set<Id>)
    requires InventoryOk(ports, c) && PortsOk(ports, vids) && ports.Keys == after.Keys
    requires forall p :: p in ports ==> after[p].hw == ports[p].hw
    requires forall p :: p in ports && p !in touched ==> after[p] == ports[p] && !Mentions(ports[p].policy, vid)
    requires touched <= ports.Keys
    ensures InventoryOk(after, c)
    ensures PortsOk(after, vids - {vid}) <==>
            forall p :: p in touched ==> after[p].hw.id == p && PolicyOk(after[p].policy, vids - {vid})
  {
    HardwareCounts(ports, after, c);
    forall p | p in ports && p !in touched ensures PortOk(after, p, vids - {vid}) {
      UntouchedPort(ports, after, vids, vid, p);
    }
    PortsEach(after, vids - {vid});
    assert forall p :: p in touched ==> (PortOk(after, p, vids - {vid}) <==> after[p].hw.id == p && PolicyOk(after[p].policy, vids - {vid}));
  }

  lemma DeleteVlanCombines(cfg: Configuration, c: Configuration, checked: bool)
    requires Valid(cfg) && c == cfg.(vlans := c.vlans, ports := c.ports, switch := c.switch)
    requires VlansOk(c.vlans, c.switch.legacyVlan) && InventoryOk(c.ports, c.chassis)
    requires AttachmentsOk(c.attachments, c.endpoints.Keys, c.ports)
    requires PortsOk(c.ports, c.vlans.Keys) <==> checked
    ensures Valid(c) <==> checked
  {
  }

  lemma DeleteVlanShape(cfg: Configuration, vid: VlanId)
    requires vid in cfg.vlans && vid != DEFAULT_VLAN
    ensures var a := DeleteVlan(cfg, vid);
            && a.Attempted? && a.ports <= cfg.ports.Keys
            && a.candidate == cfg.(vlans := a.candidate.vlans, ports := a.candidate.ports, switch := a.candidate.switch)
            && a.candidate.vlans == cfg.vlans - {vid} && a.candidate.vlans.Keys == cfg.vlans.Keys - {vid}
            && a.candidate.switch.legacyVlan == (if cfg.switch.legacyVlan == vid then DEFAULT_VLAN else cfg.switch.legacyVlan)
            && a.candidate.ports.Keys == cfg.ports.Keys
            && (forall p :: p in cfg.ports ==> a.candidate.ports[p].hw == cfg.ports[p].hw)
            && (forall p :: p in cfg.ports && p !in a.ports ==>
                  a.candidate.ports[p] == cfg.ports[p] && !Mentions(cfg.ports[p].policy, vid))
            && (a.checked <==> forall p :: p in a.ports ==>
                  a.candidate.ports[p].hw.id == p && PolicyOk(a.candidate.ports[p].policy, cfg.vlans.Keys - {vid}))
  {
    assert (cfg.vlans - {vid}).Keys == cfg.vlans.Keys - {vid};
  }

  lemma DeleteVlanExact(cfg: Configuration, vid: VlanId)
    requires Valid(cfg)
    ensures Exact(DeleteVlan(cfg, vid))
  {
    if vid in cfg.vlans && vid != DEFAULT_VLAN {
      DeleteVlanShape(cfg, vid);
      var a := DeleteVlan(cfg, vid);
      OneFewerVlan(cfg.vlans, cfg.switch.legacyVlan, vid);
      BereftPorts(cfg.ports, a.candidate.ports, cfg.chassis, cfg.vlans.Keys, vid, a.ports);
      MorePortsAttach(cfg.attachments, cfg.endpoints.Keys, cfg.ports, a.candidate.ports);
      DeleteVlanCombines(cfg, a.candidate, a.checked);
    }
  }

  lemma RenamedVlan(vlans: map<VlanId, Vlan>, legacy: VlanId, vid: VlanId, name: VlanName)
    requires VlansOk(vlans, legacy) && vid in vlans
    ensures VlansOk(vlans[vid := vlans[vid].(name := name)], legacy)
    ensures vlans[vid := vlans[vid].(name := name)].Keys == vlans.Keys
  {
    var after := vlans[vid := vlans[vid].(name := name)];
    assert forall v :: v in after ==> v in vlans && after[v].fdbId == vlans[v].fdbId && after[v].vid == v;
  }

  lemma EditVlanExact(cfg: Configuration, vid: VlanId, name: VlanName)
    requires Valid(cfg)
    ensures Exact(EditVlan(cfg, vid, name))
  {
    if vid in cfg.vlans {
      RenamedVlan(cfg.vlans, cfg.switch.legacyVlan, vid, name);
    }
  }

  lemma EditSwitchExact(cfg: Configuration, e: SwitchPatch)
    requires Valid(cfg)
    ensures Exact(EditSwitch(cfg, e))
  {
  }

  // ---------------------------------------------------------------------------------------------
  // Endpoints and attachments
  // ---------------------------------------------------------------------------------------------

  lemma OneEndpoint(endpoints: map<Id, Endpoint>, materials: map<Id, Material>, e: Endpoint)
    requires EndpointsOk(endpoints) && EndpointProfilesOk(endpoints, materials)
    ensures EndpointsOk(endpoints[e.id := e]) <==> SourcesOk(e.sources)
    ensures EndpointProfilesOk(endpoints[e.id := e], materials) <==> SupplicantsOk(e.sources, materials)
  {
    assert endpoints[e.id := e][e.id] == e;
  }

  lemma MoreEndpointsAttach(attachments: map<Id, Id>, endpoints: set<Id>, ports: map<Id, Port>, more: set<Id>)
    requires AttachmentsOk(attachments, endpoints, ports)
    requires forall e :: e in attachments && e in endpoints ==> e in more
    ensures AttachmentsOk(attachments, more, ports)
  {
  }

  lemma EndpointCombines(cfg: Configuration, c: Configuration, checked: bool)
    requires Valid(cfg) && c == cfg.(endpoints := c.endpoints)
    requires EndpointsOk(c.endpoints) && AttachmentsOk(c.attachments, c.endpoints.Keys, c.ports)
    requires EndpointProfilesOk(c.endpoints, c.materials) <==> checked
    ensures Valid(c) <==> checked
  {
  }

  lemma CreateEndpointExact(cfg: Configuration, e: Endpoint)
    requires Valid(cfg)
    ensures Exact(CreateEndpoint(cfg, e))
  {
    var a := CreateEndpoint(cfg, e);
    if a.Attempted? {
      OneEndpoint(cfg.endpoints, cfg.materials, e);
      MoreEndpointsAttach(cfg.attachments, cfg.endpoints.Keys, cfg.ports, cfg.endpoints[e.id := e].Keys);
      EndpointCombines(cfg, a.candidate, a.checked);
    }
  }

  lemma EditEndpointExact(cfg: Configuration, endpoint: Id, name: Option<Text>, active: Option<bool>, sources: Option<seq<Source>>)
    requires Valid(cfg)
    ensures Exact(EditEndpoint(cfg, endpoint, name, active, sources))
  {
    var a := EditEndpoint(cfg, endpoint, name, active, sources);
    if a.Attempted? {
      var e := a.candidate.endpoints[endpoint];
      OneEndpoint(cfg.endpoints, cfg.materials, e);
      assert a.candidate.endpoints.Keys == cfg.endpoints.Keys;
      assert SupplicantsOk(cfg.endpoints[endpoint].sources, cfg.materials);
    }
  }

  lemma OneFewerEndpoint(endpoints: map<Id, Endpoint>, materials: map<Id, Material>, e: Id)
    requires EndpointsOk(endpoints) && EndpointProfilesOk(endpoints, materials)
    ensures EndpointsOk(endpoints - {e}) && EndpointProfilesOk(endpoints - {e}, materials)
  {
  }

  lemma DeleteEndpointExact(cfg: Configuration, endpoint: Id)
    requires Valid(cfg)
    ensures Exact(DeleteEndpoint(cfg, endpoint))
  {
    var a := DeleteEndpoint(cfg, endpoint);
    if a.Attempted? {
      OneFewerEndpoint(cfg.endpoints, cfg.materials, endpoint);
      MoreEndpointsAttach(cfg.attachments, cfg.endpoints.Keys, cfg.ports, (cfg.endpoints - {endpoint}).Keys);
      EndpointCombines(cfg, a.candidate, true);
    }
  }

  lemma OneMoreAttachment(cfg: Configuration, endpoint: Id, port: Id)
    requires AttachmentsOk(cfg.attachments, cfg.endpoints.Keys, cfg.ports) && endpoint in cfg.endpoints && port in cfg.ports
    requires cfg.ports[port].hw.mode == Shared || Attached(cfg, port) - {endpoint} == {}
    ensures AttachmentsOk(cfg.attachments[endpoint := port], cfg.endpoints.Keys, cfg.ports)
  {
    var attachments := cfg.attachments[endpoint := port];
    if cfg.ports[port].hw.mode != Shared {
      forall e | e in attachments && e != endpoint ensures attachments[e] != port {
        assert attachments[e] == port ==> e in Attached(cfg, port) - {endpoint};
      }
    }
  }

  lemma AttachExact(cfg: Configuration, endpoint: Id, port: Id)
    requires Valid(cfg)
    ensures Exact(AttachTo(cfg, endpoint, port))
  {
    if AttachTo(cfg, endpoint, port).Attempted? {
      OneMoreAttachment(cfg, endpoint, port);
    }
  }

  lemma OneFewerAttachment(attachments: map<Id, Id>, endpoints: set<Id>, ports: map<Id, Port>, endpoint: Id)
    requires AttachmentsOk(attachments, endpoints, ports)
    ensures AttachmentsOk(attachments - {endpoint}, endpoints, ports)
  {
  }

  lemma DetachExact(cfg: Configuration, endpoint: Id)
    requires Valid(cfg)
    ensures Exact(DetachFrom(cfg, endpoint))
  {
    OneFewerAttachment(cfg.attachments, cfg.endpoints.Keys, cfg.ports, endpoint);
  }

  lemma OneSupplicant(before: seq<Source>, after: seq<Source>, source: Id, profile: Option<Profile>, materials: map<Id, Material>)
    requires SourcesOk(before) && SupplicantsOk(before, materials) && |after| == |before|
    requires forall i :: 0 <= i < |before| ==>
      after[i] == if before[i].id == source then before[i].(supplicant := profile) else before[i]
    requires exists i :: 0 <= i < |before| && before[i].id == source
    ensures SourcesOk(after)
    ensures SupplicantsOk(after, materials) <==> (profile.Some? ==> ProfileOk(profile.value, materials))
  {
    var k :| 0 <= k < |before| && before[k].id == source;
    assert after[k].supplicant == profile;
    assert forall i :: 0 <= i < |after| ==> after[i].supplicant == profile || after[i].supplicant == before[i].supplicant;
  }

  lemma SaveSupplicantExact(cfg: Configuration, endpoint: Id, source: Id, profile: Option<Profile>)
    requires Valid(cfg)
    ensures Exact(SaveSupplicant(cfg, endpoint, source, profile))
  {
    var a := SaveSupplicant(cfg, endpoint, source, profile);
    if a.Attempted? {
      var before, e := cfg.endpoints[endpoint].sources, a.candidate.endpoints[endpoint];
      assert SupplicantsOk(before, cfg.materials);
      OneSupplicant(before, e.sources, source, profile, cfg.materials);
      OneEndpoint(cfg.endpoints, cfg.materials, e);
      assert a.candidate.endpoints.Keys == cfg.endpoints.Keys;
    }
  }

  // ---------------------------------------------------------------------------------------------
  // RADIUS records
  // ---------------------------------------------------------------------------------------------

  /** A profile that does not name the changed material is judged as before. */
  lemma UnrelatedProfile(p: Profile, before: map<Id, Material>, after: map<Id, Material>, m: Id)
    requires !Needs(p, m) && before - {m} == after - {m}
    ensures ProfileOk(p, before) == ProfileOk(p, after)
  {
    assert p.trust in before <==> p.trust in before - {m};
    assert p.trust in after <==> p.trust in after - {m};
    if p.client.Some? {
      assert p.client.value in before <==> p.client.value in before - {m};
      assert p.client.value in after <==> p.client.value in after - {m};
    }
  }

  ghost predicate TemplateDependentsOk(templates: map<Id, Template>, materials: map<Id, Material>, m: Id) {
    forall t :: t in templates && Needs(templates[t].profile, m) ==> ProfileOk(templates[t].profile, materials)
  }

  ghost predicate EndpointDependentsOk(endpoints: map<Id, Endpoint>, materials: map<Id, Material>, m: Id) {
    forall e, i :: e in endpoints && 0 <= i < |endpoints[e].sources| && endpoints[e].sources[i].supplicant.Some?
                   && Needs(endpoints[e].sources[i].supplicant.value, m) ==>
      ProfileOk(endpoints[e].sources[i].supplicant.value, materials)
  }

  lemma TemplateDependentsDecide(templates: map<Id, Template>, before: map<Id, Material>, after: map<Id, Material>, m: Id)
    requires TemplateProfilesOk(templates, before) && before - {m} == after - {m}
    ensures TemplateProfilesOk(templates, after) <==> TemplateDependentsOk(templates, after, m)
  {
    forall t | t in templates && !Needs(templates[t].profile, m) ensures ProfileOk(templates[t].profile, after) {
      UnrelatedProfile(templates[t].profile, before, after, m);
    }
  }

  lemma EndpointDependentsDecide(endpoints: map<Id, Endpoint>, before: map<Id, Material>, after: map<Id, Material>, m: Id)
    requires EndpointProfilesOk(endpoints, before) && before - {m} == after - {m}
    ensures EndpointProfilesOk(endpoints, after) <==> EndpointDependentsOk(endpoints, after, m)
  {
    forall e, i | e in endpoints && 0 <= i < |endpoints[e].sources| && endpoints[e].sources[i].supplicant.Some?
                  && !Needs(endpoints[e].sources[i].supplicant.value, m)
      ensures ProfileOk(endpoints[e].sources[i].supplicant.value, after)
    {
      assert SupplicantsOk(endpoints[e].sources, before);
      UnrelatedProfile(endpoints[e].sources[i].supplicant.value, before, after, m);
    }
    if EndpointProfilesOk(endpoints, after) {
      assert forall e :: e in endpoints ==> SupplicantsOk(endpoints[e].sources, after);
    }
    if EndpointDependentsOk(endpoints, after, m) {
      assert forall e :: e in endpoints ==> SupplicantsOk(endpoints[e].sources, after);
    }
  }

  /** Checking the dependents of one material decides all profiles. */
  lemma DependentsDecide(cfg: Configuration, c: Configuration, m: Id)
    requires EndpointProfilesOk(cfg.endpoints, cfg.materials) && TemplateProfilesOk(cfg.templates, cfg.materials)
    requires c.endpoints == cfg.endpoints && c.templates == cfg.templates && cfg.materials - {m} == c.materials - {m}
    ensures DependentsOk(c, m) <==> EndpointProfilesOk(c.endpoints, c.materials) && TemplateProfilesOk(c.templates, c.materials)
  {
    TemplateDependentsDecide(cfg.templates, cfg.materials, c.materials, m);
    EndpointDependentsDecide(cfg.endpoints, cfg.materials, c.materials, m);
    assert DependentsOk(c, m) <==> TemplateDependentsOk(c.templates, c.materials, m) && EndpointDependentsOk(c.endpoints, c.materials, m);
  }

  /** A material of unchanged kind, or one nothing refers to, changes no verdict on a profile. */
  lemma SameKind(p: Profile, before: map<Id, Material>, m: Material)
    requires ProfileOk(p, before) && (m.id in before ==> before[m.id].kind == m.kind)
    ensures ProfileOk(p, before[m.id := m])
  {
  }

  lemma SameKindProfiles(endpoints: map<Id, Endpoint>, templates: map<Id, Template>, before: map<Id, Material>, m: Material)
    requires EndpointProfilesOk(endpoints, before) && TemplateProfilesOk(templates, before)
    requires m.id in before ==> before[m.id].kind == m.kind
    ensures EndpointProfilesOk(endpoints, before[m.id := m]) && TemplateProfilesOk(templates, before[m.id := m])
  {
    forall t | t in templates ensures ProfileOk(templates[t].profile, before[m.id := m]) {
      SameKind(templates[t].profile, before, m);
    }
    forall e, i | e in endpoints && 0 <= i < |endpoints[e].sources| && endpoints[e].sources[i].supplicant.Some?
      ensures ProfileOk(endpoints[e].sources[i].supplicant.value, before[m.id := m])
    {
      assert SupplicantsOk(endpoints[e].sources, before);
      SameKind(endpoints[e].sources[i].supplicant.value, before, m);
    }
  }

  lemma RadiusCombines(cfg: Configuration, c: Configuration, checked: bool)
    requires Valid(cfg) && c == cfg.(materials := c.materials, templates := c.templates)
    requires RadiusOk(c.materials, c.templates, c.endpoints) <==> checked
    ensures Valid(c) <==> checked
  {
  }

  lemma OneMaterial(materials: map<Id, Material>, templates: map<Id, Template>, m: Material)
    requires MaterialsOk(materials, templates)
    ensures MaterialsOk(materials[m.id := m], templates) <==> |materials[m.id := m]| <= 128
  {
  }

  lemma SavedMaterialDecides(cfg: Configuration, m: Material)
    requires RadiusOk(cfg.materials, cfg.templates, cfg.endpoints)
    ensures var a := SaveMaterial(cfg, m); a.checked <==> RadiusOk(a.candidate.materials, cfg.templates, cfg.endpoints)
  {
    var c := SaveMaterial(cfg, m).candidate;
    assert cfg.materials - {m.id} == c.materials - {m.id};
    OneMaterial(cfg.materials, cfg.templates, m);
    if m.id in cfg.materials && cfg.materials[m.id].kind != m.kind {
      DependentsDecide(cfg, c, m.id);
    } else {
      SameKindProfiles(cfg.endpoints, cfg.templates, cfg.materials, m);
    }
  }

  lemma SaveMaterialExact(cfg: Configuration, m: Material)
    requires Valid(cfg)
    ensures Exact(SaveMaterial(cfg, m))
  {
    var a := SaveMaterial(cfg, m);
    SavedMaterialDecides(cfg, m);
    RadiusCombines(cfg, a.candidate, a.checked);
  }

  lemma DeleteMaterialExact(cfg: Configuration, id: Id)
    requires Valid(cfg)
    ensures Exact(DeleteMaterial(cfg, id))
  {
    if id in cfg.materials {
      var c := DeleteMaterial(cfg, id).candidate;
      assert cfg.materials - {id} == c.materials - {id};
      DependentsDecide(cfg, c, id);
      assert MaterialsOk(c.materials, c.templates) by { assert c.materials.Keys == cfg.materials.Keys - {id}; }
    }
  }

  lemma OneTemplate(materials: map<Id, Material>, templates: map<Id, Template>, t: Template)
    requires MaterialsOk(materials, templates) && TemplateProfilesOk(templates, materials)
    ensures TemplateProfilesOk(templates[t.id := t], materials) <==> ProfileOk(t.profile, materials)
    ensures MaterialsOk(materials, templates[t.id := t]) <==> |templates[t.id := t]| <= 256
  {
    assert templates[t.id := t][t.id] == t;
  }

  lemma SaveTemplateExact(cfg: Configuration, t: Template)
    requires Valid(cfg)
    ensures Exact(SaveTemplate(cfg, t))
  {
    var a := SaveTemplate(cfg, t);
    OneTemplate(cfg.materials, cfg.templates, t);
    RadiusCombines(cfg, a.candidate, a.checked);
  }

  lemma FewerTemplates(materials: map<Id, Material>, templates: map<Id, Template>, id: Id)
    requires MaterialsOk(materials, templates) && TemplateProfilesOk(templates, materials) && id in templates
    ensures MaterialsOk(materials, templates - {id}) && TemplateProfilesOk(templates - {id}, materials)
  {
    assert (templates - {id}).Keys == templates.Keys - {id};
  }

  lemma DeleteTemplateExact(cfg: Configuration, id: Id)
    requires Valid(cfg)
    ensures Exact(DeleteTemplate(cfg, id))
  {
    if id in cfg.templates {
      FewerTemplates(cfg.materials, cfg.templates, id);
      RadiusCombines(cfg, DeleteTemplate(cfg, id).candidate, true);
    }
  }

  ghost predicate DistinctServers(servers: seq<Server>) {
    forall i, j :: 0 <= i < j < |servers| ==> servers[i].id != servers[j].id
  }

  lemma {:induction false} OthersDistinct(servers: seq<Server>, id: Id)
    requires DistinctServers(servers)
    ensures DistinctServers(Others(servers, id))
  {
    if servers != [] {
      var last := |servers| - 1;
      OthersDistinct(servers[..last], id);
      var rest := Others(servers[..last], id);
      forall i | 0 <= i < |rest| ensures rest[i].id != servers[last].id {
        assert rest[i] in servers[..last];
      }
    }
  }

  lemma InsertedDistinct(others: seq<Server>, s: Server, at: nat)
    requires DistinctServers(others) && at <= |others|
    requires forall i :: 0 <= i < |others| ==> others[i].id != s.id
    ensures DistinctServers(others[..at] + [s] + others[at..])
  {
    var r := others[..at] + [s] + others[at..];
    forall i, j | 0 <= i < j < |r| ensures r[i].id != r[j].id {
      assert i < at ==> r[i] == others[i];
      assert j < at ==> r[j] == others[j];
      assert i > at ==> r[i] == others[i - 1];
      assert j > at ==> r[j] == others[j - 1];
    }
  }

  lemma PlacedDistinct(servers: seq<Server>, s: Server, position: Option<nat>)
    requires DistinctServers(servers)
    ensures DistinctServers(Placed(servers, s, position))
  {
    OthersDistinct(servers, s.id);
    var others := Others(servers, s.id);
    assert forall i :: 0 <= i < |others| ==> others[i] in others && others[i].id != s.id;
    var asked := Or(position, Position(servers, s.id));
    InsertedDistinct(others, s, if asked < |others| then asked else |others|);
  }

  lemma SaveServerExact(cfg: Configuration, s: Server, position: Option<nat>)
    requires Valid(cfg)
    ensures Exact(SaveServer(cfg, s, position))
  {
    PlacedDistinct(cfg.services.servers, s, position);
    assert ServersOk(Placed(cfg.services.servers, s, position)) <==> |Placed(cfg.services.servers, s, position)| <= 16;
  }

  lemma DeleteServerExact(cfg: Configuration, id: Id)
    requires Valid(cfg)
    ensures Exact(DeleteServer(cfg, id))
  {
    OthersDistinct(cfg.services.servers, id);
    assert ServersOk(Others(cfg.services.servers, id));
  }

  lemma SaveAccountingTargetExact(cfg: Configuration, s: Server, position: Option<nat>)
    requires Valid(cfg)
    ensures Exact(SaveAccountingTarget(cfg, s, position))
  {
    PlacedDistinct(cfg.services.targets, s, position);
    assert ServersOk(Placed(cfg.services.targets, s, position)) <==> |Placed(cfg.services.targets, s, position)| <= 16;
  }

  lemma DeleteAccountingTargetExact(cfg: Configuration, id: Id)
    requires Valid(cfg)
    ensures Exact(DeleteAccountingTarget(cfg, id))
  {
    OthersDistinct(cfg.services.targets, id);
    assert ServersOk(Others(cfg.services.targets, id));
  }

  ghost predicate DistinctSenders(senders: seq<Sender>) {
    && (forall i, j :: 0 <= i < j < |senders| ==> senders[i].id != senders[j].id)
    && AddressesOk(senders)
  }

  lemma AppendedDistinct(rest: seq<Sender>, s: Sender)
    requires DistinctSenders(rest)
    requires forall r :: r in rest ==> r.id != s.id && (r.enabled && s.enabled ==> r.address != s.address)
    ensures DistinctSenders(rest + [s])
  {
    assert forall i :: 0 <= i < |rest| ==> rest[i] in rest;
  }

  lemma LastSenderApart(senders: seq<Sender>, r: Sender)
    requires DistinctSenders(senders) && senders != [] && r in senders[..|senders| - 1]
    ensures var s := senders[|senders| - 1]; r.id != s.id && (r.enabled && s.enabled ==> r.address != s.address)
  {
    var i :| 0 <= i < |senders| - 1 && senders[i] == r;
  }

  lemma {:induction false} OtherSendersDistinct(senders: seq<Sender>, id: Id)
    requires DistinctSenders(senders)
    ensures DistinctSenders(OtherSenders(senders, id))
    ensures forall s :: s in OtherSenders(senders, id) ==> s in senders && s.id != id
  {
    if senders != [] {
      var before := senders[..|senders| - 1];
      OtherSendersDistinct(before, id);
      forall r | r in OtherSenders(before, id) { LastSenderApart(senders, r); }
      AppendedDistinct(OtherSenders(before, id), senders[|senders| - 1]);
    }
  }

  lemma OneSender(others: seq<Sender>, s: Sender)
    requires DistinctSenders(others) && forall i :: 0 <= i < |others| ==> others[i].id != s.id
    ensures SendersOk(others + [s]) <==> |others + [s]| <= 64 && (s.enabled ==> AddressesOk(others + [s]))
  {
  }

  lemma SaveSenderExact(cfg: Configuration, s: Sender)
    requires Valid(cfg)
    ensures Exact(SaveSender(cfg, s))
  {
    OtherSendersDistinct(cfg.services.senders, s.id);
    var others := OtherSenders(cfg.services.senders, s.id);
    assert forall i :: 0 <= i < |others| ==> others[i] in others;
    OneSender(others, s);
  }

  lemma DeleteSenderExact(cfg: Configuration, id: Id)
    requires Valid(cfg)
    ensures Exact(DeleteSender(cfg, id))
  {
    OtherSendersDistinct(cfg.services.senders, id);
  }

  lemma EditServicesExact(cfg: Configuration, options: Option<Text>, accounting: Option<Text>, dynamic: Option<Text>)
    requires Valid(cfg)
    ensures Exact(EditServices(cfg, options, accounting, dynamic))
  {
  }

  // ---------------------------------------------------------------------------------------------
  // SNMP access records
  // ---------------------------------------------------------------------------------------------

  lemma MoreViews(groups: map<Id, Group>, credentials: map<Id, Credential>, views: set<Id>, more: set<Id>)
    requires GroupsOk(groups, views) && CredentialsOk(credentials, groups.Keys, views) && views <= more
    ensures GroupsOk(groups, more) && CredentialsOk(credentials, groups.Keys, more)
  {
    forall c | c in credentials ensures CredentialOk(credentials[c], groups.Keys, more) {
      assert CredentialOk(credentials[c], groups.Keys, views);
    }
  }

  lemma SaveViewExact(cfg: Configuration, v: View)
    requires Valid(cfg)
    ensures Exact(SaveView(cfg, v))
  {
    MoreViews(cfg.groups, cfg.credentials, cfg.views.Keys, cfg.views[v.id := v].Keys);
  }

  lemma FewerViews(groups: map<Id, Group>, credentials: map<Id, Credential>, views: set<Id>, id: Id)
    requires GroupsOk(groups, views) && CredentialsOk(credentials, groups.Keys, views)
    ensures GroupsOk(groups, views - {id}) <==>
            forall g :: g in groups && Grasps(groups[g].grants, id) ==> GrantsOk(groups[g].grants, views - {id})
    ensures CredentialsOk(credentials, groups.Keys, views - {id}) <==>
            forall c :: c in credentials && GrantsOf(credentials[c]).Some? && Grasps(GrantsOf(credentials[c]).value, id) ==>
              GrantsOk(GrantsOf(credentials[c]).value, views - {id})
  {
    forall g | g in groups && !Grasps(groups[g].grants, id) ensures GrantsOk(groups[g].grants, views - {id}) {
      assert GrantsOk(groups[g].grants, views);
    }
    forall c | c in credentials
      ensures CredentialOk(credentials[c], groups.Keys, views - {id}) <==>
              (GrantsOf(credentials[c]).Some? && Grasps(GrantsOf(credentials[c]).value, id) ==>
                 GrantsOk(GrantsOf(credentials[c]).value, views - {id}))
    {
      assert CredentialOk(credentials[c], groups.Keys, views);
    }
  }

  lemma ViewsCombine(cfg: Configuration, c: Configuration, checked: bool)
    requires Valid(cfg) && c == cfg.(views := c.views) && |c.views| <= MAX_RECORDS
    requires GroupsOk(c.groups, c.views.Keys) && CredentialsOk(c.credentials, c.groups.Keys, c.views.Keys) <==> checked
    ensures Valid(c) <==> checked
  {
  }

  lemma DeleteViewExact(cfg: Configuration, id: Id)
    requires Valid(cfg)
    ensures Exact(DeleteView(cfg, id))
  {
    if id in cfg.views {
      var a := DeleteView(cfg, id);
      FewerViews(cfg.groups, cfg.credentials, cfg.views.Keys, id);
      assert (cfg.views - {id}).Keys == cfg.views.Keys - {id};
      assert |cfg.views - {id}| == |cfg.views| - 1;
      ViewsCombine(cfg, a.candidate, a.checked);
    }
  }

  lemma OneGroup(groups: map<Id, Group>, views: set<Id>, g: Group)
    requires GroupsOk(groups, views)
    ensures GroupsOk(groups[g.id := g], views) <==> GrantsOk(g.grants, views)
  {
    assert groups[g.id := g][g.id] == g;
  }

  lemma MoreGroups(credentials: map<Id, Credential>, groups: set<Id>, more: set<Id>, views: set<Id>)
    requires CredentialsOk(credentials, groups, views) && groups <= more
    ensures CredentialsOk(credentials, more, views)
  {
    forall c | c in credentials ensures CredentialOk(credentials[c], more, views) {
      assert CredentialOk(credentials[c], groups, views);
    }
  }

  lemma SaveGroupExact(cfg: Configuration, g: Group)
    requires Valid(cfg)
    ensures Exact(SaveGroup(cfg, g))
  {
    OneGroup(cfg.groups, cfg.views.Keys, g);
    MoreGroups(cfg.credentials, cfg.groups.Keys, cfg.groups[g.id := g].Keys, cfg.views.Keys);
  }

  lemma FewerGroups(credentials: map<Id, Credential>, groups: set<Id>, views: set<Id>, id: Id)
    requires CredentialsOk(credentials, groups, views)
    ensures CredentialsOk(credentials, groups - {id}, views) <==>
            forall c :: c in credentials && credentials[c].User? && credentials[c].group == Some(id) ==>
              CredentialOk(credentials[c], groups - {id}, views)
  {
    forall c | c in credentials && !(credentials[c].User? && credentials[c].group == Some(id))
      ensures CredentialOk(credentials[c], groups - {id}, views)
    {
      assert CredentialOk(credentials[c], groups, views);
    }
  }

  lemma SnmpCombines(cfg: Configuration, c: Configuration, checked: bool)
    requires Valid(cfg) && c == cfg.(groups := c.groups, credentials := c.credentials, targets := c.targets)
    requires SnmpOk(c.views, c.groups, c.credentials, c.targets) <==> checked
    ensures Valid(c) <==> checked
  {
  }

  lemma DeletedGroupDecides(cfg: Configuration, id: Id)
    requires SnmpOk(cfg.views, cfg.groups, cfg.credentials, cfg.targets) && id in cfg.groups
    ensures DeleteGroup(cfg, id).checked <==> SnmpOk(cfg.views, cfg.groups - {id}, cfg.credentials, cfg.targets)
  {
    FewerGroups(cfg.credentials, cfg.groups.Keys, cfg.views.Keys, id);
    assert (cfg.groups - {id}).Keys == cfg.groups.Keys - {id};
    assert |cfg.groups - {id}| == |cfg.groups| - 1;
  }

  lemma DeleteGroupExact(cfg: Configuration, id: Id)
    requires Valid(cfg)
    ensures Exact(DeleteGroup(cfg, id))
  {
    if id in cfg.groups {
      var a := DeleteGroup(cfg, id);
      DeletedGroupDecides(cfg, id);
      SnmpCombines(cfg, a.candidate, a.checked);
    }
  }

  lemma OneCredential(credentials: map<Id, Credential>, groups: set<Id>, views: set<Id>, c: Credential)
    requires CredentialsOk(credentials, groups, views)
    ensures CredentialsOk(credentials[c.id := c], groups, views) <==> CredentialOk(c, groups, views)
  {
    assert credentials[c.id := c][c.id] == c;
  }

  /** A disabled credential cannot collide, so saving one needs no identity test. */
  lemma DisabledNeverCollides(credentials: map<Id, Credential>, c: Credential)
    requires IdentitiesOk(credentials) && !c.enabled
    ensures IdentitiesOk(credentials[c.id := c])
  {
  }

  lemma MoreCredentials(targets: map<Id, Target>, credentials: set<Id>, more: set<Id>)
    requires TargetsOk(targets, credentials) && credentials <= more
    ensures TargetsOk(targets, more)
  {
  }

  lemma SaveCredentialExact(cfg: Configuration, c: Credential, kept: Option<Group>)
    requires Valid(cfg)
    ensures Exact(SaveCredential(cfg, c, kept))
  {
    var a := SaveCredential(cfg, c, kept);
    if a.Attempted? {
      var groups, credentials := a.candidate.groups, a.candidate.credentials;
      if kept.Some? { OneGroup(cfg.groups, cfg.views.Keys, kept.value); }
      MoreGroups(cfg.credentials, cfg.groups.Keys, groups.Keys, cfg.views.Keys);
      OneCredential(cfg.credentials, groups.Keys, cfg.views.Keys, c);
      if !c.enabled { DisabledNeverCollides(cfg.credentials, c); }
      MoreCredentials(cfg.targets, cfg.credentials.Keys, credentials.Keys);
      SnmpCombines(cfg, a.candidate, a.checked);
    }
  }

  lemma FewerCredentials(credentials: map<Id, Credential>, groups: set<Id>, views: set<Id>, targets: map<Id, Target>, id: Id)
    requires CredentialsOk(credentials, groups, views) && IdentitiesOk(credentials) && TargetsOk(targets, credentials.Keys)
    ensures CredentialsOk(credentials - {id}, groups, views) && IdentitiesOk(credentials - {id})
    ensures TargetsOk(targets, (credentials - {id}).Keys) <==>
            forall t :: t in targets && targets[t].credential == id ==> TargetOk(targets[t], (credentials - {id}).Keys)
  {
  }

  lemma DeleteCredentialExact(cfg: Configuration, id: Id)
    requires Valid(cfg)
    ensures Exact(DeleteCredential(cfg, id))
  {
    if id in cfg.credentials {
      FewerCredentials(cfg.credentials, cfg.groups.Keys, cfg.views.Keys, cfg.targets, id);
      assert (cfg.credentials - {id}).Keys == cfg.credentials.Keys - {id};
    }
  }

  lemma OneTarget(targets: map<Id, Target>, credentials: set<Id>, t: Target)
    requires TargetsOk(targets, credentials)
    ensures TargetsOk(targets[t.id := t], credentials) <==> TargetOk(t, credentials)
  {
    assert targets[t.id := t][t.id] == t;
  }

  lemma SaveTargetExact(cfg: Configuration, t: Target, inline: Option<Credential>)
    requires Valid(cfg)
    ensures Exact(SaveTarget(cfg, t, inline))
  {
    var a := SaveTarget(cfg, t, inline);
    if a.Attempted? {
      var credentials := a.candidate.credentials;
      if inline.Some? {
        OneCredential(cfg.credentials, cfg.groups.Keys, cfg.views.Keys, inline.value);
        if !inline.value.enabled { DisabledNeverCollides(cfg.credentials, inline.value); }
      }
      MoreCredentials(cfg.targets, cfg.credentials.Keys, credentials.Keys);
      OneTarget(cfg.targets, credentials.Keys, t);
      SnmpCombines(cfg, a.candidate, a.checked);
    }
  }

  lemma DeleteTargetExact(cfg: Configuration, id: Id)
    requires Valid(cfg)
    ensures Exact(DeleteTarget(cfg, id))
  {
    if id in cfg.targets {
      assert (cfg.targets - {id}).Keys == cfg.targets.Keys - {id};
    }
  }

  // ---------------------------------------------------------------------------------------------
  // All commands
  // ---------------------------------------------------------------------------------------------

  lemma SwitchingCommandsExact(cfg: Configuration, c: SwitchingCommand)
    requires Valid(cfg)
    ensures Exact(TrySwitching(cfg, c))
  {
    match c
    case PortCreate(port, name, speed, mtu) => CreatePortExact(cfg, port, name, speed, mtu);
    case PortDelete(port) => DeletePortExact(cfg, port);
    case PortEdit(port, patch) => EditPortExact(cfg, port, patch);
    case VlanCreate(vid, octets, fdbId) => CreateVlanExact(cfg, vid, octets, fdbId);
    case VlanEdit(vid, rename) => EditVlanExact(cfg, vid, rename);
    case VlanDelete(vid) => DeleteVlanExact(cfg, vid);
    case SwitchEdit(edit) => EditSwitchExact(cfg, edit);
  }

  lemma EndpointRecordsExact(cfg: Configuration, c: EndpointCommand)
    requires Valid(cfg) && (c.EndpointCreate? || c.EndpointEdit? || c.EndpointDelete?)
    ensures Exact(TryEndpoints(cfg, c))
  {
    match c
    case EndpointCreate(record) => CreateEndpointExact(cfg, record);
    case EndpointEdit(endpoint, title, active, sources) => EditEndpointExact(cfg, endpoint, title, active, sources);
    case EndpointDelete(endpoint) => DeleteEndpointExact(cfg, endpoint);
  }

  lemma EndpointCommandsExact(cfg: Configuration, c: EndpointCommand)
    requires Valid(cfg)
    ensures Exact(TryEndpoints(cfg, c))
  {
    match c
    case Attach(endpoint, port) => AttachExact(cfg, endpoint, port);
    case Detach(endpoint) => DetachExact(cfg, endpoint);
    case SupplicantSave(endpoint, source, profile) => SaveSupplicantExact(cfg, endpoint, source, profile);
    case _ => EndpointRecordsExact(cfg, c);
  }

  lemma MaterialCommandsExact(cfg: Configuration, c: RadiusCommand)
    requires Valid(cfg) && (c.MaterialSave? || c.MaterialDelete? || c.TemplateSave? || c.TemplateDelete?)
    ensures Exact(TryRadius(cfg, c))
  {
    match c
    case MaterialSave(material) => SaveMaterialExact(cfg, material);
    case MaterialDelete(id) => DeleteMaterialExact(cfg, id);
    case TemplateSave(template) => SaveTemplateExact(cfg, template);
    case TemplateDelete(id) => DeleteTemplateExact(cfg, id);
  }

  lemma ServerCommandsExact(cfg: Configuration, c: RadiusCommand)
    requires Valid(cfg) && (c.ServerSave? || c.ServerDelete? || c.AccountingTargetSave? || c.AccountingTargetDelete?)
    ensures Exact(TryRadius(cfg, c))
  {
    match c
    case ServerSave(server, position) => SaveServerExact(cfg, server, position);
    case ServerDelete(id) => DeleteServerExact(cfg, id);
    case AccountingTargetSave(server, position) => SaveAccountingTargetExact(cfg, server, position);
    case AccountingTargetDelete(id) => DeleteAccountingTargetExact(cfg, id);
  }

  lemma SenderCommandsExact(cfg: Configuration, c: RadiusCommand)
    requires Valid(cfg) && (c.SenderSave? || c.SenderDelete? || c.ServicesEdit?)
    ensures Exact(TryRadius(cfg, c))
  {
    match c
    case SenderSave(sender) => SaveSenderExact(cfg, sender);
    case SenderDelete(id) => DeleteSenderExact(cfg, id);
    case ServicesEdit(options, accounting, dynamic) => EditServicesExact(cfg, options, accounting, dynamic);
  }

  lemma RadiusCommandsExact(cfg: Configuration, c: RadiusCommand)
    requires Valid(cfg)
    ensures Exact(TryRadius(cfg, c))
  {
    if c.MaterialSave? || c.MaterialDelete? || c.TemplateSave? || c.TemplateDelete? {
      MaterialCommandsExact(cfg, c);
    } else if c.SenderSave? || c.SenderDelete? || c.ServicesEdit? {
      SenderCommandsExact(cfg, c);
    } else {
      ServerCommandsExact(cfg, c);
    }
  }

  lemma ViewCommandsExact(cfg: Configuration, c: SnmpCommand)
    requires Valid(cfg) && (c.ViewSave? || c.ViewDelete? || c.GroupSave? || c.GroupDelete?)
    ensures Exact(TrySnmp(cfg, c))
  {
    match c
    case ViewSave(view) => SaveViewExact(cfg, view);
    case ViewDelete(id) => DeleteViewExact(cfg, id);
    case GroupSave(group) => SaveGroupExact(cfg, group);
    case GroupDelete(id) => DeleteGroupExact(cfg, id);
  }

  lemma CredentialCommandsExact(cfg: Configuration, c: SnmpCommand)
    requires Valid(cfg) && (c.CredentialSave? || c.CredentialDelete? || c.TargetSave? || c.TargetDelete?)
    ensures Exact(TrySnmp(cfg, c))
  {
    match c
    case CredentialSave(credential, kept) => SaveCredentialExact(cfg, credential, kept);
    case CredentialDelete(id) => DeleteCredentialExact(cfg, id);
    case TargetSave(target, inline) => SaveTargetExact(cfg, target, inline);
    case TargetDelete(id) => DeleteTargetExact(cfg, id);
  }

  lemma SnmpCommandsExact(cfg: Configuration, c: SnmpCommand)
    requires Valid(cfg)
    ensures Exact(TrySnmp(cfg, c))
  {
    if c.ViewSave? || c.ViewDelete? || c.GroupSave? || c.GroupDelete? {
      ViewCommandsExact(cfg, c);
    } else {
      CredentialCommandsExact(cfg, c);
    }
  }

  /** The scoped check of every command is exactly the whole validator, on every valid configuration. */
  lemma ScopedIsWhole(cfg: Configuration, c: Command)
    requires Valid(cfg)
    ensures Exact(Try(cfg, c))
  {
    match c
    case Switching(switching) => SwitchingCommandsExact(cfg, switching);
    case Endpoints(endpoints) => EndpointCommandsExact(cfg, endpoints);
    case Radius(radius) => RadiusCommandsExact(cfg, radius);
    case Snmp(snmp) => SnmpCommandsExact(cfg, snmp);
    case SnmpSettings(_) =>
    case Pause(_) =>
  }

  // ---------------------------------------------------------------------------------------------
  // Capacities
  // ---------------------------------------------------------------------------------------------

  lemma SourceCountOfRest(endpoints: map<Id, Endpoint>, e: Id)
    ensures SourceCount(endpoints - {e}) <= SourceCount(endpoints)
    ensures |endpoints - {e}| <= |endpoints|
  {
    if e in endpoints {
      SourceCountSplits(endpoints, e);
      assert (endpoints - {e}).Keys == endpoints.Keys - {e};
    } else {
      assert endpoints - {e} == endpoints;
    }
  }

  /** Replacing an endpoint by one with as many sources changes no count. */
  lemma SourceCountOfReplaced(endpoints: map<Id, Endpoint>, e: Id, r: Endpoint)
    requires e in endpoints && |r.sources| == |endpoints[e].sources|
    ensures SourceCount(endpoints[e := r]) == SourceCount(endpoints) && |endpoints[e := r]| == |endpoints|
  {
    SourceCountSplits(endpoints, e);
    SourceCountSplits(endpoints[e := r], e);
    assert endpoints[e := r] - {e} == endpoints - {e};
  }

  lemma SizeOfReplaced(endpoints: map<Id, Endpoint>, e: Id, r: Endpoint)
    requires e in endpoints
    ensures |endpoints[e := r]| == |endpoints|
  {
  }

  lemma EditEndpointFits(cfg: Configuration, endpoint: Id, name: Option<Text>, active: Option<bool>, sources: Option<seq<Source>>)
    requires Fits(cfg) && EditEndpoint(cfg, endpoint, name, active, sources).Attempted?
    ensures var c := EditEndpoint(cfg, endpoint, name, active, sources).candidate;
            |c.endpoints| <= c.chassis.endpointLimit
            && (sources.None? ==> SourceCount(c.endpoints) <= c.chassis.sourceLimit)
  {
    var edited := EditEndpoint(cfg, endpoint, name, active, sources).candidate.endpoints[endpoint];
    SizeOfReplaced(cfg.endpoints, endpoint, edited);
    if sources.None? { SourceCountOfReplaced(cfg.endpoints, endpoint, edited); }
  }

  lemma SaveSupplicantFits(cfg: Configuration, endpoint: Id, source: Id, profile: Option<Profile>)
    requires Fits(cfg) && SaveSupplicant(cfg, endpoint, source, profile).Attempted?
    ensures Fits(SaveSupplicant(cfg, endpoint, source, profile).candidate)
  {
    SourceCountOfReplaced(cfg.endpoints, endpoint, SaveSupplicant(cfg, endpoint, source, profile).candidate.endpoints[endpoint]);
  }

  lemma PlainEndpointCommandsFit(cfg: Configuration, c: EndpointCommand)
    requires Fits(cfg) && Apply(cfg, Endpoints(c)).Ok? && (c.EndpointCreate? || c.Attach? || c.Detach?)
    ensures Fits(Apply(cfg, Endpoints(c)).value.cfg)
  {
  }

  lemma DeleteEndpointFits(cfg: Configuration, c: EndpointCommand)
    requires Fits(cfg) && Apply(cfg, Endpoints(c)).Ok? && c.EndpointDelete?
    ensures Fits(Apply(cfg, Endpoints(c)).value.cfg)
  {
    SourceCountOfRest(cfg.endpoints, c.endpoint);
  }

  lemma EndpointCommandsFit(cfg: Configuration, c: EndpointCommand)
    requires Fits(cfg) && Apply(cfg, Endpoints(c)).Ok?
    ensures Fits(Apply(cfg, Endpoints(c)).value.cfg)
  {
    match c
    case EndpointEdit(endpoint, title, active, sources) => EditEndpointFits(cfg, endpoint, title, active, sources);
    case SupplicantSave(endpoint, source, profile) => SaveSupplicantFits(cfg, endpoint, source, profile);
    case EndpointDelete(_) => DeleteEndpointFits(cfg, c);
    case _ => PlainEndpointCommandsFit(cfg, c);
  }

  /** Endpoints and the limits on them stay as they are. */
  ghost predicate Uncounted(cfg: Configuration, a: Attempt) {
    a.Attempted? ==>
      && a.candidate.endpoints == cfg.endpoints
      && a.candidate.chassis.endpointLimit == cfg.chassis.endpointLimit && a.candidate.chassis.sourceLimit == cfg.chassis.sourceLimit
  }

  lemma CreatePortUncounted(cfg: Configuration, port: Id, name: Option<Text>, speed: Option<nat>, mtu: Option<nat>)
    ensures Uncounted(cfg, CreatePort(cfg, port, name, speed, mtu))
  {
    if CreatePort(cfg, port, name, speed, mtu).Attempted? { CreatePortShape(cfg, port, name, speed, mtu); }
  }

  lemma DeletePortUncounted(cfg: Configuration, port: Id)
    ensures Uncounted(cfg, DeletePort(cfg, port))
  {
  }

  lemma EditPortUncounted(cfg: Configuration, port: Id, patch: PortPatch)
    ensures Uncounted(cfg, EditPort(cfg, port, patch))
  {
  }

  lemma CreateVlanUncounted(cfg: Configuration, vid: VlanId, name: Option<VlanName>, fdbId: Option<nat>)
    ensures Uncounted(cfg, CreateVlan(cfg, vid, name, fdbId))
  {
  }

  lemma EditVlanUncounted(cfg: Configuration, vid: VlanId, name: VlanName)
    ensures Uncounted(cfg, EditVlan(cfg, vid, name))
  {
  }

  lemma DeleteVlanUncounted(cfg: Configuration, vid: VlanId)
    ensures Uncounted(cfg, DeleteVlan(cfg, vid))
  {
  }

  lemma SwitchingUncounted(cfg: Configuration, c: SwitchingCommand)
    requires !c.SwitchEdit?
    ensures Uncounted(cfg, TrySwitching(cfg, c))
  {
    match c
    case PortCreate(port, name, speed, mtu) => CreatePortUncounted(cfg, port, name, speed, mtu);
    case PortDelete(port) => DeletePortUncounted(cfg, port);
    case PortEdit(port, patch) => EditPortUncounted(cfg, port, patch);
    case VlanCreate(vid, octets, fdbId) => CreateVlanUncounted(cfg, vid, octets, fdbId);
    case VlanEdit(vid, rename) => EditVlanUncounted(cfg, vid, rename);
    case VlanDelete(vid) => DeleteVlanUncounted(cfg, vid);
  }

  lemma EditSwitchKeepsEndpoints(cfg: Configuration, edit: SwitchPatch)
    ensures EditSwitch(cfg, edit).candidate.endpoints == cfg.endpoints
  {
  }

  lemma SwitchingCommandsFit(cfg: Configuration, c: SwitchingCommand)
    requires Fits(cfg) && Apply(cfg, Switching(c)).Ok?
    ensures Fits(Apply(cfg, Switching(c)).value.cfg)
  {
    if c.SwitchEdit? { EditSwitchKeepsEndpoints(cfg, c.edit); } else { SwitchingUncounted(cfg, c); }
  }

  lemma RecordsFit(cfg: Configuration, c: Command)
    requires Fits(cfg) && !c.Switching? && !c.Endpoints? && Apply(cfg, c).Ok?
    ensures Fits(Apply(cfg, c).value.cfg)
  {
    RecordsLeave(cfg, c);
  }

  lemma CommandsKeepFit(cfg: Configuration, c: Command)
    requires Fits(cfg) && Apply(cfg, c).Ok?
    ensures Fits(Apply(cfg, c).value.cfg)
  {
    match c
    case Switching(switching) => SwitchingCommandsFit(cfg, switching);
    case Endpoints(endpoints) => EndpointCommandsFit(cfg, endpoints);
    case _ => RecordsFit(cfg, c);
  }

  lemma AppliedExactly(cfg: Configuration, c: Command)
    requires Exact(Try(cfg, c))
    ensures Apply(cfg, c).Ok? ==> VALID(Apply(cfg, c).value.cfg)
    ensures Try(cfg, c).Attempted? ==> (Apply(cfg, c) == Err(Invalid) <==> !Valid(Try(cfg, c).candidate))
  {
  }

  /**
   * An accepted command turns a valid configuration within its capacities into another one; a command refused as invalid
   * is one whose candidate the whole validator refuses.
   */
  lemma CommandsKeepValidity(cfg: Configuration, c: Command)
    requires Valid(cfg) && Fits(cfg)
    ensures Apply(cfg, c).Ok? ==> Valid(Apply(cfg, c).value.cfg) && Fits(Apply(cfg, c).value.cfg)
    ensures Try(cfg, c).Attempted? ==> (Apply(cfg, c) == Err(Invalid) <==> !Valid(Try(cfg, c).candidate))
  {
    ScopedIsWhole(cfg, c);
    AppliedExactly(cfg, c);
    if Apply(cfg, c).Ok? { CommandsKeepFit(cfg, c); }
  }
}
