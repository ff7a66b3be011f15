/**
 * The configuration and its whole validator.
 *
 * Identifiers, MAC addresses and texts are opaque: only equality (and, for identifiers and MAC addresses, order) is ever
 * used, so each is a natural number.  Field ranges that a record checks on its own are subset types.
 */
module Configuration {
  import opened Outcomes
  import opened Lists

  type Id = nat
  type Text = nat
  type Mac = nat
  type VlanId = x: int | 1 <= x <= 4094 witness 1
  type Number = x: int | 1 <= x witness 1
  type VlanName = s: Bytes | |s| <= 32 && Utf8(s) witness []
  type Millis = x: int | 1 <= x <= 86400000 witness 1
  type FrameSize = x: int | 64 <= x <= 9216 witness 64
  type Aging = x: int | 10 <= x <= 1000000 witness 300

  const DEFAULT_VLAN: VlanId := 1
  const FDB_BASE := 1000
  const MAX_RECORDS := 100
  const MAX_PORTS := 256

  datatype EapMethod = Tls | Peap
  datatype Profile = Profile(eap: EapMethod, trust: Id, client: Option<Id>, details: Text)
  datatype MaterialKind = Authority | Client
  datatype Material = Material(id: Id, kind: MaterialKind, details: Text)
  datatype Template = Template(id: Id, title: Text, revision: nat, profile: Profile)

  datatype Tag = Untagged | Tagged(vid: VlanId)
  datatype Source = Source(id: Id, mac: Mac, tag: Tag, initialDelay: Millis, interval: Millis, octets: FrameSize,
                           supplicant: Option<Profile>)
  datatype Endpoint = Endpoint(id: Id, name: Text, active: bool, sources: seq<Source>, revision: nat)

  datatype Control = ForceAuthorized | Auto | ForceUnauthorized
  datatype AuthMethod = Dot1x | Mab | Dot1xMab
  datatype HostMode = SingleHost | MultiAuth | MultiHost
  datatype Authentication = Authentication(control: Control, access: AuthMethod, hostMode: HostMode,
                                           fallbackNoSupplicant: bool, fallbackReject: bool)
  const DEFAULT_AUTHENTICATION := Authentication(ForceAuthorized, Dot1xMab, SingleHost, true, false)

  datatype Mode = Direct | Shared

  /** The physical half of a port. */
  datatype Hardware = Hardware(id: Id, ifIndex: Number, bridgePort: Number, name: Text, mode: Mode, sharedPartner: bool,
                               forcedDown: bool, speed: nat, mtu: nat)
  /** The half of a port that belongs to the saved startup policy. */
  datatype Policy = Policy(alias: Text, adminUp: bool, pvid: VlanId, admitted: seq<int>, untagged: seq<int>,
                           forbidden: seq<int>, linkNotifications: bool, authentication: Authentication)
  const DEFAULT_POLICY := Policy(0, true, 1, [1], [1], [], true, DEFAULT_AUTHENTICATION)

  datatype Port = Port(hw: Hardware, policy: Policy)

  datatype Vlan = Vlan(vid: VlanId, name: VlanName, fdbId: nat)

  /** The physical half of the switch record, and the half that is saved with the startup policy. */
  datatype Chassis = Chassis(id: Id, portCount: int, nextBridgePort: Number, nextIfIndex: Number, baseMac: Mac,
                             description: Text, fdbLimit: nat, endpointLimit: nat, sourceLimit: nat)
  datatype SwitchPolicy = SwitchPolicy(name: Text, contact: Text, location: Text, identity: Text, legacyVlan: VlanId,
                                       agingSeconds: Aging, queueLimit: nat)

  datatype Access = Access(enabled: bool, view: Option<Id>, networks: Text)
  datatype Grants = Grants(polling: Access, writing: Access)
  datatype View = View(id: Id, includes: seq<seq<nat>>)
  datatype Group = Group(id: Id, title: Text, grants: Grants)
  datatype Credential =
    | Community(id: Id, enabled: bool, name: Text, details: Text, grants: Grants)
    | User(id: Id, enabled: bool, name: Text, details: Text, group: Option<Id>)
  datatype Target = Target(id: Id, credential: Id, family: nat, sourceFamily: Option<nat>, details: Text)

  datatype Server = Server(id: Id, details: Text)
  datatype Sender = Sender(id: Id, enabled: bool, address: Text, details: Text)
  datatype Services = Services(options: Text, servers: seq<Server>, accounting: Text, targets: seq<Server>,
                               dynamic: Text, senders: seq<Sender>)

  datatype Configuration = Configuration(
    chassis: Chassis, switch: SwitchPolicy,
    ports: map<Id, Port>, vlans: map<VlanId, Vlan>,
    endpoints: map<Id, Endpoint>, attachments: map<Id, Id>, paused: bool,
    materials: map<Id, Material>, templates: map<Id, Template>,
    snmp: Text, views: map<Id, View>, groups: map<Id, Group>,
    credentials: map<Id, Credential>, targets: map<Id, Target>,
    services: Services)

  // ---------------------------------------------------------------------------------------------
  // The whole validator
  // ---------------------------------------------------------------------------------------------

  predicate VlansOk(vlans: map<VlanId, Vlan>, legacy: VlanId) {
    && DEFAULT_VLAN in vlans && legacy in vlans
    && (forall v :: v in vlans ==> vlans[v].vid == v)
    && (forall v, w :: v in vlans && w in vlans && v != w ==> vlans[v].fdbId != vlans[w].fdbId)
  }

  predicate InventoryOk(ports: map<Id, Port>, chassis: Chassis) {
    && |ports| == chassis.portCount
    && (forall p, q :: p in ports && q in ports && p != q ==>
          ports[p].hw.ifIndex != ports[q].hw.ifIndex && ports[p].hw.bridgePort != ports[q].hw.bridgePort)
    && (forall p :: p in ports ==> ports[p].hw.ifIndex < chassis.nextIfIndex && ports[p].hw.bridgePort < chassis.nextBridgePort)
  }

  /** `check_port`, but for the key. */
  predicate PolicyOk(p: Policy, vids: set<VlanId>) {
    && p.pvid in p.admitted
    && (forall v :: v in p.admitted ==> v in vids)
    && (forall v :: v in p.untagged ==> v in vids)
    && (forall v :: v in p.forbidden ==> v in vids)
    && NoDuplicates(p.admitted) && NoDuplicates(p.untagged) && NoDuplicates(p.forbidden)
    && (forall v :: v in p.untagged ==> v in p.admitted)
    && (forall v :: v in p.forbidden ==> v !in p.admitted)
  }

  predicate PortsOk(ports: map<Id, Port>, vids: set<VlanId>) {
    forall p :: p in ports ==> ports[p].hw.id == p && PolicyOk(ports[p].policy, vids)
  }

  predicate AttachmentsOk(attachments: map<Id, Id>, endpoints: set<Id>, ports: map<Id, Port>) {
    && (forall e :: e in attachments ==> e in endpoints && attachments[e] in ports)
    && (forall d, e | d in attachments && e in attachments && d != e && attachments[d] == attachments[e]
                      && attachments[d] in ports :: ports[attachments[d]].hw.mode == Shared)
  }

  predicate SourcesOk(sources: seq<Source>) {
    forall i, j :: 0 <= i < j < |sources| ==> sources[i].id != sources[j].id
  }

  predicate EndpointsOk(endpoints: map<Id, Endpoint>) {
    forall e :: e in endpoints ==> endpoints[e].id == e && SourcesOk(endpoints[e].sources)
  }

  /** `check_profile` */
  predicate ProfileOk(p: Profile, materials: map<Id, Material>) {
    && p.trust in materials && materials[p.trust].kind == Authority
    && (p.eap == Tls ==> p.client.Some?)
    && (p.client.Some? ==> p.client.value in materials && materials[p.client.value].kind == Client)
  }

  predicate SupplicantsOk(sources: seq<Source>, materials: map<Id, Material>) {
    forall i :: 0 <= i < |sources| && sources[i].supplicant.Some? ==> ProfileOk(sources[i].supplicant.value, materials)
  }

  predicate EndpointProfilesOk(endpoints: map<Id, Endpoint>, materials: map<Id, Material>) {
    forall e :: e in endpoints ==> SupplicantsOk(endpoints[e].sources, materials)
  }

  predicate TemplateProfilesOk(templates: map<Id, Template>, materials: map<Id, Material>) {
    forall t :: t in templates ==> ProfileOk(templates[t].profile, materials)
  }

  predicate MaterialsOk(materials: map<Id, Material>, templates: map<Id, Template>) {
    && |materials| <= 128 && |templates| <= 256
    && (forall m :: m in materials ==> materials[m].id == m)
    && (forall t :: t in templates ==> templates[t].id == t)
  }

  predicate AccessOk(a: Access, views: set<Id>) {
    a.enabled ==> a.view.Some? && a.view.value in views
  }

  /** `check_policy` */
  predicate GrantsOk(g: Grants, views: set<Id>) {
    AccessOk(g.polling, views) && AccessOk(g.writing, views)
  }

  predicate GroupsOk(groups: map<Id, Group>, views: set<Id>) {
    forall g :: g in groups ==> groups[g].id == g && GrantsOk(groups[g].grants, views)
  }

  /** `check_credential` without the identity test */
  predicate CredentialOk(c: Credential, groups: set<Id>, views: set<Id>) {
    match c
    case Community(_, _, _, _, grants) => GrantsOk(grants, views)
    case User(_, _, _, _, group) => group.Some? ==> group.value in groups
  }

  predicate CredentialsOk(credentials: map<Id, Credential>, groups: set<Id>, views: set<Id>) {
    forall c :: c in credentials ==> CredentialOk(credentials[c], groups, views)
  }

  predicate SameIdentity(a: Credential, b: Credential) {
    a.enabled && b.enabled && a.Community? == b.Community? && a.name == b.name
  }

  /** `check_credential_identities` */
  predicate IdentitiesOk(credentials: map<Id, Credential>) {
    forall a, b :: a in credentials && b in credentials && a != b ==> !SameIdentity(credentials[a], credentials[b])
  }

  /** `check_target` */
  predicate TargetOk(t: Target, credentials: set<Id>) {
    t.credential in credentials && (t.sourceFamily.Some? ==> t.sourceFamily.value == t.family)
  }

  predicate TargetsOk(targets: map<Id, Target>, credentials: set<Id>) {
    forall t :: t in targets ==> TargetOk(targets[t], credentials)
  }

  predicate LimitsOk(views: map<Id, View>, groups: map<Id, Group>, credentials: map<Id, Credential>, targets: map<Id, Target>) {
    |credentials| <= MAX_RECORDS && |groups| <= MAX_RECORDS && |targets| <= MAX_RECORDS && |views| <= MAX_RECORDS
  }

  predicate ServersOk(servers: seq<Server>) {
    |servers| <= 16 && forall i, j :: 0 <= i < j < |servers| ==> servers[i].id != servers[j].id
  }

  predicate AddressesOk(senders: seq<Sender>) {
    forall i, j :: 0 <= i < j < |senders| && senders[i].enabled && senders[j].enabled ==> senders[i].address != senders[j].address
  }

  predicate SendersOk(senders: seq<Sender>) {
    && |senders| <= 64
    && (forall i, j :: 0 <= i < j < |senders| ==> senders[i].id != senders[j].id)
    && AddressesOk(senders)
  }

  predicate ServicesOk(s: Services) {
    ServersOk(s.servers) && ServersOk(s.targets) && SendersOk(s.senders)
  }

  predicate SwitchingOk(vlans: map<VlanId, Vlan>, legacy: VlanId, ports: map<Id, Port>, chassis: Chassis,
                        endpoints: map<Id, Endpoint>, attachments: map<Id, Id>)
  {
    && VlansOk(vlans, legacy)
    && InventoryOk(ports, chassis)
    && PortsOk(ports, vlans.Keys)
    && EndpointsOk(endpoints)
    && AttachmentsOk(attachments, endpoints.Keys, ports)
  }

  predicate RadiusOk(materials: map<Id, Material>, templates: map<Id, Template>, endpoints: map<Id, Endpoint>) {
    && MaterialsOk(materials, templates)
    && EndpointProfilesOk(endpoints, materials)
    && TemplateProfilesOk(templates, materials)
  }

  predicate SnmpOk(views: map<Id, View>, groups: map<Id, Group>, credentials: map<Id, Credential>, targets: map<Id, Target>) {
    && GroupsOk(groups, views.Keys)
    && CredentialsOk(credentials, groups.Keys, views.Keys)
    && IdentitiesOk(credentials)
    && TargetsOk(targets, credentials.Keys)
    && LimitsOk(views, groups, credentials, targets)
  }

  /** Inventory and attachments depend on the hardware of the ports only. */
  lemma SameHardware(ports: map<Id, Port>, after: map<Id, Port>, c: Chassis, attachments: map<Id, Id>, endpoints: set<Id>)
    requires InventoryOk(ports, c) && AttachmentsOk(attachments, endpoints, ports)
    requires after.Keys == ports.Keys && forall p :: p in ports ==> after[p].hw == ports[p].hw
    ensures InventoryOk(after, c) && AttachmentsOk(attachments, endpoints, after)
  {
    assert |after| == |after.Keys| == |ports.Keys| == |ports|;
  }

  /** `Configuration.references`, together with the validators of the records it is made of. */
  predicate Valid(cfg: Configuration) {
    && SwitchingOk(cfg.vlans, cfg.switch.legacyVlan, cfg.ports, cfg.chassis, cfg.endpoints, cfg.attachments)
    && RadiusOk(cfg.materials, cfg.templates, cfg.endpoints)
    && SnmpOk(cfg.views, cfg.groups, cfg.credentials, cfg.targets)
    && ServicesOk(cfg.services)
  }

  // ---------------------------------------------------------------------------------------------
  // Capacities
  // ---------------------------------------------------------------------------------------------

  function SourceCount(endpoints: map<Id, Endpoint>): nat
    decreases |endpoints|
  {
    if endpoints == map[] then 0 else
    assert endpoints.Keys != {};
    var e := Least(endpoints.Keys);
    |endpoints[e].sources| + SourceCount(endpoints - {e})
  }

  /** `check_endpoint_capacity` and `check_source_capacity` */
  predicate Fits(cfg: Configuration) {
    |cfg.endpoints| <= cfg.chassis.endpointLimit && SourceCount(cfg.endpoints) <= cfg.chassis.sourceLimit
  }

  /** The count does not depend on the order in which the endpoints are walked. */
  lemma {:induction false} SourceCountSplits(endpoints: map<Id, Endpoint>, e: Id)
    requires e in endpoints
    ensures SourceCount(endpoints) == |endpoints[e].sources| + SourceCount(endpoints - {e})
    decreases |endpoints|
  {
    var d := Least(endpoints.Keys);
    if d != e {
      SourceCountSplits(endpoints - {d}, e);
      SourceCountSplits(endpoints - {e}, d);
      assert endpoints - {d} - {e} == endpoints - {e} - {d};
    }
  }
}
