/**
 * The configuration commands of `Engine._apply`, each with the scoped check it makes in place of the whole validator.
 */
module Commands {
  import opened Outcomes
  import opened Lists
  import opened Configuration

  datatype Refusal = NotFound | Conflict | Unprocessable | LimitReached | Invalid

  datatype PortPatch = PortPatch(
    name: Option<Text>, mode: Option<Mode>, sharedPartner: Option<bool>, forcedDown: Option<bool>,
    speed: Option<nat>, mtu: Option<nat>,
    alias: Option<Text>, adminUp: Option<bool>, pvid: Option<VlanId>,
    admitted: Option<seq<int>>, untagged: Option<seq<int>>, forbidden: Option<seq<int>>,
    linkNotifications: Option<bool>, authentication: Option<Authentication>)

  datatype SwitchPatch = SwitchPatch(
    name: Option<Text>, contact: Option<Text>, location: Option<Text>, identity: Option<Text>,
    legacyVlan: Option<VlanId>, agingSeconds: Option<Aging>, queueLimit: Option<nat>,
    baseMac: Option<Mac>, description: Option<Text>, fdbLimit: Option<nat>,
    endpointLimit: Option<nat>, sourceLimit: Option<nat>)

  /** Identifiers a command draws with `uid()` are parameters. */
  datatype SwitchingCommand =
    | PortCreate(port: Id, name: Option<Text>, speed: Option<nat>, mtu: Option<nat>)
    | PortDelete(port: Id)
    | PortEdit(port: Id, patch: PortPatch)
    | VlanCreate(vid: VlanId, octets: Option<VlanName>, fdbId: Option<nat>)
    | VlanEdit(vid: VlanId, rename: VlanName)
    | VlanDelete(vid: VlanId)
    | SwitchEdit(edit: SwitchPatch)

  datatype EndpointCommand =
    | EndpointCreate(record: Endpoint)
    | EndpointEdit(endpoint: Id, title: Option<Text>, active: Option<bool>, sources: Option<seq<Source>>)
    | EndpointDelete(endpoint: Id)
    | Attach(endpoint: Id, port: Id)
    | Detach(endpoint: Id)
    | SupplicantSave(endpoint: Id, source: Id, profile: Option<Profile>)

  datatype RadiusCommand =
    | MaterialSave(material: Material)
    | MaterialDelete(id: Id)
    | TemplateSave(template: Template)
    | TemplateDelete(id: Id)
    | ServerSave(server: Server, position: Option<nat>)
    | ServerDelete(id: Id)
    | AccountingTargetSave(server: Server, position: Option<nat>)
    | AccountingTargetDelete(id: Id)
    | SenderSave(sender: Sender)
    | SenderDelete(id: Id)
    | ServicesEdit(options: Option<Text>, accounting: Option<Text>, dynamic: Option<Text>)

  datatype SnmpCommand =
    | ViewSave(view: View)
    | ViewDelete(id: Id)
    | GroupSave(group: Group)
    | GroupDelete(id: Id)
    | CredentialSave(credential: Credential, kept: Option<Group>)
    | CredentialDelete(id: Id)
    | TargetSave(target: Target, inline: Option<Credential>)
    | TargetDelete(id: Id)

  datatype Command =
    | Switching(switching: SwitchingCommand)
    | Endpoints(endpoints: EndpointCommand)
    | Radius(radius: RadiusCommand)
    | Snmp(snmp: SnmpCommand)
    | SnmpSettings(text: Text)
    | Pause(paused: bool)

  /**
   * What a command makes of a configuration: a refusal that no validation is needed for, or a candidate, the verdict of
   * the command's own scoped checks on it, and the ports and endpoints whose generations it renews.
   */
  datatype Attempt =
    | Refused(why: Refusal)
    | Attempted(candidate: Configuration, checked: bool, ports: set<Id>, endpoints: set<Id>)

  function Or<T>(patch: Option<T>, saved: T): T {
    if patch.Some? then patch.value else saved
  }

  function Attached(cfg: Configuration, port: Id): set<Id> {
    set e | e in cfg.attachments && cfg.attachments[e] == port
  }

  /** Every attempt that only edits records outside the simulation. */
  function Quietly(candidate: Configuration, checked: bool): Attempt {
    Attempted(candidate, checked, {}, {})
  }

  // ---------------------------------------------------------------------------------------------
  // Ports
  // ---------------------------------------------------------------------------------------------

  function CreatePort(cfg: Configuration, port: Id, name: Option<Text>, speed: Option<nat>, mtu: Option<nat>): Attempt {
    if port in cfg.ports then Refused(Conflict)
    else if |cfg.ports| >= MAX_PORTS || cfg.chassis.nextBridgePort > 65535 || cfg.chassis.nextIfIndex > 2147483647
    then Refused(LimitReached)
    else
      var hw := Hardware(port, cfg.chassis.nextIfIndex, cfg.chassis.nextBridgePort, Or(name, cfg.chassis.nextBridgePort), Direct, false, false,
                         Or(speed, 1000000000), Or(mtu, 1500));
      Attempted(
        cfg.(ports := cfg.ports[port := Port(hw, DEFAULT_POLICY)],
             chassis := cfg.chassis.(portCount := cfg.chassis.portCount + 1,
                                     nextBridgePort := cfg.chassis.nextBridgePort + 1,
                                     nextIfIndex := cfg.chassis.nextIfIndex + 1)),
        true, {port}, {})
  }

  function DeletePort(cfg: Configuration, port: Id): Attempt {
    if port !in cfg.ports then Refused(NotFound) else
    Attempted(
      cfg.(ports := cfg.ports - {port}, attachments := cfg.attachments - Attached(cfg, port),
           chassis := cfg.chassis.(portCount := cfg.chassis.portCount - 1)),
      true, {port}, Attached(cfg, port))
  }

  /** Choosing shared mode supplies a partner; a new PVID carries its untagged membership along. */
  function Completed(patch: PortPatch, port: Port): PortPatch {
    var p := if patch.mode == Some(Shared) && port.hw.mode != Shared then patch.(sharedPartner := Some(true)) else patch;
    if p.pvid.Some? && p.pvid.value != port.policy.pvid && p.untagged.None?
    then p.(untagged := Some(Sorted(Drop(port.policy.untagged, port.policy.pvid) + [p.pvid.value])))
    else p
  }

  function Patched(port: Port, p: PortPatch): Port {
    Port(port.hw.(name := Or(p.name, port.hw.name), mode := Or(p.mode, port.hw.mode),
                  sharedPartner := Or(p.sharedPartner, port.hw.sharedPartner),
                  forcedDown := Or(p.forcedDown, port.hw.forcedDown),
                  speed := Or(p.speed, port.hw.speed), mtu := Or(p.mtu, port.hw.mtu)),
         Policy(Or(p.alias, port.policy.alias), Or(p.adminUp, port.policy.adminUp), Or(p.pvid, port.policy.pvid),
                Or(p.admitted, port.policy.admitted), Or(p.untagged, port.policy.untagged),
                Or(p.forbidden, port.policy.forbidden), Or(p.linkNotifications, port.policy.linkNotifications),
                Or(p.authentication, port.policy.authentication)))
  }

  /** A port without the three fields whose edits leave captured work valid. */
  function Substance(port: Port): Port {
    Port(port.hw.(name := 0), port.policy.(alias := 0, linkNotifications := true))
  }

  function EditPort(cfg: Configuration, port: Id, patch: PortPatch): Attempt {
    if port !in cfg.ports then Refused(NotFound)
    else if patch.mode == Some(Direct) && |Attached(cfg, port)| > 1 then Refused(Conflict)
    else
      var p := Completed(patch, cfg.ports[port]);
      var edited := Patched(cfg.ports[port], p);
      var scoped := p.pvid.Some? || p.admitted.Some? || p.untagged.Some? || p.forbidden.Some?;
      Attempted(cfg.(ports := cfg.ports[port := edited]),
                scoped ==> edited.hw.id == port && PolicyOk(edited.policy, cfg.vlans.Keys),
                if Substance(edited) != Substance(cfg.ports[port]) then {port} else {}, {})
  }

  // ---------------------------------------------------------------------------------------------
  // VLANs and the switch record
  // ---------------------------------------------------------------------------------------------

  predicate Uses(e: Endpoint, vid: VlanId) {
    exists i :: 0 <= i < |e.sources| && e.sources[i].tag == Tagged(vid)
  }

  function Users(cfg: Configuration, vid: VlanId): set<Id> {
    set e | e in cfg.endpoints && Uses(cfg.endpoints[e], vid)
  }

  function CreateVlan(cfg: Configuration, vid: VlanId, name: Option<VlanName>, fdbId: Option<nat>): Attempt {
    if vid in cfg.vlans then Refused(Conflict) else
    var vlan := Vlan(vid, Or(name, []), Or(fdbId, FDB_BASE + vid));
    Attempted(cfg.(vlans := cfg.vlans[vid := vlan]),
              forall v :: v in cfg.vlans ==> cfg.vlans[v].fdbId != vlan.fdbId, {}, Users(cfg, vid))
  }

  function EditVlan(cfg: Configuration, vid: VlanId, name: VlanName): Attempt {
    if vid !in cfg.vlans then Refused(NotFound)
    else Quietly(cfg.(vlans := cfg.vlans[vid := cfg.vlans[vid].(name := name)]), true)
  }

  predicate Mentions(p: Policy, vid: VlanId) {
    vid in p.admitted || vid in p.untagged || vid in p.forbidden || p.pvid == vid
  }

  function Bereft(p: Policy, vid: VlanId): Policy {
    var q := p.(admitted := Drop(p.admitted, vid), untagged := Drop(p.untagged, vid), forbidden := Drop(p.forbidden, vid));
    if p.pvid != vid then q else
    q.(pvid := DEFAULT_VLAN, admitted := Sorted(q.admitted + [DEFAULT_VLAN]),
       untagged := if vid in p.untagged then Sorted(q.untagged + [DEFAULT_VLAN]) else q.untagged)
  }

  function DeleteVlan(cfg: Configuration, vid: VlanId): Attempt {
    if vid !in cfg.vlans then Refused(NotFound)
    else if vid == DEFAULT_VLAN then Refused(Conflict)
    else
      var touched := set p | p in cfg.ports && Mentions(cfg.ports[p].policy, vid);
      var ports := map p | p in cfg.ports ::
                     if p in touched then cfg.ports[p].(policy := Bereft(cfg.ports[p].policy, vid)) else cfg.ports[p];
      var vlans := cfg.vlans - {vid};
      Attempted(
        cfg.(vlans := vlans, ports := ports,
             switch := if cfg.switch.legacyVlan == vid then cfg.switch.(legacyVlan := DEFAULT_VLAN) else cfg.switch),
        forall p :: p in touched ==> ports[p].hw.id == p && PolicyOk(ports[p].policy, vlans.Keys),
        touched, Users(cfg, vid))
  }

  function EditSwitch(cfg: Configuration, e: SwitchPatch): Attempt {
    var s := cfg.switch;
    var c := cfg.chassis;
    Attempted(
      cfg.(switch := SwitchPolicy(Or(e.name, s.name), Or(e.contact, s.contact), Or(e.location, s.location),
                                  Or(e.identity, s.identity), Or(e.legacyVlan, s.legacyVlan),
                                  Or(e.agingSeconds, s.agingSeconds), Or(e.queueLimit, s.queueLimit)),
           chassis := c.(baseMac := Or(e.baseMac, c.baseMac), description := Or(e.description, c.description),
                         fdbLimit := Or(e.fdbLimit, c.fdbLimit), endpointLimit := Or(e.endpointLimit, c.endpointLimit),
                         sourceLimit := Or(e.sourceLimit, c.sourceLimit))),
      e.legacyVlan.Some? ==> e.legacyVlan.value in cfg.vlans, {}, {})
  }

  // ---------------------------------------------------------------------------------------------
  // Endpoints and attachments
  // ---------------------------------------------------------------------------------------------

  function CreateEndpoint(cfg: Configuration, e: Endpoint): Attempt {
    if !SourcesOk(e.sources) then Refused(Unprocessable)
    else if e.id in cfg.endpoints then Refused(Conflict)
    else Attempted(cfg.(endpoints := cfg.endpoints[e.id := e]), SupplicantsOk(e.sources, cfg.materials), {}, {e.id})
  }

  function EditEndpoint(cfg: Configuration, endpoint: Id, name: Option<Text>, active: Option<bool>,
                        sources: Option<seq<Source>>): Attempt
  {
    if endpoint !in cfg.endpoints then Refused(NotFound) else
    var saved := cfg.endpoints[endpoint];
    var e := saved.(name := Or(name, saved.name), active := Or(active, saved.active), sources := Or(sources, saved.sources),
                  revision := saved.revision + 1);
    if !SourcesOk(e.sources) then Refused(Unprocessable) else
    Attempted(cfg.(endpoints := cfg.endpoints[endpoint := e]),
              sources.Some? ==> SupplicantsOk(e.sources, cfg.materials),
              {}, if sources.Some? || active.Some? then {endpoint} else {})
  }

  function DeleteEndpoint(cfg: Configuration, endpoint: Id): Attempt {
    if endpoint !in cfg.endpoints then Refused(NotFound)
    else if endpoint in cfg.attachments then Refused(Conflict)
    else Attempted(cfg.(endpoints := cfg.endpoints - {endpoint}), true, {}, {endpoint})
  }

  function AttachTo(cfg: Configuration, endpoint: Id, port: Id): Attempt {
    if endpoint !in cfg.endpoints || port !in cfg.ports then Refused(NotFound)
    else if cfg.ports[port].hw.mode != Shared && Attached(cfg, port) - {endpoint} != {} then Refused(Conflict)
    else Attempted(cfg.(attachments := cfg.attachments[endpoint := port]), true, {}, {endpoint})
  }

  function DetachFrom(cfg: Configuration, endpoint: Id): Attempt {
    if endpoint !in cfg.endpoints then Refused(NotFound)
    else Attempted(cfg.(attachments := cfg.attachments - {endpoint}), true, {}, {endpoint})
  }

  function SaveSupplicant(cfg: Configuration, endpoint: Id, source: Id, profile: Option<Profile>): Attempt {
    if endpoint !in cfg.endpoints then Refused(NotFound) else
    var e := cfg.endpoints[endpoint];
    if !exists i :: 0 <= i < |e.sources| && e.sources[i].id == source then Refused(NotFound) else
    var sources := seq(|e.sources|, i requires 0 <= i < |e.sources| =>
      if e.sources[i].id == source then e.sources[i].(supplicant := profile) else e.sources[i]);
    Quietly(cfg.(endpoints := cfg.endpoints[endpoint := e.(sources := sources, revision := e.revision + 1)]),
            profile.Some? ==> ProfileOk(profile.value, cfg.materials))
  }

  // ---------------------------------------------------------------------------------------------
  // RADIUS records
  // ---------------------------------------------------------------------------------------------

  predicate Needs(p: Profile, material: Id) {
    p.trust == material || p.client == Some(material)
  }

  /** `check_material_dependents` */
  predicate DependentsOk(cfg: Configuration, material: Id) {
    && (forall t :: t in cfg.templates && Needs(cfg.templates[t].profile, material) ==>
          ProfileOk(cfg.templates[t].profile, cfg.materials))
    && (forall e, i :: e in cfg.endpoints && 0 <= i < |cfg.endpoints[e].sources|
                       && cfg.endpoints[e].sources[i].supplicant.Some?
                       && Needs(cfg.endpoints[e].sources[i].supplicant.value, material) ==>
          ProfileOk(cfg.endpoints[e].sources[i].supplicant.value, cfg.materials))
  }

  function SaveMaterial(cfg: Configuration, m: Material): Attempt {
    var candidate := cfg.(materials := cfg.materials[m.id := m]);
    Quietly(candidate,
            |candidate.materials| <= 128 &&
            (m.id in cfg.materials && cfg.materials[m.id].kind != m.kind ==> DependentsOk(candidate, m.id)))
  }

  function DeleteMaterial(cfg: Configuration, id: Id): Attempt {
    if id !in cfg.materials then Refused(NotFound) else
    var candidate := cfg.(materials := cfg.materials - {id});
    Quietly(candidate, DependentsOk(candidate, id))
  }

  function SaveTemplate(cfg: Configuration, t: Template): Attempt {
    var candidate := cfg.(templates := cfg.templates[t.id := t]);
    Quietly(candidate, |candidate.templates| <= 256 && ProfileOk(t.profile, cfg.materials))
  }

  function DeleteTemplate(cfg: Configuration, id: Id): Attempt {
    if id !in cfg.templates then Refused(NotFound) else
    Quietly(cfg.(templates := cfg.templates - {id}), true)
  }

  function Others(servers: seq<Server>, id: Id): (r: seq<Server>)
    ensures forall s :: s in r ==> s in servers && s.id != id
    ensures |r| <= |servers|
  {
    if servers == [] then [] else
    var last := |servers| - 1;
    Others(servers[..last], id) + if servers[last].id == id then [] else [servers[last]]
  }

  function Position(servers: seq<Server>, id: Id): nat {
    if servers == [] then 0
    else if servers[0].id == id then 0
    else 1 + Position(servers[1..], id)
  }

  /** The saved server replaces the one with its id, at the asked or at its old position. */
  function Placed(servers: seq<Server>, s: Server, position: Option<nat>): seq<Server> {
    var others := Others(servers, s.id);
    var asked := Or(position, Position(servers, s.id));
    var at := if asked < |others| then asked else |others|;
    others[..at] + [s] + others[at..]
  }

  predicate Present(servers: seq<Server>, id: Id) {
    exists i :: 0 <= i < |servers| && servers[i].id == id
  }

  function SaveServer(cfg: Configuration, s: Server, position: Option<nat>): Attempt {
    var servers := Placed(cfg.services.servers, s, position);
    Quietly(cfg.(services := cfg.services.(servers := servers)), |servers| <= 16)
  }

  function DeleteServer(cfg: Configuration, id: Id): Attempt {
    if !Present(cfg.services.servers, id) then Refused(NotFound) else
    Quietly(cfg.(services := cfg.services.(servers := Others(cfg.services.servers, id))), true)
  }

  function SaveAccountingTarget(cfg: Configuration, s: Server, position: Option<nat>): Attempt {
    var targets := Placed(cfg.services.targets, s, position);
    Quietly(cfg.(services := cfg.services.(targets := targets)), |targets| <= 16)
  }

  function DeleteAccountingTarget(cfg: Configuration, id: Id): Attempt {
    if !Present(cfg.services.targets, id) then Refused(NotFound) else
    Quietly(cfg.(services := cfg.services.(targets := Others(cfg.services.targets, id))), true)
  }

  function OtherSenders(senders: seq<Sender>, id: Id): (r: seq<Sender>)
    ensures |r| <= |senders|
  {
    if senders == [] then [] else
    var last := |senders| - 1;
    OtherSenders(senders[..last], id) + if senders[last].id == id then [] else [senders[last]]
  }

  function SaveSender(cfg: Configuration, s: Sender): Attempt {
    var senders := OtherSenders(cfg.services.senders, s.id) + [s];
    Quietly(cfg.(services := cfg.services.(senders := senders)),
            |senders| <= 64 && (s.enabled ==> AddressesOk(senders)))
  }

  function DeleteSender(cfg: Configuration, id: Id): Attempt {
    if !exists i :: 0 <= i < |cfg.services.senders| && cfg.services.senders[i].id == id then Refused(NotFound) else
    Quietly(cfg.(services := cfg.services.(senders := OtherSenders(cfg.services.senders, id))), true)
  }

  function EditServices(cfg: Configuration, options: Option<Text>, accounting: Option<Text>, dynamic: Option<Text>): Attempt {
    Quietly(cfg.(services := cfg.services.(options := Or(options, cfg.services.options),
                                           accounting := Or(accounting, cfg.services.accounting),
                                           dynamic := Or(dynamic, cfg.services.dynamic))), true)
  }

  // ---------------------------------------------------------------------------------------------
  // SNMP access records
  // ---------------------------------------------------------------------------------------------

  function SaveView(cfg: Configuration, v: View): Attempt {
    var views := cfg.views[v.id := v];
    Quietly(cfg.(views := views), |views| <= MAX_RECORDS)
  }

  function GrantsOf(c: Credential): Option<Grants> {
    match c
    case Community(_, _, _, _, grants) => Some(grants)
    case User(_, _, _, _, _) => None
  }

  predicate Grasps(g: Grants, view: Id) {
    g.polling.view == Some(view) || g.writing.view == Some(view)
  }

  function DeleteView(cfg: Configuration, id: Id): Attempt {
    if id !in cfg.views then Refused(NotFound) else
    var views := cfg.views - {id};
    Quietly(cfg.(views := views),
            && (forall c :: c in cfg.credentials && GrantsOf(cfg.credentials[c]).Some?
                            && Grasps(GrantsOf(cfg.credentials[c]).value, id) ==>
                  GrantsOk(GrantsOf(cfg.credentials[c]).value, views.Keys))
            && (forall g :: g in cfg.groups && Grasps(cfg.groups[g].grants, id) ==> GrantsOk(cfg.groups[g].grants, views.Keys)))
  }

  function SaveGroup(cfg: Configuration, g: Group): Attempt {
    var groups := cfg.groups[g.id := g];
    Quietly(cfg.(groups := groups), |groups| <= MAX_RECORDS && GrantsOk(g.grants, cfg.views.Keys))
  }

  function DeleteGroup(cfg: Configuration, id: Id): Attempt {
    if id !in cfg.groups then Refused(NotFound) else
    var groups := cfg.groups - {id};
    Quietly(cfg.(groups := groups),
            forall c :: c in cfg.credentials && cfg.credentials[c].User? && cfg.credentials[c].group == Some(id) ==>
              CredentialOk(cfg.credentials[c], groups.Keys, cfg.views.Keys))
  }

  /** A protocol conversion that keeps access first saves the kept grants as a new group. */
  function SaveCredential(cfg: Configuration, c: Credential, kept: Option<Group>): Attempt {
    if kept.Some? && kept.value.id in cfg.groups then Refused(Conflict) else
    var groups := if kept.Some? then cfg.groups[kept.value.id := kept.value] else cfg.groups;
    var keptOk := kept.Some? ==> |groups| <= MAX_RECORDS && GrantsOk(kept.value.grants, cfg.views.Keys);
    var credentials := cfg.credentials[c.id := c];
    Quietly(cfg.(groups := groups, credentials := credentials),
            && keptOk && |credentials| <= MAX_RECORDS
            && CredentialOk(c, groups.Keys, cfg.views.Keys)
            && (c.enabled ==> IdentitiesOk(credentials)))
  }

  function DeleteCredential(cfg: Configuration, id: Id): Attempt {
    if id !in cfg.credentials then Refused(NotFound) else
    var credentials := cfg.credentials - {id};
    Quietly(cfg.(credentials := credentials),
            forall t :: t in cfg.targets && cfg.targets[t].credential == id ==> TargetOk(cfg.targets[t], credentials.Keys))
  }

  function SaveTarget(cfg: Configuration, t: Target, inline: Option<Credential>): Attempt {
    if inline.Some? && (inline.value.id in cfg.credentials || inline.value.id != t.credential) then Refused(Conflict) else
    var credentials := if inline.Some? then cfg.credentials[inline.value.id := inline.value] else cfg.credentials;
    var inlineOk := inline.Some? ==>
      && |credentials| <= MAX_RECORDS
      && CredentialOk(inline.value, cfg.groups.Keys, cfg.views.Keys)
      && (inline.value.enabled ==> IdentitiesOk(credentials));
    var targets := cfg.targets[t.id := t];
    Quietly(cfg.(credentials := credentials, targets := targets),
            inlineOk && |targets| <= MAX_RECORDS && TargetOk(t, credentials.Keys))
  }

  function DeleteTarget(cfg: Configuration, id: Id): Attempt {
    if id !in cfg.targets then Refused(NotFound) else Quietly(cfg.(targets := cfg.targets - {id}), true)
  }

  // ---------------------------------------------------------------------------------------------
  // All commands
  // ---------------------------------------------------------------------------------------------

  function TrySwitching(cfg: Configuration, c: SwitchingCommand): Attempt {
    match c
    case PortCreate(port, name, speed, mtu) => CreatePort(cfg, port, name, speed, mtu)
    case PortDelete(port) => DeletePort(cfg, port)
    case PortEdit(port, patch) => EditPort(cfg, port, patch)
    case VlanCreate(vid, octets, fdbId) => CreateVlan(cfg, vid, octets, fdbId)
    case VlanEdit(vid, rename) => EditVlan(cfg, vid, rename)
    case VlanDelete(vid) => DeleteVlan(cfg, vid)
    case SwitchEdit(edit) => EditSwitch(cfg, edit)
  }

  function TryEndpoints(cfg: Configuration, c: EndpointCommand): Attempt {
    match c
    case EndpointCreate(record) => CreateEndpoint(cfg, record)
    case EndpointEdit(endpoint, title, active, sources) => EditEndpoint(cfg, endpoint, title, active, sources)
    case EndpointDelete(endpoint) => DeleteEndpoint(cfg, endpoint)
    case Attach(endpoint, port) => AttachTo(cfg, endpoint, port)
    case Detach(endpoint) => DetachFrom(cfg, endpoint)
    case SupplicantSave(endpoint, source, profile) => SaveSupplicant(cfg, endpoint, source, profile)
  }

  function TryRadius(cfg: Configuration, c: RadiusCommand): Attempt {
    match c
    case MaterialSave(material) => SaveMaterial(cfg, material)
    case MaterialDelete(id) => DeleteMaterial(cfg, id)
    case TemplateSave(template) => SaveTemplate(cfg, template)
    case TemplateDelete(id) => DeleteTemplate(cfg, id)
    case ServerSave(server, position) => SaveServer(cfg, server, position)
    case ServerDelete(id) => DeleteServer(cfg, id)
    case AccountingTargetSave(server, position) => SaveAccountingTarget(cfg, server, position)
    case AccountingTargetDelete(id) => DeleteAccountingTarget(cfg, id)
    case SenderSave(sender) => SaveSender(cfg, sender)
    case SenderDelete(id) => DeleteSender(cfg, id)
    case ServicesEdit(options, accounting, dynamic) => EditServices(cfg, options, accounting, dynamic)
  }

  function TrySnmp(cfg: Configuration, c: SnmpCommand): Attempt {
    match c
    case ViewSave(view) => SaveView(cfg, view)
    case ViewDelete(id) => DeleteView(cfg, id)
    case GroupSave(group) => SaveGroup(cfg, group)
    case GroupDelete(id) => DeleteGroup(cfg, id)
    case CredentialSave(credential, kept) => SaveCredential(cfg, credential, kept)
    case CredentialDelete(id) => DeleteCredential(cfg, id)
    case TargetSave(target, inline) => SaveTarget(cfg, target, inline)
    case TargetDelete(id) => DeleteTarget(cfg, id)
  }

  function Try(cfg: Configuration, c: Command): Attempt {
    match c
    case Switching(switching) => TrySwitching(cfg, switching)
    case Endpoints(endpoints) => TryEndpoints(cfg, endpoints)
    case Radius(radius) => TryRadius(cfg, radius)
    case Snmp(snmp) => TrySnmp(cfg, snmp)
    case SnmpSettings(text) => Quietly(cfg.(snmp := text), true)
    case Pause(paused) => Quietly(cfg.(paused := paused), true)
  }

  /** Which capacities a command re-checks: those of endpoints and of sources. */
  function Counted(c: Command): (bool, bool) {
    match c
    case Endpoints(EndpointCreate(_)) => (true, true)
    case Endpoints(EndpointEdit(_, _, _, sources)) => (false, sources.Some?)
    case Switching(SwitchEdit(e)) => (e.endpointLimit.Some?, e.sourceLimit.Some?)
    case _ => (false, false)
  }

  datatype Change = Change(cfg: Configuration, ports: set<Id>, endpoints: set<Id>)

  function Apply(cfg: Configuration, c: Command): Result<Change, Refusal> {
    var a := Try(cfg, c);
    if a.Refused? then Err(a.why)
    else if !a.checked then Err(Invalid)
    else if Counted(c).0 && |a.candidate.endpoints| > a.candidate.chassis.endpointLimit then Err(LimitReached)
    else if Counted(c).1 && SourceCount(a.candidate.endpoints) > a.candidate.chassis.sourceLimit then Err(LimitReached)
    else Ok(Change(a.candidate, a.ports, a.endpoints))
  }
}
