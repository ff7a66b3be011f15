/** What commands leave alone. */
module CommandFrames {
  import opened Outcomes
  import opened Configuration
  import opened Commands

  /** Commands on RADIUS and SNMP records leave ports, endpoints, attachments, VLANs and the switch record as they are. */
  ghost predicate Aside(before: Configuration, after: Configuration) {
    && after.ports == before.ports && after.endpoints == before.endpoints && after.attachments == before.attachments
    && after.vlans == before.vlans && after.switch == before.switch && after.chassis == before.chassis
  }

  ghost predicate Leaves(cfg: Configuration, a: Attempt) {
    a.Attempted? ==> Aside(cfg, a.candidate) && a.ports == {} && a.endpoints == {}
  }

  ghost function Leaving(cfg: Configuration): Attempt -> bool {
    (a: Attempt) => Leaves(cfg, a)
  }

  lemma SaveMaterialLeaves(cfg: Configuration, m: Material)
    ensures Leaving(cfg)(SaveMaterial(cfg, m))
  {
  }

  lemma DeleteMaterialLeaves(cfg: Configuration, id: Id)
    ensures Leaving(cfg)(DeleteMaterial(cfg, id))
  {
  }

  lemma SaveTemplateLeaves(cfg: Configuration, t: Template)
    ensures Leaving(cfg)(SaveTemplate(cfg, t))
  {
  }

  lemma DeleteTemplateLeaves(cfg: Configuration, id: Id)
    ensures Leaving(cfg)(DeleteTemplate(cfg, id))
  {
  }

  lemma SaveServerLeaves(cfg: Configuration, s: Server, position: Option<nat>)
    ensures Leaving(cfg)(SaveServer(cfg, s, position))
  {
  }

  lemma DeleteServerLeaves(cfg: Configuration, id: Id)
    ensures Leaving(cfg)(DeleteServer(cfg, id))
  {
  }

  lemma SaveAccountingTargetLeaves(cfg: Configuration, s: Server, position: Option<nat>)
    ensures Leaving(cfg)(SaveAccountingTarget(cfg, s, position))
  {
  }

  lemma DeleteAccountingTargetLeaves(cfg: Configuration, id: Id)
    ensures Leaving(cfg)(DeleteAccountingTarget(cfg, id))
  {
  }

  lemma SaveSenderLeaves(cfg: Configuration, s: Sender)
    ensures Leaving(cfg)(SaveSender(cfg, s))
  {
  }

  lemma DeleteSenderLeaves(cfg: Configuration, id: Id)
    ensures Leaving(cfg)(DeleteSender(cfg, id))
  {
  }

  lemma EditServicesLeaves(cfg: Configuration, options: Option<Text>, accounting: Option<Text>, dynamic: Option<Text>)
    ensures Leaving(cfg)(EditServices(cfg, options, accounting, dynamic))
  {
  }

  lemma SaveViewLeaves(cfg: Configuration, v: View)
    ensures Leaving(cfg)(SaveView(cfg, v))
  {
  }

  lemma DeleteViewLeaves(cfg: Configuration, id: Id)
    ensures Leaving(cfg)(DeleteView(cfg, id))
  {
  }

  lemma SaveGroupLeaves(cfg: Configuration, g: Group)
    ensures Leaving(cfg)(SaveGroup(cfg, g))
  {
  }

  lemma DeleteGroupLeaves(cfg: Configuration, id: Id)
    ensures Leaving(cfg)(DeleteGroup(cfg, id))
  {
  }

  lemma SaveCredentialLeaves(cfg: Configuration, c: Credential, kept: Option<Group>)
    ensures Leaving(cfg)(SaveCredential(cfg, c, kept))
  {
  }

  lemma DeleteCredentialLeaves(cfg: Configuration, id: Id)
    ensures Leaving(cfg)(DeleteCredential(cfg, id))
  {
  }

  lemma SaveTargetLeaves(cfg: Configuration, t: Target, inline: Option<Credential>)
    ensures Leaving(cfg)(SaveTarget(cfg, t, inline))
  {
  }

  lemma DeleteTargetLeaves(cfg: Configuration, id: Id)
    ensures Leaving(cfg)(DeleteTarget(cfg, id))
  {
  }

  lemma RadiusLeaves(cfg: Configuration, c: RadiusCommand)
    ensures Leaving(cfg)(TryRadius(cfg, c))
  {
    match c
    case MaterialSave(material) => SaveMaterialLeaves(cfg, material);
    case MaterialDelete(id) => DeleteMaterialLeaves(cfg, id);
    case TemplateSave(template) => SaveTemplateLeaves(cfg, template);
    case TemplateDelete(id) => DeleteTemplateLeaves(cfg, id);
    case ServerSave(server, position) => SaveServerLeaves(cfg, server, position);
    case ServerDelete(id) => DeleteServerLeaves(cfg, id);
    case AccountingTargetSave(server, position) => SaveAccountingTargetLeaves(cfg, server, position);
    case AccountingTargetDelete(id) => DeleteAccountingTargetLeaves(cfg, id);
    case SenderSave(sender) => SaveSenderLeaves(cfg, sender);
    case SenderDelete(id) => DeleteSenderLeaves(cfg, id);
    case ServicesEdit(options, accounting, dynamic) => EditServicesLeaves(cfg, options, accounting, dynamic);
  }

  lemma SnmpLeaves(cfg: Configuration, c: SnmpCommand)
    ensures Leaving(cfg)(TrySnmp(cfg, c))
  {
    match c
    case ViewSave(view) => SaveViewLeaves(cfg, view);
    case ViewDelete(id) => DeleteViewLeaves(cfg, id);
    case GroupSave(group) => SaveGroupLeaves(cfg, group);
    case GroupDelete(id) => DeleteGroupLeaves(cfg, id);
    case CredentialSave(credential, kept) => SaveCredentialLeaves(cfg, credential, kept);
    case CredentialDelete(id) => DeleteCredentialLeaves(cfg, id);
    case TargetSave(target, inline) => SaveTargetLeaves(cfg, target, inline);
    case TargetDelete(id) => DeleteTargetLeaves(cfg, id);
  }

  lemma RecordsLeave(cfg: Configuration, c: Command)
    requires !c.Switching? && !c.Endpoints?
    ensures Leaving(cfg)(Try(cfg, c))
  {
    match c
    case Radius(r) => RadiusLeaves(cfg, r);
    case Snmp(s) => SnmpLeaves(cfg, s);
    case _ =>
  }

  /** Creating a port adds it and draws its numbers, no more. */
  lemma CreatePortShape(cfg: Configuration, port: Id, name: Option<Text>, speed: Option<nat>, mtu: Option<nat>)
    requires CreatePort(cfg, port, name, speed, mtu).Attempted?
    ensures port !in cfg.ports
    ensures var c := CreatePort(cfg, port, name, speed, mtu).candidate;
            && port in c.ports && c == cfg.(ports := cfg.ports[port := c.ports[port]], chassis := c.chassis)
            && c.chassis.endpointLimit == cfg.chassis.endpointLimit && c.chassis.sourceLimit == cfg.chassis.sourceLimit
  {
  }
}
