/**
 * The two separately stored halves of a configuration, how they are recombined, and when they disagree.
 */
module Storage {
  import opened Outcomes
  import opened Configuration
  import opened Commands

  /** The physical lab, which every durable command stores. */
  datatype Lab = Lab(chassis: Chassis, ports: map<Id, Hardware>, materials: map<Id, Material>, templates: map<Id, Template>,
                     endpoints: map<Id, Endpoint>, attachments: map<Id, Id>, paused: bool)

  /** The logical policy, which only an explicit save stores. */
  datatype Startup = Startup(switch: SwitchPolicy, ports: map<Id, Policy>, vlans: map<VlanId, Vlan>, snmp: Text,
                             views: map<Id, View>, groups: map<Id, Group>, credentials: map<Id, Credential>,
                             targets: map<Id, Target>, services: Services)

  function LabOf(cfg: Configuration): Lab {
    Lab(cfg.chassis, map p | p in cfg.ports :: cfg.ports[p].hw, cfg.materials, cfg.templates, cfg.endpoints, cfg.attachments,
        cfg.paused)
  }

  function StartupOf(cfg: Configuration): Startup {
    Startup(cfg.switch, map p | p in cfg.ports :: cfg.ports[p].policy, cfg.vlans, cfg.snmp, cfg.views, cfg.groups,
            cfg.credentials, cfg.targets, cfg.services)
  }

  /** `reconciled_startup`: a port without a saved policy gets the default one, and a policy without a port is dropped. */
  function Reconciled(s: Startup, ports: set<Id>): Startup {
    s.(ports := map p | p in ports :: if p in s.ports then s.ports[p] else DEFAULT_POLICY)
  }

  function Recombined(lab: Lab, s: Startup): Configuration {
    var logical := Reconciled(s, lab.ports.Keys);
    Configuration(lab.chassis, s.switch, map p | p in lab.ports :: Port(lab.ports[p], logical.ports[p]), s.vlans,
                  lab.endpoints, lab.attachments, lab.paused, lab.materials, lab.templates,
                  s.snmp, s.views, s.groups, s.credentials, s.targets, s.services)
  }

  /** `compose_configuration`, which runs the whole validator on what it put together */
  function Compose(lab: Lab, s: Startup): Result<Configuration, Refusal> {
    var cfg := Recombined(lab, s);
    if Valid(cfg) then Ok(cfg) else Err(Invalid)
  }

  // ---------------------------------------------------------------------------------------------
  // Halves of valid configurations recombine
  // ---------------------------------------------------------------------------------------------

  /** What a logical half needs of its own, whatever lab it meets. */
  ghost predicate Sound(s: Startup) {
    && VlansOk(s.vlans, s.switch.legacyVlan)
    && (forall p :: p in s.ports ==> PolicyOk(s.ports[p], s.vlans.Keys))
    && SnmpOk(s.views, s.groups, s.credentials, s.targets)
    && ServicesOk(s.services)
  }

  lemma StartupSound(cfg: Configuration)
    requires Valid(cfg)
    ensures Sound(StartupOf(cfg))
  {
    assert forall p :: p in cfg.ports ==> PolicyOk(cfg.ports[p].policy, cfg.vlans.Keys);
  }

  lemma ReconciledSound(s: Startup, ports: set<Id>)
    requires Sound(s)
    ensures Sound(Reconciled(s, ports))
  {
    assert PolicyOk(DEFAULT_POLICY, s.vlans.Keys);
  }

  /** The ports of a recombined configuration: the given hardware under the saved or the default policies. */
  function Dressed(hardware: map<Id, Hardware>, policies: map<Id, Policy>): map<Id, Port> {
    map p | p in hardware :: Port(hardware[p], if p in policies then policies[p] else DEFAULT_POLICY)
  }

  lemma RecombinedShape(lab: Lab, s: Startup)
    ensures Recombined(lab, s) == Configuration(lab.chassis, s.switch, Dressed(lab.ports, s.ports), s.vlans,
      lab.endpoints, lab.attachments, lab.paused, lab.materials, lab.templates,
      s.snmp, s.views, s.groups, s.credentials, s.targets, s.services)
  {
    assert Recombined(lab, s).ports == Dressed(lab.ports, s.ports);
  }

  lemma DressedPolicies(ports: map<Id, Port>, policies: map<Id, Policy>, vids: set<VlanId>, more: set<VlanId>)
    requires PortsOk(ports, vids) && DEFAULT_VLAN in more && forall p :: p in policies ==> PolicyOk(policies[p], more)
    ensures PortsOk(Dressed(map p | p in ports :: ports[p].hw, policies), more)
  {
    assert PolicyOk(DEFAULT_POLICY, more);
  }

  lemma DressedPorts(ports: map<Id, Port>, policies: map<Id, Policy>, c: Chassis, attachments: map<Id, Id>, endpoints: set<Id>)
    requires InventoryOk(ports, c) && AttachmentsOk(attachments, endpoints, ports)
    ensures var dressed := Dressed(map p | p in ports :: ports[p].hw, policies);
            InventoryOk(dressed, c) && AttachmentsOk(attachments, endpoints, dressed)
  {
    SameHardware(ports, Dressed(map p | p in ports :: ports[p].hw, policies), c, attachments, endpoints);
  }

  /** Any sound policy applies to the lab of any valid configuration; a reboot cannot fail. */
  lemma SoundRecombines(cfg: Configuration, s: Startup)
    requires Valid(cfg) && Sound(s)
    ensures Compose(LabOf(cfg), s) == Ok(Recombined(LabOf(cfg), s))
  {
    RecombinedShape(LabOf(cfg), s);
    DressedPolicies(cfg.ports, s.ports, cfg.vlans.Keys, s.vlans.Keys);
    DressedPorts(cfg.ports, s.ports, cfg.chassis, cfg.attachments, cfg.endpoints.Keys);
    Recombines(cfg, s, Recombined(LabOf(cfg), s));
  }

  lemma Recombines(cfg: Configuration, s: Startup, c: Configuration)
    requires Valid(cfg) && Sound(s)
    requires c == Recombined(LabOf(cfg), s)
    requires PortsOk(c.ports, c.vlans.Keys) && InventoryOk(c.ports, c.chassis)
    requires AttachmentsOk(c.attachments, c.endpoints.Keys, c.ports)
    ensures Valid(c)
  {
  }

  /** The lab half of one valid configuration and the logical half of another compose. */
  lemma HalvesCompose(a: Configuration, b: Configuration)
    requires Valid(a) && Valid(b)
    ensures Compose(LabOf(a), StartupOf(b)).Ok?
  {
    StartupSound(b);
    SoundRecombines(a, StartupOf(b));
  }

  lemma SplitRecombines(cfg: Configuration)
    ensures Recombined(LabOf(cfg), StartupOf(cfg)) == cfg
  {
    assert Recombined(LabOf(cfg), StartupOf(cfg)).ports == cfg.ports;
  }

  /** Composing the two halves of a valid configuration gives it back. */
  lemma ComposeAfterSplit(cfg: Configuration)
    requires Valid(cfg)
    ensures Compose(LabOf(cfg), StartupOf(cfg)) == Ok(cfg)
  {
    SplitRecombines(cfg);
  }

  lemma SplitParts(lab: Lab, s: Startup)
    ensures LabOf(Recombined(lab, s)) == lab
    ensures StartupOf(Recombined(lab, s)) == Reconciled(s, lab.ports.Keys)
  {
    RecombinedShape(lab, s);
    assert (map p | p in Dressed(lab.ports, s.ports) :: Dressed(lab.ports, s.ports)[p].hw) == lab.ports;
    assert (map p | p in Dressed(lab.ports, s.ports) :: Dressed(lab.ports, s.ports)[p].policy)
        == Reconciled(s, lab.ports.Keys).ports;
  }

  /** Splitting what was composed gives back the lab, and the policy reconciled with the lab's ports. */
  lemma SplitAfterCompose(lab: Lab, s: Startup)
    requires Compose(lab, s).Ok?
    ensures LabOf(Compose(lab, s).value) == lab
    ensures StartupOf(Compose(lab, s).value) == Reconciled(s, lab.ports.Keys)
  {
    SplitParts(lab, s);
  }

  /** The saved policy differs from the running one exactly when recombining would change the configuration. */
  lemma DiffersIsChange(cfg: Configuration, s: Startup)
    ensures StartupOf(cfg) != Reconciled(s, cfg.ports.Keys) <==> Recombined(LabOf(cfg), s) != cfg
  {
    var c := Recombined(LabOf(cfg), s);
    assert LabOf(cfg).ports.Keys == cfg.ports.Keys;
    assert StartupOf(c).ports == Reconciled(s, cfg.ports.Keys).ports;
    if StartupOf(cfg) == Reconciled(s, cfg.ports.Keys) {
      forall p | p in cfg.ports ensures c.ports[p] == cfg.ports[p] {
        assert StartupOf(cfg).ports[p] == Reconciled(s, cfg.ports.Keys).ports[p];
      }
      assert c.ports == cfg.ports;
    }
  }
}
