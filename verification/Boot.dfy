/** Where runs begin: the initial configuration and the first published state of an engine. */
module Boot {
  import opened Outcomes
  import opened Configuration
  import opened Storage
  import opened Simulation
  import opened Lifecycle

  // ---------------------------------------------------------------------------------------------
  // The initial configuration
  // ---------------------------------------------------------------------------------------------

  const NAME: Bytes := [0x44, 0x65, 0x66, 0x61, 0x75, 0x6C, 0x74]

  lemma {:induction false} AsciiIsUtf8(s: Bytes)
    requires forall i :: 0 <= i < |s| ==> s[i] < 0x80
    ensures Utf8(s)
  {
    if s != [] { AsciiIsUtf8(s[1..]); }
  }

  function DefaultVlan(): Vlan {
    AsciiIsUtf8(NAME);
    Vlan(1, NAME, 1001)
  }

  /** The ports are identified by their bridge-port numbers. */
  function InitialPort(n: Number): Port {
    Port(Hardware(n, 100 + n, n, n, Direct, false, false, 1000000000, 1500), DEFAULT_POLICY)
  }

  function InitialPorts(n: nat): (ports: map<Id, Port>)
    ensures forall p :: p in ports <==> 1 <= p <= n
    ensures forall p :: p in ports ==> ports[p] == InitialPort(p)
    ensures |ports| == n
  {
    if n == 0 then map[] else InitialPorts(n - 1)[n := InitialPort(n)]
  }

  /** `initial_configuration`; texts, the two identifiers and the views' names are opaque. */
  function Initial(n: nat, switchId: Id, mac: Mac): Configuration {
    Configuration(
      Chassis(switchId, n, n + 1, 101 + n, mac, 0, 16384, 10000, 40000),
      SwitchPolicy(0, 0, 0, 0, 1, 300, 1024),
      InitialPorts(n), map[DEFAULT_VLAN := DefaultVlan()],
      map[], map[], false, map[], map[],
      0, map[0 := View(0, [[1]]), 1 := View(1, [[1, 3, 6, 1]]),
             2 := View(2, [[1, 3, 6, 1, 2, 1, 1], [1, 3, 6, 1, 2, 1, 2], [1, 3, 6, 1, 2, 1, 31]])],
      map[], map[], map[],
      Services(0, [], 0, [], 0, []))
  }

  lemma InitialInventory(n: nat, c: Chassis)
    requires c.portCount == n && c.nextBridgePort == n + 1 && c.nextIfIndex == 101 + n
    ensures InventoryOk(InitialPorts(n), c)
  {
  }

  lemma InitialPolicies(n: nat, vids: set<VlanId>)
    requires DEFAULT_VLAN in vids
    ensures PortsOk(InitialPorts(n), vids)
  {
    assert PolicyOk(DEFAULT_POLICY, vids);
  }

  /** The configuration of a new deployment is valid and fits its capacities, whatever its number of ports. */
  lemma InitialIsValid(n: nat, switchId: Id, mac: Mac)
    ensures Valid(Initial(n, switchId, mac)) && Fits(Initial(n, switchId, mac))
  {
    var c := Initial(n, switchId, mac);
    InitialInventory(n, c.chassis);
    InitialPolicies(n, c.vlans.Keys);
    var views := c.views;
    assert views.Keys == {0, 1, 2};
    assert |views| == |views.Keys|;
  }

  // ---------------------------------------------------------------------------------------------
  // The first published state
  // ---------------------------------------------------------------------------------------------

  /** An engine that has loaded or been given a configuration, with the events it has kept. */
  function Booted(cfg: Configuration, events: seq<Event>, lastEvent: nat): Published {
    var nothing := Sim(0, map[], [], map[], 0, events, lastEvent);
    Reset(Published(Scene(cfg, 0, map[], map[]), nothing, StartupOf(cfg), false, 1), cfg)
  }

  /** A booted engine satisfies everything that commands keep, so every run from a boot does. */
  lemma BootHolds(cfg: Configuration, events: seq<Event>, lastEvent: nat)
    requires Valid(cfg) && Fits(cfg)
    ensures INVARIANT(Booted(cfg, events, lastEvent))
  {
    var before := Published(Scene(cfg, 0, map[], map[]), Sim(0, map[], [], map[], 0, events, lastEvent), StartupOf(cfg), false, 1);
    ValidPortIds(cfg);
    ResetRuns(before, cfg);
    StartupSound(cfg);
    ComposeAfterSplit(cfg);
  }
}
