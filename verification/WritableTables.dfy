/**
 * The tables through which GET shows the writable objects, built from a configuration, and what a lookup in any view that
 * holds them returns.
 */
module WritableTables {
  import opened Outcomes
  import opened Configuration
  import opened SetRequests
  import opened SetEffects
  import opened SetLaws
  import opened PortLists
  import MibView
  import MibWalk
  import Names
  import Registered

  // ---------------------------------------------------------------------------------------------
  // Tables with one row for each record of a dictionary
  // ---------------------------------------------------------------------------------------------

  function RowsOf<K>(order: seq<K>, index: K -> nat, cells: K -> seq<MibView.Cell>): (rows: seq<MibView.Row>)
    ensures |rows| == |order|
    ensures forall i :: 0 <= i < |order| ==> rows[i] == MibView.Row([index(order[i])], cells(order[i]))
  {
    seq(|order|, i requires 0 <= i < |order| => MibView.Row([index(order[i])], cells(order[i])))
  }

  ghost predicate EntryOfRecord<K>(e: MibView.Entry<MibView.Raw>, prefix: Oid, index: K -> nat, cells: K -> seq<MibView.Cell>, k: K, j: nat) {
    j < |cells(k)| && e == MibView.CellEntry(prefix, [index(k)], cells(k)[j])
  }

  lemma EntryFromRecord<K>(prefix: Oid, order: seq<K>, index: K -> nat, cells: K -> seq<MibView.Cell>, e: MibView.Entry<MibView.Raw>)
    requires e in MibView.TableEntries(prefix, RowsOf(order, index, cells))
    ensures exists k, j: nat :: k in order && EntryOfRecord(e, prefix, index, cells, k, j)
  {
    var rows := RowsOf(order, index, cells);
    var es := MibView.TableEntries(prefix, rows);
    var at :| 0 <= at < |es| && es[at] == e;
    var i, j := MibView.TableEntryFrom(prefix, rows, at);
    assert order[i] in order && EntryOfRecord(e, prefix, index, cells, order[i], j);
  }

  lemma EntryAtRecord<K>(prefix: Oid, order: seq<K>, index: K -> nat, cells: K -> seq<MibView.Cell>, k: K, c: MibView.Cell)
    requires k in order && c in cells(k)
    ensures MibView.CellEntry(prefix, [index(k)], c) in MibView.TableEntries(prefix, RowsOf(order, index, cells))
  {
    var i :| 0 <= i < |order| && order[i] == k;
    var j :| 0 <= j < |cells(k)| && cells(k)[j] == c;
    MibView.TableEntryAt(prefix, RowsOf(order, index, cells), i, j);
  }

  /** The row's cells of that column, of which there are some, all hold one value. */
  ghost predicate Holds(cells: seq<MibView.Cell>, column: nat, raw: MibView.Raw) {
    MibView.Cell(column, raw) in cells && forall c :: c in cells && c.column == column ==> c.raw == raw
  }

  lemma NameParts(prefix: Oid, c: nat, x: nat, d: nat, y: nat)
    requires MibView.Column(prefix, c) + [x] == MibView.Column(prefix, d) + [y]
    ensures c == d && x == y
  {
    var n := MibView.Column(prefix, c) + [x];
    assert n[|prefix|] == c && n[|prefix|] == d && n[|prefix| + 1] == x && n[|prefix| + 1] == y;
  }

  /** No other row overwrites a record's cell, as no other record has its index. */
  lemma RecordShown<K>(includes: seq<Oid>, t: MibView.Table, order: seq<K>, index: K -> nat, cells: K -> seq<MibView.Cell>,
                       column: nat, k: K, raw: MibView.Raw)
    requires t.rows == RowsOf(order, index, cells)
    requires k in order && forall j :: j in order && index(j) == index(k) ==> j == k
    requires Holds(cells(k), column, raw)
    requires MibView.Allowed(includes, MibView.Column(t.prefix, column) + [index(k)])
    ensures var n := MibView.Column(t.prefix, column) + [index(k)];
            n in MibView.TableMap(includes, t) && MibView.TableMap(includes, t)[n] == raw
  {
    var n := MibView.Column(t.prefix, column) + [index(k)];
    EntryAtRecord(t.prefix, order, index, cells, k, MibView.Cell(column, raw));
    forall e | e in MibView.TableEntries(t.prefix, t.rows) && e.name == n ensures e.value == raw {
      EntryFromRecord(t.prefix, order, index, cells, e);
      var j, at: nat :| j in order && EntryOfRecord(e, t.prefix, index, cells, j, at);
      NameParts(t.prefix, column, index(k), cells(j)[at].column, index(j));
    }
    MibView.FoldAgrees(includes, MibView.TableEntries(t.prefix, t.rows), n, raw);
  }

  /** Under a column only records are shown, each by its index. */
  lemma ShownRecord<K>(includes: seq<Oid>, t: MibView.Table, order: seq<K>, index: K -> nat, cells: K -> seq<MibView.Cell>,
                       column: nat, n: Oid)
    requires t.rows == RowsOf(order, index, cells)
    requires n in MibView.TableMap(includes, t) && MibView.Column(t.prefix, column) <= n
    ensures exists k :: k in order && n == MibView.Column(t.prefix, column) + [index(k)]
  {
    var es := MibView.TableEntries(t.prefix, t.rows);
    MibView.FoldMembers(includes, es, n);
    var e :| e in es && e.name == n;
    EntryFromRecord(t.prefix, order, index, cells, e);
    var k, j: nat :| k in order && EntryOfRecord(e, t.prefix, index, cells, k, j);
    assert n[|t.prefix|] == MibView.Column(t.prefix, column)[|t.prefix|];
    assert n == MibView.Column(t.prefix, column) + [index(k)];
  }

  // ---------------------------------------------------------------------------------------------
  // Cells
  // ---------------------------------------------------------------------------------------------

  type Shown = MibView.Raw

  function Enumeration(n: int): Shown {
    MibView.Raw(MibView.Integer32, MibView.Quantity(n))
  }

  function Unsigned(n: int): Shown {
    MibView.Raw(MibView.Gauge32, MibView.Quantity(n))
  }

  function StringOf(b: Bytes): Shown {
    MibView.Raw(MibView.OctetString, MibView.Octets(b))
  }

  /** The value that a SET carries when it sends back a value that GET returned. */
  function Returned(v: MibView.Value): Wire {
    match (v.syntax, v.payload)
    case (Integer32, Quantity(n)) => Integer(n)
    case (Gauge32, Quantity(n)) => Gauge(n)
    case (OctetString, Octets(b)) => OctetString(b)
    case _ => OtherSyntax
  }

  function ChosenPorts(ports: map<Id, Port>, k: Kind, vid: int): Shown
    requires OfMembers(k)
  {
    StringOf(Bitmap(Numbers(ports, MembersAt(ports, k, vid)), MapSize(ports)))
  }

  /** Everything that a view shows besides the writable columns: it depends on more than the configuration. */
  datatype Surroundings = Surroundings(
    includes: seq<Oid>, scalars: seq<MibView.Scalar>, tables: seq<MibView.Table>,
    vlans: seq<MibView.Vlan>, ticks: nat, wrapped: bool,
    interfaceCells: Port -> seq<MibView.Cell>, paePortCells: Port -> seq<MibView.Cell>, paeConfigCells: Port -> seq<MibView.Cell>)

  ghost predicate Avoids(cells: Port -> seq<MibView.Cell>, columns: set<nat>) {
    forall p, c :: c in cells(p) ==> c.column !in columns
  }

  /** A row is itself a dictionary: its other columns are other columns. */
  ghost predicate Beside(o: Surroundings) {
    Avoids(o.interfaceCells, {7}) && Avoids(o.paePortCells, {4, 5}) && Avoids(o.paeConfigCells, {6})
  }

  function InterfaceCells(o: Surroundings): Port -> seq<MibView.Cell> {
    (p: Port) => [MibView.Cell(7, Enumeration(if p.policy.adminUp then 1 else 2))] + o.interfaceCells(p)
  }

  function BridgePortCells(): Port -> seq<MibView.Cell> {
    (p: Port) => [MibView.Cell(1, Unsigned(p.policy.pvid)), MibView.Cell(2, Enumeration(1)),
                  MibView.Cell(3, Enumeration(1)), MibView.Cell(4, Enumeration(2))]
  }

  function StaticCells(ports: map<Id, Port>): Vlan -> seq<MibView.Cell> {
    (v: Vlan) => [MibView.Cell(1, StringOf(v.name)), MibView.Cell(2, ChosenPorts(ports, EgressPorts, v.vid)),
                  MibView.Cell(3, ChosenPorts(ports, ForbiddenPorts, v.vid)), MibView.Cell(4, ChosenPorts(ports, UntaggedPorts, v.vid)),
                  MibView.Cell(5, Enumeration(1))]
  }

  function PaePortCells(o: Surroundings): Port -> seq<MibView.Cell> {
    (p: Port) => [MibView.Cell(4, Enumeration(2)), MibView.Cell(5, Enumeration(2))] + o.paePortCells(p)
  }

  function PaeConfigCells(o: Surroundings): Port -> seq<MibView.Cell> {
    (p: Port) => [MibView.Cell(6, Enumeration(NumberOf(p.policy.authentication.control)))] + o.paeConfigCells(p)
  }

  function IfIndex(): Port -> nat {
    (p: Port) => p.hw.ifIndex
  }

  function BridgePort(): Port -> nat {
    (p: Port) => p.hw.bridgePort
  }

  function Vid(): Vlan -> nat {
    (v: Vlan) => v.vid
  }

  // ---------------------------------------------------------------------------------------------
  // The view of a configuration
  // ---------------------------------------------------------------------------------------------

  /** The dictionaries' values, in the order in which a walk meets them. */
  datatype Orders = Orders(ports: seq<Port>, vlans: seq<Vlan>)

  ghost predicate WalksPorts(order: seq<Port>, ports: map<Id, Port>) {
    && (forall p :: p in ports ==> ports[p] in order)
    && (forall q :: q in order ==> q.hw.id in ports && ports[q.hw.id] == q)
  }

  ghost predicate WalksVlans(order: seq<Vlan>, vlans: map<VlanId, Vlan>) {
    && (forall v :: v in vlans ==> vlans[v] in order)
    && (forall q :: q in order ==> q.vid in vlans && vlans[q.vid] == q)
  }

  function PrefixOf(k: Kind): Oid {
    match k
    case AdminStatus => [1, 3, 6, 1, 2, 1, 2, 2, 1]
    case PortPvid => [1, 3, 6, 1, 2, 1, 17, 7, 1, 4, 5, 1]
    case PaeInitialize | PaeReauthenticate => [1, 0, 8802, 1, 1, 1, 1, 1, 2, 1]
    case PaeControl => [1, 0, 8802, 1, 1, 1, 1, 2, 1, 1]
    case StaticName | EgressPorts | ForbiddenPorts | UntaggedPorts | RowStatus => [1, 3, 6, 1, 2, 1, 17, 7, 1, 4, 3, 1]
  }

  function ColumnsOf(k: Kind): set<nat> {
    match k
    case AdminStatus => {1, 2, 3, 4, 5, 6, 7, 8, 9, 10, 11, 13, 14, 16, 17, 19, 20}
    case PortPvid => {1, 2, 3, 4}
    case PaeInitialize | PaeReauthenticate => {2, 3, 4, 5}
    case PaeControl => {1, 2, 3, 4, 5, 6, 12, 13, 14}
    case StaticName | EgressPorts | ForbiddenPorts | UntaggedPorts | RowStatus => {1, 2, 3, 4, 5}
  }

  function RowsFor(ports: map<Id, Port>, walk: Orders, o: Surroundings, k: Kind): seq<MibView.Row> {
    match k
    case AdminStatus => RowsOf(walk.ports, IfIndex(), InterfaceCells(o))
    case PortPvid => RowsOf(walk.ports, BridgePort(), BridgePortCells())
    case PaeInitialize | PaeReauthenticate => RowsOf(walk.ports, IfIndex(), PaePortCells(o))
    case PaeControl => RowsOf(walk.ports, IfIndex(), PaeConfigCells(o))
    case StaticName | EgressPorts | ForbiddenPorts | UntaggedPorts | RowStatus => RowsOf(walk.vlans, Vid(), StaticCells(ports))
  }

  /** The table that shows a writable object. */
  function TableOf(ports: map<Id, Port>, walk: Orders, o: Surroundings, k: Kind): MibView.Table {
    MibView.Table(PrefixOf(k), ColumnsOf(k), RowsFor(ports, walk, o, k))
  }

  function Tables(ports: map<Id, Port>, walk: Orders, o: Surroundings): seq<MibView.Table> {
    [TableOf(ports, walk, o, AdminStatus), TableOf(ports, walk, o, PortPvid), TableOf(ports, walk, o, StaticName),
     TableOf(ports, walk, o, PaeInitialize), TableOf(ports, walk, o, PaeControl)]
  }

  function ViewOf(cfg: Configuration, walk: Orders, o: Surroundings): MibView.View {
    MibView.View(o.includes, o.scalars, Tables(cfg.ports, walk, o) + o.tables, o.vlans, o.ticks, o.wrapped)
  }

  /** A view of a published configuration: its dictionaries in some order, and only registered tables and scalars. */
  ghost predicate Projects(v: MibView.View, cfg: Configuration, walk: Orders, o: Surroundings) {
    && v == ViewOf(cfg, walk, o) && Registered.FromRegistry(v) && Beside(o)
    && WalksPorts(walk.ports, cfg.ports) && WalksVlans(walk.vlans, cfg.vlans)
  }

  // ---------------------------------------------------------------------------------------------
  // Writable objects and their instances
  // ---------------------------------------------------------------------------------------------

  predicate Exists(cfg: Configuration, s: Slot) {
    if OfPort(s.kind) then s.key in cfg.ports else s.key in cfg.vlans
  }

  function PortIndex(k: Kind): Port -> nat {
    if k.PortPvid? then BridgePort() else IfIndex()
  }

  function InstanceOf(cfg: Configuration, s: Slot): nat
    requires Exists(cfg, s)
  {
    if OfPort(s.kind) then PortIndex(s.kind)(cfg.ports[s.key]) else s.key
  }

  function NameOf(cfg: Configuration, s: Slot): Oid
    requires Exists(cfg, s)
  {
    Base(s.kind) + [InstanceOf(cfg, s)]
  }

  /** What is shown of a writable object: PAE actions read false, rows read active. */
  function PortShown(p: Port, k: Kind): Shown
    requires OfPort(k)
  {
    match k
    case AdminStatus => Enumeration(if p.policy.adminUp then 1 else 2)
    case PaeInitialize | PaeReauthenticate => Enumeration(2)
    case PaeControl => Enumeration(NumberOf(p.policy.authentication.control))
    case PortPvid => Unsigned(p.policy.pvid)
  }

  function StaticShown(ports: map<Id, Port>, v: Vlan, k: Kind): Shown
    requires !OfPort(k)
  {
    match k
    case StaticName => StringOf(v.name)
    case RowStatus => Enumeration(1)
    case EgressPorts | ForbiddenPorts | UntaggedPorts => ChosenPorts(ports, k, v.vid)
  }

  function ShownOf(cfg: Configuration, s: Slot): Shown
    requires Exists(cfg, s)
  {
    if OfPort(s.kind) then PortShown(cfg.ports[s.key], s.kind) else StaticShown(cfg.ports, cfg.vlans[s.key], s.kind)
  }

  function ColumnOf(k: Kind): nat {
    Base(k)[|Base(k)| - 1]
  }

  lemma BaseIsColumn(k: Kind)
    ensures Base(k) == MibView.Column(PrefixOf(k), ColumnOf(k))
  {
  }

  /** What a table shows at a name of a given column and index. */
  ghost predicate Shows(includes: seq<Oid>, t: MibView.Table, base: Oid, x: nat, raw: Shown) {
    MibView.Allowed(includes, base + [x]) ==>
      base + [x] in MibView.TableMap(includes, t) && MibView.TableMap(includes, t)[base + [x]] == raw
  }

  ghost predicate Keyed(order: seq<Port>, index: Port -> nat) {
    forall p, q :: p in order && q in order && index(p) == index(q) ==> p == q
  }

  lemma PortsKeyed(ports: map<Id, Port>, chassis: Chassis, order: seq<Port>)
    requires InventoryOk(ports, chassis) && WalksPorts(order, ports)
    ensures Keyed(order, IfIndex()) && Keyed(order, BridgePort())
  {
  }

  lemma InterfaceShown(ports: map<Id, Port>, walk: Orders, o: Surroundings, p: Port)
    requires Avoids(o.interfaceCells, {7}) && Keyed(walk.ports, IfIndex()) && p in walk.ports
    ensures Shows(o.includes, TableOf(ports, walk, o, AdminStatus), Base(AdminStatus), p.hw.ifIndex, PortShown(p, AdminStatus))
  {
    var base, x, raw := Base(AdminStatus), p.hw.ifIndex, PortShown(p, AdminStatus);
    BaseIsColumn(AdminStatus);
    assert InterfaceCells(o)(p)[0] == MibView.Cell(7, raw);
    if MibView.Allowed(o.includes, base + [x]) {
      RecordShown(o.includes, TableOf(ports, walk, o, AdminStatus), walk.ports, IfIndex(), InterfaceCells(o), 7, p, raw);
    }
  }

  lemma BridgePortShown(ports: map<Id, Port>, walk: Orders, o: Surroundings, p: Port)
    requires Keyed(walk.ports, BridgePort()) && p in walk.ports
    ensures Shows(o.includes, TableOf(ports, walk, o, PortPvid), Base(PortPvid), p.hw.bridgePort, PortShown(p, PortPvid))
  {
    var base, x, raw := Base(PortPvid), p.hw.bridgePort, PortShown(p, PortPvid);
    BaseIsColumn(PortPvid);
    assert BridgePortCells()(p)[0] == MibView.Cell(1, raw);
    if MibView.Allowed(o.includes, base + [x]) {
      RecordShown(o.includes, TableOf(ports, walk, o, PortPvid), walk.ports, BridgePort(), BridgePortCells(), 1, p, raw);
    }
  }

  lemma PaeActionShown(ports: map<Id, Port>, walk: Orders, o: Surroundings, k: Kind, p: Port)
    requires k.PaeInitialize? || k.PaeReauthenticate?
    requires Avoids(o.paePortCells, {4, 5}) && Keyed(walk.ports, IfIndex()) && p in walk.ports
    ensures Shows(o.includes, TableOf(ports, walk, o, k), Base(k), p.hw.ifIndex, PortShown(p, k))
  {
    var base, x, c := Base(k), p.hw.ifIndex, ColumnOf(k);
    BaseIsColumn(k);
    assert PaePortCells(o)(p)[0] == MibView.Cell(4, Enumeration(2)) && PaePortCells(o)(p)[1] == MibView.Cell(5, Enumeration(2));
    if MibView.Allowed(o.includes, base + [x]) {
      RecordShown(o.includes, TableOf(ports, walk, o, k), walk.ports, IfIndex(), PaePortCells(o), c, p, Enumeration(2));
    }
  }

  lemma PaeControlShown(ports: map<Id, Port>, walk: Orders, o: Surroundings, p: Port)
    requires Avoids(o.paeConfigCells, {6}) && Keyed(walk.ports, IfIndex()) && p in walk.ports
    ensures Shows(o.includes, TableOf(ports, walk, o, PaeControl), Base(PaeControl), p.hw.ifIndex, PortShown(p, PaeControl))
  {
    var base, x, raw := Base(PaeControl), p.hw.ifIndex, PortShown(p, PaeControl);
    BaseIsColumn(PaeControl);
    assert PaeConfigCells(o)(p)[0] == MibView.Cell(6, raw);
    if MibView.Allowed(o.includes, base + [x]) {
      RecordShown(o.includes, TableOf(ports, walk, o, PaeControl), walk.ports, IfIndex(), PaeConfigCells(o), 6, p, raw);
    }
  }

  lemma StaticHolds(ports: map<Id, Port>, v: Vlan, k: Kind)
    requires !OfPort(k)
    ensures Holds(StaticCells(ports)(v), ColumnOf(k), StaticShown(ports, v, k))
  {
    var cells := StaticCells(ports)(v);
    assert cells[0].column == 1 && cells[1].column == 2 && cells[2].column == 3 && cells[3].column == 4 && cells[4].column == 5;
  }

  lemma VlanShown(ports: map<Id, Port>, vlans: map<VlanId, Vlan>, walk: Orders, o: Surroundings, k: Kind, v: Vlan)
    requires !OfPort(k) && WalksVlans(walk.vlans, vlans) && v in walk.vlans
    ensures Shows(o.includes, TableOf(ports, walk, o, k), Base(k), v.vid, StaticShown(ports, v, k))
  {
    BaseIsColumn(k);
    StaticHolds(ports, v, k);
    if MibView.Allowed(o.includes, Base(k) + [v.vid]) {
      RecordShown(o.includes, TableOf(ports, walk, o, k), walk.vlans, Vid(), StaticCells(ports), ColumnOf(k), v, StaticShown(ports, v, k));
    }
  }

  lemma PortSlotShown(ports: map<Id, Port>, walk: Orders, o: Surroundings, k: Kind, p: Port)
    requires OfPort(k) && Beside(o) && Keyed(walk.ports, IfIndex()) && Keyed(walk.ports, BridgePort()) && p in walk.ports
    ensures Shows(o.includes, TableOf(ports, walk, o, k), Base(k), PortIndex(k)(p), PortShown(p, k))
  {
    match k {
      case AdminStatus => InterfaceShown(ports, walk, o, p);
      case PortPvid => BridgePortShown(ports, walk, o, p);
      case PaeInitialize | PaeReauthenticate => PaeActionShown(ports, walk, o, k, p);
      case PaeControl => PaeControlShown(ports, walk, o, p);
    }
  }

  /** Every writable object of an existing port or VLAN is in its table, with its current value. */
  lemma SlotShown(cfg: Configuration, walk: Orders, o: Surroundings, s: Slot)
    requires Beside(o) && WalksPorts(walk.ports, cfg.ports) && WalksVlans(walk.vlans, cfg.vlans)
    requires InventoryOk(cfg.ports, cfg.chassis) && VlansOk(cfg.vlans, cfg.switch.legacyVlan) && Exists(cfg, s)
    ensures Shows(o.includes, TableOf(cfg.ports, walk, o, s.kind), Base(s.kind), InstanceOf(cfg, s), ShownOf(cfg, s))
  {
    if OfPort(s.kind) {
      PortsKeyed(cfg.ports, cfg.chassis, walk.ports);
      PortSlotShown(cfg.ports, walk, o, s.kind, cfg.ports[s.key]);
    } else {
      VlanShown(cfg.ports, cfg.vlans, walk, o, s.kind, cfg.vlans[s.key]);
    }
  }

  lemma ShownPort(ports: map<Id, Port>, walk: Orders, o: Surroundings, k: Kind, n: Oid)
    requires OfPort(k) && n in MibView.TableMap(o.includes, TableOf(ports, walk, o, k)) && Base(k) <= n
    ensures exists p :: p in walk.ports && n == Base(k) + [PortIndex(k)(p)]
  {
    var t := TableOf(ports, walk, o, k);
    BaseIsColumn(k);
    match k {
      case AdminStatus => ShownRecord(o.includes, t, walk.ports, IfIndex(), InterfaceCells(o), ColumnOf(k), n);
      case PortPvid => ShownRecord(o.includes, t, walk.ports, BridgePort(), BridgePortCells(), ColumnOf(k), n);
      case PaeControl => ShownRecord(o.includes, t, walk.ports, IfIndex(), PaeConfigCells(o), ColumnOf(k), n);
      case _ => ShownRecord(o.includes, t, walk.ports, IfIndex(), PaePortCells(o), ColumnOf(k), n);
    }
  }

  /** Whatever is shown under a writable column is an object of an existing port or VLAN. */
  lemma ShownSlot(cfg: Configuration, walk: Orders, o: Surroundings, k: Kind, n: Oid)
    requires WalksPorts(walk.ports, cfg.ports) && WalksVlans(walk.vlans, cfg.vlans)
    requires n in MibView.TableMap(o.includes, TableOf(cfg.ports, walk, o, k)) && Base(k) <= n
    ensures exists key :: Exists(cfg, Slot(k, key)) && n == NameOf(cfg, Slot(k, key))
  {
    if OfPort(k) {
      ShownPort(cfg.ports, walk, o, k, n);
      var p :| p in walk.ports && n == Base(k) + [PortIndex(k)(p)];
      assert Exists(cfg, Slot(k, p.hw.id)) && n == NameOf(cfg, Slot(k, p.hw.id));
    } else {
      BaseIsColumn(k);
      ShownRecord(o.includes, TableOf(cfg.ports, walk, o, k), walk.vlans, Vid(), StaticCells(cfg.ports), ColumnOf(k), n);
      var q :| q in walk.vlans && n == Base(k) + [Vid()(q)];
      assert Exists(cfg, Slot(k, q.vid)) && n == NameOf(cfg, Slot(k, q.vid));
    }
  }

  // ---------------------------------------------------------------------------------------------
  // Lookups
  // ---------------------------------------------------------------------------------------------

  /** Where that table stands among those of the view. */
  function Place(k: Kind): nat {
    match k
    case AdminStatus => 0
    case PortPvid => 1
    case PaeInitialize | PaeReauthenticate => 3
    case PaeControl => 4
    case _ => 2
  }

  lemma TablePlace(ports: map<Id, Port>, walk: Orders, o: Surroundings, k: Kind)
    ensures Place(k) < |Tables(ports, walk, o)| && Tables(ports, walk, o)[Place(k)] == TableOf(ports, walk, o, k)
  {
  }

  lemma TableAt(v: MibView.View, cfg: Configuration, walk: Orders, o: Surroundings, k: Kind)
    requires Projects(v, cfg, walk, o)
    ensures MibView.Wellformed(v) && v.includes == o.includes
    ensures Place(k) < |v.tables| && v.tables[Place(k)] == TableOf(cfg.ports, walk, o, k)
  {
    TablePlace(cfg.ports, walk, o, k);
    Registered.RegistryWellformed(v);
  }

  /** GET of a writable object that the view shows returns its current value. */
  lemma LookupFinds(v: MibView.View, cfg: Configuration, walk: Orders, o: Surroundings, s: Slot)
    requires Valid(cfg) && Projects(v, cfg, walk, o) && Exists(cfg, s) && MibView.Allowed(v.includes, NameOf(cfg, s))
    ensures MibWalk.Lookup(v, NameOf(cfg, s)) == MibView.Found(NameOf(cfg, s), MibView.Built(ShownOf(cfg, s)))
  {
    var n := NameOf(cfg, s);
    TableAt(v, cfg, walk, o, s.kind);
    SlotShown(cfg, walk, o, s);
    MibWalk.RowVisible(v, MibView.Cutoff(n), Place(s.kind), n);
    MibWalk.VisibleKnown(v, MibView.Cutoff(n), n);
  }

  lemma UnderColumn(prefix: Oid, column: nat, n: Oid)
    requires MibView.Column(prefix, column) <= n
    ensures prefix <= n
  {
    assert prefix == MibView.Column(prefix, column)[..|prefix|] == n[..|prefix| + 1][..|prefix|] == n[..|prefix|];
  }

  lemma FoundInTable(v: MibView.View, i: nat, n: Oid)
    requires MibView.Wellformed(v) && i < |v.tables| && v.tables[i].prefix <= n && MibWalk.Lookup(v, n).Found?
    ensures n in MibView.TableMap(v.includes, v.tables[i])
  {
    if MibView.CURRENT <= n {
      assert MibView.Families(v)[|v.tables|] == MibView.CURRENT && MibView.Families(v)[i] == v.tables[i].prefix;
      Names.Comparable(MibView.CURRENT, v.tables[i].prefix, n);
    }
    MibWalk.VisibleElsewhere(v, MibView.Cutoff(n), n);
    MibView.OrdinaryInTable(v, i, n);
  }

  /** What GET finds under a writable column is such an object: no other name there has a value. */
  lemma FoundIsSlot(v: MibView.View, cfg: Configuration, walk: Orders, o: Surroundings, k: Kind, n: Oid)
    requires Projects(v, cfg, walk, o) && Base(k) <= n && MibWalk.Lookup(v, n).Found?
    ensures exists key :: Exists(cfg, Slot(k, key)) && n == NameOf(cfg, Slot(k, key))
  {
    TableAt(v, cfg, walk, o, k);
    BaseIsColumn(k);
    UnderColumn(v.tables[Place(k)].prefix, ColumnOf(k), n);
    FoundInTable(v, Place(k), n);
    ShownSlot(cfg, walk, o, k, n);
  }

  lemma PrefixesRegistered()
    ensures forall k: Kind :: PrefixOf(k) in Registered.OBJECTS && PrefixOf(k) != MibView.CURRENT
  {
    assert Registered.OBJECTS[14] == PrefixOf(AdminStatus) && Registered.OBJECTS[32] == PrefixOf(PortPvid);
    assert Registered.OBJECTS[31] == PrefixOf(StaticName);
    assert Registered.OBJECTS[1] == PrefixOf(PaeInitialize) && Registered.OBJECTS[2] == PrefixOf(PaeControl);
  }

  lemma PrefixesApart()
    ensures var p := [PrefixOf(AdminStatus), PrefixOf(PortPvid), PrefixOf(StaticName), PrefixOf(PaeInitialize), PrefixOf(PaeControl)];
            forall i, j :: 0 <= i < j < |p| ==> p[i] != p[j]
  {
    assert PrefixOf(PortPvid)[10] == 5 && PrefixOf(StaticName)[10] == 3;
    assert PrefixOf(PaeInitialize)[7] == 1 && PrefixOf(PaeControl)[7] == 2;
  }

  lemma TablesRegistered(ports: map<Id, Port>, walk: Orders, o: Surroundings)
    requires forall k: Kind :: MibView.Declared(TableOf(ports, walk, o, k))
    ensures forall t :: t in Tables(ports, walk, o) ==> t.prefix in Registered.OBJECTS && t.prefix != MibView.CURRENT && MibView.Declared(t)
  {
    PrefixesRegistered();
    forall t | t in Tables(ports, walk, o) ensures exists k :: t == TableOf(ports, walk, o, k) { }
  }

  lemma TablesApart(ports: map<Id, Port>, walk: Orders, o: Surroundings)
    ensures var t := Tables(ports, walk, o); forall i, j :: 0 <= i < j < |t| ==> t[i].prefix != t[j].prefix
  {
    PrefixesApart();
  }

  lemma BareFromRegistry(v: MibView.View)
    requires v.scalars == []
    requires forall t :: t in v.tables ==> t.prefix in Registered.OBJECTS && t.prefix != MibView.CURRENT && MibView.Declared(t)
    requires forall i, j :: 0 <= i < j < |v.tables| ==> v.tables[i].prefix != v.tables[j].prefix
    ensures Registered.FromRegistry(v)
  {
  }

  /** Such views exist: the writable tables alone, whatever their other columns show within what is declared, make one. */
  lemma WritableAlone(cfg: Configuration, walk: Orders, o: Surroundings)
    requires WalksPorts(walk.ports, cfg.ports) && WalksVlans(walk.vlans, cfg.vlans) && Beside(o) && o.scalars == [] && o.tables == []
    requires forall k: Kind :: MibView.Declared(TableOf(cfg.ports, walk, o, k))
    ensures Projects(ViewOf(cfg, walk, o), cfg, walk, o)
  {
    assert ViewOf(cfg, walk, o).tables == Tables(cfg.ports, walk, o);
    TablesRegistered(cfg.ports, walk, o);
    TablesApart(cfg.ports, walk, o);
    BareFromRegistry(ViewOf(cfg, walk, o));
  }
}
