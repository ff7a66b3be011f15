/** Port bitmaps: `port_list` writes them bit by bit, and decoding one gives back the ports it was written from. */
module PortLists {
  import opened Outcomes
  import opened Lists
  import opened Configuration
  import opened SetRequests

  predicate BitOf(x: Byte, i: nat)
    requires i < 8
  {
    x & Mask(i) != 0
  }

  lemma OneBit(x: Byte, i: nat, j: nat)
    requires i < 8 && j < 8
    ensures BitOf(x | Mask(j), i) <==> i == j || BitOf(x, i)
  {
  }

  lemma NoBit(i: nat)
    requires i < 8
    ensures !BitOf(0, i)
  {
  }

  /** An octet is its bits. */
  lemma SameBits(x: Byte, y: Byte)
    requires forall i :: 0 <= i < 8 ==> BitOf(x, i) == BitOf(y, i)
    ensures x == y
  {
    assert BitOf(x, 0) == BitOf(y, 0) && BitOf(x, 1) == BitOf(y, 1) && BitOf(x, 2) == BitOf(y, 2) && BitOf(x, 3) == BitOf(y, 3);
    assert BitOf(x, 4) == BitOf(y, 4) && BitOf(x, 5) == BitOf(y, 5) && BitOf(x, 6) == BitOf(y, 6) && BitOf(x, 7) == BitOf(y, 7);
  }

  /** The first `n` bits of the octet that holds the numbers 8 o + 1 to 8 o + 8. */
  function Bits(numbers: set<int>, o: nat, n: nat): Byte
    requires n <= 8
  {
    if n == 0 then 0 else Bits(numbers, o, n - 1) | (if 8 * o + n in numbers then Mask(n - 1) else 0)
  }

  lemma {:induction false} BitsAre(numbers: set<int>, o: nat, n: nat, i: nat)
    requires n <= 8 && i < 8
    ensures BitOf(Bits(numbers, o, n), i) <==> i < n && 8 * o + i + 1 in numbers
  {
    if n == 0 {
      NoBit(i);
    } else {
      BitsAre(numbers, o, n - 1, i);
      OneBit(Bits(numbers, o, n - 1), i, n - 1);
    }
  }

  function Bitmap(numbers: set<int>, size: nat): (b: Bytes)
    ensures |b| == size && forall o :: 0 <= o < size ==> b[o] == Bits(numbers, o, 8)
  {
    seq(size, o requires 0 <= o < size => Bits(numbers, o, 8))
  }

  lemma BitmapBit(numbers: set<int>, size: nat, n: nat)
    requires n < 8 * size
    ensures Bit(Bitmap(numbers, size), n) <==> n + 1 in numbers
  {
    BitsAre(numbers, n / 8, 8, n % 8);
  }

  function Numbers(ports: map<Id, Port>, members: set<Id>): set<int> {
    set p | p in members && p in ports :: ports[p].hw.bridgePort
  }

  ghost predicate Fits(ports: map<Id, Port>, size: nat) {
    forall p :: p in ports ==> ports[p].hw.bridgePort <= 8 * size
  }

  /** Decoding the bitmap of some ports gives back those ports, however sparse their numbers. */
  lemma BitmapRoundTrip(ports: map<Id, Port>, d: Directory, members: set<Id>, size: nat)
    requires Indexes(d, ports) && members <= ports.Keys && Fits(ports, size)
    ensures PortsOf(d.byBridge, Bitmap(Numbers(ports, members), size)) == Some(members)
  {
    var octets := Bitmap(Numbers(ports, members), size);
    forall n | 0 <= n < 8 * |octets| && Bit(octets, n) ensures n + 1 in d.byBridge && d.byBridge[n + 1] in members {
      BitmapBit(Numbers(ports, members), size, n);
      var p :| p in members && p in ports && ports[p].hw.bridgePort == n + 1;
    }
    assert AllNamed(d.byBridge, octets, 8 * |octets|);
    forall p ensures p in MembersUpTo(d.byBridge, octets, 8 * |octets|) <==> p in members {
      if p in members {
        var n := ports[p].hw.bridgePort - 1;
        BitmapBit(Numbers(ports, members), size, n);
        assert Bit(octets, n) && d.byBridge[n + 1] == p;
      }
    }
    assert MembersUpTo(d.byBridge, octets, 8 * |octets|) == members;
  }

  /** How many octets hold the bits of all ports. */
  function MapSize(ports: map<Id, Port>): nat
  {
    (Highest(ports) + 7) / 8
  }

  function Highest(ports: map<Id, Port>): (h: nat)
    ensures forall p :: p in ports ==> ports[p].hw.bridgePort <= h
    decreases |ports|
  {
    if ports == map[] then 0 else
    assert ports.Keys != {};
    var p := Least(ports.Keys);
    var rest := Highest(ports - {p});
    assert forall q :: q in ports ==> q == p || q in ports - {p};
    if ports[p].hw.bridgePort > rest then ports[p].hw.bridgePort else rest
  }

  lemma SizeFits(ports: map<Id, Port>)
    ensures Fits(ports, MapSize(ports))
  {
    var h := Highest(ports);
    assert h <= 8 * ((h + 7) / 8);
  }

  lemma OneMoreNumber(numbers: set<int>, m: int, o: nat)
    requires m >= 1
    ensures Bits(numbers + {m}, o, 8) ==
            if o == (m - 1) / 8 then Bits(numbers, o, 8) | Mask((m - 1) % 8) else Bits(numbers, o, 8)
  {
    var x, y := Bits(numbers + {m}, o, 8), if o == (m - 1) / 8 then Bits(numbers, o, 8) | Mask((m - 1) % 8) else Bits(numbers, o, 8);
    forall i | 0 <= i < 8 ensures BitOf(x, i) == BitOf(y, i) {
      BitsAre(numbers + {m}, o, 8, i);
      BitsAre(numbers, o, 8, i);
      OneBit(Bits(numbers, o, 8), i, (m - 1) % 8);
      assert 8 * o + i + 1 == m <==> o == (m - 1) / 8 && i == (m - 1) % 8;
    }
    SameBits(x, y);
  }

  lemma {:induction false} NoNumber(o: nat, n: nat)
    requires n <= 8
    ensures Bits({}, o, n) == 0
  {
    if n > 0 { NoNumber(o, n - 1); }
  }

  lemma NumbersGrow(ports: map<Id, Port>, members: set<Id>, rest: set<Id>, p: Id)
    requires p in rest && p in ports
    ensures Numbers(ports, members - (rest - {p})) == Numbers(ports, members - rest) + if p in members then {ports[p].hw.bridgePort} else {}
  {
    forall n ensures n in Numbers(ports, members - (rest - {p})) <==>
                     n in Numbers(ports, members - rest) || (p in members && n == ports[p].hw.bridgePort)
    {
      if n in Numbers(ports, members - (rest - {p})) {
        var q :| q in members - (rest - {p}) && q in ports && ports[q].hw.bridgePort == n;
        assert q == p || q in members - rest;
      }
    }
  }

  /** Set the bit of one port number. */
  method SetBit(data: array<Byte>, ghost done: set<int>, n: int)
    requires 1 <= n <= 8 * data.Length
    requires forall o :: 0 <= o < data.Length ==> data[o] == Bits(done, o, 8)
    modifies data
    ensures forall o :: 0 <= o < data.Length ==> data[o] == Bits(done + {n}, o, 8)
  {
    forall o | 0 <= o < data.Length { OneMoreNumber(done, n, o); }
    data[(n - 1) / 8] := data[(n - 1) / 8] | Mask((n - 1) % 8);
  }

  /** One bit for every chosen port, in a byte array just large enough for all ports. */
  method PortList(ports: map<Id, Port>, members: set<Id>) returns (octets: Bytes)
    ensures octets == Bitmap(Numbers(ports, members), MapSize(ports))
  {
    var data := new Byte[MapSize(ports)](_ => 0);
    SizeFits(ports);
    var rest, done: set<int> := ports.Keys, {};
    forall o | 0 <= o < data.Length { NoNumber(o, 8); }
    while rest != {}
      invariant rest <= ports.Keys && done == Numbers(ports, members - rest)
      invariant forall o :: 0 <= o < data.Length ==> data[o] == Bits(done, o, 8)
      decreases |rest|
    {
      var p :| p in rest;
      var m: int := ports[p].hw.bridgePort;
      NumbersGrow(ports, members, rest, p);
      if p in members {
        SetBit(data, done, m);
        done := done + {m};
      }
      rest := rest - {p};
    }
    assert Numbers(ports, members - rest) == Numbers(ports, members);
    octets := data[..];
  }
}
