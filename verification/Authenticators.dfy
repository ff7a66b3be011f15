/**
 * Message authenticators, password hiding, Access-Requests, dynamic-authorization replies and accounting requests.  MD5 and
 * HMAC-MD5 are parameters: nothing is used of them but that they return sixteen octets.
 */
module Authenticators {
  import opened Outcomes
  import opened Codec
  import opened ExclusiveOr

  datatype Hashes = Hashes(md5: Octets -> Digest, hmac: (Octets, Octets) -> Digest)

  const ZEROS: Digest := [0, 0, 0, 0, 0, 0, 0, 0, 0, 0, 0, 0, 0, 0, 0, 0]

  // ---------------------------------------------------------------------------------------------
  // The Message-Authenticator attribute (section 5.14 of RFC 2869)
  // ---------------------------------------------------------------------------------------------

  /** The only attribute of type 80, which must hold sixteen octets. */
  function LocateFrom(packet: Octets, at: nat, found: Option<nat>): Result<nat, WireError>
    requires at <= |packet| && ParseFrom(packet, at).Some?
    decreases |packet| - at
  {
    if at == |packet| then if found.None? then Err(MissingMessageAuthenticator) else Ok(found.value)
    else if packet[at] != 80 then LocateFrom(packet, at + packet[at + 1], found)
    else if found.Some? || packet[at + 1] != 18 then Err(InvalidMessageAuthenticator)
    else LocateFrom(packet, at + packet[at + 1], Some(at))
  }

  function Locate(packet: Octets): Result<nat, WireError>
    requires HEADER <= |packet| && ParseFrom(packet, HEADER).Some?
  {
    LocateFrom(packet, HEADER, None)
  }

  function Overwritten(packet: Octets, at: nat, value: Digest): (r: Octets)
    requires at + 16 <= |packet|
    ensures |r| == |packet|
  {
    packet[..at] + value + packet[at + 16..]
  }

  /** The packet with the authenticator at a position zeroed, and the authenticator. */
  function Separated(packet: Octets, at: nat): (Octets, Digest)
    requires at + 18 <= |packet|
  {
    (Overwritten(packet, at + 2, ZEROS), packet[at + 2..at + 18])
  }

  lemma {:induction false} LocatedWithin(packet: Octets, at: nat, found: Option<nat>)
    requires at <= |packet| && ParseFrom(packet, at).Some? && (found.Some? ==> found.value + 18 <= |packet|)
    ensures LocateFrom(packet, at, found).Ok? ==> LocateFrom(packet, at, found).value + 18 <= |packet|
    decreases |packet| - at
  {
    if at < |packet| {
      LocatedWithin(packet, at + packet[at + 1], found);
      if packet[at] == 80 && packet[at + 1] == 18 { LocatedWithin(packet, at + packet[at + 1], Some(at)); }
    }
  }

  /** `_message_authenticator`: the packet with its authenticator zeroed, and the authenticator */
  method MessageAuthenticator(packet: Octets) returns (r: Result<(Octets, Digest), WireError>)
    requires HEADER <= |packet| && ParseFrom(packet, HEADER).Some?
    ensures Locate(packet).Err? ==> r == Err(Locate(packet).error)
    ensures Locate(packet).Ok? ==> Locate(packet).value + 18 <= |packet| && r == Ok(Separated(packet, Locate(packet).value))
  {
    LocatedWithin(packet, HEADER, None);
    var zeroed, found: Option<nat> := packet, None;
    var position := HEADER;
    while position < |packet|
      invariant HEADER <= position <= |packet| && ParseFrom(packet, position).Some?
      invariant LocateFrom(packet, position, found) == Locate(packet)
      invariant found.Some? ==> found.value + 18 <= |packet| && zeroed == Overwritten(packet, found.value + 2, ZEROS)
      invariant found.None? ==> zeroed == packet
    {
      var length := packet[position + 1];
      if packet[position] == 80 {
        if found.Some? || length != 18 {
          return Err(InvalidMessageAuthenticator);
        }
        found := Some(position);
        zeroed := Overwritten(zeroed, position + 2, ZEROS);
      }
      position := position + length;
    }
    if found.None? {
      return Err(MissingMessageAuthenticator);
    }
    r := Ok((zeroed, packet[found.value + 2..found.value + 18]));
  }

  predicate IsMa(a: Attribute) {
    a.kind == 80
  }

  /** A packet has a usable authenticator exactly when one of its attributes has type 80 and that one holds sixteen octets. */
  lemma {:induction false} LocatesOne(packet: Octets, at: nat, found: Option<nat>)
    requires at <= |packet| && ParseFrom(packet, at).Some?
    ensures LocateFrom(packet, at, found).Ok? <==>
            var all := Select(ParseFrom(packet, at).value, IsMa);
            if found.Some? then all == [] else |all| == 1 && |all[0].value| == 16
    decreases |packet| - at
  {
    if at < |packet| {
      var end := at + packet[at + 1];
      var a, rest := Attribute(packet[at], packet[at + 2..end]), ParseFrom(packet, end).value;
      assert ([a] + rest)[1..] == rest;
      if packet[at] != 80 {
        LocatesOne(packet, end, found);
      } else if packet[at + 1] == 18 && found.None? {
        LocatesOne(packet, end, Some(at));
      }
    }
  }

  // ---------------------------------------------------------------------------------------------
  // Selecting attributes
  // ---------------------------------------------------------------------------------------------

  function Select(values: seq<Attribute>, keep: Attribute -> bool): seq<Attribute> {
    if values == [] then [] else (if keep(values[0]) then [values[0]] else []) + Select(values[1..], keep)
  }

  lemma {:induction false} SelectAppend(a: seq<Attribute>, b: seq<Attribute>, keep: Attribute -> bool)
    ensures Select(a + b, keep) == Select(a, keep) + Select(b, keep)
  {
    if a == [] {
      assert a + b == b;
    } else {
      SelectAppend(a[1..], b, keep);
      TailOfSum(a, b);
      Associates(if keep(a[0]) then [a[0]] else [], Select(a[1..], keep), Select(b, keep));
    }
  }

  lemma SelectOne(a: Attribute, keep: Attribute -> bool)
    ensures Select([a], keep) == if keep(a) then [a] else []
  {
    assert [a][1..] == [];
  }

  lemma {:induction false} SelectTwice(values: seq<Attribute>, keep: Attribute -> bool, inner: Attribute -> bool)
    requires forall a :: inner(a) ==> keep(a)
    ensures Select(Select(values, keep), inner) == Select(values, inner)
  {
    if values != [] {
      SelectTwice(values[1..], keep, inner);
      SelectOne(values[0], inner);
      if keep(values[0]) {
        SelectAppend([values[0]], Select(values[1..], keep), inner);
      } else {
        assert [] + Select(values[1..], keep) == Select(values[1..], keep);
        assert [] + Select(values[1..], inner) == Select(values[1..], inner);
      }
    }
  }

  /** How many octets the attributes take. */
  function Size(values: seq<Attribute>): nat {
    if values == [] then 0 else |values[0].value| + 2 + Size(values[1..])
  }

  lemma {:induction false} SizeParsed(packet: Octets, at: nat)
    requires at <= |packet| && ParseFrom(packet, at).Some?
    ensures Size(ParseFrom(packet, at).value) == |packet| - at
    decreases |packet| - at
  {
    if at < |packet| {
      var end := at + packet[at + 1];
      SizeParsed(packet, end);
      assert ParseFrom(packet, at).value[1..] == ParseFrom(packet, end).value;
    }
  }

  lemma {:induction false} SizeFlat(values: seq<Attribute>)
    requires AllEncodable(values)
    ensures |Flat(values)| == Size(values)
  {
    if values != [] { SizeFlat(values[1..]); }
  }

  lemma {:induction false} SizeAppend(a: seq<Attribute>, b: seq<Attribute>)
    ensures Size(a + b) == Size(a) + Size(b)
  {
    if a == [] {
      assert a + b == b;
    } else {
      assert (a + b)[1..] == a[1..] + b;
      SizeAppend(a[1..], b);
    }
  }

  /** Disjoint selections fit beside each other. */
  lemma {:induction false} SelectionsFit(values: seq<Attribute>, p: Attribute -> bool, q: Attribute -> bool, r: Attribute -> bool)
    requires forall a :: !(p(a) && q(a)) && !(p(a) && r(a)) && !(q(a) && r(a))
    ensures Size(Select(values, p)) + Size(Select(values, q)) + Size(Select(values, r)) <= Size(values)
  {
    if values != [] {
      SelectionsFit(values[1..], p, q, r);
      assert [values[0]][1..] == [];
      SizeAppend(if p(values[0]) then [values[0]] else [], Select(values[1..], p));
      SizeAppend(if q(values[0]) then [values[0]] else [], Select(values[1..], q));
      SizeAppend(if r(values[0]) then [values[0]] else [], Select(values[1..], r));
    }
  }

  // ---------------------------------------------------------------------------------------------
  // Password hiding (section 5.2 of RFC 2865)
  // ---------------------------------------------------------------------------------------------

  function XorAll(a: Octets, b: Digest): (r: Octets)
    requires |a| == 16
    ensures |r| == 16
  {
    seq(16, i requires 0 <= i < 16 => Xor(a[i], b[i]))
  }

  lemma XorAllTwice(a: Octets, b: Digest)
    requires |a| == 16
    ensures XorAll(XorAll(a, b), b) == a
  {
    forall i | 0 <= i < 16 ensures XorAll(XorAll(a, b), b)[i] == a[i] { XorTwice(a[i], b[i]); }
  }

  /** Each block is masked with a digest of the secret and the block hidden before it. */
  function Hidden(h: Hashes, secret: Octets, previous: Octets, padded: Octets): (r: Octets)
    requires |padded| % 16 == 0
    ensures |r| == |padded|
    decreases |padded|
  {
    if padded == [] then [] else
    var block := XorAll(padded[..16], h.md5(secret + previous));
    block + Hidden(h, secret, block, padded[16..])
  }

  function Revealed(h: Hashes, secret: Octets, previous: Octets, hidden: Octets): (r: Octets)
    requires |hidden| % 16 == 0
    decreases |hidden|
  {
    if hidden == [] then [] else
    XorAll(hidden[..16], h.md5(secret + previous)) + Revealed(h, secret, hidden[..16], hidden[16..])
  }

  /** Whoever knows the secret and the request authenticator recovers the padded password. */
  lemma {:induction false} RevealHidden(h: Hashes, secret: Octets, previous: Octets, padded: Octets)
    requires |padded| % 16 == 0
    ensures Revealed(h, secret, previous, Hidden(h, secret, previous, padded)) == padded
    decreases |padded|
  {
    if padded != [] {
      var block := XorAll(padded[..16], h.md5(secret + previous));
      var hidden := Hidden(h, secret, previous, padded);
      assert hidden[..16] == block && hidden[16..] == Hidden(h, secret, block, padded[16..]);
      XorAllTwice(padded[..16], h.md5(secret + previous));
      RevealHidden(h, secret, block, padded[16..]);
    }
  }

  /** The password padded with zeros to whole blocks. */
  function Padded(password: Octets): (r: Octets)
    ensures |r| % 16 == 0 && password <= r && |r| < |password| + 16
    ensures forall i :: |password| <= i < |r| ==> r[i] == 0
  {
    var missing := (16 - |password| % 16) % 16;
    password + seq(missing, i => 0)
  }

  lemma OneMoreBlock(size: nat, offset: nat)
    requires size % 16 == 0 && offset % 16 == 0 && offset < size
    ensures offset + 16 <= size && (offset + 16) % 16 == 0 && (size - offset) % 16 == 0 && (size - offset - 16) % 16 == 0
  {
  }

  lemma HiddenBlock(h: Hashes, secret: Octets, previous: Octets, padded: Octets, offset: nat)
    requires offset + 16 <= |padded| && (|padded| - offset) % 16 == 0
    ensures var block := XorAll(padded[offset..offset + 16], h.md5(secret + previous));
            Hidden(h, secret, previous, padded[offset..]) == block + Hidden(h, secret, block, padded[offset + 16..])
  {
    var rest := padded[offset..];
    assert rest[..16] == padded[offset..offset + 16] && rest[16..] == padded[offset + 16..];
  }

  method HidePassword(h: Hashes, secret: Octets, authenticator: Digest, password: Octets) returns (encrypted: Octets)
    ensures encrypted == Hidden(h, secret, authenticator, Padded(password))
  {
    var padded := Padded(password);
    encrypted := [];
    var previous: Octets := authenticator;
    var offset := 0;
    while offset < |padded|
      invariant 0 <= offset <= |padded| && offset % 16 == 0 && (|padded| - offset) % 16 == 0
      invariant encrypted + Hidden(h, secret, previous, padded[offset..]) == Hidden(h, secret, authenticator, padded)
    {
      OneMoreBlock(|padded|, offset);
      var block := XorAll(padded[offset..offset + 16], h.md5(secret + previous));
      HiddenBlock(h, secret, previous, padded, offset);
      Associates(encrypted, block, Hidden(h, secret, block, padded[offset + 16..]));
      previous := block;
      encrypted := encrypted + block;
      offset := offset + 16;
    }
    assert padded[offset..] == [];
    assert encrypted + [] == encrypted;
  }

  // ---------------------------------------------------------------------------------------------
  // Building packets
  // ---------------------------------------------------------------------------------------------

  function Header(code: Octet, identifier: Octet, size: nat, authenticator: Digest): (r: Octets)
    requires size < 65536
    ensures |r| == HEADER && Word(r, 2) == size && r[0] == code && r[1] == identifier && r[4..20] == authenticator
  {
    var r := [code, identifier, size / 256, size % 256] + authenticator;
    assert r[4..20] == authenticator;
    r
  }

  lemma SealedParsesFrom(prefix: Octets, values: seq<Attribute>, mac: Digest)
    requires AllEncodable(values)
    ensures ParseFrom(prefix + Flat(values) + Encoded(Attribute(80, mac)), |prefix|) == Some(values + [Attribute(80, mac)])
  {
    var last := Attribute(80, mac);
    FlatOne(last);
    FlatAppend(values, [last]);
    Associates(prefix, Flat(values), Encoded(last));
    ParseFlat(prefix, values + [last]);
  }

  lemma {:induction false} LocateTail(packet: Octets, at: nat, values: seq<Attribute>, mac: Digest)
    requires AllEncodable(values) && forall i :: 0 <= i < |values| ==> values[i].kind != 80
    requires at <= |packet| && ParseFrom(packet, at).Some? && packet[at..] == Flat(values) + Encoded(Attribute(80, mac))
    ensures LocateFrom(packet, at, None) == Ok(|packet| - 18)
    decreases |values|
  {
    var last := Encoded(Attribute(80, mac));
    if values == [] {
      AttributeAt(packet, at, Attribute(80, mac), []);
    } else {
      var a, rest := values[0], values[1..];
      Associates(Encoded(a), Flat(rest), last);
      AttributeAt(packet, at, a, Flat(rest) + last);
      LocateTail(packet, at + 2 + |a.value|, rest, mac);
    }
  }

  lemma LocateLast(prefix: Octets, values: seq<Attribute>, mac: Digest)
    requires AllEncodable(values) && forall i :: 0 <= i < |values| ==> values[i].kind != 80
    ensures var packet := prefix + Flat(values) + Encoded(Attribute(80, mac));
            && ParseFrom(packet, |prefix|) == Some(values + [Attribute(80, mac)])
            && LocateFrom(packet, |prefix|, None) == Ok(|packet| - 18)
  {
    var packet := prefix + Flat(values) + Encoded(Attribute(80, mac));
    SealedParsesFrom(prefix, values, mac);
    assert packet[|prefix|..] == Flat(values) + Encoded(Attribute(80, mac));
    LocateTail(packet, |prefix|, values, mac);
  }

  /** Replacing a trailing authenticator leaves everything before it. */
  lemma LastOverwritten(base: Octets, mac: Digest, value: Digest)
    ensures var packet := base + Encoded(Attribute(80, mac));
            && packet[..|packet| - 16] + value == base + Encoded(Attribute(80, value))
            && Overwritten(packet, |packet| - 16, value) == base + Encoded(Attribute(80, value))
            && packet[|packet| - 16..] == mac
  {
    var packet := base + Encoded(Attribute(80, mac));
    assert packet[..|packet| - 16] == base + [80, 18];
    assert packet[|packet| - 16..] == mac;
    assert base + Encoded(Attribute(80, value)) == base + [80, 18] + value;
    assert packet[|packet| - 16 + 16..] == [];
  }

  /** A packet that ends in its Message-Authenticator, whose other attributes are `values`. */
  function Sealed(header: Octets, values: seq<Attribute>, mac: Digest): Octets
    requires AllEncodable(values)
  {
    header + Flat(values) + Encoded(Attribute(80, mac))
  }

  lemma SealedParses(header: Octets, values: seq<Attribute>, mac: Digest)
    requires |header| == HEADER && AllEncodable(values) && forall i :: 0 <= i < |values| ==> values[i].kind != 80
    requires Word(header, 2) == HEADER + |Flat(values)| + 18 <= 4096
    ensures var packet := Sealed(header, values, mac);
            && |packet| == Word(header, 2)
            && Parse(packet) == Ok((packet, values + [Attribute(80, mac)]))
            && Locate(packet) == Ok(|packet| - 18)
            && Overwritten(packet, |packet| - 16, ZEROS) == Sealed(header, values, ZEROS)
            && packet[|packet| - 16..] == mac
  {
    var packet := Sealed(header, values, mac);
    LocateLast(header, values, mac);
    LastOverwritten(header + Flat(values), mac, ZEROS);
    assert packet[..|packet|] == packet;
    assert packet[2..4] == header[2..4] && packet[2] == header[2] && packet[3] == header[3];
  }

  // ---------------------------------------------------------------------------------------------
  // MAC authentication bypass requests
  // ---------------------------------------------------------------------------------------------

  predicate IsReserved(a: Attribute) {
    a.kind == 2 || a.kind == 79 || a.kind == 80
  }

  /** `mab_request`, with the random authenticator as a parameter */
  method MabRequest(h: Hashes, identifier: int, password: Octets, attributes: seq<Attribute>, secret: Octets, authenticator: Digest)
    returns (r: Result<Octets, WireError>)
    ensures r == AccessRequest(h, identifier, password, attributes, secret, authenticator)
  {
    if !(0 <= identifier <= 255) || !(1 <= |password| <= 128) {
      return Err(InvalidRequest);
    }
    if exists i :: 0 <= i < |attributes| && IsReserved(attributes[i]) {
      return Err(ReservedAttribute);
    }
    var encrypted := HidePassword(h, secret, authenticator, password);
    var body := EncodeAttributes(attributes + [Attribute(2, encrypted), Attribute(80, ZEROS)]);
    if body.Err? {
      return Err(body.error);
    }
    var request := Header(1, identifier, HEADER + |body.value|, authenticator) + body.value;
    r := Ok(request[..|request| - 16] + h.hmac(secret, request));
  }

  function AccessRequest(h: Hashes, identifier: int, password: Octets, attributes: seq<Attribute>, secret: Octets, authenticator: Digest):
    Result<Octets, WireError>
  {
    if !(0 <= identifier <= 255) || !(1 <= |password| <= 128) then Err(InvalidRequest)
    else if exists i :: 0 <= i < |attributes| && IsReserved(attributes[i]) then Err(ReservedAttribute)
    else
      var hidden := Attribute(2, Hidden(h, secret, authenticator, Padded(password)));
      var body := Encode(attributes + [hidden, Attribute(80, ZEROS)]);
      if body.Err? then Err(body.error) else
      var request := Header(1, identifier, HEADER + |body.value|, authenticator) + body.value;
      Ok(request[..|request| - 16] + h.hmac(secret, request))
  }

  /** The check of `_NativeDecoder` on a request: its authenticator is the digest of the request with the authenticator zeroed. */
  predicate RequestVerifies(h: Hashes, packet: Octets, secret: Octets) {
    && Parse(packet).Ok? && Parse(packet).value.0 == packet
    && Locate(packet).Ok? && Locate(packet).value + 18 <= |packet|
    && var (zeroed, actual) := Separated(packet, Locate(packet).value);
       h.hmac(secret, zeroed) == actual
  }

  lemma EncodesSealed(values: seq<Attribute>, mac: Digest)
    requires Encode(values + [Attribute(80, mac)]).Ok?
    ensures AllEncodable(values) && Encode(values + [Attribute(80, mac)]).value == Flat(values) + Encoded(Attribute(80, mac))
    ensures |Flat(values)| + 18 <= MAX_BODY
  {
    var last := Attribute(80, mac);
    forall i | 0 <= i < |values| ensures Encodable(values[i]) { assert (values + [last])[i] == values[i]; }
    FlatOne(last);
    FlatAppend(values, [last]);
  }

  /** Sealing with the digest of the packet sealed with zeros gives a packet that verifies. */
  lemma SealVerifies(h: Hashes, header: Octets, values: seq<Attribute>, secret: Octets)
    requires |header| == HEADER && AllEncodable(values) && forall i :: 0 <= i < |values| ==> values[i].kind != 80
    requires Word(header, 2) == HEADER + |Flat(values)| + 18 <= 4096
    ensures var request := Sealed(header, values, ZEROS);
            var packet := request[..|request| - 16] + h.hmac(secret, request);
            && packet == Sealed(header, values, h.hmac(secret, request))
            && RequestVerifies(h, packet, secret)
            && Parse(packet).value.1 == values + [Attribute(80, h.hmac(secret, request))]
  {
    var request := Sealed(header, values, ZEROS);
    var mac := h.hmac(secret, request);
    LastOverwritten(header + Flat(values), ZEROS, mac);
    SealedParses(header, values, mac);
    var packet := Sealed(header, values, mac);
    assert packet[|packet| - 16..|packet|] == packet[|packet| - 16..];
  }

  /** Every request that is built passes the decoder's check, carries the given attributes, and reveals the password to its server. */
  lemma AccessRequestVerifies(h: Hashes, identifier: int, password: Octets, attributes: seq<Attribute>, secret: Octets, authenticator: Digest)
    requires AccessRequest(h, identifier, password, attributes, secret, authenticator).Ok?
    ensures var packet := AccessRequest(h, identifier, password, attributes, secret, authenticator).value;
            && RequestVerifies(h, packet, secret) && packet[0] == 1 && packet[1] == identifier && packet[4..20] == authenticator
            && |Parse(packet).value.1| == |attributes| + 2 && Parse(packet).value.1[..|attributes|] == attributes
            && Parse(packet).value.1[|attributes|].kind == 2
            && |Parse(packet).value.1[|attributes|].value| % 16 == 0
            && password <= Revealed(h, secret, authenticator, Parse(packet).value.1[|attributes|].value)
  {
    var hidden := Attribute(2, Hidden(h, secret, authenticator, Padded(password)));
    var values := attributes + [hidden];
    assert attributes + [hidden, Attribute(80, ZEROS)] == values + [Attribute(80, ZEROS)];
    EncodesSealed(values, ZEROS);
    var header := Header(1, identifier, HEADER + |Flat(values)| + 18, authenticator);
    var request := Sealed(header, values, ZEROS);
    Associates(header, Flat(values), Encoded(Attribute(80, ZEROS)));
    assert forall i :: 0 <= i < |attributes| ==> !IsReserved(attributes[i]);
    SealVerifies(h, header, values, secret);
    var packet := Sealed(header, values, h.hmac(secret, request));
    assert packet[..20] == header;
    assert packet[4..20] == packet[..20][4..20];
    RevealHidden(h, secret, authenticator, Padded(password));
  }
}
