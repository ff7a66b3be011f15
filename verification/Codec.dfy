/**
 * RADIUS packets (sections 3 and 5 of RFC 2865): the attribute parser and encoder as loops, what they compute, and that they
 * undo each other.  Octets are numbers here, because packets carry their own lengths.
 */
module Codec {
  import opened Outcomes

  type Octet = x: int | 0 <= x < 256 witness 0
  type Octets = seq<Octet>
  type Digest = s: Octets | |s| == 16 witness [0, 0, 0, 0, 0, 0, 0, 0, 0, 0, 0, 0, 0, 0, 0, 0]

  datatype Attribute = Attribute(kind: int, value: Octets)

  datatype WireError =
    | ShortPacket | InvalidPacketLength | InvalidAttributeLength
    | InvalidAttribute | PacketBudget
    | InvalidMessageAuthenticator | MissingMessageAuthenticator
    | UncorrelatedResponse | InvalidResponseAuthenticator | MalformedEap | NonconsecutiveEap
    | InvalidDynamicCode | InvalidRequestAuthenticator | MissingEventTimestamp | InvalidEventTimestamp
    | InvalidRequest | ReservedAttribute | InvalidAccountingStatus

  const HEADER := 20
  const MAX_BODY := 4076

  function Word(packet: Octets, at: nat): int
    requires at + 2 <= |packet|
  {
    var high: int := packet[at];
    high * 256 + packet[at + 1]
  }

  // ---------------------------------------------------------------------------------------------
  // Parsing
  // ---------------------------------------------------------------------------------------------

  /** The attributes from a position on, if every length fits. */
  function ParseFrom(packet: Octets, at: nat): (r: Option<seq<Attribute>>)
    requires at <= |packet|
    decreases |packet| - at
  {
    if at == |packet| then Some([])
    else if at + 2 > |packet| || packet[at + 1] < 2 || at + packet[at + 1] > |packet| then None
    else
      var end := at + packet[at + 1];
      var rest := ParseFrom(packet, end);
      if rest.None? then None else Some([Attribute(packet[at], packet[at + 2..end])] + rest.value)
  }

  /** `packet_attributes`: the packet without its padding, and its attributes */
  function Parse(packet: Octets): Result<(Octets, seq<Attribute>), WireError> {
    if |packet| < HEADER then Err(ShortPacket) else
    var size := Word(packet, 2);
    if !(HEADER <= size <= 4096) || size > |packet| then Err(InvalidPacketLength) else
    var values := ParseFrom(packet[..size], HEADER);
    if values.None? then Err(InvalidAttributeLength) else Ok((packet[..size], values.value))
  }

  lemma {:induction false} ParsedSoFar(packet: Octets, from: nat, at: nat, values: seq<Attribute>)
    requires from <= at <= |packet|
    requires ParseFrom(packet, from) ==
             var rest := ParseFrom(packet, at); if rest.None? then None else Some(values + rest.value)
    requires at + 2 <= |packet| && packet[at + 1] >= 2 && at + packet[at + 1] <= |packet|
    ensures var end := at + packet[at + 1];
            var more := values + [Attribute(packet[at], packet[at + 2..end])];
            ParseFrom(packet, from) == var rest := ParseFrom(packet, end); if rest.None? then None else Some(more + rest.value)
  {
    var end := at + packet[at + 1];
    var rest := ParseFrom(packet, end);
    if rest.Some? {
      assert values + ([Attribute(packet[at], packet[at + 2..end])] + rest.value)
          == values + [Attribute(packet[at], packet[at + 2..end])] + rest.value;
    }
  }

  lemma NothingYet(r: Option<seq<Attribute>>)
    ensures r == if r.None? then None else Some([] + r.value)
  {
    if r.Some? { assert [] + r.value == r.value; }
  }

  method PacketAttributes(datagram: Octets) returns (r: Result<(Octets, seq<Attribute>), WireError>)
    ensures r == Parse(datagram)
  {
    if |datagram| < HEADER {
      return Err(ShortPacket);
    }
    var size := Word(datagram, 2);
    if !(HEADER <= size <= 4096) || size > |datagram| {
      return Err(InvalidPacketLength);
    }
    var packet := datagram[..size];
    var values: seq<Attribute> := [];
    var position: nat := HEADER;
    NothingYet(ParseFrom(packet, HEADER));
    while position < size
      invariant HEADER <= position <= size == |packet|
      invariant ParseFrom(packet, HEADER) ==
                var rest := ParseFrom(packet, position); if rest.None? then None else Some(values + rest.value)
    {
      if position + 2 > size || packet[position + 1] < 2 {
        return Err(InvalidAttributeLength);
      }
      var end := position + packet[position + 1];
      if end > size {
        return Err(InvalidAttributeLength);
      }
      ParsedSoFar(packet, HEADER, position, values);
      values := values + [Attribute(packet[position], packet[position + 2..end])];
      position := end;
    }
    assert values + [] == values;
    r := Ok((packet, values));
  }

  // ---------------------------------------------------------------------------------------------
  // Encoding
  // ---------------------------------------------------------------------------------------------

  predicate Encodable(a: Attribute) {
    1 <= a.kind <= 255 && |a.value| <= 253
  }

  function Encoded(a: Attribute): Octets
    requires Encodable(a)
  {
    [a.kind, |a.value| + 2] + a.value
  }

  predicate AllEncodable(values: seq<Attribute>) {
    forall i :: 0 <= i < |values| ==> Encodable(values[i])
  }

  /** The attributes one after the other. */
  function Flat(values: seq<Attribute>): Octets
    requires AllEncodable(values)
  {
    if values == [] then [] else Encoded(values[0]) + Flat(values[1..])
  }

  /** `encode_attributes` */
  function Encode(values: seq<Attribute>): Result<Octets, WireError> {
    if !AllEncodable(values) then Err(InvalidAttribute)
    else if |Flat(values)| > MAX_BODY then Err(PacketBudget)
    else Ok(Flat(values))
  }

  lemma TailOfSum<T>(a: seq<T>, b: seq<T>)
    requires a != []
    ensures a + b != [] && (a + b)[0] == a[0] && (a + b)[1..] == a[1..] + b
  {
  }

  lemma Associates<T>(a: seq<T>, b: seq<T>, c: seq<T>)
    ensures a + (b + c) == a + b + c
  {
  }

  lemma {:induction false} FlatAppend(a: seq<Attribute>, b: seq<Attribute>)
    requires AllEncodable(a) && AllEncodable(b)
    ensures AllEncodable(a + b) && Flat(a + b) == Flat(a) + Flat(b)
  {
    if a == [] {
      assert a + b == b;
    } else {
      FlatAppend(a[1..], b);
      TailOfSum(a, b);
      Associates(Encoded(a[0]), Flat(a[1..]), Flat(b));
    }
  }

  method EncodeAttributes(values: seq<Attribute>) returns (r: Result<Octets, WireError>)
    ensures r == Encode(values)
  {
    var encoded: Octets := [];
    for i := 0 to |values|
      invariant AllEncodable(values[..i]) && encoded == Flat(values[..i])
    {
      var a := values[i];
      if !(1 <= a.kind <= 255) || |a.value| > 253 {
        return Err(InvalidAttribute);
      }
      assert values[..i + 1] == values[..i] + [a];
      FlatAppend(values[..i], [a]);
      FlatOne(a);
      encoded := encoded + [a.kind, |a.value| + 2] + a.value;
    }
    assert values[..|values|] == values;
    if |encoded| > MAX_BODY {
      return Err(PacketBudget);
    }
    r := Ok(encoded);
  }

  lemma FlatOne(a: Attribute)
    requires Encodable(a)
    ensures AllEncodable([a]) && Flat([a]) == Encoded(a)
  {
    assert [a][1..] == [];
  }

  // ---------------------------------------------------------------------------------------------
  // Encoding and parsing undo each other
  // ---------------------------------------------------------------------------------------------

  /** What stands at a position of a packet whose tail begins with an encoded attribute. */
  lemma AttributeAt(packet: Octets, at: nat, a: Attribute, rest: Octets)
    requires at <= |packet| && Encodable(a) && packet[at..] == Encoded(a) + rest
    ensures var end := at + 2 + |a.value|;
            && end <= |packet| && packet[at] == a.kind && packet[at + 1] == |a.value| + 2
            && packet[at + 2..end] == a.value && packet[end..] == rest
  {
    var tail, end := packet[at..], at + 2 + |a.value|;
    assert packet[at] == tail[0] && packet[at + 1] == tail[1];
    assert packet[at + 2..end] == tail[2..2 + |a.value|] && packet[end..] == tail[2 + |a.value|..];
  }

  lemma {:induction false} ParseTail(packet: Octets, at: nat, values: seq<Attribute>)
    requires at <= |packet| && AllEncodable(values) && packet[at..] == Flat(values)
    ensures ParseFrom(packet, at) == Some(values)
    decreases |values|
  {
    if values != [] {
      var a, rest := values[0], values[1..];
      AttributeAt(packet, at, a, Flat(rest));
      ParseTail(packet, at + 2 + |a.value|, rest);
      assert [a] + rest == values;
    }
  }

  lemma ParseFlat(prefix: Octets, values: seq<Attribute>)
    requires AllEncodable(values)
    ensures ParseFrom(prefix + Flat(values), |prefix|) == Some(values)
  {
    assert (prefix + Flat(values))[|prefix|..] == Flat(values);
    ParseTail(prefix + Flat(values), |prefix|, values);
  }

  /** Parsing a packet built around an encoded list gives back the list, whatever padding follows it. */
  lemma ParseEncoded(header: Octets, values: seq<Attribute>, padding: Octets)
    requires |header| == HEADER && Encode(values).Ok? && Word(header, 2) == HEADER + |Encode(values).value|
    ensures Parse(header + Encode(values).value + padding) == Ok((header + Encode(values).value, values))
  {
    var packet := header + Encode(values).value;
    assert (packet + padding)[..|packet|] == packet;
    ParseFlat(header, values);
  }

  ghost predicate NoneOfTypeZero(values: seq<Attribute>) {
    forall i :: 0 <= i < |values| ==> values[i].kind != 0
  }

  lemma OneMoreParsed(a: Attribute, rest: seq<Attribute>)
    requires NoneOfTypeZero([a] + rest) && 0 <= a.kind <= 255 && |a.value| <= 253
    ensures Encodable(a) && NoneOfTypeZero(rest)
    ensures AllEncodable(rest) ==> AllEncodable([a] + rest) && Flat([a] + rest) == Encoded(a) + Flat(rest)
  {
    assert ([a] + rest)[0] == a && ([a] + rest)[1..] == rest;
    assert forall i :: 0 <= i < |rest| ==> ([a] + rest)[i + 1] == rest[i];
  }

  lemma {:induction false} FlatParsed(packet: Octets, at: nat)
    requires at <= |packet| && ParseFrom(packet, at).Some? && NoneOfTypeZero(ParseFrom(packet, at).value)
    ensures AllEncodable(ParseFrom(packet, at).value) && Flat(ParseFrom(packet, at).value) == packet[at..]
    decreases |packet| - at
  {
    if at < |packet| {
      var end := at + packet[at + 1];
      OneMoreParsed(Attribute(packet[at], packet[at + 2..end]), ParseFrom(packet, end).value);
      FlatParsed(packet, end);
      assert packet[at..] == [packet[at], packet[at + 1]] + packet[at + 2..end] + packet[end..];
    }
  }

  /** Encoding the attributes of a parsed packet gives back its octets, unless it carries attributes of type 0. */
  lemma EncodeParsed(packet: Octets)
    requires Parse(packet).Ok? && NoneOfTypeZero(Parse(packet).value.1)
    ensures Encode(Parse(packet).value.1) == Ok(Parse(packet).value.0[HEADER..])
  {
    FlatParsed(Parse(packet).value.0, HEADER);
  }

  /** An attribute of type 0 parses but is not encodable, so the exception is exact. */
  lemma TypeZeroIsNotEncoded(packet: Octets, i: nat)
    requires Parse(packet).Ok? && i < |Parse(packet).value.1| && Parse(packet).value.1[i].kind == 0
    ensures Encode(Parse(packet).value.1) == Err(InvalidAttribute)
  {
    assert !Encodable(Parse(packet).value.1[i]);
  }
}
