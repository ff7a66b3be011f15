/**
 * What the message authenticator of a packet covers, said of its attributes alone: their octets one after the other with the
 * authenticator zeroed.  The verifications of this project are compared with these equations, not with the position search.
 */
module Seals {
  import opened Outcomes
  import opened Codec
  import opened Authenticators

  /** What any parsed attribute meets, those of type 0 included. */
  predicate Fits(a: Attribute) {
    0 <= a.kind <= 255 && |a.value| <= 253
  }

  predicate AllFit(values: seq<Attribute>) {
    forall i :: 0 <= i < |values| ==> Fits(values[i])
  }

  /** The attributes one after the other as they stand in a packet. */
  function Laid(values: seq<Attribute>): Octets
    requires AllFit(values)
  {
    if values == [] then [] else [values[0].kind, |values[0].value| + 2] + values[0].value + Laid(values[1..])
  }

  /** The attribute at a position is the only one of type 80 and holds sixteen octets. */
  predicate IsSeal(values: seq<Attribute>, i: nat) {
    && i < |values| && values[i].kind == 80 && |values[i].value| == 16
    && forall j :: 0 <= j < |values| && j != i ==> values[j].kind != 80
  }

  const BLANK := Attribute(80, ZEROS)

  /** The attributes carry the digest, keyed with the secret, of a header and themselves with the digest blanked. */
  ghost predicate MacIs(h: Hashes, values: seq<Attribute>, head: Octets, secret: Octets) {
    exists i: nat :: IsSeal(values, i) && AllFit(values[i := BLANK]) && values[i].value == h.hmac(secret, head + Laid(values[i := BLANK]))
  }

  lemma {:induction false} LaidIsFlat(values: seq<Attribute>)
    requires AllEncodable(values)
    ensures AllFit(values) && Laid(values) == Flat(values)
  {
    if values != [] { LaidIsFlat(values[1..]); }
  }

  /** Laying out what was parsed gives back the octets, whatever the types. */
  lemma {:induction false} LaidParsed(packet: Octets, at: nat)
    requires at <= |packet| && ParseFrom(packet, at).Some?
    ensures AllFit(ParseFrom(packet, at).value) && Laid(ParseFrom(packet, at).value) == packet[at..]
    decreases |packet| - at
  {
    if at < |packet| {
      var end := at + packet[at + 1];
      var a, rest := Attribute(packet[at], packet[at + 2..end]), ParseFrom(packet, end).value;
      LaidParsed(packet, end);
      assert ([a] + rest)[1..] == rest;
      assert packet[at..] == [packet[at], packet[at + 1]] + packet[at + 2..end] + packet[end..];
    }
  }

  lemma {:induction false} NoneOf80(values: seq<Attribute>)
    requires Select(values, IsMa) == []
    ensures forall j :: 0 <= j < |values| ==> values[j].kind != 80
  {
    if values != [] { NoneOf80(values[1..]); }
  }

  lemma {:induction false} LocateKeepsFound(packet: Octets, at: nat, found: nat)
    requires at <= |packet| && ParseFrom(packet, at).Some? && LocateFrom(packet, at, Some(found)).Ok?
    ensures LocateFrom(packet, at, Some(found)).value == found
    ensures forall j :: 0 <= j < |ParseFrom(packet, at).value| ==> ParseFrom(packet, at).value[j].kind != 80
    decreases |packet| - at
  {
    if at < |packet| { LocateKeepsFound(packet, at + packet[at + 1], found); }
  }

  /** The authenticator stands first: blanking it leaves what follows. */
  lemma BlankFirst(packet: Octets, at: nat)
    requires at + 18 <= |packet| && packet[at] == 80 && packet[at + 1] == 18
    ensures Overwritten(packet, at + 2, ZEROS)[at..] == [80, 18] + ZEROS + packet[at + 18..]
  {
    var zeroed := Overwritten(packet, at + 2, ZEROS);
    assert zeroed[at..at + 2] == packet[at..at + 2] == [80, 18];
    assert zeroed[at + 2..at + 18] == ZEROS;
    assert zeroed[at + 18..] == packet[at + 18..];
    assert zeroed[at..] == zeroed[at..at + 2] + zeroed[at + 2..at + 18] + zeroed[at + 18..];
  }

  /** The authenticator stands further on: what precedes it is as it was. */
  lemma BlankLater(packet: Octets, at: nat, end: nat, p: nat)
    requires at + 2 <= end <= p && p + 18 <= |packet| && end == at + packet[at + 1]
    ensures var zeroed := Overwritten(packet, p + 2, ZEROS);
            zeroed[at..] == [packet[at], |packet[at + 2..end]| + 2] + packet[at + 2..end] + zeroed[end..]
  {
    var zeroed := Overwritten(packet, p + 2, ZEROS);
    assert zeroed[at..end] == packet[at..end] == [packet[at], packet[at + 1]] + packet[at + 2..end];
    assert zeroed[at..] == zeroed[at..end] + zeroed[end..];
  }

  /** One more attribute in front of a list with a seal. */
  lemma SealBehind(a: Attribute, rest: seq<Attribute>, k: nat)
    requires a.kind != 80 && Fits(a) && IsSeal(rest, k) && AllFit(rest[k := BLANK])
    ensures IsSeal([a] + rest, k + 1) && ([a] + rest)[k + 1].value == rest[k].value && AllFit(([a] + rest)[k + 1 := BLANK])
    ensures Laid(([a] + rest)[k + 1 := BLANK]) == [a.kind, |a.value| + 2] + a.value + Laid(rest[k := BLANK])
  {
    assert ([a] + rest)[k + 1 := BLANK] == [a] + rest[k := BLANK];
    assert ([a] + rest[k := BLANK])[1..] == rest[k := BLANK];
  }

  lemma SealInFront(a: Attribute, rest: seq<Attribute>)
    requires a.kind == 80 && |a.value| == 16 && AllFit(rest) && forall j :: 0 <= j < |rest| ==> rest[j].kind != 80
    ensures IsSeal([a] + rest, 0) && AllFit(([a] + rest)[0 := BLANK])
    ensures Laid(([a] + rest)[0 := BLANK]) == [80, 18] + ZEROS + Laid(rest)
  {
    assert ([a] + rest)[0 := BLANK] == [BLANK] + rest;
    assert ([BLANK] + rest)[1..] == rest;
  }

  /** The position found is that of the one authenticator, and overwriting there is blanking it. */
  lemma {:induction false} FoundIsSeal(packet: Octets, at: nat) returns (i: nat)
    requires at <= |packet| && ParseFrom(packet, at).Some? && LocateFrom(packet, at, None).Ok?
    ensures var values, p := ParseFrom(packet, at).value, LocateFrom(packet, at, None).value;
            && IsSeal(values, i) && at <= p && p + 18 <= |packet| && values[i].value == packet[p + 2..p + 18]
            && AllFit(values[i := BLANK]) && Overwritten(packet, p + 2, ZEROS)[at..] == Laid(values[i := BLANK])
    decreases |packet| - at
  {
    var end := at + packet[at + 1];
    var a, rest := Attribute(packet[at], packet[at + 2..end]), ParseFrom(packet, end).value;
    if packet[at] == 80 {
      i := 0;
      LaidParsed(packet, end);
      LocateKeepsFound(packet, end, at);
      BlankFirst(packet, at);
      SealInFront(a, rest);
    } else {
      var k := FoundIsSeal(packet, end);
      i := k + 1;
      BlankLater(packet, at, end, LocateFrom(packet, at, None).value);
      SealBehind(a, rest, k);
    }
  }

  lemma {:induction false} NoSealIn(values: seq<Attribute>)
    requires forall j :: 0 <= j < |values| ==> values[j].kind != 80
    ensures Select(values, IsMa) == []
  {
    if values != [] { NoSealIn(values[1..]); }
  }

  lemma {:induction false} SealSelected(values: seq<Attribute>, i: nat)
    requires IsSeal(values, i)
    ensures Select(values, IsMa) == [values[i]]
    decreases i
  {
    if i == 0 {
      NoSealIn(values[1..]);
    } else {
      SealSelected(values[1..], i - 1);
    }
  }

  /** The position search and the comparison it ends in decide the equation. */
  lemma MacDecides(h: Hashes, packet: Octets, head: Octets, secret: Octets)
    requires HEADER <= |packet| && ParseFrom(packet, HEADER).Some?
    ensures Locate(packet).Ok? ==> HEADER <= Locate(packet).value && Locate(packet).value + 18 <= |packet|
    ensures MacIs(h, ParseFrom(packet, HEADER).value, head, secret) <==>
            Locate(packet).Ok? && var (zeroed, actual) := Separated(packet, Locate(packet).value);
                                  h.hmac(secret, head + zeroed[HEADER..]) == actual
  {
    var values := ParseFrom(packet, HEADER).value;
    if Locate(packet).Ok? {
      var i := FoundIsSeal(packet, HEADER);
      forall k: nat | IsSeal(values, k) ensures k == i { }
    } else if k: nat :| IsSeal(values, k) {
      SealSelected(values, k);
      LocatesOne(packet, HEADER, None);
      assert false;
    }
  }

  // ---------------------------------------------------------------------------------------------
  // Packets put together
  // ---------------------------------------------------------------------------------------------

  /** A packet with its authenticator in place takes apart again. */
  lemma Assembled(first: Octets, digest: Digest, body: Octets, packet: Octets)
    requires |first| == 4 && packet == first + digest + body
    ensures |packet| == HEADER + |body| && packet[..4] == first && packet[4..20] == digest && packet[20..] == body
    ensures packet[0] == first[0] && packet[1] == first[1] && packet[2] == first[2] && packet[3] == first[3]
  {
  }

  lemma AssembledParses(first: Octets, digest: Digest, values: seq<Attribute>, packet: Octets)
    requires |first| == 4 && AllEncodable(values) && packet == first + digest + Flat(values)
    requires Word(first, 2) == HEADER + |Flat(values)| <= 4096
    ensures Parse(packet) == Ok((packet, values))
  {
    Assembled(first, digest, Flat(values), packet);
    assert packet[..|packet|] == packet;
    ParseTail(packet, HEADER, values);
  }

  /** Filling in the digest of the list with a blank gives a list that carries it. */
  lemma FilledIn(h: Hashes, values: seq<Attribute>, i: nat, head: Octets, secret: Octets)
    requires IsSeal(values, i) && values[i] == BLANK && AllEncodable(values)
    ensures var filled := values[i := Attribute(80, h.hmac(secret, head + Flat(values)))];
            && AllEncodable(filled) && |Flat(filled)| == |Flat(values)| && MacIs(h, filled, head, secret)
  {
    var filled := values[i := Attribute(80, h.hmac(secret, head + Flat(values)))];
    assert filled[i := BLANK] == values;
    assert IsSeal(filled, i);
    LaidIsFlat(values);
    SizeFlat(values);
    SizeFlat(filled);
    SizeReplaced(values, i, filled[i]);
  }

  lemma {:induction false} SizeReplaced(values: seq<Attribute>, i: nat, a: Attribute)
    requires i < |values| && |a.value| == |values[i].value|
    ensures Size(values[i := a]) == Size(values)
    decreases i
  {
    if i > 0 {
      assert values[i := a][1..] == values[1..][i - 1 := a];
      SizeReplaced(values[1..], i - 1, a);
    } else {
      assert values[i := a][1..] == values[1..];
    }
  }
}
