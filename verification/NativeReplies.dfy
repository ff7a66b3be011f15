/** Which replies the native channel accepts, in the terms of RFC 2865, RFC 2869 and RFC 3579. */
module NativeReplies {
  import opened Outcomes
  import opened Codec
  import opened Authenticators
  import opened Seals
  import opened NativeFrames

  // ---------------------------------------------------------------------------------------------
  // The EAP packet of a reply (section 3.1 of RFC 3579)
  // ---------------------------------------------------------------------------------------------

  function Glued(values: seq<Attribute>): Octets {
    if values == [] then [] else values[0].value + Glued(values[1..])
  }

  /** The EAP attributes are exactly those of one stretch. */
  predicate EapAt(values: seq<Attribute>, i: nat, j: nat) {
    i < j <= |values| && forall k :: 0 <= k < |values| ==> (IsEap(values[k]) <==> i <= k < j)
  }

  /** A Request or a Response has a type behind its header, a Success or a Failure has nothing. */
  predicate EapPacket(eap: Octets) {
    && |eap| >= 4 && Word(eap, 2) == |eap|
    && ((eap[0] in {1, 2} && |eap| >= 5) || (eap[0] in {3, 4} && |eap| == 4))
  }

  ghost predicate EapAcceptable(values: seq<Attribute>) {
    || (forall k :: 0 <= k < |values| ==> values[k].kind != 79)
    || exists i: nat, j: nat :: EapAt(values, i, j) && EapPacket(Glued(values[i..j]))
  }

  lemma {:induction false} NothingJoined(values: seq<Attribute>)
    requires forall k :: 0 <= k < |values| ==> !IsEap(values[k])
    ensures Joined(values) == []
  {
    if values != [] { NothingJoined(values[1..]); }
  }

  lemma {:induction false} StretchJoined(values: seq<Attribute>, i: nat, j: nat)
    requires i <= j <= |values| && forall k :: 0 <= k < |values| ==> (IsEap(values[k]) <==> i <= k < j)
    ensures Joined(values) == Glued(values[i..j])
    decreases |values|
  {
    if i == j {
      NothingJoined(values);
    } else if i > 0 {
      assert values[1..][i - 1..j - 1] == values[i..j];
      StretchJoined(values[1..], i - 1, j - 1);
    } else {
      assert values[1..][..j - 1] == values[..j][1..];
      StretchJoined(values[1..], 0, j - 1);
    }
  }

  /** Where consecutive fragments stand. */
  lemma StretchOf(values: seq<Attribute>) returns (i: nat, j: nat)
    requires Consecutive(values) && exists k :: 0 <= k < |values| && IsEap(values[k])
    ensures EapAt(values, i, j)
  {
    i := 0;
    while !IsEap(values[i])
      invariant i < |values| && (exists k :: i <= k < |values| && IsEap(values[k]))
      invariant forall k :: 0 <= k < i ==> !IsEap(values[k])
      decreases |values| - i
    {
      i := i + 1;
    }
    j := i + 1;
    while j < |values| && IsEap(values[j])
      invariant i < j <= |values| && forall k :: i <= k < j ==> IsEap(values[k])
    {
      j := j + 1;
    }
  }

  lemma EapDecides(values: seq<Attribute>)
    ensures Consecutive(values) && EapSound(values) <==> EapAcceptable(values)
  {
    if k :| 0 <= k < |values| && IsEap(values[k]) {
      if Consecutive(values) {
        var i, j := StretchOf(values);
        StretchJoined(values, i, j);
        forall a: nat, b: nat | EapAt(values, a, b) ensures a == i && b == j { SameStretch(values, a, b, i, j); }
      }
    }
  }

  lemma SameStretch(values: seq<Attribute>, a: nat, b: nat, i: nat, j: nat)
    requires EapAt(values, a, b) && EapAt(values, i, j)
    ensures a == i && b == j
  {
    assert IsEap(values[a]) && IsEap(values[b - 1]) && IsEap(values[i]) && IsEap(values[j - 1]);
  }

  // ---------------------------------------------------------------------------------------------
  // Accepted replies (section 3 of RFC 2865 and section 5.14 of RFC 2869)
  // ---------------------------------------------------------------------------------------------

  /** The reply answers this request and was sealed by someone who knows the secret. */
  ghost predicate Genuine(h: Hashes, asked: Octets, answer: Octets, values: seq<Attribute>, secret: Octets)
    requires |asked| >= HEADER && |answer| >= HEADER
  {
    && asked[0] == 1 && answer[0] in {2, 3, 11} && answer[1] == asked[1]
    && MacIs(h, values, answer[..4] + asked[4..20], secret)
    && answer[4..20] == h.md5(answer[..4] + asked[4..20] + answer[20..] + secret)
  }

  /** What is made of a reply: its code, its attributes and the authenticator of the request it answers. */
  ghost predicate Accepted(h: Hashes, request: Octets, response: Octets, secret: Octets, access: Access) {
    && Parse(request).Ok? && Parse(response).Ok?
    && var asked := Parse(request).value.0;
       var (answer, values) := Parse(response).value;
       Genuine(h, asked, answer, values, secret) && EapAcceptable(values) && access == Access(answer[0], values, asked[4..20])
  }

  lemma MacOfReply(h: Hashes, asked: Octets, answer: Octets, secret: Octets)
    requires |asked| >= HEADER && HEADER <= |answer| && ParseFrom(answer, HEADER).Some?
    ensures Locate(answer).Ok? ==> HEADER <= Locate(answer).value && Locate(answer).value + 18 <= |answer|
    ensures MacIs(h, ParseFrom(answer, HEADER).value, answer[..4] + asked[4..20], secret) <==>
            Locate(answer).Ok? && var (zeroed, actual) := Separated(answer, Locate(answer).value);
                                  h.hmac(secret, zeroed[..4] + asked[4..20] + zeroed[20..]) == actual
  {
    MacDecides(h, answer, answer[..4] + asked[4..20], secret);
    if Locate(answer).Ok? {
      assert Separated(answer, Locate(answer).value).0[..4] == answer[..4];
    }
  }

  /**
   * A reply is accepted exactly when it answers the request and both digests are those made with the secret over the request's
   * authenticator, and when the EAP packet it carries, if any, stands in one stretch and is whole.
   */
  lemma VerifyAccessExactly(h: Hashes, request: Octets, response: Octets, secret: Octets, access: Access)
    ensures VerifyAccess(h, request, response, secret) == Some(access) <==> Accepted(h, request, response, secret, access)
  {
    var q, r := Parse(request), Parse(response);
    if q.Ok? && r.Ok? {
      MacOfReply(h, q.value.0, r.value.0, secret);
      EapDecides(r.value.1);
    }
  }

  /** The reply of a server that shares the secret: the list with a blank authenticator, both digests filled in. */
  function Answered(h: Hashes, asked: Octets, code: Octet, values: seq<Attribute>, i: nat, secret: Octets): (r: (Octets, seq<Attribute>))
    requires |asked| >= HEADER && IsSeal(values, i) && values[i] == BLANK && Encode(values).Ok?
  {
    var header := Header(code, asked[1], HEADER + |Flat(values)|, asked[4..20]);
    FilledIn(h, values, i, header, secret);
    var filled := values[i := Attribute(80, h.hmac(secret, header + Flat(values)))];
    (header[..4] + h.md5(header + Flat(filled) + secret) + Flat(filled), filled)
  }

  /** Whatever the server puts around its authenticator, the reply is accepted and yields what was put in. */
  lemma AnsweredIsAccepted(h: Hashes, request: Octets, code: Octet, values: seq<Attribute>, i: nat, secret: Octets)
    requires Parse(request).Ok? && Parse(request).value.0[0] == 1 && code in {2, 3, 11}
    requires IsSeal(values, i) && values[i] == BLANK && Encode(values).Ok? && EapAcceptable(values)
    ensures var asked := Parse(request).value.0;
            var (response, filled) := Answered(h, asked, code, values, i, secret);
            VerifyAccess(h, request, response, secret) == Some(Access(code, filled, asked[4..20]))
  {
    var asked := Parse(request).value.0;
    var header := Header(code, asked[1], HEADER + |Flat(values)|, asked[4..20]);
    var (response, filled) := Answered(h, asked, code, values, i, secret);
    FilledIn(h, values, i, header, secret);
    assert header[..4] + asked[4..20] == header;
    AssembledParses(header[..4], h.md5(header + Flat(filled) + secret), filled, response);
    Assembled(header[..4], h.md5(header + Flat(filled) + secret), Flat(filled), response);
    SameEap(values, i, filled[i]);
    assert Accepted(h, request, response, secret, Access(code, filled, asked[4..20]));
    VerifyAccessExactly(h, request, response, secret, Access(code, filled, asked[4..20]));
  }

  lemma {:induction false} SameGlued(a: seq<Attribute>, b: seq<Attribute>)
    requires |a| == |b| && forall k :: 0 <= k < |a| ==> a[k].value == b[k].value
    ensures Glued(a) == Glued(b)
  {
    if a != [] { SameGlued(a[1..], b[1..]); }
  }

  /** The authenticator is no part of the EAP packet. */
  lemma SameEap(values: seq<Attribute>, i: nat, mac: Attribute)
    requires i < |values| && values[i].kind == 80 == mac.kind && EapAcceptable(values)
    ensures EapAcceptable(values[i := mac])
  {
    var filled := values[i := mac];
    if a: nat, b: nat :| EapAt(values, a, b) && EapPacket(Glued(values[a..b])) {
      assert IsEap(values[a]);
      assert EapAt(filled, a, b);
      assert !(a <= i < b) by { assert !IsEap(values[i]); }
      SameGlued(values[a..b], filled[a..b]);
    } else {
      assert forall k :: 0 <= k < |filled| ==> filled[k].kind != 79;
    }
  }

  // ---------------------------------------------------------------------------------------------
  // Accepted requests
  // ---------------------------------------------------------------------------------------------

  /** The request fills its packet and was sealed by someone who knows the secret. */
  ghost predicate SealedRequest(h: Hashes, packet: Octets, secret: Octets) {
    && Parse(packet).Ok? && Parse(packet).value.0 == packet && MacIs(h, Parse(packet).value.1, packet[..20], secret)
  }

  lemma RequestVerifiesExactly(h: Hashes, packet: Octets, secret: Octets)
    ensures RequestVerifies(h, packet, secret) <==> SealedRequest(h, packet, secret)
  {
    if Parse(packet).Ok? && Parse(packet).value.0 == packet {
      MacDecides(h, packet, packet[..20], secret);
      if Locate(packet).Ok? {
        var zeroed := Separated(packet, Locate(packet).value).0;
        assert zeroed[..20] == packet[..20];
        assert zeroed == zeroed[..20] + zeroed[20..];
      }
    }
  }
}
