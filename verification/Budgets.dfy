/** Dynamic-authorization replies and accounting requests: they verify, and they never run out of room. */
module Budgets {
  import opened Outcomes
  import opened Codec
  import opened Authenticators
  import opened Seals

  // ---------------------------------------------------------------------------------------------
  // Verified dynamic requests (sections 2.3 and 3.4 of RFC 5176)
  // ---------------------------------------------------------------------------------------------

  datatype DynamicRequest = DynamicRequest(packet: Octets, attributes: seq<Attribute>, timestamp: nat)

  predicate IsTimestamp(a: Attribute) {
    a.kind == 55
  }

  function Number32(value: Octets): nat
    requires |value| == 4
  {
    var a, b, c, d: int := value[0], value[1], value[2], value[3];
    ((a * 256 + b) * 256 + c) * 256 + d
  }

  /** The timestamp a packet carries: a verified request carries exactly one, of four octets. */
  function EventTimestamp(packet: Octets): nat {
    var parsed := Parse(packet);
    if parsed.Err? then 0 else
    var stamps := Select(parsed.value.1, IsTimestamp);
    if |stamps| == 1 && |stamps[0].value| == 4 then Number32(stamps[0].value) else 0
  }

  /** `verify_dynamic_request` */
  function VerifyDynamic(h: Hashes, datagram: Octets, secret: Octets): Result<DynamicRequest, WireError> {
    var parsed := Parse(datagram);
    if parsed.Err? then Err(parsed.error) else
    var (packet, attributes) := parsed.value;
    if packet[0] != 40 && packet[0] != 43 then Err(InvalidDynamicCode) else
    var at := Locate(packet);
    LocatedWithin(packet, HEADER, None);
    if at.Err? then Err(at.error)
    else if h.md5(packet[..4] + ZEROS + packet[20..] + secret) != packet[4..20] then Err(InvalidRequestAuthenticator)
    else
      var (zeroed, actual) := Separated(packet, at.value);
      if h.hmac(secret, zeroed[..4] + ZEROS + zeroed[20..]) != actual then Err(InvalidMessageAuthenticator) else
      var stamps := Select(attributes, IsTimestamp);
      if stamps == [] then Err(MissingEventTimestamp)
      else if |stamps| != 1 || |stamps[0].value| != 4 then Err(InvalidEventTimestamp)
      else Ok(DynamicRequest(packet, attributes, Number32(stamps[0].value)))
  }

  /** What verification establishes about a request. */
  ghost predicate Verified(q: DynamicRequest) {
    && Parse(q.packet) == Ok((q.packet, q.attributes))
    && q.packet[0] in {40, 43}
    && |Select(q.attributes, IsMa)| == 1 && |Select(q.attributes, IsMa)[0].value| == 16
    && |Select(q.attributes, IsTimestamp)| == 1 && |Select(q.attributes, IsTimestamp)[0].value| == 4
    && q.timestamp == EventTimestamp(q.packet)
  }

  lemma ParsedAgain(datagram: Octets)
    requires Parse(datagram).Ok?
    ensures Parse(Parse(datagram).value.0) == Parse(datagram)
  {
    var packet := Parse(datagram).value.0;
    assert packet[..|packet|] == packet;
  }

  lemma VerifiedRequest(h: Hashes, datagram: Octets, secret: Octets)
    requires VerifyDynamic(h, datagram, secret).Ok?
    ensures Verified(VerifyDynamic(h, datagram, secret).value)
  {
    var packet := Parse(datagram).value.0;
    ParsedAgain(datagram);
    LocatesOne(packet, HEADER, None);
  }

  /** The request was sealed by someone who knows the secret (sections 2.3 and 3.4 of RFC 5176). */
  ghost predicate GenuineRequest(h: Hashes, packet: Octets, values: seq<Attribute>, secret: Octets) {
    && |packet| >= HEADER && packet[0] in {40, 43}
    && packet[4..20] == h.md5(packet[..4] + ZEROS + packet[20..] + secret)
    && MacIs(h, values, packet[..4] + ZEROS, secret)
  }

  /** One attribute is an Event-Timestamp, and it is this number in four octets. */
  ghost predicate StampIs(values: seq<Attribute>, timestamp: nat) {
    exists i :: 0 <= i < |values| && values[i].kind == 55 && |values[i].value| == 4 && Number32(values[i].value) == timestamp
                && forall j :: 0 <= j < |values| && j != i ==> values[j].kind != 55
  }

  lemma {:induction false} NoStamp(values: seq<Attribute>)
    ensures Select(values, IsTimestamp) == [] <==> forall j :: 0 <= j < |values| ==> values[j].kind != 55
  {
    if values != [] { NoStamp(values[1..]); }
  }

  lemma {:induction false} OneStamp(values: seq<Attribute>, timestamp: nat)
    ensures StampIs(values, timestamp) <==>
            var stamps := Select(values, IsTimestamp);
            |stamps| == 1 && |stamps[0].value| == 4 && Number32(stamps[0].value) == timestamp
  {
    if values != [] {
      var rest := values[1..];
      NoStamp(rest);
      if IsTimestamp(values[0]) {
        assert Select(values, IsTimestamp) == [values[0]] + Select(rest, IsTimestamp);
        assert forall j :: 0 <= j < |rest| ==> rest[j] == values[j + 1];
      } else {
        OneStamp(rest, timestamp);
        assert Select(values, IsTimestamp) == Select(rest, IsTimestamp);
        StampBehind(values, timestamp);
      }
    }
  }

  lemma StampBehind(values: seq<Attribute>, timestamp: nat)
    requires values != [] && values[0].kind != 55
    ensures StampIs(values, timestamp) <==> StampIs(values[1..], timestamp)
  {
    var rest := values[1..];
    forall j | 0 <= j < |rest| ensures rest[j] == values[j + 1] {}
    if StampIs(rest, timestamp) {
      var i :| 0 <= i < |rest| && rest[i].kind == 55 && |rest[i].value| == 4 && Number32(rest[i].value) == timestamp
                && forall j :: 0 <= j < |rest| && j != i ==> rest[j].kind != 55;
      forall j | 0 <= j < |values| && j != i + 1 ensures values[j].kind != 55 { if j > 0 { assert values[j] == rest[j - 1]; } }
      assert values[i + 1] == rest[i];
    }
    if StampIs(values, timestamp) {
      var i :| 0 <= i < |values| && values[i].kind == 55 && |values[i].value| == 4 && Number32(values[i].value) == timestamp
                && forall j :: 0 <= j < |values| && j != i ==> values[j].kind != 55;
      assert values[i] == rest[i - 1];
    }
  }

  lemma MacOfRequest(h: Hashes, packet: Octets, secret: Octets)
    requires HEADER <= |packet| && ParseFrom(packet, HEADER).Some?
    ensures Locate(packet).Ok? ==> HEADER <= Locate(packet).value && Locate(packet).value + 18 <= |packet|
    ensures MacIs(h, ParseFrom(packet, HEADER).value, packet[..4] + ZEROS, secret) <==>
            Locate(packet).Ok? && var (zeroed, actual) := Separated(packet, Locate(packet).value);
                                  h.hmac(secret, zeroed[..4] + ZEROS + zeroed[20..]) == actual
  {
    MacDecides(h, packet, packet[..4] + ZEROS, secret);
    if Locate(packet).Ok? {
      assert Separated(packet, Locate(packet).value).0[..4] == packet[..4];
    }
  }

  /** A request is accepted exactly when both digests are made with the secret and it carries one whole timestamp. */
  lemma VerifyDynamicExactly(h: Hashes, datagram: Octets, secret: Octets, q: DynamicRequest)
    ensures VerifyDynamic(h, datagram, secret) == Ok(q) <==>
            && Parse(datagram) == Ok((q.packet, q.attributes))
            && GenuineRequest(h, q.packet, q.attributes, secret) && StampIs(q.attributes, q.timestamp)
  {
    if Parse(datagram).Ok? {
      var (packet, values) := Parse(datagram).value;
      MacOfRequest(h, packet, secret);
      OneStamp(values, q.timestamp);
    }
  }

  // ---------------------------------------------------------------------------------------------
  // Replies
  // ---------------------------------------------------------------------------------------------

  predicate IsProxyState(a: Attribute) {
    a.kind == 33
  }

  predicate IsState(a: Attribute) {
    a.kind == 24
  }

  predicate Malformed(states: seq<Attribute>) {
    |states| > 1 || exists i :: 0 <= i < |states| && states[i].value == []
  }

  /** The attributes a reply copies: Proxy-State in order, and an unbroken State of a CoA-Request. */
  function Copied(q: DynamicRequest, code: int, cause: Option<nat>): seq<Attribute>
    requires |q.packet| > 0
  {
    var omit := q.packet[0] == 43 && code == 45 && cause == Some(404) && Malformed(Select(q.attributes, IsState));
    Select(q.attributes, (a: Attribute) => IsProxyState(a) || (IsState(a) && q.packet[0] == 43 && !omit))
  }

  function Octets32(n: nat): Octets
    requires n < 0x1_0000_0000
  {
    [n / 0x100_0000, n / 0x1_0000 % 256, n / 256 % 256, n % 256]
  }

  function Causes(cause: Option<nat>): seq<Attribute>
    requires cause.Some? ==> cause.value < 0x1_0000_0000
  {
    if cause.Some? then [Attribute(101, Octets32(cause.value))] else []
  }

  predicate Answerable(q: DynamicRequest, code: int, cause: Option<nat>)
    requires |q.packet| > 0
  {
    && ((q.packet[0] == 40 && code in {41, 42}) || (q.packet[0] == 43 && code in {44, 45}))
    && (cause.Some? ==> cause.value < 0x1_0000_0000)
  }

  /** `dynamic_response` */
  function DynamicResponse(h: Hashes, q: DynamicRequest, code: Octet, secret: Octets, cause: Option<nat>): Result<Octets, WireError>
    requires |q.packet| >= HEADER && Answerable(q, code, cause)
  {
    var body := Encode(Copied(q, code, cause) + Causes(cause) + [Attribute(80, ZEROS)]);
    if body.Err? then Err(body.error) else
    var unsigned := Header(code, q.packet[1], HEADER + |body.value|, q.packet[4..20]) + body.value;
    var response := unsigned[..|unsigned| - 16] + h.hmac(secret, unsigned);
    Ok(response[..4] + h.md5(response + secret) + response[20..])
  }

  lemma {:induction false} ParsedValues(packet: Octets, at: nat)
    requires at <= |packet| && ParseFrom(packet, at).Some?
    ensures forall i :: 0 <= i < |ParseFrom(packet, at).value| ==>
              0 <= ParseFrom(packet, at).value[i].kind <= 255 && |ParseFrom(packet, at).value[i].value| <= 253
    decreases |packet| - at
  {
    if at < |packet| {
      ParsedValues(packet, at + packet[at + 1]);
    }
  }

  lemma {:induction false} SelectEncodable(values: seq<Attribute>, keep: Attribute -> bool)
    requires forall i :: 0 <= i < |values| ==> 0 <= values[i].kind <= 255 && |values[i].value| <= 253
    requires forall a :: keep(a) ==> a.kind != 0 && a.kind != 80
    ensures AllEncodable(Select(values, keep)) && forall i :: 0 <= i < |Select(values, keep)| ==> Select(values, keep)[i].kind != 80
  {
    if values != [] { SelectEncodable(values[1..], keep); }
  }

  lemma SizeOfOne(a: Attribute)
    ensures Size([a]) == |a.value| + 2
  {
    assert [a][1..] == [];
  }

  /** What is copied leaves out the request's own authenticator and timestamp, which pay for the reply's. */
  lemma CopiedFits(q: DynamicRequest, code: int, cause: Option<nat>)
    requires Verified(q) && Answerable(q, code, cause)
    ensures AllEncodable(Copied(q, code, cause))
    ensures forall i :: 0 <= i < |Copied(q, code, cause)| ==> Copied(q, code, cause)[i].kind != 80
    ensures HEADER + Size(Copied(q, code, cause)) + 24 <= |q.packet|
  {
    var omit := q.packet[0] == 43 && code == 45 && cause == Some(404) && Malformed(Select(q.attributes, IsState));
    var keep := (a: Attribute) => IsProxyState(a) || (IsState(a) && q.packet[0] == 43 && !omit);
    ParsedValues(q.packet, HEADER);
    SelectEncodable(q.attributes, keep);
    SizeParsed(q.packet, HEADER);
    SelectionsFit(q.attributes, keep, IsMa, IsTimestamp);
    SizeOfOne(Select(q.attributes, IsMa)[0]);
    SizeOfOne(Select(q.attributes, IsTimestamp)[0]);
    assert Select(q.attributes, IsMa) == [Select(q.attributes, IsMa)[0]];
    assert Select(q.attributes, IsTimestamp) == [Select(q.attributes, IsTimestamp)[0]];
  }

  lemma ReplyValues(q: DynamicRequest, code: int, cause: Option<nat>)
    requires Verified(q) && Answerable(q, code, cause)
    ensures var values := Copied(q, code, cause) + Causes(cause);
            && AllEncodable(values) && (forall i :: 0 <= i < |values| ==> values[i].kind != 80)
            && HEADER + |Flat(values)| + 18 <= |q.packet|
  {
    var copied, causes := Copied(q, code, cause), Causes(cause);
    CopiedFits(q, code, cause);
    SizeFlat(copied);
    FlatAppend(copied, causes);
    if cause.Some? { FlatOne(causes[0]); }
  }

  /** The packet a client checks: the request's authenticator in place of the reply's. */
  function AsChecked(response: Octets, authenticator: Digest): Octets
    requires |response| >= HEADER
  {
    response[..4] + authenticator + response[20..]
  }

  /** Another authenticator in the header leaves everything else. */
  lemma Resigned(signed: Octets, digest: Digest)
    requires |signed| >= HEADER
    ensures var response := signed[..4] + digest + signed[20..];
            && |response| == |signed| && response[..4] == signed[..4] && response[20..] == signed[20..]
            && response[4..20] == digest && response[0] == signed[0] && response[1] == signed[1]
            && AsChecked(response, signed[4..20]) == signed
  {
    var response := signed[..4] + digest + signed[20..];
    assert response[..4] == signed[..4];
    assert response[20..] == signed[20..];
    assert signed == signed[..4] + signed[4..20] + signed[20..];
  }

  /** The reply before its response authenticator is put in. */
  function Signed(h: Hashes, q: DynamicRequest, code: Octet, secret: Octets, cause: Option<nat>): Octets
    requires Verified(q) && Answerable(q, code, cause)
  {
    var values := Copied(q, code, cause) + Causes(cause);
    Sealed(ReplyHeader(q, code, cause), values, h.hmac(secret, Sealed(ReplyHeader(q, code, cause), values, ZEROS)))
  }

  lemma SignedVerifies(h: Hashes, q: DynamicRequest, code: Octet, secret: Octets, cause: Option<nat>)
    requires Verified(q) && Answerable(q, code, cause)
    ensures var signed := Signed(h, q, code, secret, cause);
            && HEADER <= |signed| <= |q.packet| && RequestVerifies(h, signed, secret)
            && signed[4..20] == q.packet[4..20] && signed[0] == code && signed[1] == q.packet[1]
            && Parse(signed).value.1 == Copied(q, code, cause) + Causes(cause)
                 + [Attribute(80, h.hmac(secret, Sealed(ReplyHeader(q, code, cause), Copied(q, code, cause) + Causes(cause), ZEROS)))]
  {
    var values, header := Copied(q, code, cause) + Causes(cause), ReplyHeader(q, code, cause);
    ReplyValues(q, code, cause);
    SealVerifies(h, header, values, secret);
    var signed := Signed(h, q, code, secret, cause);
    assert signed[..20] == header;
    assert signed[4..20] == signed[..20][4..20] && signed[0] == signed[..20][0] && signed[1] == signed[..20][1];
  }

  /** Filling in the reply's own authenticator seals it. */
  lemma ReplySealed(h: Hashes, header: Octets, values: seq<Attribute>, secret: Octets)
    requires AllEncodable(values)
    ensures AllEncodable(values + [Attribute(80, ZEROS)])
    ensures var unsigned := header + Flat(values + [Attribute(80, ZEROS)]);
            && |unsigned| >= 16 && unsigned == Sealed(header, values, ZEROS)
            && unsigned[..|unsigned| - 16] + h.hmac(secret, unsigned) == Sealed(header, values, h.hmac(secret, unsigned))
  {
    FlatOne(Attribute(80, ZEROS));
    FlatAppend(values, [Attribute(80, ZEROS)]);
    Associates(header, Flat(values), Encoded(Attribute(80, ZEROS)));
    LastOverwritten(header + Flat(values), ZEROS, h.hmac(secret, Sealed(header, values, ZEROS)));
  }

  lemma ResponseIsSigned(h: Hashes, q: DynamicRequest, code: Octet, secret: Octets, cause: Option<nat>)
    requires Verified(q) && Answerable(q, code, cause)
    ensures |Signed(h, q, code, secret, cause)| >= HEADER
    ensures var signed := Signed(h, q, code, secret, cause);
            DynamicResponse(h, q, code, secret, cause) == Ok(signed[..4] + h.md5(signed + secret) + signed[20..])
  {
    var values, header := Copied(q, code, cause) + Causes(cause), ReplyHeader(q, code, cause);
    ReplyValues(q, code, cause);
    ReplySealed(h, header, values, secret);
  }

  /**
   * Every reply to a verified request is encoded: it is never longer than the request, keeps the Proxy-State attributes in
   * their order, and carries the two authenticators its client checks.
   */
  lemma ReplyNeverOverflows(h: Hashes, q: DynamicRequest, code: Octet, secret: Octets, cause: Option<nat>)
    requires Verified(q) && Answerable(q, code, cause)
    ensures DynamicResponse(h, q, code, secret, cause).Ok?
    ensures var response := DynamicResponse(h, q, code, secret, cause).value;
            && HEADER <= |response| <= |q.packet| && response[0] == code && response[1] == q.packet[1]
            && Parse(Signed(h, q, code, secret, cause)).Ok?
            && Parse(response) == Ok((response, Parse(Signed(h, q, code, secret, cause)).value.1))
            && RequestVerifies(h, AsChecked(response, q.packet[4..20]), secret)
            && response[4..20] == h.md5(AsChecked(response, q.packet[4..20]) + secret)
  {
    var signed := Signed(h, q, code, secret, cause);
    SignedVerifies(h, q, code, secret, cause);
    ResponseIsSigned(h, q, code, secret, cause);
    Resigned(signed, h.md5(signed + secret));
    SignedParses(signed, DynamicResponse(h, q, code, secret, cause).value);
  }

  function ReplyHeader(q: DynamicRequest, code: Octet, cause: Option<nat>): (r: Octets)
    requires Verified(q) && Answerable(q, code, cause)
    ensures |r| == HEADER && r[4..20] == q.packet[4..20] && r[0] == code && r[1] == q.packet[1]
    ensures AllEncodable(Copied(q, code, cause) + Causes(cause))
    ensures Word(r, 2) == HEADER + |Flat(Copied(q, code, cause) + Causes(cause))| + 18 <= 4096
  {
    ReplyValues(q, code, cause);
    Header(code, q.packet[1], HEADER + |Flat(Copied(q, code, cause) + Causes(cause))| + 18, q.packet[4..20])
  }

  lemma {:induction false} SameTail(a: Octets, b: Octets, at: nat)
    requires |a| == |b| && at <= |a| && a[at..] == b[at..]
    ensures ParseFrom(a, at) == ParseFrom(b, at)
    decreases |a| - at
  {
    if at + 2 <= |a| {
      assert a[at] == a[at..][0] == b[at..][0] == b[at];
      assert a[at + 1] == a[at..][1] == b[at..][1] == b[at + 1];
      var end := at + a[at + 1];
      if a[at + 1] >= 2 && end <= |a| {
        assert a[at + 2..end] == a[at..][2..end - at] == b[at..][2..end - at] == b[at + 2..end];
        assert a[end..] == a[at..][end - at..] == b[at..][end - at..] == b[end..];
        SameTail(a, b, end);
      }
    }
  }

  /** Another response authenticator leaves the length and the attributes of a packet. */
  lemma SignedParses(signed: Octets, response: Octets)
    requires Parse(signed).Ok? && Parse(signed).value.0 == signed && |response| == |signed|
    requires response[..4] == signed[..4] && response[20..] == signed[20..]
    ensures Parse(response) == Ok((response, Parse(signed).value.1))
  {
    assert response[2] == response[..4][2] && response[3] == response[..4][3];
    assert signed[2] == signed[..4][2] && signed[3] == signed[..4][3];
    assert response[..|response|] == response && signed[..|signed|] == signed;
    SameTail(signed, response, HEADER);
  }

  /** The Proxy-State attributes of the reply are those of the request, in the same order. */
  lemma ProxyStatesKept(h: Hashes, q: DynamicRequest, code: Octet, secret: Octets, cause: Option<nat>)
    requires Verified(q) && Answerable(q, code, cause)
    ensures DynamicResponse(h, q, code, secret, cause).Ok? && Parse(DynamicResponse(h, q, code, secret, cause).value).Ok?
    ensures Select(Parse(DynamicResponse(h, q, code, secret, cause).value).value.1, IsProxyState) == Select(q.attributes, IsProxyState)
  {
    ReplyNeverOverflows(h, q, code, secret, cause);
    SignedVerifies(h, q, code, secret, cause);
    var mac := h.hmac(secret, Sealed(ReplyHeader(q, code, cause), Copied(q, code, cause) + Causes(cause), ZEROS));
    ProxyStatesCopied(q, code, cause, mac);
  }

  lemma ProxyStatesCopied(q: DynamicRequest, code: int, cause: Option<nat>, mac: Digest)
    requires |q.packet| > 0 && (cause.Some? ==> cause.value < 0x1_0000_0000)
    ensures Select(Copied(q, code, cause) + Causes(cause) + [Attribute(80, mac)], IsProxyState) == Select(q.attributes, IsProxyState)
  {
    var omit := q.packet[0] == 43 && code == 45 && cause == Some(404) && Malformed(Select(q.attributes, IsState));
    var keep := (a: Attribute) => IsProxyState(a) || (IsState(a) && q.packet[0] == 43 && !omit);
    SelectTwice(q.attributes, keep, IsProxyState);
    SelectAppend(Copied(q, code, cause), Causes(cause), IsProxyState);
    SelectAppend(Copied(q, code, cause) + Causes(cause), [Attribute(80, mac)], IsProxyState);
    SelectOne(Attribute(80, mac), IsProxyState);
    if cause.Some? { SelectOne(Causes(cause)[0], IsProxyState); }
    assert Select(Causes(cause), IsProxyState) == [];
  }

  // ---------------------------------------------------------------------------------------------
  // Accounting (section 3 of RFC 2866)
  // ---------------------------------------------------------------------------------------------

  predicate Unaccountable(a: Attribute) {
    a.kind in {2, 3, 18, 24, 40, 60, 79, 80}
  }

  /** `accounting_request` */
  function AccountingRequest(h: Hashes, identifier: int, status: int, attributes: seq<Attribute>, secret: Octets): Result<Octets, WireError> {
    if !(0 <= identifier <= 255) then Err(InvalidRequest)
    else if status !in {1, 2, 3, 7, 8} then Err(InvalidAccountingStatus)
    else if |attributes| > 2038 then Err(InvalidAttribute)
    else if Encode(attributes).Err? then Err(Encode(attributes).error)
    else if exists i :: 0 <= i < |attributes| && Unaccountable(attributes[i]) then Err(ReservedAttribute)
    else
      var body := Encode(attributes + [Attribute(40, Octets32(status))]);
      if body.Err? then Err(body.error)
      else if |body.value| + HEADER > 4095 then Err(PacketBudget)
      else
        var request := Header(4, identifier, HEADER + |body.value|, ZEROS) + body.value;
        Ok(request[..4] + h.md5(request + secret) + request[20..])
  }

  /** The room `queue_accounting` asks for before it enqueues a record. */
  predicate Enqueued(values: seq<Attribute>) {
    Encode(values).Ok? && HEADER + |Encode(values).value| + 12 <= 4095
  }

  lemma {:induction false} CountWithinSize(values: seq<Attribute>)
    ensures 2 * |values| <= Size(values)
  {
    if values != [] { CountWithinSize(values[1..]); }
  }

  /** A record that was enqueued still encodes once its delay and its status are added, whatever the delay has become. */
  lemma EnqueuedStillEncodes(h: Hashes, identifier: int, status: int, values: seq<Attribute>, delay: nat, secret: Octets)
    requires Enqueued(values) && (forall i :: 0 <= i < |values| ==> !Unaccountable(values[i]))
    requires 0 <= identifier <= 255 && status in {1, 2, 3, 7, 8} && delay < 0x1_0000_0000
    ensures var r := AccountingRequest(h, identifier, status, values + [Attribute(41, Octets32(delay))], secret);
            r.Ok? && |r.value| <= 4095
  {
    var wait, last := Attribute(41, Octets32(delay)), Attribute(40, Octets32(status));
    CountWithinSize(values);
    SizeFlat(values);
    FlatOne(wait);
    FlatAppend(values, [wait]);
    FlatOne(last);
    FlatAppend(values + [wait], [last]);
  }

  predicate Sealable(a: Attribute) {
    a.kind == 79 || a.kind == 80
  }

  /** `verify_accounting` */
  function VerifyAccounting(h: Hashes, request: Octets, response: Octets, secret: Octets): Result<seq<Attribute>, WireError> {
    var asked, answered := Parse(request), Parse(response);
    if asked.Err? then Err(asked.error)
    else if answered.Err? then Err(answered.error)
    else
      var (q, sent) := asked.value;
      var (r, values) := answered.value;
      if |q| > 4095 || |r| > 4095 then Err(InvalidPacketLength)
      else if q[0] != 4 || r[0] != 5 || r[1] != q[1] then Err(UncorrelatedResponse)
      else if exists i :: 0 <= i < |sent| && Sealable(sent[i]) then Err(ReservedAttribute)
      else if h.md5(q[..4] + ZEROS + q[20..] + secret) != q[4..20] then Err(InvalidRequestAuthenticator)
      else if h.md5(r[..4] + q[4..20] + r[20..] + secret) != r[4..20] then Err(InvalidResponseAuthenticator)
      else Ok(values)
  }

  /** The digest over a packet with another authenticator in its place (section 3 of RFC 2866). */
  predicate DigestIs(h: Hashes, packet: Octets, authenticator: Octets, secret: Octets) {
    |packet| >= HEADER && packet[4..20] == h.md5(packet[..4] + authenticator + packet[20..] + secret)
  }

  /** The exchange is one of accounting, both digests are made with the secret, and the request carries no EAP and no seal. */
  ghost predicate Acknowledged(h: Hashes, q: Octets, sent: seq<Attribute>, r: Octets, secret: Octets) {
    && HEADER <= |q| <= 4095 && HEADER <= |r| <= 4095
    && q[0] == 4 && r[0] == 5 && r[1] == q[1]
    && (forall i :: 0 <= i < |sent| ==> sent[i].kind != 79 && sent[i].kind != 80)
    && DigestIs(h, q, ZEROS, secret) && DigestIs(h, r, q[4..20], secret)
  }

  /** An answer is accepted exactly when it acknowledges the request with a digest made with the secret. */
  lemma VerifyAccountingExactly(h: Hashes, request: Octets, response: Octets, secret: Octets, values: seq<Attribute>)
    ensures VerifyAccounting(h, request, response, secret) == Ok(values) <==>
            && Parse(request).Ok? && Parse(response).Ok? && Parse(response).value.1 == values
            && Acknowledged(h, Parse(request).value.0, Parse(request).value.1, Parse(response).value.0, secret)
  {
    if Parse(request).Ok? {
      var sent := Parse(request).value.1;
      assert (exists i :: 0 <= i < |sent| && Sealable(sent[i])) <==> !(forall i :: 0 <= i < |sent| ==> sent[i].kind != 79 && sent[i].kind != 80);
    }
  }

  /** What a server that shares the secret sends back (section 3 of RFC 2866). */
  function AccountingReply(h: Hashes, request: Octets, body: Octets, secret: Octets): Octets
    requires |request| >= HEADER && HEADER + |body| < 65536
  {
    var header := Header(5, request[1], HEADER + |body|, request[4..20]);
    header[..4] + h.md5(header + body + secret) + body
  }

  lemma AccountingBody(h: Hashes, identifier: int, status: int, attributes: seq<Attribute>, secret: Octets)
    requires AccountingRequest(h, identifier, status, attributes, secret).Ok?
    ensures var values := attributes + [Attribute(40, Octets32(status))];
            var request := AccountingRequest(h, identifier, status, attributes, secret).value;
            && AllEncodable(values) && HEADER + |Flat(values)| <= 4095
            && (forall i :: 0 <= i < |values| ==> !Sealable(values[i]))
            && var first := Header(4, identifier, HEADER + |Flat(values)|, ZEROS)[..4];
               request == first + h.md5(first + ZEROS + Flat(values) + secret) + Flat(values)
  {
    var values := attributes + [Attribute(40, Octets32(status))];
    var header := Header(4, identifier, HEADER + |Flat(values)|, ZEROS);
    assert header == header[..4] + ZEROS;
    assert (header + Flat(values))[..4] == header[..4] && (header + Flat(values))[20..] == Flat(values);
    forall i | 0 <= i < |attributes| ensures !Sealable(attributes[i]) { assert !Unaccountable(attributes[i]); }
  }

  lemma RequestParts(h: Hashes, identifier: int, status: int, attributes: seq<Attribute>, secret: Octets)
    requires AccountingRequest(h, identifier, status, attributes, secret).Ok?
    ensures var values := attributes + [Attribute(40, Octets32(status))];
            var q := AccountingRequest(h, identifier, status, attributes, secret).value;
            && |q| <= 4095 && Parse(q) == Ok((q, values)) && q[0] == 4 && q[1] == identifier
            && (forall i :: 0 <= i < |values| ==> !Sealable(values[i]))
            && h.md5(q[..4] + ZEROS + q[20..] + secret) == q[4..20]
  {
    var q := AccountingRequest(h, identifier, status, attributes, secret).value;
    var values := attributes + [Attribute(40, Octets32(status))];
    AccountingBody(h, identifier, status, attributes, secret);
    var first := Header(4, identifier, HEADER + |Flat(values)|, ZEROS)[..4];
    AssembledParses(first, h.md5(first + ZEROS + Flat(values) + secret), values, q);
    Assembled(first, h.md5(first + ZEROS + Flat(values) + secret), Flat(values), q);
  }

  lemma ReplyParts(h: Hashes, request: Octets, answer: seq<Attribute>, secret: Octets)
    requires |request| >= HEADER && AllEncodable(answer) && HEADER + |Flat(answer)| <= 4095
    ensures var r := AccountingReply(h, request, Flat(answer), secret);
            && |r| <= 4095 && Parse(r) == Ok((r, answer)) && r[0] == 5 && r[1] == request[1]
            && h.md5(r[..4] + request[4..20] + r[20..] + secret) == r[4..20]
  {
    var header := Header(5, request[1], HEADER + |Flat(answer)|, request[4..20]);
    var r := AccountingReply(h, request, Flat(answer), secret);
    assert header == header[..4] + request[4..20];
    AssembledParses(header[..4], h.md5(header + Flat(answer) + secret), answer, r);
    Assembled(header[..4], h.md5(header + Flat(answer) + secret), Flat(answer), r);
  }

  /** The answer of a server that shares the secret verifies against every request that is built, and yields its attributes. */
  lemma AccountingVerifies(h: Hashes, identifier: int, status: int, attributes: seq<Attribute>, answer: seq<Attribute>, secret: Octets)
    requires AccountingRequest(h, identifier, status, attributes, secret).Ok?
    requires AllEncodable(answer) && HEADER + |Flat(answer)| <= 4095
    ensures var request := AccountingRequest(h, identifier, status, attributes, secret).value;
            VerifyAccounting(h, request, AccountingReply(h, request, Flat(answer), secret), secret) == Ok(answer)
  {
    RequestParts(h, identifier, status, attributes, secret);
    ReplyParts(h, AccountingRequest(h, identifier, status, attributes, secret).value, answer, secret);
  }
}
