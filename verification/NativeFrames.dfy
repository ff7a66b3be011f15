/**
 * The observation channel of the native EAP peer: the effect of one frame, and of a stream of octets cut into frames.
 */
module NativeFrames {
  import opened Outcomes
  import opened Codec
  import opened Authenticators

  const MAX_CHANNEL := 1048576
  const FRAME_HEADER := 16

  datatype Peer = Peer(address: Octets, port: nat)

  /** What the decoder is given. */
  datatype Context = Context(h: Hashes, peer: Peer, secret: Octets, source: Option<Octets>)

  datatype Access = Access(code: int, attributes: seq<Attribute>, authenticator: Octets)

  datatype Key = Key(identifier: int, authenticator: Octets)

  datatype State = State(sequence: nat, requests: map<Key, Octets>, consumed: set<Key>, transmissions: map<Key, nat>,
                         local: Option<Peer>, result: Option<Access>, terminal: Option<seq<nat>>,
                         frames: nat, challenges: nat, invalidReplies: nat)

  const START := State(1, map[], {}, map[], None, None, None, 0, 0, 0)

  datatype Frame = Frame(kind: int, payload: Octets)

  // ---------------------------------------------------------------------------------------------
  // Access responses (sections 3 and 5 of RFC 2865)
  // ---------------------------------------------------------------------------------------------

  predicate IsEap(a: Attribute) {
    a.kind == 79
  }

  /** EAP fragments follow each other immediately. */
  predicate Consecutive(values: seq<Attribute>) {
    forall i, j, k :: 0 <= i < j < k < |values| && IsEap(values[i]) && IsEap(values[k]) ==> IsEap(values[j])
  }

  function Joined(values: seq<Attribute>): Octets {
    if values == [] then [] else (if IsEap(values[0]) then values[0].value else []) + Joined(values[1..])
  }

  predicate EapSound(values: seq<Attribute>) {
    var eap := Joined(values);
    (exists i :: 0 <= i < |values| && IsEap(values[i])) ==>
      && |eap| >= 4 && Word(eap, 2) == |eap| && eap[0] in {1, 2, 3, 4}
      && if eap[0] in {1, 2} then |eap| >= 5 else |eap| == 4
  }

  /** `verify_access` */
  function VerifyAccess(h: Hashes, request: Octets, response: Octets, secret: Octets): Option<Access> {
    var q, r := Parse(request), Parse(response);
    if q.Err? || r.Err? then None else
    var (asked, _) := q.value;
    var (answer, values) := r.value;
    if asked[0] != 1 || answer[0] !in {2, 3, 11} || answer[1] != asked[1] then None else
    var at := Locate(answer);
    LocatedWithin(answer, HEADER, None);
    if at.Err? then None else
    var (zeroed, actual) := Separated(answer, at.value);
    if h.hmac(secret, zeroed[..4] + asked[4..20] + zeroed[20..]) != actual then None
    else if h.md5(answer[..4] + asked[4..20] + answer[20..] + secret) != answer[4..20] then None
    else if !Consecutive(values) || !EapSound(values) then None
    else Some(Access(answer[0], values, asked[4..20]))
  }

  // ---------------------------------------------------------------------------------------------
  // Packet records
  // ---------------------------------------------------------------------------------------------

  predicate AllZero(s: Octets) {
    forall i :: 0 <= i < |s| ==> s[i] == 0
  }

  function NumberOf(s: Octets): nat {
    if s == [] then 0 else NumberOf(s[..|s| - 1]) * 256 + s[|s| - 1]
  }

  /** The metadata in front of a packet is complete and padded with zeros. */
  predicate WellPadded(p: Octets) {
    && |p| >= 84 && p[0] in {4, 6} && AllZero(p[1..4]) && AllZero(p[60..64])
    && (p[0] == 4 ==> AllZero(p[12..24]) && AllZero(p[28..40]))
  }

  function Remote(p: Octets): Peer
    requires |p| >= 84
  {
    Peer(p[8..if p[0] == 4 then 12 else 24], NumberOf(p[4..6]))
  }

  function Local(p: Octets): Peer
    requires |p| >= 84
  {
    Peer(p[24..if p[0] == 4 then 28 else 40], NumberOf(p[6..8]))
  }

  predicate Addressed(c: Context, local: Option<Peer>, p: Octets)
    requires |p| >= 84
  {
    && Remote(p) == c.peer && Local(p).port != 0
    && (c.source.Some? ==> Local(p).address == c.source.value)
    && (local.Some? ==> Local(p) == local.value)
  }

  /** The packet a record carries, which must fill it. */
  function Carried(p: Octets): Option<Octets>
    requires |p| >= 84
  {
    var parsed := Parse(p[64..]);
    if parsed.Err? || |parsed.value.0| != |p| - 64 || |parsed.value.0| != NumberOf(p[56..60]) then None else Some(parsed.value.0)
  }

  function KeyOf(p: Octets, packet: Octets): Key
    requires |p| >= 84 && |packet| >= HEADER
  {
    Key(packet[1], p[40..56])
  }

  /** The packet and the key of a record, when both are acceptable. */
  function Recorded(c: Context, local: Option<Peer>, p: Octets): (r: Option<(Octets, Key)>)
    ensures r.Some? ==> |p| >= 84 && Parse(r.value.0) == Parse(p[64..]) && |r.value.0| >= HEADER
  {
    if !WellPadded(p) || !Addressed(c, local, p) then None else
    var packet := Carried(p);
    if packet.None? then None else
    assert p[64..][..|p| - 64] == p[64..];
    Some((packet.value, KeyOf(p, packet.value)))
  }

  function Requested(c: Context, s: State, p: Octets): Option<State> {
    var r := Recorded(c, s.local, p);
    if r.None? then None else
    var (packet, key) := r.value;
    if s.result.Some? || packet[0] != 1 || key.authenticator != packet[4..20] || key in s.consumed then None
    else if !RequestVerifies(c.h, packet, c.secret) then None
    else if key in s.requests && s.requests[key] != packet then None
    else
      var sent := if key in s.transmissions then s.transmissions[key] else 0;
      Some(s.(local := Some(Local(p)), requests := s.requests[key := packet], transmissions := s.transmissions[key := sent + 1]))
  }

  function Responded(c: Context, s: State, p: Octets): Option<State> {
    var r := Recorded(c, s.local, p);
    if r.None? then None else
    var (packet, key) := r.value;
    if key !in s.requests || key in s.consumed || s.result.Some? then None else
    var received := VerifyAccess(c.h, s.requests[key], packet, c.secret);
    if received.None? then None else
    var t := s.(local := Some(Local(p)), consumed := s.consumed + {key});
    Some(if received.value.code == 11 then t.(challenges := t.challenges + 1) else t.(result := received))
  }

  function Words(p: Octets): seq<nat>
    requires |p| == 32
  {
    seq(8, i requires 0 <= i < 8 => NumberOf(p[4 * i..4 * i + 4]))
  }

  predicate TerminalOk(t: seq<nat>)
    requires |t| == 8
  {
    t[0] <= 1 && t[1] <= 1 && t[2] <= 1 && t[7] <= 1 && t[6] <= 3 && t[3] <= 2147483647 && t[4] <= 2147483647
  }

  /** `_frame` */
  function Framed(c: Context, s: State, f: Frame): Option<State> {
    var p := f.payload;
    if f.kind == 1 then Requested(c, s, p)
    else if f.kind == 2 then Responded(c, s, p)
    else if f.kind == 3 then
      if |p| == 16 && p[0] in {1, 2} && p[1] in {1, 2, 3} && p[2] <= 4 && AllZero(p[14..])
      then Some(s.(frames := s.frames + 1)) else None
    else if f.kind in {4, 5, 6} then
      if |p| != 4 || (f.kind == 5 && NumberOf(p) !in {1, 2, 3}) || (f.kind == 6 && NumberOf(p) != 1) then None
      else Some(if f.kind == 6 then s.(invalidReplies := s.invalidReplies + 1) else s)
    else if f.kind == 7 then
      if |p| == 32 && TerminalOk(Words(p)) then Some(s.(terminal := Some(Words(p)))) else None
    else None
  }

  // ---------------------------------------------------------------------------------------------
  // Cutting a stream into frames
  // ---------------------------------------------------------------------------------------------

  const MAGIC: Octets := [83, 76, 82, 49]

  /** The header at the front of the buffer is acceptable in this state. */
  predicate HeaderOk(s: State, b: Octets)
    requires |b| >= FRAME_HEADER
  {
    && s.terminal.None? && b[..4] == MAGIC && b[5] == 0 && b[6] == 0 && b[7] == 0
    && NumberOf(b[12..16]) == s.sequence && s.sequence <= 512 && NumberOf(b[8..12]) <= 8176
  }

  function Length(b: Octets): nat
    requires |b| >= FRAME_HEADER
  {
    FRAME_HEADER + NumberOf(b[8..12])
  }

  function Front(b: Octets): Frame
    requires |b| >= FRAME_HEADER && |b| >= Length(b)
  {
    Frame(b[4], b[FRAME_HEADER..Length(b)])
  }

  /** The loop of `_feed`: consume every complete frame, leave an incomplete one, fail on a bad one. */
  function Pump(c: Context, s: State, b: Octets): Option<(State, Octets)>
    decreases |b|
  {
    if |b| < FRAME_HEADER then Some((s, b))
    else if !HeaderOk(s, b) then None
    else if |b| < Length(b) then Some((s, b))
    else
      var t := Framed(c, s.(sequence := s.sequence + 1), Front(b));
      if t.None? then None else Pump(c, t.value, b[Length(b)..])
  }

  /** Octets behind the front frame do not change how it is read. */
  lemma SameFront(s: State, a: Octets, b: Octets)
    requires |a| >= FRAME_HEADER
    ensures HeaderOk(s, a + b) == HeaderOk(s, a) && Length(a + b) == Length(a)
    ensures |a| >= Length(a) ==> Front(a + b) == Front(a) && (a + b)[Length(a)..] == a[Length(a)..] + b
  {
    assert (a + b)[..4] == a[..4] && (a + b)[8..12] == a[8..12] && (a + b)[12..16] == a[12..16];
    if |a| >= Length(a) {
      assert (a + b)[FRAME_HEADER..Length(a)] == a[FRAME_HEADER..Length(a)];
    }
  }

  /** Pumping a buffer and later what was left of it together with more is pumping everything at once. */
  lemma {:induction false} PumpTwice(c: Context, s: State, a: Octets, b: Octets)
    ensures Pump(c, s, a + b) ==
            var first := Pump(c, s, a); if first.None? then None else Pump(c, first.value.0, first.value.1 + b)
    decreases |a|
  {
    if |a| >= FRAME_HEADER {
      SameFront(s, a, b);
      if HeaderOk(s, a) && |a| >= Length(a) {
        var t := Framed(c, s.(sequence := s.sequence + 1), Front(a));
        if t.Some? { PumpTwice(c, t.value, a[Length(a)..], b); }
      }
    }
  }
}
