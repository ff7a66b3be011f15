/** The streaming decoder: however a stream is cut into feeds its verdict is the same, and a result is one verified exchange. */
module NativeDecoder {
  import opened Outcomes
  import opened Codec
  import opened Authenticators
  import opened NativeFrames
  import opened NativeReplies

  /** What the channel reports when it ends; the result carries what the peer said of itself. */
  datatype Observation = Observation(result: Option<Access>, peerResult: nat, tlsErrors: nat, eapFrames: nat, challenges: nat,
                                     timedOut: bool, preparationFailed: bool, invalidReplies: nat, unanswered: nat)

  datatype Channel = Channel(buffer: Octets, total: nat, state: State)

  // ---------------------------------------------------------------------------------------------
  // Feeding
  // ---------------------------------------------------------------------------------------------

  function Feed(c: Context, ch: Channel, data: Octets): Option<Channel> {
    if ch.total + |data| > MAX_CHANNEL then None else
    var r := Pump(c, ch.state, ch.buffer + data);
    if r.None? then None else Some(Channel(r.value.1, ch.total + |data|, r.value.0))
  }

  /** A failed feed fails every later one. */
  function FeedAll(c: Context, ch: Channel, chunks: seq<Octets>): Option<Channel>
    decreases |chunks|
  {
    if chunks == [] then Some(ch) else
    var next := Feed(c, ch, chunks[0]);
    if next.None? then None else FeedAll(c, next.value, chunks[1..])
  }

  function Concat(chunks: seq<Octets>): Octets {
    if chunks == [] then [] else chunks[0] + Concat(chunks[1..])
  }

  lemma {:induction false} PumpAgain(c: Context, s: State, b: Octets)
    requires Pump(c, s, b).Some?
    ensures var (t, rest) := Pump(c, s, b).value; Pump(c, t, rest) == Some((t, rest))
    decreases |b|
  {
    if |b| >= FRAME_HEADER && |b| >= Length(b) {
      PumpAgain(c, Framed(c, s.(sequence := s.sequence + 1), Front(b)).value, b[Length(b)..]);
    }
  }

  /** Two feeds are one feed of both. */
  lemma FeedTwice(c: Context, ch: Channel, a: Octets, b: Octets)
    ensures Feed(c, ch, a + b) == var first := Feed(c, ch, a); if first.None? then None else Feed(c, first.value, b)
  {
    Associates(ch.buffer, a, b);
    PumpTwice(c, ch.state, ch.buffer + a, b);
  }

  /** A channel whose buffer holds no complete frame: every channel between feeds. */
  ghost predicate Settled(c: Context, ch: Channel) {
    Pump(c, ch.state, ch.buffer) == Some((ch.state, ch.buffer)) && ch.total <= MAX_CHANNEL
  }

  lemma FeedSettles(c: Context, ch: Channel, data: Octets)
    ensures Feed(c, ch, data).Some? ==> Settled(c, Feed(c, ch, data).value)
  {
    if Feed(c, ch, data).Some? { PumpAgain(c, ch.state, ch.buffer + data); }
  }

  lemma {:induction false} FeedAllIsOne(c: Context, ch: Channel, chunks: seq<Octets>)
    requires Settled(c, ch)
    ensures FeedAll(c, ch, chunks) == Feed(c, ch, Concat(chunks))
    decreases |chunks|
  {
    if chunks == [] {
      assert ch.buffer + [] == ch.buffer;
    } else {
      FeedTwice(c, ch, chunks[0], Concat(chunks[1..]));
      FeedSettles(c, ch, chunks[0]);
      var next := Feed(c, ch, chunks[0]);
      if next.Some? { FeedAllIsOne(c, next.value, chunks[1..]); }
    }
  }

  // ---------------------------------------------------------------------------------------------
  // Finishing
  // ---------------------------------------------------------------------------------------------

  ghost predicate IsUnanswered(s: State, n: nat) {
    && (forall k :: k in s.transmissions && k !in s.consumed ==> s.transmissions[k] <= n)
    && (n == 0 || exists k :: k in s.transmissions && k !in s.consumed && s.transmissions[k] == n)
  }

  lemma {:induction false} UnansweredExists(s: State)
    ensures exists n :: IsUnanswered(s, n)
    decreases |s.transmissions|
  {
    if k :| k in s.transmissions {
      var rest := s.(transmissions := s.transmissions - {k});
      UnansweredExists(rest);
      var n :| IsUnanswered(rest, n);
      forall j | j in s.transmissions && j != k ensures j in rest.transmissions {}
      assert IsUnanswered(s, if k in s.consumed || s.transmissions[k] <= n then n else s.transmissions[k]);
    } else {
      assert IsUnanswered(s, 0);
    }
  }

  /** The most transmissions of any request that stayed unanswered. */
  ghost function Unanswered(s: State): (n: nat)
    ensures IsUnanswered(s, n)
  {
    UnansweredExists(s);
    var n :| IsUnanswered(s, n);
    n
  }

  predicate Agrees(s: State)
    requires s.terminal.Some? && |s.terminal.value| == 8
  {
    && (s.terminal.value[0] == 1 <==> s.result.Some? && s.result.value.code == 2)
    && (s.terminal.value[1] == 1 <==> s.result.Some? && s.result.value.code == 3)
  }

  ghost predicate Ended(s: State) {
    s.terminal.Some? && |s.terminal.value| == 8 && Agrees(s)
  }

  ghost function Finish(ch: Channel): Option<Observation> {
    if ch.total == 0 || ch.buffer != [] || !Ended(ch.state) then None else
    var s, t := ch.state, ch.state.terminal.value;
    Some(Observation(s.result, t[6], t[5], s.frames, s.challenges, t[2] == 1, t[7] == 1, s.invalidReplies, Unanswered(s)))
  }

  const FRESH := Channel([], 0, START)

  /** Failure, or the observation released at the end. */
  ghost function Verdict(c: Context, chunks: seq<Octets>): Option<Observation> {
    var ch := FeedAll(c, FRESH, chunks);
    if ch.None? then None else Finish(ch.value)
  }

  /** Any way of cutting a stream into feeds has the verdict of one feed of all of it. */
  lemma ChunkingIrrelevant(c: Context, chunks: seq<Octets>)
    ensures Verdict(c, chunks) == Verdict(c, [Concat(chunks)])
  {
    FeedAllIsOne(c, FRESH, chunks);
    FeedAllIsOne(c, FRESH, [Concat(chunks)]);
    assert Concat([Concat(chunks)]) == Concat(chunks) + Concat([]) == Concat(chunks);
  }

  // ---------------------------------------------------------------------------------------------
  // Where a result comes from
  // ---------------------------------------------------------------------------------------------

  /** The frames of a stream that pumps through. */
  function FramesOf(c: Context, s: State, b: Octets): seq<Frame>
    requires Pump(c, s, b).Some?
    decreases |b|
  {
    if |b| < FRAME_HEADER || |b| < Length(b) then [] else
    [Front(b)] + FramesOf(c, Framed(c, s.(sequence := s.sequence + 1), Front(b)).value, b[Length(b)..])
  }

  /** The packet a frame carries and the request it belongs to. */
  function Record(f: Frame): Option<(Octets, Key)> {
    if |f.payload| < 84 || Carried(f.payload).None? then None else
    var packet := Carried(f.payload).value;
    if |packet| < HEADER then None else Some((packet, KeyOf(f.payload, packet)))
  }

  predicate Carries(frames: seq<Frame>, i: int, kind: int, packet: Octets, key: Key) {
    0 <= i < |frames| && frames[i].kind == kind && Record(frames[i]) == Some((packet, key))
  }

  predicate Verifies(c: Context, packet: Octets, key: Key) {
    RequestVerifies(c.h, packet, c.secret) && |packet| >= HEADER && packet[0] == 1 && key == Key(packet[1], packet[4..20])
  }

  /** Every stored request was verified when one of the frames brought it. */
  ghost predicate Brought(c: Context, frames: seq<Frame>, requests: map<Key, Octets>) {
    forall k :: k in requests ==> Verifies(c, requests[k], k) && exists i :: Carries(frames, i, 1, requests[k], k)
  }

  /** Every response consumed its own request, and no two the same. */
  ghost predicate Consumed(frames: seq<Frame>, consumed: set<Key>) {
    && (forall j, packet, k :: Carries(frames, j, 2, packet, k) ==> k in consumed)
    && (forall i, j, a, b, k :: Carries(frames, i, 2, a, k) && Carries(frames, j, 2, b, k) ==> i == j)
  }

  ghost predicate Replied(c: Context, frames: seq<Frame>, requests: map<Key, Octets>, result: Option<Access>) {
    result.Some? ==>
      exists j, packet, k :: Carries(frames, j, 2, packet, k) && k in requests
                             && VerifyAccess(c.h, requests[k], packet, c.secret) == result
  }

  ghost predicate Traced(c: Context, frames: seq<Frame>, s: State) {
    && Brought(c, frames, s.requests) && Consumed(frames, s.consumed) && s.consumed <= s.requests.Keys
    && Replied(c, frames, s.requests, s.result)
  }

  ghost const TRACED: (Context, seq<Frame>, State) -> bool := (c, frames, s) => Traced(c, frames, s)

  lemma RecordedIsRecord(c: Context, local: Option<Peer>, f: Frame)
    requires Recorded(c, local, f.payload).Some?
    ensures Record(f) == Recorded(c, local, f.payload)
  {
  }

  lemma CarriedStill(frames: seq<Frame>, f: Frame, kind: int)
    ensures forall i, packet, k :: Carries(frames, i, kind, packet, k) ==> Carries(frames + [f], i, kind, packet, k)
    ensures forall i, packet, k :: Carries(frames + [f], i, kind, packet, k) ==>
              Carries(frames, i, kind, packet, k) || (i == |frames| && f.kind == kind && Record(f) == Some((packet, k)))
  {
  }

  lemma RequestTraced(c: Context, frames: seq<Frame>, s: State, f: Frame)
    requires Traced(c, frames, s) && f.kind == 1 && Requested(c, s, f.payload).Some?
    ensures Traced(c, frames + [f], Requested(c, s, f.payload).value)
  {
    var (packet, key) := Recorded(c, s.local, f.payload).value;
    var t := Requested(c, s, f.payload).value;
    RecordedIsRecord(c, s.local, f);
    CarriedStill(frames, f, 1);
    CarriedStill(frames, f, 2);
    assert Carries(frames + [f], |frames|, 1, packet, key);
    RequestBrought(c, frames, s.requests, f, packet, key);
    assert Replied(c, frames + [f], t.requests, t.result);
  }

  lemma RequestBrought(c: Context, frames: seq<Frame>, requests: map<Key, Octets>, f: Frame, packet: Octets, key: Key)
    requires Brought(c, frames, requests) && Verifies(c, packet, key) && Carries(frames + [f], |frames|, 1, packet, key)
    ensures Brought(c, frames + [f], requests[key := packet])
  {
    CarriedStill(frames, f, 1);
  }

  lemma ResponseConsumed(frames: seq<Frame>, consumed: set<Key>, f: Frame, packet: Octets, key: Key)
    requires Consumed(frames, consumed) && key !in consumed && f.kind == 2 && Record(f) == Some((packet, key))
    ensures Consumed(frames + [f], consumed + {key})
  {
    CarriedStill(frames, f, 2);
  }

  lemma RepliedStill(c: Context, frames: seq<Frame>, requests: map<Key, Octets>, result: Option<Access>, f: Frame)
    requires Replied(c, frames, requests, result)
    ensures Replied(c, frames + [f], requests, result)
  {
    CarriedStill(frames, f, 2);
  }

  lemma BroughtStill(c: Context, frames: seq<Frame>, requests: map<Key, Octets>, f: Frame)
    requires Brought(c, frames, requests)
    ensures Brought(c, frames + [f], requests)
  {
    CarriedStill(frames, f, 1);
  }

  lemma ResponseReplied(c: Context, frames: seq<Frame>, requests: map<Key, Octets>, f: Frame, packet: Octets, key: Key)
    requires f.kind == 2 && Record(f) == Some((packet, key)) && key in requests
    ensures Replied(c, frames + [f], requests, VerifyAccess(c.h, requests[key], packet, c.secret))
  {
    assert Carries(frames + [f], |frames|, 2, packet, key);
  }

  /** A response consumes its own request, once, and either is kept as the result or leaves the result as it was. */
  lemma ResponseShape(c: Context, s: State, f: Frame)
    requires Responded(c, s, f.payload).Some?
    ensures Recorded(c, s.local, f.payload).Some?
    ensures var (packet, key) := Recorded(c, s.local, f.payload).value; var t := Responded(c, s, f.payload).value;
            && t.requests == s.requests && t.consumed == s.consumed + {key} && key !in s.consumed && key in s.requests
            && (t.result == s.result || t.result == VerifyAccess(c.h, s.requests[key], packet, c.secret))
  {
  }

  lemma ResponseStep(c: Context, frames: seq<Frame>, s: State, t: State, f: Frame, packet: Octets, key: Key)
    requires Traced(c, frames, s) && f.kind == 2 && Record(f) == Some((packet, key))
    requires t.requests == s.requests && t.consumed == s.consumed + {key} && key !in s.consumed && key in s.requests
    requires t.result == s.result || t.result == VerifyAccess(c.h, s.requests[key], packet, c.secret)
    ensures Traced(c, frames + [f], t)
  {
    BroughtStill(c, frames, s.requests, f);
    ResponseConsumed(frames, s.consumed, f, packet, key);
    RepliedStill(c, frames, s.requests, s.result, f);
    ResponseReplied(c, frames, s.requests, f, packet, key);
  }

  lemma ResponseTraced(c: Context, frames: seq<Frame>, s: State, f: Frame)
    requires Traced(c, frames, s) && f.kind == 2 && Responded(c, s, f.payload).Some?
    ensures TRACED(c, frames + [f], Responded(c, s, f.payload).value)
  {
    ResponseShape(c, s, f);
    RecordedIsRecord(c, s.local, f);
    var (packet, key) := Recorded(c, s.local, f.payload).value;
    ResponseStep(c, frames, s, Responded(c, s, f.payload).value, f, packet, key);
  }

  lemma OtherTraced(c: Context, frames: seq<Frame>, s: State, t: State, f: Frame)
    requires Traced(c, frames, s) && f.kind != 1 && f.kind != 2
    requires t.requests == s.requests && t.consumed == s.consumed && t.result == s.result
    ensures Traced(c, frames + [f], t)
  {
    CarriedStill(frames, f, 1);
    CarriedStill(frames, f, 2);
  }

  lemma OtherFramed(c: Context, s: State, f: Frame)
    requires f.kind != 1 && f.kind != 2 && Framed(c, s, f).Some?
    ensures var t := Framed(c, s, f).value; t.requests == s.requests && t.consumed == s.consumed && t.result == s.result
  {
  }

  lemma FramedTraced(c: Context, frames: seq<Frame>, s: State, f: Frame)
    requires Traced(c, frames, s) && Framed(c, s.(sequence := s.sequence + 1), f).Some?
    ensures Traced(c, frames + [f], Framed(c, s.(sequence := s.sequence + 1), f).value)
  {
    var t := s.(sequence := s.sequence + 1);
    if f.kind == 1 { RequestTraced(c, frames, t, f); }
    else if f.kind == 2 { ResponseTraced(c, frames, t, f); }
    else { OtherFramed(c, t, f); OtherTraced(c, frames, t, Framed(c, t, f).value, f); }
  }

  lemma FramesAssociate(a: seq<Frame>, f: Frame, b: seq<Frame>)
    ensures a + [f] + b == a + ([f] + b)
  {
  }

  /** What every frame keeps of the frames so far and the state, a whole stream keeps. */
  lemma {:induction false} PumpKeeps(c: Context, inv: (seq<Frame>, State) -> bool, frames: seq<Frame>, s: State, b: Octets)
    requires inv(frames, s) && Pump(c, s, b).Some?
    requires forall before, t, f :: inv(before, t) && Framed(c, t.(sequence := t.sequence + 1), f).Some? ==>
               inv(before + [f], Framed(c, t.(sequence := t.sequence + 1), f).value)
    ensures inv(frames + FramesOf(c, s, b), Pump(c, s, b).value.0)
    decreases |b|
  {
    if |b| >= FRAME_HEADER && |b| >= Length(b) {
      var t := Framed(c, s.(sequence := s.sequence + 1), Front(b)).value;
      PumpKeeps(c, inv, frames + [Front(b)], t, b[Length(b)..]);
      FramesAssociate(frames, Front(b), FramesOf(c, t, b[Length(b)..]));
    } else {
      assert frames + [] == frames;
    }
  }

  lemma StreamTraced(c: Context, stream: Octets)
    requires Pump(c, START, stream).Some?
    ensures Traced(c, FramesOf(c, START, stream), Pump(c, START, stream).value.0)
  {
    var inv := (frames: seq<Frame>, s: State) => Traced(c, frames, s);
    forall before, t, f | inv(before, t) && Framed(c, t.(sequence := t.sequence + 1), f).Some?
      ensures inv(before + [f], Framed(c, t.(sequence := t.sequence + 1), f).value)
    {
      FramedTraced(c, before, t, f);
    }
    PumpKeeps(c, inv, [], START, stream);
    assert [] + FramesOf(c, START, stream) == FramesOf(c, START, stream);
  }

  /** One request sealed with the secret and one reply accepted for it, and no other reply to that request. */
  ghost predicate OneExchange(c: Context, frames: seq<Frame>, result: Access) {
    exists i, j, request, response, k ::
      && Carries(frames, i, 1, request, k) && SealedRequest(c.h, request, c.secret) && |request| >= HEADER
      && request[0] == 1 && k == Key(request[1], request[4..20])
      && Carries(frames, j, 2, response, k)
      && Accepted(c.h, request, response, c.secret, result)
      && (forall m, other :: Carries(frames, m, 2, other, k) ==> m == j)
  }

  lemma TracedExchange(c: Context, frames: seq<Frame>, s: State)
    requires Traced(c, frames, s) && s.result.Some?
    ensures OneExchange(c, frames, s.result.value)
  {
    var j, response, k :| Carries(frames, j, 2, response, k) && k in s.requests
                          && VerifyAccess(c.h, s.requests[k], response, c.secret) == s.result;
    var i :| Carries(frames, i, 1, s.requests[k], k);
    RequestVerifiesExactly(c.h, s.requests[k], c.secret);
    VerifyAccessExactly(c.h, s.requests[k], response, c.secret, s.result.value);
  }

  lemma OneFeed(c: Context, stream: Octets)
    ensures FeedAll(c, FRESH, [stream]) == Feed(c, FRESH, stream)
  {
    assert [stream][1..] == [];
  }

  lemma FreshFeed(c: Context, stream: Octets)
    ensures Feed(c, FRESH, stream).Some? ==>
              Pump(c, START, stream).Some? && Feed(c, FRESH, stream).value.state == Pump(c, START, stream).value.0
  {
    assert [] + stream == stream;
  }

  lemma VerdictPumps(c: Context, stream: Octets)
    requires Verdict(c, [stream]).Some?
    ensures Pump(c, START, stream).Some? && Verdict(c, [stream]).value.result == Pump(c, START, stream).value.0.result
  {
    OneFeed(c, stream);
    FreshFeed(c, stream);
  }

  /**
   * A released result is the reply, sealed with the secret, to a request sealed with the secret, both frames of the stream, and
   * no other reply to that request is in it.
   */
  lemma ResultIsOneExchange(c: Context, stream: Octets)
    requires Verdict(c, [stream]).Some? && Verdict(c, [stream]).value.result.Some?
    ensures Pump(c, START, stream).Some? && OneExchange(c, FramesOf(c, START, stream), Verdict(c, [stream]).value.result.value)
  {
    VerdictPumps(c, stream);
    StreamTraced(c, stream);
    TracedExchange(c, FramesOf(c, START, stream), Pump(c, START, stream).value.0);
  }
}
