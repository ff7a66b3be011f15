/** What a whole stream of the native channel says: one conversation, numbered without a gap, with exactly the reported counts. */
module NativeStreams {
  import opened Outcomes
  import opened Codec
  import opened Authenticators
  import opened NativeFrames
  import opened NativeDecoder

  /** A frame that carries a packet record. */
  predicate IsRecord(f: Frame) {
    (f.kind == 1 || f.kind == 2) && |f.payload| >= 84
  }

  /** Every record is between the configured peer and one local socket, of the configured source address if there is one. */
  ghost predicate Between(c: Context, frames: seq<Frame>, local: Option<Peer>) {
    forall i :: 0 <= i < |frames| && (frames[i].kind == 1 || frames[i].kind == 2) ==>
      && IsRecord(frames[i]) && Remote(frames[i].payload) == c.peer && local == Some(Local(frames[i].payload))
      && local.value.port != 0 && (c.source.Some? ==> local.value.address == c.source.value)
  }

  function OfKind(frames: seq<Frame>, kind: int): nat {
    if frames == [] then 0 else OfKind(frames[..|frames| - 1], kind) + (if frames[|frames| - 1].kind == kind then 1 else 0)
  }

  lemma OneMoreOfKind(frames: seq<Frame>, f: Frame, kind: int)
    ensures OfKind(frames + [f], kind) == OfKind(frames, kind) + if f.kind == kind then 1 else 0
  {
    assert (frames + [f])[..|frames|] == frames;
  }

  /** What the state counts is what the frames are. */
  ghost predicate Tallied(frames: seq<Frame>, s: State) {
    && s.sequence == |frames| + 1
    && s.frames == OfKind(frames, 3) && s.invalidReplies == OfKind(frames, 6)
    && s.challenges + (if s.result.Some? then 1 else 0) == OfKind(frames, 2)
    && (s.terminal.Some? <==> OfKind(frames, 7) > 0)
  }

  ghost predicate Converses(c: Context, frames: seq<Frame>, s: State) {
    Between(c, frames, s.local) && Tallied(frames, s)
  }

  lemma RecordedBetween(c: Context, local: Option<Peer>, p: Octets)
    requires Recorded(c, local, p).Some?
    ensures |p| >= 84 && Remote(p) == c.peer && Local(p).port != 0 && (c.source.Some? ==> Local(p).address == c.source.value)
    ensures local.Some? ==> local == Some(Local(p))
  {
  }

  lemma OneMoreBetween(c: Context, frames: seq<Frame>, f: Frame, local: Option<Peer>)
    requires Between(c, frames, local) && (f.kind == 1 || f.kind == 2) && Recorded(c, local, f.payload).Some?
    ensures Between(c, frames + [f], Some(Local(f.payload)))
  {
    RecordedBetween(c, local, f.payload);
  }

  lemma OtherBetween(c: Context, frames: seq<Frame>, f: Frame, local: Option<Peer>)
    requires Between(c, frames, local) && f.kind != 1 && f.kind != 2
    ensures Between(c, frames + [f], local)
  {
  }

  lemma KindsOfMore(frames: seq<Frame>, f: Frame)
    ensures OfKind(frames + [f], 2) == OfKind(frames, 2) + if f.kind == 2 then 1 else 0
    ensures OfKind(frames + [f], 3) == OfKind(frames, 3) + if f.kind == 3 then 1 else 0
    ensures OfKind(frames + [f], 6) == OfKind(frames, 6) + if f.kind == 6 then 1 else 0
    ensures OfKind(frames + [f], 7) == OfKind(frames, 7) + if f.kind == 7 then 1 else 0
  {
    OneMoreOfKind(frames, f, 2);
    OneMoreOfKind(frames, f, 3);
    OneMoreOfKind(frames, f, 6);
    OneMoreOfKind(frames, f, 7);
  }

  lemma RequestConverses(c: Context, frames: seq<Frame>, s: State, f: Frame)
    requires Converses(c, frames, s) && f.kind == 1 && Requested(c, s.(sequence := s.sequence + 1), f.payload).Some?
    ensures Converses(c, frames + [f], Requested(c, s.(sequence := s.sequence + 1), f.payload).value)
  {
    KindsOfMore(frames, f);
    OneMoreBetween(c, frames, f, s.local);
  }

  lemma ResponseConverses(c: Context, frames: seq<Frame>, s: State, f: Frame)
    requires Converses(c, frames, s) && f.kind == 2 && Responded(c, s.(sequence := s.sequence + 1), f.payload).Some?
    ensures Converses(c, frames + [f], Responded(c, s.(sequence := s.sequence + 1), f.payload).value)
  {
    KindsOfMore(frames, f);
    OneMoreBetween(c, frames, f, s.local);
  }

  lemma OtherConverses(c: Context, frames: seq<Frame>, s: State, f: Frame)
    requires Converses(c, frames, s) && f.kind != 1 && f.kind != 2 && Framed(c, s.(sequence := s.sequence + 1), f).Some?
    ensures Converses(c, frames + [f], Framed(c, s.(sequence := s.sequence + 1), f).value)
  {
    KindsOfMore(frames, f);
    OtherBetween(c, frames, f, s.local);
  }

  lemma StreamConverses(c: Context, stream: Octets)
    requires Pump(c, START, stream).Some?
    ensures Converses(c, FramesOf(c, START, stream), Pump(c, START, stream).value.0)
  {
    var inv := (frames: seq<Frame>, s: State) => Converses(c, frames, s);
    forall before, t, f | inv(before, t) && Framed(c, t.(sequence := t.sequence + 1), f).Some?
      ensures inv(before + [f], Framed(c, t.(sequence := t.sequence + 1), f).value)
    {
      if f.kind == 1 { RequestConverses(c, before, t, f); }
      else if f.kind == 2 { ResponseConverses(c, before, t, f); }
      else { OtherConverses(c, before, t, f); }
    }
    PumpKeeps(c, inv, [], START, stream);
    assert [] + FramesOf(c, START, stream) == FramesOf(c, START, stream);
  }

  /** Nothing follows the terminal frame, and there are at most 512 frames. */
  lemma {:induction false} PumpEnds(c: Context, s: State, b: Octets)
    requires Pump(c, s, b).Some?
    ensures var frames := FramesOf(c, s, b);
            && (s.terminal.Some? ==> frames == []) && (frames != [] ==> s.sequence + |frames| <= 513)
            && forall i :: 0 <= i < |frames| - 1 ==> frames[i].kind != 7
    decreases |b|
  {
    if |b| >= FRAME_HEADER && |b| >= Length(b) {
      var t := Framed(c, s.(sequence := s.sequence + 1), Front(b)).value;
      PumpEnds(c, t, b[Length(b)..]);
      FramedNext(c, s.(sequence := s.sequence + 1), Front(b));
    }
  }

  lemma FramedNext(c: Context, s: State, f: Frame)
    requires Framed(c, s, f).Some?
    ensures Framed(c, s, f).value.sequence == s.sequence && (f.kind == 7 ==> Framed(c, s, f).value.terminal.Some?)
  {
  }

  lemma {:induction false} NoneOfKind(frames: seq<Frame>, kind: int)
    ensures OfKind(frames, kind) == 0 <==> forall i :: 0 <= i < |frames| ==> frames[i].kind != kind
  {
    if frames != [] { NoneOfKind(frames[..|frames| - 1], kind); }
  }

  /** The counts an observation reports. */
  lemma FinishReports(ch: Channel)
    requires Finish(ch).Some?
    ensures ch.buffer == [] && ch.total > 0 && Ended(ch.state)
    ensures var o, s := Finish(ch).value, ch.state;
            && o.result == s.result && o.eapFrames == s.frames && o.challenges == s.challenges && o.invalidReplies == s.invalidReplies
            && IsUnanswered(s, o.unanswered)
  {
  }

  lemma VerdictFinishes(c: Context, stream: Octets)
    requires Verdict(c, [stream]).Some?
    ensures Pump(c, START, stream).Some?
    ensures var o, s := Verdict(c, [stream]).value, Pump(c, START, stream).value.0;
            && s.terminal.Some? && o.result == s.result && o.eapFrames == s.frames && o.challenges == s.challenges
            && o.invalidReplies == s.invalidReplies
  {
    OneFeed(c, stream);
    FreshFeed(c, stream);
    FinishReports(Feed(c, FRESH, stream).value);
  }

  lemma TerminalIsLast(frames: seq<Frame>)
    requires OfKind(frames, 7) > 0 && forall i :: 0 <= i < |frames| - 1 ==> frames[i].kind != 7
    ensures frames != [] && frames[|frames| - 1].kind == 7
  {
    NoneOfKind(frames, 7);
  }

  /**
   * An observation is released for a stream that is cut into frames without a rest, ends in its only terminal frame, and is one
   * conversation between the configured peer and one local socket; its counts are those of the frames.
   */
  lemma ObservationReports(c: Context, stream: Octets)
    requires Verdict(c, [stream]).Some?
    ensures Pump(c, START, stream).Some?
    ensures var frames, o := FramesOf(c, START, stream), Verdict(c, [stream]).value;
            && 1 <= |frames| <= 512 && frames[|frames| - 1].kind == 7 && (forall i :: 0 <= i < |frames| - 1 ==> frames[i].kind != 7)
            && (exists local :: Between(c, frames, local))
            && o.eapFrames == OfKind(frames, 3) && o.invalidReplies == OfKind(frames, 6)
            && o.challenges + (if o.result.Some? then 1 else 0) == OfKind(frames, 2)
  {
    VerdictFinishes(c, stream);
    StreamConverses(c, stream);
    PumpEnds(c, START, stream);
    TerminalIsLast(FramesOf(c, START, stream));
  }
}
