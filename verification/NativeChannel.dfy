/** The decoder as an object: its fields change with every feed, and it refuses work once it has failed or ended. */
module NativeChannel {
  import opened Outcomes
  import opened Codec
  import opened Authenticators
  import opened NativeFrames
  import opened NativeDecoder

  class Decoder {
    const context: Context
    var buffer: Octets
    var total: nat
    var sequence: nat
    var requests: map<Key, Octets>
    var consumed: set<Key>
    var transmissions: map<Key, nat>
    var local: Option<Peer>
    var result: Option<Access>
    var terminal: Option<seq<nat>>
    var frames: nat
    var challenges: nat
    var invalidReplies: nat
    var failed: bool
    var ended: bool

    ghost function View(): State
      reads this
    {
      State(sequence, requests, consumed, transmissions, local, result, terminal, frames, challenges, invalidReplies)
    }

    ghost function Now(): Channel
      reads this
    {
      Channel(buffer, total, View())
    }

    constructor (context: Context)
      ensures this.context == context && Now() == FRESH && !failed && !ended
    {
      this.context := context;
      buffer, total, sequence, requests, consumed, transmissions := [], 0, 1, map[], {}, map[];
      local, result, terminal, frames, challenges, invalidReplies := None, None, None, 0, 0, 0;
      failed, ended := false, false;
    }

    /** A request record: verified, then stored under its key. */
    method Request(p: Octets) returns (ok: bool)
      modifies this`requests, this`transmissions, this`local
      ensures ok == Requested(context, old(View()), p).Some?
      ensures ok ==> View() == Requested(context, old(View()), p).value
    {
      var r := Recorded(context, local, p);
      if r.None? {
        return false;
      }
      var (packet, key) := r.value;
      if result.Some? || packet[0] != 1 || key.authenticator != packet[4..20] || key in consumed {
        return false;
      }
      if !RequestVerifies(context.h, packet, context.secret) {
        return false;
      }
      if key in requests && requests[key] != packet {
        return false;
      }
      local := Some(Local(p));
      requests := requests[key := packet];
      transmissions := transmissions[key := (if key in transmissions then transmissions[key] else 0) + 1];
      ok := true;
    }

    /** A response record: verified against the stored request, which it consumes. */
    method Respond(p: Octets) returns (ok: bool)
      modifies this`consumed, this`local, this`challenges, this`result
      ensures ok == Responded(context, old(View()), p).Some?
      ensures ok ==> View() == Responded(context, old(View()), p).value
    {
      var r := Recorded(context, local, p);
      if r.None? {
        return false;
      }
      var (packet, key) := r.value;
      if key !in requests || key in consumed || result.Some? {
        return false;
      }
      var received := VerifyAccess(context.h, requests[key], packet, context.secret);
      if received.None? {
        return false;
      }
      local := Some(Local(p));
      consumed := consumed + {key};
      if received.value.code == 11 {
        challenges := challenges + 1;
      } else {
        result := received;
      }
      ok := true;
    }

    method Accept(f: Frame) returns (ok: bool)
      modifies this
      ensures buffer == old(buffer) && total == old(total) && failed == old(failed) && ended == old(ended)
      ensures ok == Framed(context, old(View()), f).Some?
      ensures ok ==> View() == Framed(context, old(View()), f).value
    {
      var p := f.payload;
      ok := true;
      if f.kind == 1 {
        ok := Request(p);
      } else if f.kind == 2 {
        ok := Respond(p);
      } else if f.kind == 3 {
        if |p| == 16 && p[0] in {1, 2} && p[1] in {1, 2, 3} && p[2] <= 4 && AllZero(p[14..]) {
          frames := frames + 1;
        } else {
          ok := false;
        }
      } else if f.kind in {4, 5, 6} {
        if |p| != 4 || (f.kind == 5 && NumberOf(p) !in {1, 2, 3}) || (f.kind == 6 && NumberOf(p) != 1) {
          ok := false;
        } else if f.kind == 6 {
          invalidReplies := invalidReplies + 1;
        }
      } else if f.kind == 7 && |p| == 32 && TerminalOk(Words(p)) {
        terminal := Some(Words(p));
      } else {
        ok := false;
      }
    }

    /** One complete frame leaves the buffer. */
    method TakeFrame() returns (ok: bool)
      requires |buffer| >= FRAME_HEADER && HeaderOk(View(), buffer) && |buffer| >= Length(buffer)
      modifies this
      ensures total == old(total) && failed == old(failed) && ended == old(ended) && |buffer| < |old(buffer)|
      ensures !ok ==> Pump(context, old(View()), old(buffer)).None?
      ensures ok ==> Pump(context, View(), buffer) == Pump(context, old(View()), old(buffer))
    {
      var f := Front(buffer);
      buffer := buffer[Length(buffer)..];
      sequence := sequence + 1;
      ok := Accept(f);
    }

    predicate Readable()
      requires |buffer| >= FRAME_HEADER
      reads this
    {
      HeaderOk(State(sequence, requests, consumed, transmissions, local, result, terminal, frames, challenges, invalidReplies), buffer)
    }

    /** The loop over complete frames. */
    method Consume() returns (ok: bool)
      modifies this
      ensures total == old(total) && failed == old(failed) && ended == old(ended)
      ensures ok == Pump(context, old(View()), old(buffer)).Some?
      ensures ok ==> (View(), buffer) == Pump(context, old(View()), old(buffer)).value
    {
      ok := true;
      while |buffer| >= FRAME_HEADER
        invariant ok && total == old(total) && failed == old(failed) && ended == old(ended)
        invariant Pump(context, View(), buffer) == Pump(context, old(View()), old(buffer))
        decreases |buffer|
      {
        if !Readable() {
          return false;
        }
        if |buffer| < Length(buffer) {
          return;
        }
        ok := TakeFrame();
        if !ok {
          return;
        }
      }
    }

    /** `feed`: more octets, which fail the channel for good when they exceed its bound or hold a bad frame */
    method Receive(data: Octets) returns (ok: bool)
      modifies this
      ensures ended == old(ended)
      ensures old(failed || ended) ==> !ok && Now() == old(Now()) && failed == old(failed)
      ensures !old(failed || ended) ==> ok == Feed(context, old(Now()), data).Some? && failed == !ok
      ensures ok ==> Now() == Feed(context, old(Now()), data).value
    {
      if failed || ended {
        return false;
      }
      total := total + |data|;
      if total > MAX_CHANNEL {
        failed := true;
        return false;
      }
      buffer := buffer + data;
      ok := Consume();
      failed := !ok;
    }

    method CountUnanswered() returns (n: nat)
      ensures n == Unanswered(View())
    {
      n := 0;
      var rest := transmissions.Keys;
      while rest != {}
        invariant rest <= transmissions.Keys
        invariant forall k :: k in transmissions && k !in rest && k !in consumed ==> transmissions[k] <= n
        invariant n == 0 || exists k :: k in transmissions && k !in consumed && transmissions[k] == n
        decreases |rest|
      {
        var k :| k in rest;
        if k !in consumed && transmissions[k] > n {
          n := transmissions[k];
        }
        rest := rest - {k};
      }
      OneMaximum(View(), n, Unanswered(View()));
    }

    /** `finish`: the observation, once and only from a complete and consistent channel */
    method Close() returns (observation: Option<Observation>)
      modifies this`ended
      ensures Now() == old(Now()) && (old(failed || ended) || ended)
      ensures observation == if old(failed || ended) then None else Finish(Now())
    {
      if failed || ended {
        return None;
      }
      ended := true;
      if total == 0 || buffer != [] || terminal.None? || |terminal.value| != 8 {
        return None;
      }
      var t := terminal.value;
      if (t[0] == 1) != (result.Some? && result.value.code == 2) || (t[1] == 1) != (result.Some? && result.value.code == 3) {
        return None;
      }
      var unanswered := CountUnanswered();
      observation := Some(Observation(result, t[6], t[5], frames, challenges, t[2] == 1, t[7] == 1, invalidReplies, unanswered));
    }
  }

  lemma OneMaximum(s: State, m: nat, n: nat)
    requires IsUnanswered(s, m) && IsUnanswered(s, n)
    ensures m == n
  {
  }
}
