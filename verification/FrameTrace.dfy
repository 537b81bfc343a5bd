/**
 The frame-header trace of the stream proxy: chunks of a byte stream are buffered up to a global cap, one
 length-prefixed bootstrap frame is skipped, and every complete frame after it is recorded by its header.
 */
module FrameTrace {
  import opened Bytes

  const CAP: nat := 2 * 1024 * 1024
  const MAX_BOOTSTRAP: nat := 4096
  const MAX_FRAME: nat := 16 * 1024

  datatype Header = Header(streamId: nat, frameType: byte, flags: byte, payloadBytes: nat)

  // ---- the whole stream at once ----

  function LengthOf(s: seq<byte>): nat
    requires |s| >= 4
  {
    FromBigEndian(s[..4])
  }

  function HeaderOf(s: seq<byte>): Header
    requires |s| >= 12
  {
    Header(FromBigEndian(s[4..8]), s[8], s[9], LengthOf(s))
  }

  /** A complete frame of admissible length starts `s`. */
  predicate FrameAhead(s: seq<byte>) {
    |s| >= 12 && LengthOf(s) <= MAX_FRAME && 12 + LengthOf(s) <= |s|
  }

  /** An inadmissible length starts `s`: the trace stops there for good. */
  predicate Oversized(s: seq<byte>) {
    |s| >= 12 && LengthOf(s) > MAX_FRAME
  }

  /** Headers of the complete frames of `s`, up to the first oversized one. */
  function Frames(s: seq<byte>): seq<Header>
    decreases |s|
  {
    if FrameAhead(s) then [HeaderOf(s)] + Frames(s[12 + LengthOf(s)..]) else []
  }

  /** What follows the complete frames of `s`. */
  function Remainder(s: seq<byte>): seq<byte>
    decreases |s|
  {
    if FrameAhead(s) then Remainder(s[12 + LengthOf(s)..]) else s
  }

  predicate BootstrapAhead(s: seq<byte>) {
    |s| >= 4 && LengthOf(s) <= MAX_BOOTSTRAP && 4 + LengthOf(s) <= |s|
  }

  predicate BootstrapOversized(s: seq<byte>) {
    |s| >= 4 && LengthOf(s) > MAX_BOOTSTRAP
  }

  function Body(s: seq<byte>): seq<byte>
    requires BootstrapAhead(s)
  {
    s[4 + LengthOf(s)..]
  }

  function Capped(stream: seq<byte>): seq<byte> {
    if |stream| <= CAP then stream else stream[..CAP]
  }

  /** The trace of a stream, by one pass over its first 2 MiB. */
  function Trace(stream: seq<byte>): seq<Header> {
    var s := Capped(stream);
    if BootstrapAhead(s) then Frames(Body(s)) else []
  }

  // ---- chunk by chunk ----

  lemma FrameAheadStays(s: seq<byte>, more: seq<byte>)
    requires |s| >= 12
    ensures LengthOf(s + more) == LengthOf(s) && HeaderOf(s + more) == HeaderOf(s)
  {
    assert (s + more)[..4] == s[..4] && (s + more)[4..8] == s[4..8];
  }

  /** Parsing may stop and resume at any point. */
  lemma {:induction false} FramesResume(s: seq<byte>, more: seq<byte>)
    ensures !Oversized(Remainder(s)) ==>
      && Frames(s + more) == Frames(s) + Frames(Remainder(s) + more)
      && Remainder(s + more) == Remainder(Remainder(s) + more)
    ensures Oversized(Remainder(s)) ==> Frames(s + more) == Frames(s) && Oversized(Remainder(s + more))
    decreases |s|
  {
    if FrameAhead(s) {
      FrameAheadStays(s, more);
      var rest := s[12 + LengthOf(s)..];
      assert (s + more)[12 + LengthOf(s)..] == rest + more;
      FramesResume(rest, more);
    } else if Oversized(s) {
      FrameAheadStays(s, more);
    }
  }

  lemma BootstrapStays(s: seq<byte>, more: seq<byte>)
    requires |s| >= 4
    ensures LengthOf(s + more) == LengthOf(s)
    ensures BootstrapAhead(s) ==> BootstrapAhead(s + more) && Body(s + more) == Body(s) + more
    ensures BootstrapOversized(s) ==> BootstrapOversized(s + more)
  {
    assert (s + more)[..4] == s[..4];
  }

  /** Nothing that follows `s` can be traced any more. */
  predicate Finished(s: seq<byte>) {
    || |s| >= CAP
    || BootstrapOversized(s)
    || (BootstrapAhead(s) && Oversized(Remainder(Body(s))))
  }

  lemma FinishedStays(s: seq<byte>, more: seq<byte>)
    requires Finished(Capped(s))
    ensures Finished(Capped(s + more)) && Trace(s + more) == Trace(s)
  {
    if |s| >= CAP {
      assert Capped(s + more) == Capped(s);
    } else {
      var room := Min(|more|, CAP - |s|);
      assert Capped(s + more) == s + more[..room];
      BootstrapStays(s, more[..room]);
      if BootstrapAhead(s) { FramesResume(Body(s), more[..room]); }
    }
  }

  class Capture {
    var buffer: seq<byte>
    var seen: nat
    var bootstrapped: bool
    var capturing: bool
    var traced: seq<Header>
    /** All bytes of the stream so far. */
    ghost var stream: seq<byte>

    constructor ()
      ensures Valid() && stream == [] && traced == []
    {
      buffer, seen, bootstrapped, capturing, traced := [], 0, false, true, [];
      stream := [];
    }

    /** What was traced is the trace of the stream so far, and the buffer holds what later chunks can complete. */
    ghost predicate Valid()
      reads this
    {
      && traced == Trace(stream)
      && (capturing <==> !Finished(Capped(stream)))
      && (capturing ==>
        && seen == |stream|
        && (bootstrapped <==> BootstrapAhead(stream))
        && buffer == if bootstrapped then Remainder(Body(stream)) else stream)
    }

    /** Records the complete frames of the buffer. */
    method Drain()
      requires capturing
      modifies this`buffer, this`traced, this`capturing
      ensures traced == old(traced) + Frames(old(buffer))
      ensures buffer == Remainder(old(buffer))
      ensures capturing <==> !Oversized(buffer)
    {
      while |buffer| >= 12
        invariant capturing
        invariant traced + Frames(buffer) == old(traced) + Frames(old(buffer))
        invariant Remainder(buffer) == Remainder(old(buffer))
        decreases |buffer|
      {
        var length := FromBigEndian(buffer[..4]);
        if length > MAX_FRAME {
          capturing := false;
          break;
        }
        if |buffer| < 12 + length { break; }
        traced := traced + [Header(FromBigEndian(buffer[4..8]), buffer[8], buffer[9], length)];
        buffer := buffer[12 + length..];
      }
    }

    /** Drops the bootstrap frame once it is complete. */
    method SkipBootstrap()
      requires capturing && !bootstrapped
      modifies this`buffer, this`bootstrapped, this`capturing
      ensures bootstrapped <==> BootstrapAhead(old(buffer))
      ensures capturing <==> !BootstrapOversized(old(buffer))
      ensures buffer == if bootstrapped then Body(old(buffer)) else old(buffer)
    {
      if |buffer| >= 4 {
        var length := FromBigEndian(buffer[..4]);
        if length > MAX_BOOTSTRAP {
          capturing := false;
        } else if |buffer| >= 4 + length {
          buffer := buffer[4 + length..];
          bootstrapped := true;
        }
      }
    }

    /** One chunk of the stream. */
    method Feed(chunk: seq<byte>)
      requires Valid()
      modifies this
      ensures Valid() && stream == old(stream) + chunk
    {
      hide Frames, Remainder, FromBigEndian;
      stream := stream + chunk;
      if !capturing {
        FinishedStays(old(stream), chunk);
        return;
      }
      var remaining := Max(0, CAP - seen);
      var part := chunk[..Min(|chunk|, remaining)];
      ghost var before := buffer;
      buffer := buffer + part;
      seen := seen + Min(|chunk|, remaining);
      ghost var s := old(stream) + part;
      assert Capped(stream) == s;
      if bootstrapped {
        BootstrapStays(old(stream), part);
        FramesResume(Body(old(stream)), part);
      } else {
        SkipBootstrap();
      }
      if capturing && bootstrapped {
        Drain();
      }
      if !capturing || seen >= CAP {
        buffer := [];
        capturing := false;
      }
    }
  }

  // ---- any way of cutting the stream ----

  function Concat(chunks: seq<seq<byte>>): seq<byte> {
    if chunks == [] then [] else Concat(chunks[..|chunks| - 1]) + chunks[|chunks| - 1]
  }

  /** Chunks before the first empty one, which ends the stream. */
  function UntilEnd(chunks: seq<seq<byte>>): (n: nat)
    ensures n <= |chunks|
    ensures forall i :: 0 <= i < n ==> chunks[i] != []
    ensures n < |chunks| ==> chunks[n] == []
  {
    if chunks == [] || chunks[0] == [] then 0 else
      var n := 1 + UntilEnd(chunks[1..]);
      assert forall i :: 1 <= i < n ==> chunks[i] == chunks[1..][i - 1];
      n
  }

  /** However the stream is cut, every byte is forwarded and the trace is that of one pass over the whole stream. */
  method Pump(chunks: seq<seq<byte>>, capture: bool) returns (forwarded: seq<byte>, traced: seq<Header>)
    ensures forwarded == Concat(chunks[..UntilEnd(chunks)])
    ensures traced == if capture then Trace(forwarded) else []
  {
    var trace := new Capture();
    forwarded := [];
    var i := 0;
    while i < |chunks| && chunks[i] != []
      invariant i <= UntilEnd(chunks)
      invariant forwarded == Concat(chunks[..i])
      invariant trace.Valid() && trace.stream == if capture then forwarded else []
    {
      if capture { trace.Feed(chunks[i]); }
      assert chunks[..i + 1][..i] == chunks[..i];
      forwarded := forwarded + chunks[i];
      i := i + 1;
    }
    assert i == UntilEnd(chunks);
    traced := trace.traced;
  }

  // ---- what a sender's frames look like ----

  datatype Frame = Frame(streamId: nat, frameType: byte, flags: byte, reserved: seq<byte>, payload: seq<byte>)

  predicate ValidFrame(f: Frame) {
    f.streamId < Pow256(4) && |f.reserved| == 2 && |f.payload| <= MAX_FRAME
  }

  function EncodeFrame(f: Frame): seq<byte>
    requires ValidFrame(f)
  {
    Pow256Values();
    ToBigEndian(|f.payload|, 4) + ToBigEndian(f.streamId, 4) + [f.frameType, f.flags] + f.reserved + f.payload
  }

  function EncodeBootstrap(bootstrap: seq<byte>): seq<byte>
    requires |bootstrap| <= MAX_BOOTSTRAP
  {
    Pow256Values();
    ToBigEndian(|bootstrap|, 4) + bootstrap
  }

  function EncodeFrames(fs: seq<Frame>): seq<byte>
    requires forall f :: f in fs ==> ValidFrame(f)
  {
    if fs == [] then [] else EncodeFrame(fs[0]) + EncodeFrames(fs[1..])
  }

  function HeadersOf(fs: seq<Frame>): seq<Header> {
    if fs == [] then []
    else [Header(fs[0].streamId, fs[0].frameType, fs[0].flags, |fs[0].payload|)] + HeadersOf(fs[1..])
  }

  lemma {:induction false} FramesOfEncoded(fs: seq<Frame>)
    requires forall f :: f in fs ==> ValidFrame(f)
    ensures Frames(EncodeFrames(fs)) == HeadersOf(fs)
    decreases |fs|
  {
    if fs == [] {
    } else {
      EncodedFrameAhead(fs[0], EncodeFrames(fs[1..]));
      FramesOfEncoded(fs[1..]);
    }
  }

  lemma EncodedFrameAhead(f: Frame, rest: seq<byte>)
    requires ValidFrame(f)
    ensures var s := EncodeFrame(f) + rest;
      && FrameAhead(s) && LengthOf(s) == |f.payload| && s[12 + |f.payload|..] == rest
      && HeaderOf(s) == Header(f.streamId, f.frameType, f.flags, |f.payload|)
  {
    Pow256Values();
    var s := EncodeFrame(f) + rest;
    assert s[..4] == ToBigEndian(|f.payload|, 4);
    assert s[4..8] == ToBigEndian(f.streamId, 4);
  }

  /** A bootstrap frame and then frames within the cap: the trace lists every frame, in order. */
  lemma TraceListsEveryFrame(bootstrap: seq<byte>, fs: seq<Frame>)
    requires |bootstrap| <= MAX_BOOTSTRAP && forall f :: f in fs ==> ValidFrame(f)
    requires 4 + |bootstrap| + |EncodeFrames(fs)| <= CAP
    ensures Trace(EncodeBootstrap(bootstrap) + EncodeFrames(fs)) == HeadersOf(fs)
  {
    Pow256Values();
    var s := EncodeBootstrap(bootstrap) + EncodeFrames(fs);
    assert s[..4] == ToBigEndian(|bootstrap|, 4);
    assert s[4 + |bootstrap|..] == EncodeFrames(fs);
    FramesOfEncoded(fs);
  }
}
