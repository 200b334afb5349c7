/**
  * The live-feed page: two receive buffers (camera and detection sockets)
  * drained on every message, forwarding of camera frames to the detection
  * socket, and the hold-to-repeat control timer.
  *
  * Sockets, images and timers are abstract. A message is a byte sequence,
  * a frame is its payload bytes, the detection socket's `readyState` is a
  * boolean input of the camera handler, and the browser's interval table is
  * a map from handle to the direction each interval posts.
  */
module FeedPage {
  import opened Framing
  import opened Wrappers

  /** What a control request ended with; either way it is only logged. */
  datatype ControlLog = Response | RequestError

  class FeedPage {
    /** Unconsumed camera bytes (`liveBuffer`). */
    var liveBuffer: seq<byte>
    /** Unconsumed detection bytes (`aiBuffer`). */
    var aiBuffer: seq<byte>
    /** Every payload sent on the detection socket, in send order. */
    var aiOutbox: seq<seq<byte>>
    /** The direction badge (`direction` state). */
    var direction: string
    /** `intervalRef.current`. */
    var interval: Option<nat>
    /** Live intervals of the browser: handle to the direction its callback posts. */
    var timers: map<nat, string>
    /** The handle the browser gives the next interval; handles are positive. */
    var nextHandle: nat
    /** Direction bodies posted to the control endpoint, in order. */
    var posted: seq<string>
    /** The page closed the socket; a closed socket delivers no message and is never open again. */
    var liveClosed: bool
    var aiClosed: bool

    ghost predicate Valid()
      reads this
    {
      && nextHandle >= 1
      && (forall h :: h in timers ==> 1 <= h < nextHandle)
      && (interval.Some? ==> 1 <= interval.value < nextHandle)
      && Stalled(liveBuffer)
      && Stalled(aiBuffer)
    }

    /** The state when the page mounts: empty buffers, no timer, no direction. */
    constructor ()
      ensures Valid()
      ensures liveBuffer == [] && aiBuffer == [] && aiOutbox == []
      ensures direction == "" && interval == None && timers == map[] && posted == []
      ensures !liveClosed && !aiClosed
    {
      liveBuffer, aiBuffer, aiOutbox := [], [], [];
      direction, interval, timers, nextHandle, posted := "", None, map[], 1, [];
      liveClosed, aiClosed := false, false;
    }

    /**
      * `liveSocket.onmessage`: append the message, then take every complete
      * frame off the front, forwarding each to the detection socket when it
      * is open. Only a socket the page has not closed delivers a message, and
      * a detection socket it closed is not open.
      */
    method OnLiveMessage(data: seq<byte>, aiOpen: bool) returns (frames: seq<seq<byte>>)
      requires Valid()
      requires !liveClosed && (aiOpen ==> !aiClosed)
      modifies this`liveBuffer, this`aiOutbox
      ensures Valid()
      ensures frames == Extract(old(liveBuffer) + data).frames
      ensures liveBuffer == Extract(old(liveBuffer) + data).rest
      ensures aiOutbox == old(aiOutbox) + (if aiOpen then frames else [])
    {
      liveBuffer := liveBuffer + data;
      frames := [];
      while |liveBuffer| >= HeaderSize
        invariant Extract(old(liveBuffer) + data)
               == Drained(frames + Extract(liveBuffer).frames, Extract(liveBuffer).rest)
        invariant aiOutbox == old(aiOutbox) + (if aiOpen then frames else [])
        decreases |liveBuffer|
      {
        var frameSize := FrameSize(liveBuffer);
        if |liveBuffer| >= HeaderSize + frameSize {
          var frameData := liveBuffer[HeaderSize..HeaderSize + frameSize];
          var before := liveBuffer;
          ghost var after := Extract(before[HeaderSize + frameSize..]);
          assert Extract(before) == Drained([frameData] + after.frames, after.rest);
          AssociateFrames(frames, [frameData], after.frames);
          liveBuffer := before[HeaderSize + frameSize..];
          frames := frames + [frameData];
          if aiOpen {
            aiOutbox := aiOutbox + [frameData];
          }
        } else {
          break;
        }
      }
    }

    /** `aiSocket.onmessage` (only while the socket is not closed): the same drain on the detection buffer; frames go to the result canvas. */
    method OnAiMessage(data: seq<byte>) returns (frames: seq<seq<byte>>)
      requires Valid()
      requires !aiClosed
      modifies this`aiBuffer
      ensures Valid()
      ensures frames == Extract(old(aiBuffer) + data).frames
      ensures aiBuffer == Extract(old(aiBuffer) + data).rest
    {
      aiBuffer := aiBuffer + data;
      frames := [];
      while |aiBuffer| >= HeaderSize
        invariant Extract(old(aiBuffer) + data)
               == Drained(frames + Extract(aiBuffer).frames, Extract(aiBuffer).rest)
        decreases |aiBuffer|
      {
        var frameSize := FrameSize(aiBuffer);
        if |aiBuffer| >= HeaderSize + frameSize {
          var frameData := aiBuffer[HeaderSize..HeaderSize + frameSize];
          var before := aiBuffer;
          ghost var after := Extract(before[HeaderSize + frameSize..]);
          assert Extract(before) == Drained([frameData] + after.frames, after.rest);
          AssociateFrames(frames, [frameData], after.frames);
          aiBuffer := before[HeaderSize + frameSize..];
          frames := frames + [frameData];
        } else {
          break;
        }
      }
    }

    /**
      * `handleMouseEnter(dir)`: show `dir` and start a new interval posting
      * it. An interval already running is neither cleared nor forgotten by
      * the browser; only `intervalRef` stops pointing at it.
      */
    method HandleMouseEnter(dir: string)
      requires Valid()
      modifies this`direction, this`interval, this`timers, this`nextHandle
      ensures Valid()
      ensures direction == dir
      ensures interval == Some(old(nextHandle)) && old(nextHandle) !in old(timers)
      ensures timers == old(timers)[old(nextHandle) := dir]
      ensures nextHandle == old(nextHandle) + 1
    {
      direction := dir;
      var h := nextHandle;
      nextHandle := nextHandle + 1;
      timers := timers[h := dir];
      interval := Some(h);
    }

    /**
      * `handleMouseLeave`: clear the interval `intervalRef` holds, if any,
      * and the direction. With no handle held it changes only the direction,
      * so a second call is a no-op.
      */
    method HandleMouseLeave()
      requires Valid()
      modifies this`direction, this`interval, this`timers
      ensures Valid()
      ensures direction == "" && interval == None
      ensures timers == if old(interval).Some? then old(timers) - {old(interval).value} else old(timers)
    {
      if interval.Some? {
        timers := timers - {interval.value};
        interval := None;
      }
      direction := "";
    }

    /**
      * One tick of interval `h`: post its direction. A failed request
      * (`requestOk` false) is logged and leaves every interval running.
      */
    method ControlTick(h: nat, requestOk: bool) returns (log: ControlLog)
      requires Valid() && h in timers
      modifies this`posted
      ensures Valid()
      ensures posted == old(posted) + [timers[h]]
      ensures log == if requestOk then Response else RequestError
    {
      posted := posted + [timers[h]];
      log := if requestOk then Response else RequestError;
    }

    /**
      * The effect cleanup on unmount: close both sockets and clear the
      * interval `intervalRef` holds. `intervalRef` itself is not reset, so a
      * second teardown clears the same, already cleared, handle again.
      */
    method Teardown()
      requires Valid()
      modifies this`liveClosed, this`aiClosed, this`timers
      ensures Valid()
      ensures liveClosed && aiClosed
      ensures timers == if interval.Some? then old(timers) - {interval.value} else old(timers)
    {
      liveClosed := true;
      aiClosed := true;
      if interval.Some? {
        timers := timers - {interval.value};
      }
    }
  }
}
