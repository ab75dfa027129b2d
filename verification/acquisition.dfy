/** The retry-until-accepted frame capture of the worker. The sensor is seen
    only through the sequence of outcomes its successive polls produce. */
module Acquisition {
  import opened FrameValidation

  /** The exceptions a `getFrame` call may raise and the worker swallows. */
  datatype Fault = ValueError | RuntimeError | OSError

  /** What one poll of the sensor produced. */
  datatype PollOutcome = Faulted(fault: Fault) | Polled(frame: Frame)

  /** The poll ends the retry loop: it produced a frame that passes validation. */
  predicate Ends(o: PollOutcome) {
    o.Polled? && Validate(o.frame) == Accepted
  }

  /** Result of running the loop over a finite prefix of polls: either the
      accepted frame together with the number of polls retried before it, or,
      when the prefix holds no acceptable frame, the loop is still retrying. */
  datatype Capture = Captured(retries: nat, frame: Frame) | StillRetrying

  /** The inner `while True` loop: a fault, a zero reading, an over-maximum or
      an under-minimum frame each lead to another poll; the first accepted
      frame is returned. */
  function Acquire(polls: seq<PollOutcome>): (c: Capture)
    ensures c.Captured? ==>
              && c.retries < |polls|
              && polls[c.retries] == Polled(c.frame)
              && Validate(c.frame) == Accepted
              && forall j :: 0 <= j < c.retries ==> !Ends(polls[j])
    ensures c == StillRetrying <==> forall j :: 0 <= j < |polls| ==> !Ends(polls[j])
  {
    if |polls| == 0 then StillRetrying
    else
      match polls[0]
      case Faulted(_) => Delayed(Acquire(polls[1..]), 1)
      case Polled(f) =>
        if Validate(f) == Accepted then Captured(0, f) else Delayed(Acquire(polls[1..]), 1)
  }

  /** Corollary of `Acquire`'s contract, spelled out poll by poll: every poll
      the loop retried raised a fault or produced a frame failing validation. */
  lemma RetriedPollsWereRejected(polls: seq<PollOutcome>, j: nat)
    requires Acquire(polls).Captured?
    requires j < Acquire(polls).retries
    ensures polls[j].Faulted? || Validate(polls[j].frame) != Accepted
  {
  }

  /** The poll-by-poll loop of the worker, with an index in place of the
      sensor; it agrees with `Acquire` on every outcome sequence. */
  method AcquireLoop(polls: seq<PollOutcome>) returns (c: Capture)
    ensures c == Acquire(polls)
  {
    var i := 0;
    while i < |polls|
      invariant 0 <= i <= |polls|
      invariant forall j :: 0 <= j < i ==> !Ends(polls[j])
    {
      match polls[i] {
        case Faulted(_) =>
        case Polled(f) =>
          if Validate(f) == Accepted {
            return Captured(i, f);
          }
      }
      i := i + 1;
    }
    return StillRetrying;
  }

  /** A first poll producing a frame entirely within [5, 300] is accepted
      with no retries, whatever follows it. */
  lemma PlausibleFirstFrameAccepted(polls: seq<PollOutcome>, f: Frame)
    requires |polls| > 0 && polls[0] == Polled(f)
    requires forall i :: 0 <= i < |f| ==> ChessboardMinThreshold <= f[i] <= ChessboardMaxThreshold
    ensures Acquire(polls) == Captured(0, f)
  {
  }

  /** A frame reading 150.0 everywhere is accepted on the first poll. */
  lemma UniformFrameAcceptedFirst(polls: seq<PollOutcome>)
    requires |polls| > 0 && polls[0] == Polled(seq(FrameSize, _ => 150.0))
    ensures Acquire(polls) == Captured(0, seq(FrameSize, _ => 150.0))
  {
    PlausibleFirstFrameAccepted(polls, seq(FrameSize, _ => 150.0));
  }

  /** `c` with `n` more polls retried before the accepted one. */
  function Delayed(c: Capture, n: nat): Capture {
    match c
    case Captured(k, f) => Captured(k + n, f)
    case StillRetrying => StillRetrying
  }

  /** Polls that end nothing — faults and rejected frames — are skipped: a
      prefix of them only adds its length to the retry count. */
  lemma {:induction false} RejectedPrefixIsRetried(pre: seq<PollOutcome>, polls: seq<PollOutcome>)
    requires forall j :: 0 <= j < |pre| ==> !Ends(pre[j])
    ensures Acquire(pre + polls) == Delayed(Acquire(polls), |pre|)
  {
    if |pre| > 0 {
      assert (pre + polls)[0] == pre[0];
      assert (pre + polls)[1..] == pre[1..] + polls;
      RejectedPrefixIsRetried(pre[1..], polls);
    } else {
      assert pre + polls == polls;
    }
  }
}
