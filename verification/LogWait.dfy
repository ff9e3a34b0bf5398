/**
 Waiting for a line in a node's logs.  The log stream of a container ends whenever the
 container restarts, so the wait opens one stream after another, up to a limit, as long as
 each ended in a fatal line.  What the runtime returns for the k-th request is a parameter.
 */
module LogWait {
  import opened Strings
  import opened Wrappers

  datatype Stream = OpenError | Lines(lines: seq<string>)

  datatype Outcome = Found | Cancelled | OpenFailed | GaveUp

  /** DefaultNodeWaitForLogMessageCrashLoopBackOffLimit */
  const DEFAULT_LIMIT := 10

  /** The limit in force; `setting` is the number in the environment variable, None if it holds none. */
  function Limit(setting: Option<int>): int {
    match setting
    case Some(n) => n
    case None => DEFAULT_LIMIT
  }

  const FATAL := "level=fatal"

  /**
   What one wait sees: the streams in the order in which they are opened, the lower-casing
   function, and whether the context is found done when line `j` of stream `i` has been read.
   */
  datatype World = World(streams: nat -> Stream, lower: string -> string, cancelled: (nat, nat) -> bool)
  {
    predicate Hit(i: nat, j: nat, message: string)
      requires streams(i).Lines? && j < |streams(i).lines|
    {
      Contains(lower(streams(i).lines[j]), lower(message))
    }

    /** The first `n` lines of stream `i` are read without a match and without cancellation. */
    predicate Quiet(i: nat, n: nat, message: string)
      requires streams(i).Lines? && n <= |streams(i).lines|
    {
      forall j | 0 <= j < n :: !cancelled(i, j) && !Hit(i, j, message)
    }

    predicate EndsFatal(i: nat)
      requires streams(i).Lines?
    {
      var lines := streams(i).lines;
      lines != [] && Contains(lines[|lines| - 1], FATAL)
    }

    /** Stream `i` is read to its end in vain, and its last line says that the node crashed. */
    predicate Crashed(i: nat, message: string) {
      streams(i).Lines? && Quiet(i, |streams(i).lines|, message) && EndsFatal(i)
    }

    predicate FoundAt(i: nat, j: nat, message: string) {
      && streams(i).Lines? && j < |streams(i).lines|
      && Quiet(i, j, message) && !cancelled(i, j) && Hit(i, j, message)
    }

    predicate CancelledAt(i: nat, j: nat, message: string) {
      && streams(i).Lines? && j < |streams(i).lines|
      && Quiet(i, j, message) && cancelled(i, j)
    }

    ghost predicate FoundIn(i: nat, message: string) {
      exists j: nat :: FoundAt(i, j, message)
    }

    ghost predicate CancelledIn(i: nat, message: string) {
      exists j: nat :: CancelledAt(i, j, message)
    }

    /** `outcome` after opening `requests` streams is what the wait should come to. */
    ghost predicate Explains(message: string, limit: int, outcome: Outcome, requests: nat) {
      && (requests <= limit || requests == 0)
      && (forall i: nat | i + 1 < requests :: Crashed(i, message))
      && match outcome
         case Found => requests > 0 && FoundIn(requests - 1, message)
         case Cancelled => requests > 0 && CancelledIn(requests - 1, message)
         case OpenFailed => requests > 0 && streams(requests - 1).OpenError?
         case GaveUp =>
           if requests == 0 then limit <= 0
           else if requests == limit && Crashed(requests - 1, message) then true
           else
             && streams(requests - 1).Lines?
             && Quiet(requests - 1, |streams(requests - 1).lines|, message)
             && !EndsFatal(requests - 1)
    }
  }

  method NodeWaitForLogMessage(world: World, message: string, setting: Option<int>)
    returns (outcome: Outcome, requests: nat)
    ensures world.Explains(message, Limit(setting), outcome, requests)
  {
    var limit := Limit(setting);
    var wanted := world.lower(message);
    requests := 0;
    while requests < limit
      invariant requests <= limit || requests == 0
      invariant forall i: nat | i < requests :: world.Crashed(i, message)
    {
      var stream := world.streams(requests);
      requests := requests + 1;
      if stream.OpenError? {
        return OpenFailed, requests;
      }
      var previousLine := "";
      var j := 0;
      while j < |stream.lines|
        invariant 0 <= j <= |stream.lines|
        invariant world.Quiet(requests - 1, j, message)
        invariant previousLine == if j == 0 then "" else stream.lines[j - 1]
      {
        if world.cancelled(requests - 1, j) {
          assert world.CancelledAt(requests - 1, j, message);
          return Cancelled, requests;
        }
        if Contains(world.lower(stream.lines[j]), wanted) {
          assert world.FoundAt(requests - 1, j, message);
          return Found, requests;
        }
        previousLine := stream.lines[j];
        j := j + 1;
      }
      if !Contains(previousLine, FATAL) {
        return GaveUp, requests;
      }
      NothingInEmpty(FATAL);
    }
    outcome := GaveUp;
  }

  lemma NothingInEmpty(sub: string)
    requires sub != ""
    ensures !Contains("", sub)
  {}

  /** The explanation is exact: no other outcome and no other number of streams fits. */
  lemma ExplanationUnique(world: World, message: string, limit: int,
                          a: Outcome, m: nat, b: Outcome, n: nat)
    requires world.Explains(message, limit, a, m) && world.Explains(message, limit, b, n)
    ensures a == b && m == n
  {
    if m < n {
      StopsThere(world, message, limit, a, m, n);
    } else if n < m {
      StopsThere(world, message, limit, b, n, m);
    }
  }

  /** A wait that ended after `m` streams did not see all of them crash, unless that was the limit. */
  lemma StopsThere(world: World, message: string, limit: int, a: Outcome, m: nat, n: nat)
    requires world.Explains(message, limit, a, m) && m < n <= limit
    ensures m > 0 && !world.Crashed(m - 1, message)
  {}

  /**
   Without cancellation, waiting succeeds if and only if the message is in some line, up to case, of some
   stream below the limit while every earlier stream lacks it and has a last line that tells of a fatal error.
   */
  lemma {:induction false} FoundExactly(world: World, message: string, limit: int, outcome: Outcome, requests: nat)
    requires forall i, j :: !world.cancelled(i, j)
    requires world.Explains(message, limit, outcome, requests)
    ensures outcome == Found <==>
      exists i: nat, j: nat ::
        && i < limit
        && world.streams(i).Lines? && j < |world.streams(i).lines|
        && Contains(world.lower(world.streams(i).lines[j]), world.lower(message))
        && forall k: nat | k < i ::
             && world.streams(k).Lines? && |world.streams(k).lines| > 0
             && Contains(world.streams(k).lines[|world.streams(k).lines| - 1], "level=fatal")
             && forall l | 0 <= l < |world.streams(k).lines| ::
                  !Contains(world.lower(world.streams(k).lines[l]), world.lower(message))
    ensures requests <= limit || requests == 0
  {
    hide Contains;
    forall k: nat ensures world.Crashed(k, message) <==>
                            && world.streams(k).Lines? && |world.streams(k).lines| > 0
                            && Contains(world.streams(k).lines[|world.streams(k).lines| - 1], "level=fatal")
                            && forall l | 0 <= l < |world.streams(k).lines| ::
                                 !Contains(world.lower(world.streams(k).lines[l]), world.lower(message))
    {
      CrashedMeaning(world, message, k);
    }
    FoundAfterCrashes(world, message, limit, outcome, requests);
  }

  /** A stream that lacks the message and has a last line that tells of a fatal error. */
  lemma CrashedMeaning(world: World, message: string, k: nat)
    requires forall i, j :: !world.cancelled(i, j)
    ensures world.Crashed(k, message) <==>
              && world.streams(k).Lines? && |world.streams(k).lines| > 0
              && Contains(world.streams(k).lines[|world.streams(k).lines| - 1], "level=fatal")
              && forall l | 0 <= l < |world.streams(k).lines| ::
                   !Contains(world.lower(world.streams(k).lines[l]), world.lower(message))
  {
    hide Contains;
    if world.streams(k).Lines? {
      forall l: nat | l < |world.streams(k).lines|
        ensures world.Hit(k, l, message) <==>
                Contains(world.lower(world.streams(k).lines[l]), world.lower(message))
      {}
    }
  }

  lemma {:induction false} FoundAfterCrashes(world: World, message: string, limit: int, outcome: Outcome, requests: nat)
    requires forall i, j :: !world.cancelled(i, j)
    requires world.Explains(message, limit, outcome, requests)
    ensures outcome == Found <==>
      exists i: nat, j: nat ::
        && i < limit
        && world.streams(i).Lines? && j < |world.streams(i).lines|
        && Contains(world.lower(world.streams(i).lines[j]), world.lower(message))
        && forall k: nat | k < i :: world.Crashed(k, message)
    ensures requests <= limit || requests == 0
  {
    if outcome == Found {
      var j: nat :| world.FoundAt(requests - 1, j, message);
      assert world.Hit(requests - 1, j, message);
    }
    if i: nat, j: nat :|
        && i < limit
        && world.streams(i).Lines? && j < |world.streams(i).lines|
        && Contains(world.lower(world.streams(i).lines[j]), world.lower(message))
        && forall k: nat | k < i :: world.Crashed(k, message)
    {
      assert world.Hit(i, j, message);
      var first := FirstHit(world, message, i, j);
      assert world.FoundAt(i, first, message);
      assert world.Explains(message, limit, Found, i + 1);
      ExplanationUnique(world, message, limit, outcome, requests, Found, i + 1);
    }
  }

  /** A stream that is read to its end: no line is cancelled or has the message, and the last one is fatal. */
  ghost predicate PassedOver(world: World, message: string, k: nat) {
    && world.streams(k).Lines? && |world.streams(k).lines| > 0
    && Contains(world.streams(k).lines[|world.streams(k).lines| - 1], "level=fatal")
    && forall l | 0 <= l < |world.streams(k).lines| ::
         !world.cancelled(k, l) && !Contains(world.lower(world.streams(k).lines[l]), world.lower(message))
  }

  /**
   How a wait ends, with cancellation: by the first line that is cancelled, or has the message and is not
   cancelled, or by the first stream that cannot be opened, after streams that were passed over.
   */
  lemma HowItEnds(world: World, message: string, limit: int, outcome: Outcome, requests: nat, i: nat)
    requires world.Explains(message, limit, outcome, requests)
    requires i < limit && forall k: nat | k < i :: PassedOver(world, message, k)
    ensures world.streams(i).OpenError? ==> outcome == OpenFailed && requests == i + 1
    ensures forall j: nat | world.streams(i).Lines? && j < |world.streams(i).lines| &&
                            (forall l | 0 <= l < j ::
                               !world.cancelled(i, l) &&
                               !Contains(world.lower(world.streams(i).lines[l]), world.lower(message))) ::
              && (world.cancelled(i, j) ==> outcome == Cancelled && requests == i + 1)
              && (!world.cancelled(i, j) &&
                  Contains(world.lower(world.streams(i).lines[j]), world.lower(message)) ==>
                    outcome == Found && requests == i + 1)
    ensures world.streams(i).Lines? && !PassedOver(world, message, i) &&
            (forall l | 0 <= l < |world.streams(i).lines| ::
               !world.cancelled(i, l) &&
               !Contains(world.lower(world.streams(i).lines[l]), world.lower(message))) ==>
              outcome == GaveUp && requests == i + 1
    ensures i + 1 == limit && PassedOver(world, message, i) ==> outcome == GaveUp && requests == limit
  {
    hide Contains;
    forall k: nat ensures world.Crashed(k, message) <==> PassedOver(world, message, k) {
      PassedOverIs(world, message, k);
    }
    hide PassedOver;
    if world.streams(i).OpenError? {
      assert world.Explains(message, limit, OpenFailed, i + 1);
      ExplanationUnique(world, message, limit, outcome, requests, OpenFailed, i + 1);
    } else {
      EndsHere(world, message, limit, outcome, requests, i);
    }
  }

  lemma PassedOverIs(world: World, message: string, k: nat)
    ensures world.Crashed(k, message) <==> PassedOver(world, message, k)
  {
    hide Contains;
    if world.streams(k).Lines? {
      forall l: nat | l < |world.streams(k).lines|
        ensures world.Hit(k, l, message) <==>
                Contains(world.lower(world.streams(k).lines[l]), world.lower(message))
      {}
    }
  }

  lemma EndsHere(world: World, message: string, limit: int, outcome: Outcome, requests: nat, i: nat)
    requires world.Explains(message, limit, outcome, requests) && world.streams(i).Lines?
    requires i < limit && forall k: nat | k < i :: world.Crashed(k, message)
    ensures forall j: nat | j < |world.streams(i).lines| && world.Quiet(i, j, message) ::
              && (world.cancelled(i, j) ==> outcome == Cancelled && requests == i + 1)
              && (!world.cancelled(i, j) && world.Hit(i, j, message) ==> outcome == Found && requests == i + 1)
    ensures world.Quiet(i, |world.streams(i).lines|, message) && !world.Crashed(i, message) ==>
              outcome == GaveUp && requests == i + 1
    ensures i + 1 == limit && world.Crashed(i, message) ==> outcome == GaveUp && requests == limit
  {
    hide Contains;
    forall j: nat | j < |world.streams(i).lines| && world.Quiet(i, j, message)
      ensures world.cancelled(i, j) ==> outcome == Cancelled && requests == i + 1
      ensures !world.cancelled(i, j) && world.Hit(i, j, message) ==> outcome == Found && requests == i + 1
    {
      if world.cancelled(i, j) {
        assert world.CancelledAt(i, j, message);
        assert world.Explains(message, limit, Cancelled, i + 1);
        ExplanationUnique(world, message, limit, outcome, requests, Cancelled, i + 1);
      } else if world.Hit(i, j, message) {
        assert world.FoundAt(i, j, message);
        assert world.Explains(message, limit, Found, i + 1);
        ExplanationUnique(world, message, limit, outcome, requests, Found, i + 1);
      }
    }
    if world.Quiet(i, |world.streams(i).lines|, message) && (!world.Crashed(i, message) || i + 1 == limit) {
      assert world.Explains(message, limit, GaveUp, i + 1);
      ExplanationUnique(world, message, limit, outcome, requests, GaveUp, i + 1);
    }
  }

  /** Ten streams are opened at most, unless another limit is set. */
  lemma Limits(setting: Option<int>)
    ensures Limit(setting) == if setting.Some? then setting.value else 10
  {}

  lemma FirstHit(world: World, message: string, i: nat, j: nat) returns (first: nat)
    requires forall i, j :: !world.cancelled(i, j)
    requires world.streams(i).Lines? && j < |world.streams(i).lines| && world.Hit(i, j, message)
    ensures world.FoundAt(i, first, message)
  {
    first := 0;
    while !world.Hit(i, first, message)
      invariant first <= j
      invariant world.Quiet(i, first, message)
      decreases j - first
    {
      first := first + 1;
    }
  }

  /** Only matching reads ignore case; the crash test does not, and an empty stream never counts as a crash. */
  lemma EmptyStreamEndsTheWait(world: World, message: string, limit: int, outcome: Outcome, requests: nat)
    requires limit > 0 && world.streams(0) == Lines([])
    requires world.Explains(message, limit, outcome, requests)
    ensures outcome == GaveUp && requests == 1
  {
    assert world.Explains(message, limit, GaveUp, 1);
    ExplanationUnique(world, message, limit, outcome, requests, GaveUp, 1);
  }
}
