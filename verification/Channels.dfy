/** The request queue of memory/memory_service.go under the batches of
    storage/storage_service.go: a client that sends all its requests into a
    bounded queue and only then reads the replies, each on its own unbuffered
    channel. */
module Channels {
  import opened Common

  /** The capacity of stateCh. */
  const CAPACITY: nat := 10

  /** Requests are numbered in the order they are sent. The service holds the one
      it has taken until its reply has been read; `replies` is what the client has
      read so far. */
  datatype Batch = Batch(sent: nat, queue: seq<nat>, holding: Option<nat>, replies: seq<nat>)

  const START := Batch(0, [], None, [])

  datatype Move = Send | Take | Reply

  /** Send needs room in the queue; Take needs an idle service; Reply needs the
      client to be reading, and to be reading this very request's channel. */
  predicate CanDo(size: nat, s: Batch, move: Move) {
    match move
    case Send => s.sent < size && |s.queue| < CAPACITY
    case Take => s.holding.None? && s.queue != []
    case Reply => s.sent == size && s.holding == Some(|s.replies|)
  }

  function Do(size: nat, s: Batch, move: Move): Batch
    requires CanDo(size, s, move)
  {
    match move
    case Send => s.(queue := s.queue + [s.sent], sent := s.sent + 1)
    case Take => s.(holding := Some(s.queue[0]), queue := s.queue[1..])
    case Reply => s.(replies := s.replies + [s.holding.value], holding := None)
  }

  predicate IsStuck(size: nat, s: Batch) {
    !CanDo(size, s, Send) && !CanDo(size, s, Take) && !CanDo(size, s, Reply)
  }

  predicate IsDone(size: nat, s: Batch) {
    s.sent == |s.replies| == size
  }

  /** A schedule: any interleaving of the client and the service. */
  ghost predicate IsSchedule(size: nat, states: seq<Batch>, moves: seq<Move>) {
    && |states| == |moves| + 1 && states[0] == START
    && forall i {:trigger moves[i]} :: 0 <= i < |moves| ==> IsMove(size, states[i], moves[i], states[i + 1])
  }

  ghost predicate IsMove(size: nat, s: Batch, move: Move, t: Batch) {
    CanDo(size, s, move) && t == Do(size, s, move)
  }

  function Taken(s: Batch): nat {
    |s.replies| + if s.holding.Some? then 1 else 0
  }

  /** Requests and replies are in order, nothing is lost, and no reply is read
      before all requests are sent. */
  ghost predicate InOrder(size: nat, s: Batch) {
    && |s.replies| <= Taken(s) <= s.sent <= size
    && s.replies == Numbers(0, |s.replies|)
    && (s.holding.Some? ==> s.holding.value == |s.replies|)
    && s.queue == Numbers(Taken(s), s.sent) && |s.queue| <= CAPACITY
    && (s.replies != [] ==> s.sent == size)
  }

  lemma MoveKeepsOrder(size: nat, s: Batch, move: Move)
    requires InOrder(size, s) && CanDo(size, s, move)
    ensures InOrder(size, Do(size, s, move))
    ensures var t := Do(size, s, move); t.sent + Taken(t) + |t.replies| == s.sent + Taken(s) + |s.replies| + 1
  {
  }

  ghost predicate InOrderAt(size: nat, n: int, s: Batch) {
    InOrder(size, s) && s.sent + Taken(s) + |s.replies| == n
  }

  lemma ScheduleInOrder(size: nat, states: seq<Batch>, moves: seq<Move>, i: nat)
    requires IsSchedule(size, states, moves) && i <= |moves|
    ensures InOrderAt(size, i, states[i])
  {
    forall n, s, e, t | 0 <= n < |moves| && InOrderAt(size, n, s) && IsMove(size, s, e, t)
      ensures InOrderAt(size, n + 1, t)
    {
      MoveKeepsOrder(size, s, e);
    }
    Along(states, moves, (s, e, t) => IsMove(size, s, e, t), (n, s) => InOrderAt(size, n, s), i);
  }

  /** Where nothing can move any more: everything was read, or the service waits
      for a client that itself waits for room. */
  lemma StuckStates(size: nat, s: Batch)
    requires InOrder(size, s)
    ensures IsStuck(size, s) <==>
            || IsDone(size, s)
            || (s.sent == CAPACITY + 1 < size && s.holding == Some(0) && |s.queue| == CAPACITY && s.replies == [])
  {
  }

  /** Progress, exactly. No schedule goes on for more than three moves per request;
      and where it ends, the batch is complete with its replies in order if it had
      at most eleven requests, and stuck for good with no reply read if it had
      twelve or more. */
  lemma BatchCompletesExactly(size: nat, states: seq<Batch>, moves: seq<Move>)
    requires IsSchedule(size, states, moves)
    ensures |moves| <= 3 * size
    ensures IsStuck(size, states[|moves|]) ==>
              (IsDone(size, states[|moves|]) <==> size <= CAPACITY + 1)
    ensures IsStuck(size, states[|moves|]) && size <= CAPACITY + 1 ==>
              |moves| == 3 * size && states[|moves|].replies == Numbers(0, size)
    ensures IsStuck(size, states[|moves|]) && size > CAPACITY + 1 ==>
              states[|moves|].sent == CAPACITY + 1 && states[|moves|].replies == []
  {
    ScheduleInOrder(size, states, moves, |moves|);
    var last := states[|moves|];
    StuckStates(size, last);
    if size > CAPACITY + 1 {
      BigBatchReadsNothing(size, states, moves, |moves|);
    }
  }

  /** The client of a big batch never gets past its twelfth send. */
  ghost predicate Blocked(s: Batch) {
    s.replies == [] && s.sent <= CAPACITY + 1
  }

  ghost predicate BlockedAt(size: nat, n: int, s: Batch) {
    InOrderAt(size, n, s) && Blocked(s)
  }

  lemma BigBatchReadsNothing(size: nat, states: seq<Batch>, moves: seq<Move>, i: nat)
    requires IsSchedule(size, states, moves) && i <= |moves| && size > CAPACITY + 1
    ensures Blocked(states[i])
  {
    forall n, s, e, t | 0 <= n < |moves| && BlockedAt(size, n, s) && IsMove(size, s, e, t)
      ensures BlockedAt(size, n + 1, t)
    {
      MoveKeepsOrder(size, s, e);
    }
    Along(states, moves, (s, e, t) => IsMove(size, s, e, t), (n, s) => BlockedAt(size, n, s), i);
  }
}
