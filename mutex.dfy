/** `SimpleMutex.ts`: a lock flag and a first-in first-out queue of waiting
    tasks. A waiting task is named by an id; the promise it awaits is left
    out, and resuming it is reported as the id `unlock` hands the lock to. */
module Mutex {
  import opened Wrappers

  type WaiterId = nat

  datatype LockResult = Granted | Queued

  datatype MutexState = MutexState(locked: bool, queue: seq<WaiterId>)
  {
    /** Nobody waits on a free lock. */
    predicate Valid() { queue != [] ==> locked }
  }

  /** `lock()` by waiter `w`: a free lock is taken at once; a held one puts
      `w` at the back of the queue. */
  function LockStep(s: MutexState, w: WaiterId): (r: (MutexState, LockResult))
    ensures !s.locked ==> r.1 == Granted && r.0.locked && r.0.queue == s.queue
    ensures s.locked ==> r.1 == Queued && r.0.locked && r.0.queue == s.queue + [w]
    ensures s.Valid() ==> r.0.Valid()
  {
    if s.locked then (MutexState(true, s.queue + [w]), Queued)
    else (MutexState(true, s.queue), Granted)
  }

  /** `unlock()`: the oldest waiter is resumed and the lock stays held;
      with nobody waiting the lock becomes free. */
  function UnlockStep(s: MutexState): (r: (MutexState, Option<WaiterId>))
    ensures s.queue != [] ==> r.1 == Some(s.queue[0]) && r.0 == MutexState(s.locked, s.queue[1..])
    ensures s.queue == [] ==> r.1 == None && r.0 == MutexState(false, [])
    ensures s.Valid() ==> r.0.Valid()
  {
    if |s.queue| > 0 then (MutexState(s.locked, s.queue[1..]), Some(s.queue[0]))
    else (MutexState(false, s.queue), None)
  }

  datatype Op = LockOp(waiter: WaiterId) | UnlockOp

  /** What a sequence of calls did: the final state, who queued and who was
      resumed (each in order), and how often the lock was taken (granted at
      once or handed over) and released. */
  datatype Trace = Trace(final: MutexState, queued: seq<WaiterId>, resumed: seq<WaiterId>,
                         acquisitions: nat, releases: nat)

  function RunOps(s: MutexState, ops: seq<Op>): (t: Trace)
    ensures s.Valid() ==> t.final.Valid()
    decreases |ops|
  {
    if ops == [] then Trace(s, [], [], 0, 0)
    else match ops[0]
      case LockOp(w) =>
        var (s1, res) := LockStep(s, w);
        var t := RunOps(s1, ops[1..]);
        if res == Queued then t.(queued := [w] + t.queued)
        else t.(acquisitions := t.acquisitions + 1)
      case UnlockOp =>
        var (s1, woken) := UnlockStep(s);
        var t := RunOps(s1, ops[1..]);
        if woken.Some? then
          t.(resumed := [woken.value] + t.resumed, acquisitions := t.acquisitions + 1, releases := t.releases + 1)
        else t.(releases := t.releases + 1)
  }

  /** Waiters are resumed strictly in arrival order: those resumed, then
      those still waiting, are exactly those that were waiting at the start
      and then those that queued. */
  lemma {:induction false} FirstInFirstOut(s: MutexState, ops: seq<Op>)
    ensures RunOps(s, ops).resumed + RunOps(s, ops).final.queue == s.queue + RunOps(s, ops).queued
    decreases |ops|
  {
    if ops != [] {
      var t := RunOps(s, ops);
      match ops[0]
      case LockOp(w) =>
        var s1 := LockStep(s, w).0;
        FirstInFirstOut(s1, ops[1..]);
        var t1 := RunOps(s1, ops[1..]);
        if s.locked {
          assert t.queued == [w] + t1.queued && t.resumed == t1.resumed && t.final == t1.final;
          assert s1.queue == s.queue + [w];
        } else {
          assert t.queued == t1.queued && t.resumed == t1.resumed && t.final == t1.final;
        }
      case UnlockOp =>
        var s1 := UnlockStep(s).0;
        FirstInFirstOut(s1, ops[1..]);
        var t1 := RunOps(s1, ops[1..]);
        if s.queue != [] {
          assert t.resumed == [s.queue[0]] + t1.resumed && t.queued == t1.queued && t.final == t1.final;
          assert s1.queue == s.queue[1..];
          calc {
            t.resumed + t.final.queue;
            [s.queue[0]] + t1.resumed + t1.final.queue;
            [s.queue[0]] + (t1.resumed + t1.final.queue);
            [s.queue[0]] + (s.queue[1..] + t1.queued);
            { assert s.queue == [s.queue[0]] + s.queue[1..]; }
            s.queue + t.queued;
          }
        } else {
          assert t.resumed == t1.resumed && t.queued == t1.queued && t.final == t1.final;
        }
    }
  }

  /** Every `unlock` is issued while the lock is held (by its holder). */
  predicate ReleasesWhileHeld(s: MutexState, ops: seq<Op>)
    decreases |ops|
  {
    ops == [] ||
    (match ops[0]
     case LockOp(w) => ReleasesWhileHeld(LockStep(s, w).0, ops[1..])
     case UnlockOp => s.locked && ReleasesWhileHeld(UnlockStep(s).0, ops[1..]))
  }

  /** Mutual exclusion: when only holders unlock, acquisitions minus
      releases is exactly the change in whether the lock is held, so at most
      one task holds it at any time. */
  lemma {:induction false} AtMostOneHolder(s: MutexState, ops: seq<Op>)
    requires ReleasesWhileHeld(s, ops)
    ensures var t := RunOps(s, ops);
      (if s.locked then 1 else 0) + t.acquisitions - t.releases == (if t.final.locked then 1 else 0)
    decreases |ops|
  {
    if ops != [] {
      match ops[0]
      case LockOp(w) =>
        AtMostOneHolder(LockStep(s, w).0, ops[1..]);
      case UnlockOp =>
        AtMostOneHolder(UnlockStep(s).0, ops[1..]);
    }
  }

  class SimpleMutex {
    var locked: bool
    var queue: seq<WaiterId>

    function State(): MutexState
      reads this
    {
      MutexState(locked, queue)
    }

    ghost predicate Valid()
      reads this
    {
      State().Valid()
    }

    /** A new mutex is free and nobody waits. */
    constructor ()
      ensures !locked && queue == [] && Valid()
    {
      queue := [];
      locked := false;
    }

    /** `lock()` by waiter `w`. */
    method Lock(w: WaiterId) returns (r: LockResult)
      requires Valid()
      modifies this
      ensures (State(), r) == LockStep(old(State()), w)
      ensures Valid()
    {
      if locked {
        queue := queue + [w];
        r := Queued;
      } else {
        r := Granted;
      }
      locked := true;
    }

    /** `unlock()`: returns the waiter resumed, if any. */
    method Unlock() returns (resumed: Option<WaiterId>)
      requires Valid()
      modifies this
      ensures (State(), resumed) == UnlockStep(old(State()))
      ensures Valid()
    {
      if |queue| > 0 {
        resumed := Some(queue[0]);
        queue := queue[1..];
      } else {
        resumed := None;
        locked := false;
      }
    }

    /** `runExclusive(callback)` for waiter `w`, whose callback settles with
        `outcome`. If the lock is free the callback runs, its result or error
        is passed on unchanged and the lock is released whichever it was;
        otherwise `w` waits and nothing runs yet. */
    method RunExclusive<T>(w: WaiterId, outcome: Result<T>) returns (r: Option<Result<T>>, resumed: Option<WaiterId>)
      requires Valid()
      modifies this
      ensures !old(locked) ==> r == Some(outcome) && (State(), resumed) == UnlockStep(LockStep(old(State()), w).0)
      ensures !old(locked) && old(queue) == [] ==> !locked && queue == [] && resumed == None
      ensures old(locked) ==> r == None && resumed == None && State() == LockStep(old(State()), w).0
      ensures Valid()
    {
      var got := Lock(w);
      if got == Granted {
        r := Some(outcome);
        resumed := Unlock();
      } else {
        r := None;
        resumed := None;
      }
    }
  }
}
