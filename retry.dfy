/** `RetryDecorator.ts`: sends a notification through a wrapped email
    service, retrying after each failure until a call succeeds or the
    attempts run out. The wrapped service is a parameter: `answers[k]` is
    how its call with index `k` (counting from 0) ends. The delay between
    attempts is left out. */
module Retry {
  import opened Wrappers

  /** What the logger is given: a warning per failed call and, when the last
      attempt fails, an error naming the number of attempts. */
  datatype LogEntry = Warned(attempt: int, reason: string) | GaveUp(attempts: int)

  /** The calls made to the wrapped service, in order, the log, and what the
      returned promise settles to. */
  datatype Sending = Sending(calls: seq<(string, string)>, log: seq<LogEntry>, settled: Outcome)

  /** `attempts` treated as the number of calls it allows: at least one. */
  function Allowed(attempts: int): (n: nat)
    ensures n >= 1 && n >= attempts
    ensures attempts >= 1 ==> n == attempts
    ensures attempts < 1 ==> n == 1
  {
    if attempts > 1 then attempts else 1
  }

  function Reason(o: Outcome): string
  {
    if o.Fail? then o.error else ""
  }

  /** The warnings for the `n` calls from `made` on, numbered from `first`. */
  function Warnings(answers: seq<Outcome>, first: int, made: nat, n: nat): (w: seq<LogEntry>)
    requires made + n <= |answers|
    ensures |w| == n
    decreases n
  {
    if n == 0 then []
    else [Warned(first, Reason(answers[made]))] + Warnings(answers, first + 1, made + 1, n - 1)
  }

  /** The pointwise reading of `Warnings`. */
  lemma {:induction false} WarningAt(answers: seq<Outcome>, first: int, made: nat, n: nat, k: nat)
    requires made + n <= |answers| && k < n
    ensures Warnings(answers, first, made, n)[k] == Warned(first + k, Reason(answers[made + k]))
    decreases k
  {
    if k > 0 {
      WarningAt(answers, first + 1, made + 1, n - 1, k - 1);
    }
  }

  /** The inner `attempt(attemptCount)`, with `made` calls already made. */
  function Attempt(answers: seq<Outcome>, to: string, message: string, attempts: int, attemptCount: int,
                   made: nat): (r: Sending)
    requires made + Allowed(attemptCount) <= |answers|
    decreases attemptCount
    ensures 1 <= |r.calls| <= Allowed(attemptCount)
    ensures forall i | 0 <= i < |r.calls| :: r.calls[i] == (to, message)
    ensures r.settled == Pass
    ensures forall j | made <= j < made + |r.calls| - 1 :: answers[j].Fail?
    ensures answers[made + |r.calls| - 1].Fail? ==> |r.calls| == Allowed(attemptCount)
  {
    var o := answers[made];
    if o.Pass? then
      Sending([(to, message)], [], Pass)
    else
      var w := Warned(attempts - attemptCount + 1, o.error);
      if attemptCount > 1 then
        var rest := Attempt(answers, to, message, attempts, attemptCount - 1, made + 1);
        var r := Sending([(to, message)] + rest.calls, [w] + rest.log, rest.settled);
        assert forall i | 1 <= i < |r.calls| :: r.calls[i] == rest.calls[i - 1];
        r
      else
        Sending([(to, message)], [w, GaveUp(attempts)], Pass)
  }

  /** What `attempt` logs: a warning for each failed call, numbered from
      `attempts - attemptCount + 1`, and, when the last call fails too, the
      error giving up. */
  lemma {:induction false} AttemptLog(answers: seq<Outcome>, to: string, message: string, attempts: int,
                                      attemptCount: int, made: nat)
    requires made + Allowed(attemptCount) <= |answers|
    ensures var r := Attempt(answers, to, message, attempts, attemptCount, made);
      answers[made + |r.calls| - 1].Pass? ==>
        r.log == Warnings(answers, attempts - attemptCount + 1, made, |r.calls| - 1)
    ensures var r := Attempt(answers, to, message, attempts, attemptCount, made);
      answers[made + |r.calls| - 1].Fail? ==>
        r.log == Warnings(answers, attempts - attemptCount + 1, made, |r.calls|) + [GaveUp(attempts)]
    decreases attemptCount
  {
    var o := answers[made];
    if o.Fail? {
      var r := Attempt(answers, to, message, attempts, attemptCount, made);
      var w := Warned(attempts - attemptCount + 1, Reason(o));
      if attemptCount > 1 {
        AttemptLog(answers, to, message, attempts, attemptCount - 1, made + 1);
        var rest := Attempt(answers, to, message, attempts, attemptCount - 1, made + 1);
        assert r.log == [w] + rest.log;
        assert |r.calls| == 1 + |rest.calls|;
        if answers[made + |r.calls| - 1].Fail? {
          var ws := Warnings(answers, attempts - attemptCount + 2, made + 1, |rest.calls|);
          assert [w] + (ws + [GaveUp(attempts)]) == ([w] + ws) + [GaveUp(attempts)];
        }
      } else {
        assert r.log == [w, GaveUp(attempts)];
      }
    }
  }

  /** `sendNotification(to, message)`, `answers` listing how each call the
      attempts allow would end. */
  function SendNotification(answers: seq<Outcome>, attempts: int, to: string, message: string): (r: Sending)
    requires Allowed(attempts) <= |answers|
    ensures 1 <= |r.calls| <= Allowed(attempts)
    ensures forall i | 0 <= i < |r.calls| :: r.calls[i] == (to, message)
    ensures r.settled == Pass
  {
    Attempt(answers, to, message, attempts, attempts, 0)
  }

  /** A log made of the warnings for the first `w` calls, all failed,
      followed only by entries that give up, has its warnings numbered from
      1 with each failed call's message. */
  lemma NumberedLog(answers: seq<Outcome>, log: seq<LogEntry>, w: nat)
    requires w <= |answers| && forall j | 0 <= j < w :: answers[j].Fail?
    requires w <= |log| && log[..w] == Warnings(answers, 1, 0, w)
    requires forall i | w <= i < |log| :: log[i].GaveUp?
    ensures forall i | 0 <= i < |log| && log[i].Warned? ::
      i < |answers| && answers[i].Fail? && log[i] == Warned(i + 1, answers[i].error)
  {
    forall i | 0 <= i < |log| && log[i].Warned?
      ensures i < |answers| && answers[i].Fail? && log[i] == Warned(i + 1, answers[i].error)
    {
      WarningAt(answers, 1, 0, w, i);
      assert log[i] == log[..w][i];
    }
  }

  /** The warnings are numbered 1, 2, ... in the order of the calls and
      carry the failed call's error message. */
  lemma WarningsAreNumbered(answers: seq<Outcome>, attempts: int, to: string, message: string)
    requires Allowed(attempts) <= |answers|
    ensures var r := SendNotification(answers, attempts, to, message);
      forall i | 0 <= i < |r.log| && r.log[i].Warned? ::
        i < |answers| && answers[i].Fail? && r.log[i] == Warned(i + 1, answers[i].error)
  {
    var r := SendNotification(answers, attempts, to, message);
    var n := |r.calls|;
    AttemptLog(answers, to, message, attempts, attempts, 0);
    if answers[n - 1].Fail? {
      assert r.log[..n] == Warnings(answers, 1, 0, n);
      NumberedLog(answers, r.log, n);
    } else {
      assert r.log[..n - 1] == r.log;
      NumberedLog(answers, r.log, n - 1);
    }
  }

  /** If the first `k` calls fail and call `k` succeeds, within the allowed
      attempts, exactly `k + 1` calls are made and nothing is given up. */
  lemma StopsAtFirstSuccess(answers: seq<Outcome>, attempts: int, to: string, message: string, k: nat)
    requires Allowed(attempts) <= |answers| && k < Allowed(attempts)
    requires forall j | 0 <= j < k :: answers[j].Fail?
    requires answers[k].Pass?
    ensures var r := SendNotification(answers, attempts, to, message);
      |r.calls| == k + 1 && |r.log| == k && (forall i | 0 <= i < |r.log| :: r.log[i].Warned?)
  {
    var r := SendNotification(answers, attempts, to, message);
    AttemptLog(answers, to, message, attempts, attempts, 0);
    forall i | 0 <= i < |r.log| ensures r.log[i].Warned? {
      WarningAt(answers, 1, 0, k, i);
    }
  }

  /** If every allowed call fails, exactly `max(attempts, 1)` calls are made
      and the log ends by giving up; the promise still settles normally. */
  lemma ExhaustsOnFailure(answers: seq<Outcome>, attempts: int, to: string, message: string)
    requires Allowed(attempts) <= |answers|
    requires forall j | 0 <= j < Allowed(attempts) :: answers[j].Fail?
    ensures var r := SendNotification(answers, attempts, to, message);
      |r.calls| == Allowed(attempts) && |r.log| == |r.calls| + 1 &&
      r.log[|r.log| - 1] == GaveUp(attempts) && r.settled == Pass
  {
    var r := SendNotification(answers, attempts, to, message);
    AttemptLog(answers, to, message, attempts, attempts, 0);
    assert answers[|r.calls| - 1].Fail?;
  }
}
