/**
 * `camera_connect`: poll `pslr_init` until it yields a handle or the timeout
 * has passed, then try `pslr_connect` once; and `camera_close`.
 *
 * The clock is not modelled: each `pslr_init` attempt comes with the time,
 * in microseconds since the polling started, at which its failure was noted.
 */
module Connection {
  import opened Options
  import opened CText
  import opened Protocol

  /**
   * The test made after a failed `pslr_init`: a timeout of 0 polls for ever,
   * any other timeout (in seconds) only while it is still ahead of the time
   * spent so far.
   */
  predicate KeepPolling(timeout: int, elapsedMicros: nat) {
    timeout == 0 || timeout * 1000000 > elapsedMicros
  }

  /** The attempts before the last one all failed and allowed another try. */
  predicate RetriedBefore(timeout: int, attempts: seq<InitAttempt>, n: nat)
    requires n <= |attempts|
  {
    forall i :: 0 <= i < n ==> attempts[i].handle.None? && KeepPolling(timeout, attempts[i].elapsedMicros)
  }

  /**
   * How the polling loop ends over a finite run of attempts: with the handle
   * of attempt `tries`, with a timeout at attempt `tries`, or not at all
   * within the attempts given.
   */
  datatype PollResult =
    | GotHandle(h: Handle, tries: nat)
    | TimedOut(tries: nat)
    | StillPolling

  function Poll(timeout: int, attempts: seq<InitAttempt>): (r: PollResult)
    ensures r.GotHandle? ==>
      && 1 <= r.tries <= |attempts|
      && attempts[r.tries - 1].handle == Some(r.h)
      && RetriedBefore(timeout, attempts, r.tries - 1)
    ensures r.TimedOut? ==>
      && 1 <= r.tries <= |attempts|
      && attempts[r.tries - 1].handle.None?
      && !KeepPolling(timeout, attempts[r.tries - 1].elapsedMicros)
      && RetriedBefore(timeout, attempts, r.tries - 1)
    ensures r.StillPolling? ==> RetriedBefore(timeout, attempts, |attempts|)
  {
    if attempts == [] then StillPolling
    else if attempts[0].handle.Some? then GotHandle(attempts[0].handle.value, 1)
    else if !KeepPolling(timeout, attempts[0].elapsedMicros) then TimedOut(1)
    else
      match Poll(timeout, attempts[1..])
      case GotHandle(h, n) => GotHandle(h, n + 1)
      case TimedOut(n) => TimedOut(n + 1)
      case StillPolling => StillPolling
  }

  /** The driver calls of `k` failed attempts that were each followed by a one-second sleep. */
  function RetryCalls(k: nat): seq<DriverCall> {
    if k == 0 then [] else RetryCalls(k - 1) + [Init, SleepSec(1)]
  }

  /** What `camera_connect` returns: a handle, or NULL and the text it wrote to `error_message`. */
  datatype ConnectOutcome =
    | Connected(h: Handle)
    | Failed(error: string)
    | Polling

  datatype ConnectRun = ConnectRun(outcome: ConnectOutcome, calls: seq<DriverCall>)

  const RootMessage: string := "1 Cannot connect to Pentax camera. Please start the program as root.\n"
  const UnknownCameraMessage: string := "1 Unknown Pentax camera found.\n"

  function TimeoutMessage(timeout: int): string {
    "1 " + IntToString(timeout) + "s timeout exceeded\n"
  }

  /** The message for a nonzero `pslr_connect` result. */
  function ConnectError(r: int): string {
    if r != -1 then RootMessage else UnknownCameraMessage
  }

  /**
   * What `camera_connect(NULL, NULL, timeout, error_message)` does, given the
   * successive `pslr_init` attempts and the result `pslr_connect` would give.
   */
  function ConnectSpec(timeout: int, attempts: seq<InitAttempt>, connectResult: int): ConnectRun {
    match Poll(timeout, attempts)
    case StillPolling => ConnectRun(Polling, RetryCalls(|attempts|))
    case TimedOut(n) => ConnectRun(Failed(TimeoutMessage(timeout)), RetryCalls(n - 1) + [Init])
    case GotHandle(h, n) =>
      var calls := RetryCalls(n - 1) + [Init, ConnectCall(h)];
      if connectResult != 0 then ConnectRun(Failed(ConnectError(connectResult)), calls)
      else ConnectRun(Connected(h), calls)
  }

  /** The polling loop and the connection attempt, as the source performs them. */
  method CameraConnect(timeout: int, attempts: seq<InitAttempt>, connectResult: int)
    returns (outcome: ConnectOutcome, calls: seq<DriverCall>)
    ensures ConnectRun(outcome, calls) == ConnectSpec(timeout, attempts, connectResult)
  {
    var i := 0;
    calls := [];
    while true
      invariant i <= |attempts|
      invariant RetriedBefore(timeout, attempts, i)
      invariant calls == RetryCalls(i)
      decreases |attempts| - i
    {
      if i == |attempts| {
        PollAfterRetries(timeout, attempts, i);
        outcome := Polling;
        return;
      }
      calls := calls + [Init];
      if attempts[i].handle.Some? {
        break;
      }
      if KeepPolling(timeout, attempts[i].elapsedMicros) {
        calls := calls + [SleepSec(1)];
        i := i + 1;
      } else {
        PollAfterRetries(timeout, attempts, i);
        outcome := Failed(TimeoutMessage(timeout));
        return;
      }
    }
    PollAfterRetries(timeout, attempts, i);
    var h := attempts[i].handle.value;
    calls := calls + [ConnectCall(h)];
    var r := connectResult;
    if r != 0 {
      outcome := Failed(ConnectError(r));
    } else {
      outcome := Connected(h);
    }
  }

  /** After `k` retries the polling goes on as if it started at attempt `k`. */
  lemma {:induction false} PollAfterRetries(timeout: int, attempts: seq<InitAttempt>, k: nat)
    requires k <= |attempts| && RetriedBefore(timeout, attempts, k)
    ensures Poll(timeout, attempts) == Shift(Poll(timeout, attempts[k..]), k)
  {
    if k > 0 {
      assert attempts[1..][k - 1..] == attempts[k..];
      assert RetriedBefore(timeout, attempts[1..], k - 1) by {
        forall i | 0 <= i < k - 1
          ensures attempts[1..][i].handle.None? && KeepPolling(timeout, attempts[1..][i].elapsedMicros)
        {
          assert attempts[1..][i] == attempts[i + 1];
        }
      }
      PollAfterRetries(timeout, attempts[1..], k - 1);
      PollStep(timeout, attempts);
    }
  }

  /** A poll result as seen from `k` attempts earlier. */
  function Shift(r: PollResult, k: nat): PollResult {
    match r
    case GotHandle(h, n) => GotHandle(h, n + k)
    case TimedOut(n) => TimedOut(n + k)
    case StillPolling => StillPolling
  }

  /** A failed attempt that allows another try hands the polling on to the next attempt. */
  lemma PollStep(timeout: int, attempts: seq<InitAttempt>)
    requires attempts != [] && attempts[0].handle.None?
    requires KeepPolling(timeout, attempts[0].elapsedMicros)
    ensures Poll(timeout, attempts) == Shift(Poll(timeout, attempts[1..]), 1)
  {
  }

  /**
   * With a negative timeout the first failed `pslr_init` ends the polling: one
   * attempt, no sleep, and the timeout message.
   */
  lemma NegativeTimeoutSingleAttempt(timeout: int, attempts: seq<InitAttempt>, connectResult: int)
    requires timeout < 0
    requires attempts != [] && attempts[0].handle.None?
    ensures ConnectSpec(timeout, attempts, connectResult) == ConnectRun(Failed(TimeoutMessage(timeout)), [Init])
  {
    assert !KeepPolling(timeout, attempts[0].elapsedMicros);
  }

  /** A timeout of 0 never times out: polling ends only with a handle. */
  lemma ZeroTimeoutNeverTimesOut(attempts: seq<InitAttempt>, connectResult: int)
    ensures !ConnectSpec(0, attempts, connectResult).outcome.Failed? ||
      Poll(0, attempts).GotHandle?
  {
  }

  /** The calls of the retries are only `pslr_init` and the sleeps. */
  lemma {:induction false} RetryCallsOnly(k: nat)
    ensures forall c :: c in RetryCalls(k) ==> c == Init || c == SleepSec(1)
  {
    if k > 0 {
      RetryCallsOnly(k - 1);
      assert RetryCalls(k) == RetryCalls(k - 1) + [Init, SleepSec(1)];
    }
  }

  /** `k` retries make `k` calls of `pslr_init`. */
  lemma {:induction false} RetryInitCount(k: nat)
    ensures multiset(RetryCalls(k))[Init] == k
  {
    if k > 0 {
      RetryInitCount(k - 1);
      assert multiset(RetryCalls(k)) == multiset(RetryCalls(k - 1)) + multiset{Init, SleepSec(1)};
    }
  }

  /**
   * Once `pslr_init` has produced a handle, `pslr_connect` is called exactly
   * once, last, on that handle, after as many `pslr_init` calls as attempts made.
   */
  lemma ConnectTriedOnce(timeout: int, attempts: seq<InitAttempt>, connectResult: int, h: Handle, n: nat)
    requires Poll(timeout, attempts) == GotHandle(h, n)
    ensures var calls := ConnectSpec(timeout, attempts, connectResult).calls;
      && calls[|calls| - 1] == ConnectCall(h)
      && (forall c :: c in calls && c.ConnectCall? ==> c == ConnectCall(h))
      && multiset(calls)[ConnectCall(h)] == 1
      && multiset(calls)[Init] == n
  {
    var calls := ConnectSpec(timeout, attempts, connectResult).calls;
    assert calls == RetryCalls(n - 1) + [Init, ConnectCall(h)];
    ConnectCallsCount(n - 1, h, calls);
  }

  lemma ConnectCallsCount(k: nat, h: Handle, calls: seq<DriverCall>)
    requires calls == RetryCalls(k) + [Init, ConnectCall(h)]
    ensures calls[|calls| - 1] == ConnectCall(h)
    ensures forall c :: c in calls && c.ConnectCall? ==> c == ConnectCall(h)
    ensures multiset(calls)[ConnectCall(h)] == 1
    ensures multiset(calls)[Init] == k + 1
  {
    RetryCallsOnly(k);
    RetryInitCount(k);
    assert multiset(calls) == multiset(RetryCalls(k)) + multiset{Init, ConnectCall(h)};
    assert ConnectCall(h) !in RetryCalls(k);
  }

  /**
   * A nonzero `pslr_connect` result fails the connection: -1 reports an unknown
   * camera, any other value the missing root permission; 0 connects.
   */
  lemma ConnectResultMessages(timeout: int, attempts: seq<InitAttempt>, connectResult: int)
    requires Poll(timeout, attempts).GotHandle?
    ensures var o := ConnectSpec(timeout, attempts, connectResult).outcome;
      && (connectResult == 0 <==> o == Connected(Poll(timeout, attempts).h))
      && (connectResult == -1 ==> o == Failed(UnknownCameraMessage))
      && (connectResult != 0 && connectResult != -1 ==> o == Failed(RootMessage))
  {
  }

  /** `camera_close`: `pslr_disconnect`, then `pslr_shutdown`, on the same handle. */
  function CloseCalls(h: Handle): seq<DriverCall> {
    [DisconnectCall(h), ShutdownCall(h)]
  }
}
