/** The attempt loop of `handleBurst` (daemon.go:168-251) and the burst loop
    of `runSession` (daemon.go:138-166).

    Each attempt builds a backend, relays every text fragment it produces to
    the typist, and ends in one of three ways as seen by the loop after
    `Transcribe` returns: the context was cancelled, `Transcribe` returned nil,
    or it returned an error under a live context. Only the last retries, after
    waiting the current backoff. Time, the typist and the stderr log are left
    out; an attempt is given as the fragments it relayed and how it ended, and
    a burst as the attempts the backend would make (a script). A script that
    runs out is the context being cancelled: before the first attempt, or
    during a backoff wait. Durations are milliseconds. */
module Retry {
  import opened Common

  /** How an attempt is seen to end at daemon.go:235-241. */
  datatype Outcome = Cancelled | Finished | Failed

  datatype Attempt = Attempt(texts: seq<string>, outcome: Outcome)

  /** Why `handleBurst` returned. */
  datatype BurstEnd =
    | Done          // `Transcribe` returned nil under a live context
    | FactoryError  // `NewBackend` failed
    | Stopped       // the context was cancelled

  /** Initial backoff, and its cap (daemon.go:169-170). */
  const InitialBackoff: nat := 500
  const MaxBackoff: nat := 10000

  /** `min(backoff*2, maxBackoff)` (daemon.go:250). */
  function NextBackoff(b: nat): nat
  {
    Min(2 * b, MaxBackoff)
  }

  /** The backoff after `n` failed attempts with no text relayed in between. */
  function BackoffAfter(n: nat): (b: nat)
    ensures InitialBackoff <= b <= MaxBackoff
  {
    if n == 0 then InitialBackoff else NextBackoff(BackoffAfter(n - 1))
  }

  function Pow2(n: nat): (p: nat)
    ensures p >= 1
  {
    if n == 0 then 1 else 2 * Pow2(n - 1)
  }

  /** Closed form: 500 ms doubled per failure, capped at 10 s. */
  lemma {:induction false} BackoffClosedForm(n: nat)
    ensures BackoffAfter(n) == Min(InitialBackoff * Pow2(n), MaxBackoff)
  {
    if n > 0 {
      BackoffClosedForm(n - 1);
    }
  }

  /** The waits are 500 ms, 1 s, 2 s, 4 s, 8 s, then 10 s from the sixth on. */
  lemma BackoffSchedule(n: nat)
    ensures [BackoffAfter(0), BackoffAfter(1), BackoffAfter(2), BackoffAfter(3), BackoffAfter(4)]
            == [500, 1000, 2000, 4000, 8000]
    ensures n >= 5 ==> BackoffAfter(n) == MaxBackoff
  {
    if n >= 5 {
      BackoffClosedForm(n);
      PowGrows(n);
    }
  }

  lemma {:induction false} PowGrows(n: nat)
    requires n >= 5
    ensures Pow2(n) >= 32
  {
    if n > 5 {
      PowGrows(n - 1);
    }
  }

  /** The backoff never shrinks while failures continue without text. */
  lemma BackoffMonotone(n: nat)
    ensures BackoffAfter(n) <= BackoffAfter(n + 1)
  {
  }

  /** The number of failed attempts since the backoff was last reset, at the
      end of attempt `i`: a relayed fragment resets it (daemon.go:230). */
  function Streak(script: seq<Attempt>, i: nat): nat
    requires i < |script|
  {
    if |script[i].texts| > 0 then 0
    else if i == 0 then 0
    else Streak(script, i - 1) + 1
  }

  /** The number of leading failed attempts. */
  function FailedRun(script: seq<Attempt>): (n: nat)
    ensures n <= |script|
    ensures forall k :: 0 <= k < n ==> script[k].outcome == Failed
    ensures n < |script| ==> script[n].outcome != Failed
  {
    if script == [] || script[0].outcome != Failed then 0
    else 1 + FailedRun(script[1..])
  }

  /** The attempts `handleBurst` makes: none if the factory fails, otherwise
      every attempt up to and including the first that does not fail. */
  function Attempts(factoryOk: bool, script: seq<Attempt>): (n: nat)
    ensures n <= |script|
  {
    if !factoryOk then 0
    else if FailedRun(script) == |script| then |script|
    else FailedRun(script) + 1
  }

  /** The fragments relayed, in order. */
  function Relayed(attempts: seq<Attempt>): seq<string>
  {
    if attempts == [] then []
    else Relayed(attempts[..|attempts| - 1]) + attempts[|attempts| - 1].texts
  }

  /** Why the burst loop returns. The context check comes before the factory
      call at the top of the loop (daemon.go:191-199). */
  function BurstOutcome(factoryOk: bool, script: seq<Attempt>): BurstEnd
  {
    if script == [] then Stopped
    else if !factoryOk then FactoryError
    else if script[Attempts(factoryOk, script) - 1].outcome == Finished then Done
    else Stopped
  }

  /** What the typist receives from one burst. */
  function BurstTyped(factoryOk: bool, script: seq<Attempt>): seq<string>
  {
    Relayed(script[..Attempts(factoryOk, script)])
  }

  lemma RelayedSnoc(attempts: seq<Attempt>, a: Attempt)
    ensures Relayed(attempts + [a]) == Relayed(attempts) + a.texts
  {
    assert (attempts + [a])[..|attempts|] == attempts;
  }

  /** The waits after the first `n` attempts, each the backoff for the
      failure streak at its end. */
  function Waits(script: seq<Attempt>, n: nat): (w: seq<nat>)
    requires n <= |script|
    ensures |w| == n
  {
    if n == 0 then [] else Waits(script, n - 1) + [BackoffAfter(Streak(script, n - 1))]
  }

  /** The `k`-th wait is the backoff for the failure streak at the end of
      attempt `k`. */
  lemma {:induction false} WaitsAre(script: seq<Attempt>, n: nat)
    requires n <= |script|
    ensures forall k :: 0 <= k < n ==> Waits(script, n)[k] == BackoffAfter(Streak(script, k))
  {
    if n > 0 {
      WaitsAre(script, n - 1);
    }
  }

  /** `handleBurst`: the attempt loop with its backoff variable. Returns the
      fragments typed, the waits started (one after each failed attempt) and
      why it returned. */
  method HandleBurst(factoryOk: bool, script: seq<Attempt>)
    returns (typed: seq<string>, waits: seq<nat>, end: BurstEnd)
    ensures end == BurstOutcome(factoryOk, script)
    ensures typed == BurstTyped(factoryOk, script)
    ensures waits == Waits(script, if factoryOk then FailedRun(script) else 0)
  {
    typed, waits := [], [];
    var backoff := InitialBackoff;
    var i := 0;
    while i < |script|
      invariant 0 <= i <= |script|
      invariant i > 0 ==> factoryOk
      invariant i <= FailedRun(script)
      invariant typed == Relayed(script[..i])
      invariant waits == Waits(script, i)
      invariant backoff == if i == 0 then InitialBackoff else BackoffAfter(Streak(script, i - 1) + 1)
    {
      if !factoryOk {
        return typed, waits, FactoryError;
      }
      var a := script[i];
      var t;
      t, backoff := TypeFragments(a.texts, backoff);
      typed := typed + t;
      TypedStep(script, i);
      BackoffStep(script, i);
      if a.outcome != Failed {
        EndsAt(script, i);
        end := if a.outcome == Finished then Done else Stopped;
        return;
      }
      FailedStep(script, i);
      waits := waits + [backoff];
      backoff := NextBackoff(backoff);
      i := i + 1;
    }
    if factoryOk {
      RunsOut(script);
    }
    end := Stopped;
  }

  lemma TypedStep(script: seq<Attempt>, i: nat)
    requires i < |script|
    ensures Relayed(script[..i + 1]) == Relayed(script[..i]) + script[i].texts
  {
    assert script[..i + 1] == script[..i] + [script[i]];
    RelayedSnoc(script[..i], script[i]);
  }

  /** Attempt `i` ends the burst: it is the first that did not fail. */
  lemma EndsAt(script: seq<Attempt>, i: nat)
    requires i < |script| && i <= FailedRun(script) && script[i].outcome != Failed
    ensures FailedRun(script) == i && Attempts(true, script) == i + 1
    ensures BurstTyped(true, script) == Relayed(script[..i + 1])
    ensures BurstOutcome(true, script) == if script[i].outcome == Finished then Done else Stopped
  {
  }

  /** Every attempt of the script failed: the context was cancelled during
      the last wait. */
  lemma RunsOut(script: seq<Attempt>)
    requires FailedRun(script) == |script|
    ensures Attempts(true, script) == |script|
    ensures BurstTyped(true, script) == Relayed(script)
    ensures BurstOutcome(true, script) == Stopped
  {
    assert script[..|script|] == script;
  }

  /** Attempt `i` failed: one more wait, and the backoff doubles. */
  lemma FailedStep(script: seq<Attempt>, i: nat)
    requires i < |script| && i <= FailedRun(script) && script[i].outcome == Failed
    ensures i + 1 <= FailedRun(script)
    ensures Waits(script, i + 1) == Waits(script, i) + [BackoffAfter(Streak(script, i))]
    ensures NextBackoff(BackoffAfter(Streak(script, i))) == BackoffAfter(Streak(script, i) + 1)
  {
  }

  /** The backoff at the end of attempt `i`: reset by a fragment, otherwise
      the one it started with. */
  lemma BackoffStep(script: seq<Attempt>, i: nat)
    requires i < |script|
    ensures BackoffAfter(Streak(script, i))
            == if |script[i].texts| > 0 then InitialBackoff
               else if i == 0 then InitialBackoff
               else BackoffAfter(Streak(script, i - 1) + 1)
  {
  }

  /** The receive loop of one attempt (daemon.go:217-232): every fragment is
      typed in order, and each one resets the backoff. */
  method TypeFragments(texts: seq<string>, backoff: nat) returns (typed: seq<string>, next: nat)
    ensures typed == texts
    ensures next == if texts == [] then backoff else InitialBackoff
  {
    typed, next := [], backoff;
    var j := 0;
    while j < |texts|
      invariant 0 <= j <= |texts|
      invariant typed == texts[..j]
      invariant next == if j == 0 then backoff else InitialBackoff
    {
      typed := typed + [texts[j]];
      next := InitialBackoff;
      j := j + 1;
    }
  }

  /** An attempt is followed by another only if it failed: a factory error,
      a cancelled context or a clean return ends the burst. */
  lemma OnlyFailuresRetry(factoryOk: bool, script: seq<Attempt>, k: nat)
    requires k + 1 < Attempts(factoryOk, script)
    ensures script[k].outcome == Failed
  {
  }

  /** With no text in between, consecutive failures wait 500 ms, 1 s, 2 s, ...:
      the streak counts the failures since the start of the burst. */
  lemma {:induction false} QuietFailuresDouble(script: seq<Attempt>, k: nat)
    requires k < |script|
    requires forall j :: 0 <= j <= k ==> script[j].texts == []
    ensures Streak(script, k) == k
    decreases k
  {
    if k > 0 {
      QuietFailuresDouble(script, k - 1);
    }
  }

  /** A relayed fragment resets the backoff: the wait after an attempt that
      typed something is 500 ms however many failures came before. */
  lemma TextResetsBackoff(script: seq<Attempt>, k: nat)
    requires k < |script| && |script[k].texts| > 0
    ensures BackoffAfter(Streak(script, k)) == InitialBackoff
  {
  }

  /** The bursts handled by `runSession`: one at a time, in order, until one
      returns because the context was cancelled (the next loop check, or the
      closed burst stream, ends the session). */
  function Handled(factoryOk: bool, bursts: seq<seq<Attempt>>): (n: nat)
    ensures n <= |bursts|
    ensures forall k :: 0 <= k < n - 1 ==> BurstOutcome(factoryOk, bursts[k]) != Stopped
    ensures n < |bursts| ==> n > 0 && BurstOutcome(factoryOk, bursts[n - 1]) == Stopped
  {
    if bursts == [] then 0
    else if BurstOutcome(factoryOk, bursts[0]) == Stopped then 1
    else 1 + Handled(factoryOk, bursts[1..])
  }

  /** What the typist receives over a session. */
  function SessionTyped(factoryOk: bool, bursts: seq<seq<Attempt>>): seq<string>
  {
    if bursts == [] then []
    else SessionTyped(factoryOk, bursts[..|bursts| - 1]) + BurstTyped(factoryOk, bursts[|bursts| - 1])
  }

  /** `runSession` after the recorder and the segmenter are set up: a failed
      recorder start ends the session before any burst (daemon.go:149-153). */
  method RunSession(recorderOk: bool, factoryOk: bool, bursts: seq<seq<Attempt>>)
    returns (typed: seq<string>, handled: nat)
    ensures handled == (if recorderOk then Handled(factoryOk, bursts) else 0)
    ensures typed == SessionTyped(factoryOk, bursts[..handled])
  {
    typed, handled := [], 0;
    if !recorderOk {
      return;
    }
    var stopped := false;
    while handled < |bursts| && !stopped
      invariant 0 <= handled <= |bursts|
      invariant typed == SessionTyped(factoryOk, bursts[..handled])
      invariant forall k :: 0 <= k < handled - 1 ==> BurstOutcome(factoryOk, bursts[k]) != Stopped
      invariant stopped <==> handled > 0 && BurstOutcome(factoryOk, bursts[handled - 1]) == Stopped
    {
      var t, _, end := HandleBurst(factoryOk, bursts[handled]);
      SessionTypedStep(factoryOk, bursts, handled);
      typed := typed + t;
      stopped := end == Stopped;
      handled := handled + 1;
    }
    HandledIs(factoryOk, bursts, handled);
  }

  lemma SessionTypedStep(factoryOk: bool, bursts: seq<seq<Attempt>>, n: nat)
    requires n < |bursts|
    ensures SessionTyped(factoryOk, bursts[..n + 1])
            == SessionTyped(factoryOk, bursts[..n]) + BurstTyped(factoryOk, bursts[n])
  {
    assert bursts[..n + 1][..n] == bursts[..n];
  }

  lemma {:induction false} HandledIs(factoryOk: bool, bursts: seq<seq<Attempt>>, n: nat)
    requires n <= |bursts|
    requires forall k :: 0 <= k < n - 1 ==> BurstOutcome(factoryOk, bursts[k]) != Stopped
    requires n < |bursts| ==> n > 0 && BurstOutcome(factoryOk, bursts[n - 1]) == Stopped
    ensures Handled(factoryOk, bursts) == n
    decreases n
  {
    if n > 1 {
      HandledIs(factoryOk, bursts[1..], n - 1);
    }
  }
}
