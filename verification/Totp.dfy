/** Matching a one-time code against a window of time steps. */
module Totp {
  import opened Options

  const MAX_CODE_LENGTH := 10

  predicate CodeShape(code: string) {
    1 <= |code| <= MAX_CODE_LENGTH && forall i :: 0 <= i < |code| ==> '0' <= code[i] <= '9'
  }

  /** The step a clock reading falls into; integer division here rounds down, also before the epoch. */
  function StepAt(epochMs: int, stepSec: int): int
    requires stepSec >= 1
  {
    epochMs / (1000 * stepSec)
  }

  /** `step` lies in the window, is a real step, and carries the code. */
  predicate Matches(hotp: nat -> string, code: string, current: int, window: int, step: int) {
    current - window <= step <= current + window && step >= 0 && hotp(step) == code
  }

  /** The greatest matching step of the window, or none: the step that leaves the least room for a replay. */
  method MatchingTotpStep(hotp: nat -> string, code: string, epochMs: int, stepSec: int, window: int) returns (matched: Option<int>)
    requires stepSec >= 1
    ensures var current := StepAt(epochMs, stepSec);
            match matched
            case None => !CodeShape(code) || forall step :: !Matches(hotp, code, current, window, step)
            case Some(m) =>
              CodeShape(code) && Matches(hotp, code, current, window, m) &&
              forall step :: Matches(hotp, code, current, window, step) ==> step <= m
  {
    matched := None;
    if |code| < 1 || |code| > MAX_CODE_LENGTH {
      return;
    }
    var i := 0;
    while i < |code|
      invariant i <= |code| && forall j :: 0 <= j < i ==> '0' <= code[j] <= '9'
    {
      if !('0' <= code[i] <= '9') {
        return;
      }
      i := i + 1;
    }
    var current := StepAt(epochMs, stepSec);
    var step := current - window;
    while step <= current + window
      invariant matched.None? ==> forall s :: s < step ==> !Matches(hotp, code, current, window, s)
      invariant matched.Some? ==> matched.value < step && Matches(hotp, code, current, window, matched.value)
      invariant matched.Some? ==> forall s :: s < step && Matches(hotp, code, current, window, s) ==> s <= matched.value
      decreases current + window - step
    {
      if step >= 0 && hotp(step) == code {
        matched := Some(step);
      }
      step := step + 1;
    }
  }
}
