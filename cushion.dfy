/**
 * Cushion of boxerd/exec/mutex.go, the earlier form of the padded mutex. Its
 * flags and steps are those of the padded mutex, modelled the same way (a
 * sequential model with `held` for the underlying mutex, a logical clock and
 * a `TimerFire` step), but InitCushion never stores its argument, so the
 * period is always zero and the timer may fire as soon as Release returns.
 */
module Cushions {
  import opened Errors

  class Cushion {
    /** The underlying releaseMux is locked. */
    var held: bool
    /** IsLocked == 1. */
    var isLocked: bool
    /** IsWaiting == 1: a release is pending on the timer. */
    var isWaiting: bool
    /** The delay between a Release and the unlock, in seconds. */
    const period: nat
    /** The logical clock, in seconds. */
    var now: nat
    /** When the pending timer fires; meaningful while isWaiting. */
    var due: nat

    /** The period is zero, the flags mirror the underlying mutex, and a
        pending timer is due no later than now. */
    ghost predicate Valid()
      reads this
    {
      && period == 0
      && (isLocked <==> held)
      && (isWaiting ==> isLocked)
      && (isWaiting ==> due <= now)
    }

    /** InitCushion: clears both flags; the requested period is dropped, so
        the period is zero whatever is passed. */
    constructor (period: nat)
      ensures this.period == 0
      ensures !held && !isLocked && !isWaiting && now == 0
      ensures Valid()
    {
      // the argument is never stored: the field keeps Go's zero value
      this.period := 0;
      held, isLocked, isWaiting := false, false, false;
      now, due := 0, 0;
    }

    /** Time passes. */
    method Tick(elapsed: nat)
      requires Valid()
      modifies this
      ensures now == old(now) + elapsed
      ensures held == old(held) && isLocked == old(isLocked) && isWaiting == old(isWaiting) && due == old(due)
      ensures Valid()
    {
      now := now + elapsed;
    }

    /** Lock: completes only once the underlying mutex is free, then sets
        IsLocked. */
    method Lock()
      requires Valid() && !held
      modifies this
      ensures held && isLocked && isWaiting == old(isWaiting)
      ensures now == old(now) && due == old(due)
      ensures Valid()
    {
      held := true;
      isLocked := true;
    }

    /** Release: refused (a panic with InvalidOperation) before any Lock or
        while a release is pending; otherwise it marks the cushion as waiting
        and starts a timer that is due at once. The underlying mutex stays
        held. */
    method Release() returns (r: Outcome)
      requires Valid()
      modifies this
      ensures !old(isLocked) ==> r == Fail(InvalidOperation)
      ensures old(isLocked) && old(isWaiting) ==> r == Fail(InvalidOperation)
      ensures r.Fail? ==> unchanged(this)
      ensures old(isLocked) && !old(isWaiting) ==>
        r == Pass && held && isLocked && isWaiting && now == old(now) && due == now
      ensures Valid()
    {
      if !isLocked {
        return Fail(InvalidOperation);
      }
      if isWaiting {
        return Fail(InvalidOperation);
      }
      isWaiting := true;
      due := now + period;
      return Pass;
    }

    /** timerThread, once its sleep is over: unlocks the underlying mutex if
        IsLocked is set, then clears both flags. */
    method TimerFire()
      requires Valid() && isWaiting && now >= due
      modifies this
      ensures !held && !isLocked && !isWaiting
      ensures now == old(now) && due == old(due)
      ensures Valid()
    {
      if isLocked {
        held := false;
      }
      isWaiting := false;
      isLocked := false;
    }

    /** The sequence of the cushion's tests: a Release followed by a Lock.
        The timer is due at once, so the second Lock completes at the same
        instant as the Release, whatever period was asked for. */
    method ReleaseThenLock() returns (r: Outcome)
      requires Valid() && held && !isWaiting
      modifies this
      ensures r == Pass && held && isLocked && !isWaiting
      ensures now == old(now)
    {
      r := Release();
      TimerFire();
      Lock();
    }
  }
}
