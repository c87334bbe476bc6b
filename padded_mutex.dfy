/**
 * PaddedMutex of boxer/internal/vmcontroller/exec/mutex.go: a mutex whose
 * release takes effect only `period` seconds later. `Release` does not unlock;
 * it marks the mutex as waiting and starts a timer, and the timer unlocks the
 * underlying mutex and clears both flags.
 *
 * The model is sequential. The underlying `releaseMux` is the flag `held`;
 * a blocking `Lock` is enabled only while `held` is false; time is a logical
 * clock `now` (in seconds) advanced by `Tick`; the timer goroutine is the
 * single step `TimerFire`, enabled once the clock has reached `due`. A panic
 * is reported as `Fail(InvalidOperation)` and changes nothing.
 */
module PaddedMutexes {
  import opened Errors

  class PaddedMutex {
    /** The underlying releaseMux is locked. */
    var held: bool
    /** IsLocked == 1. */
    var isLocked: bool
    /** IsWaiting == 1: a release is pending on the timer. */
    var isWaiting: bool
    /** The delay between a Release and the unlock, in seconds. */
    const period: nat
    /** The logical clock, in seconds. */
    var now: nat
    /** When the pending timer fires; meaningful while isWaiting. */
    var due: nat
    /** When the most recent accepted Release happened. */
    ghost var lastRelease: Option<nat>
    /** How many Locks and accepted Releases have happened. */
    ghost var locks: nat
    ghost var releases: nat

    /** The flags mirror the underlying mutex, a pending timer belongs to the
        most recent release, and the mutex is free only once `period` seconds
        have passed since that release. */
    ghost predicate Valid()
      reads this
    {
      && (isLocked <==> held)
      && (isWaiting ==> isLocked)
      && (isWaiting ==> lastRelease.Some? && due == lastRelease.value + period)
      && (lastRelease.Some? ==> lastRelease.value <= now)
      && (!held && lastRelease.Some? ==> now >= lastRelease.value + period)
    }

    /** InitPaddedMutex: stores the period, clears both flags, and leaves
        the underlying mutex free. */
    constructor (period: nat)
      ensures this.period == period
      ensures !held && !isLocked && !isWaiting
      ensures now == 0 && lastRelease == None && locks == 0 && releases == 0
      ensures Valid()
    {
      this.period := period;
      held, isLocked, isWaiting := false, false, false;
      now, due := 0, 0;
      lastRelease := None;
      locks, releases := 0, 0;
    }

    /** Time passes. */
    method Tick(elapsed: nat)
      requires Valid()
      modifies this
      ensures now == old(now) + elapsed
      ensures held == old(held) && isLocked == old(isLocked) && isWaiting == old(isWaiting) && due == old(due)
      ensures lastRelease == old(lastRelease) && locks == old(locks) && releases == old(releases)
      ensures Valid()
    {
      now := now + elapsed;
    }

    /** Lock: completes only once the underlying mutex is free, then sets
        IsLocked. It therefore completes at least `period` seconds after the
        preceding accepted Release. */
    method Lock()
      requires Valid() && !held
      modifies this
      ensures held && isLocked && isWaiting == old(isWaiting)
      ensures now == old(now) && due == old(due) && lastRelease == old(lastRelease)
      ensures locks == old(locks) + 1 && releases == old(releases)
      ensures old(lastRelease).Some? ==> now >= old(lastRelease).value + period
      ensures Valid()
    {
      held := true;
      isLocked := true;
      locks := locks + 1;
    }

    /** Release: refused (a panic with InvalidOperation) when the mutex is not
        locked or a release is already pending; otherwise it only marks the
        mutex as waiting and starts the timer, which fires `period` seconds
        later. The underlying mutex stays held. */
    method Release() returns (r: Outcome)
      requires Valid()
      modifies this
      ensures !old(isLocked) ==> r == Fail(InvalidOperation)
      ensures old(isLocked) && old(isWaiting) ==> r == Fail(InvalidOperation)
      ensures r.Fail? ==> unchanged(this)
      ensures old(isLocked) && !old(isWaiting) ==>
        && r == Pass
        && held && isLocked && isWaiting
        && now == old(now) && due == now + period && lastRelease == Some(now)
        && locks == old(locks) && releases == old(releases) + 1
      ensures Valid()
    {
      if !isLocked {
        return Fail(InvalidOperation);
      }
      if isWaiting {
        return Fail(InvalidOperation);
      }
      isWaiting := true;
      due := now + period;
      lastRelease := Some(now);
      releases := releases + 1;
      return Pass;
    }

    /** timerThread, once its sleep is over: unlocks the underlying mutex if
        IsLocked is set, then clears both flags. */
    method TimerFire()
      requires Valid() && isWaiting && now >= due
      modifies this
      ensures !held && !isLocked && !isWaiting
      ensures now == old(now) && due == old(due) && lastRelease == old(lastRelease)
      ensures locks == old(locks) && releases == old(releases)
      ensures Valid()
    {
      if isLocked {
        held := false;
      }
      isWaiting := false;
      isLocked := false;
    }

    /** A Lock issued while the previous owner's release may still be
        pending, as a controller issues it: the caller blocks until the timer
        has fired, then locks. Only a pending timer makes it wait, and then
        until exactly the time the timer is due. */
    method AwaitLock()
      requires Valid() && (held ==> isWaiting)
      modifies this
      ensures held && isLocked && !isWaiting
      ensures old(isWaiting) && old(now) < old(due) ==> now == old(due)
      ensures !(old(isWaiting) && old(now) < old(due)) ==> now == old(now)
      ensures lastRelease == old(lastRelease)
      ensures locks == old(locks) + 1 && releases == old(releases)
      ensures old(lastRelease).Some? ==> now >= old(lastRelease).value + period
      ensures Valid()
    {
      if isWaiting {
        if now < due {
          Tick(due - now);
        }
        TimerFire();
      }
      Lock();
    }
  }
}
