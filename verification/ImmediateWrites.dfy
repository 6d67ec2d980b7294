/**
 The write transaction whose commit is cancellation-safe (storage/db.py). The commit runs as a task of
 its own behind a shield; what reaches the request in which order is up to the event loop.
 */
module ImmediateWrites {

  /** What the event loop does next: the commit task ends, the request is woken, or it is cancelled. */
  datatype Tick = Finishes(ok: bool) | Wakes | Cancels

  type Schedule = nat -> Tick

  /** The loop forgets nobody: the task ends at some time, and the request is woken again and again. */
  ghost predicate Fair(schedule: Schedule) {
    && (exists n: nat :: schedule(n).Finishes?)
    && forall n: nat :: WakesFrom(schedule, n)
  }

  ghost predicate WakesFrom(schedule: Schedule, n: nat) { exists m: nat :: n <= m && schedule(m).Wakes? }

  /** The task ends at tick `n`; it ends once. */
  ghost predicate EndsAt(schedule: Schedule, n: nat, ok: bool) {
    schedule(n) == Finishes(ok) && forall m: nat | m < n :: !schedule(m).Finishes?
  }

  /** The commit becomes durable. */
  ghost predicate Commits(schedule: Schedule) { exists n: nat :: EndsAt(schedule, n, true) }

  ghost predicate EndedBefore(schedule: Schedule, now: nat, ok: bool) {
    exists n: nat :: n < now && EndsAt(schedule, n, ok)
  }

  ghost predicate CancelsIn(schedule: Schedule, from: nat, to: nat) {
    exists n: nat :: from <= n < to && schedule(n).Cancels?
  }

  /** What leaves an await or the transaction: nothing, a cancellation, or another exception. */
  datatype Raised = Nothing | Cancelled | Failed

  /** How the statements inside the transaction end. */
  datatype Body = Returns | Raises | IsCancelled

  lemma EndsOnce(schedule: Schedule, m: nat, n: nat, a: bool, b: bool)
    requires EndsAt(schedule, m, a) && EndsAt(schedule, n, b)
    ensures m == n && a == b
  {
    assert !(m < n) && !(n < m);
  }

  class Session<T> {
    /** What is durable in the database. */
    var stored: T
    /** How many ticks have passed since the transaction's body ended. */
    var now: nat
    var done: bool
    var failed: bool

    constructor (initial: T)
      ensures stored == initial
    {
      stored, now, done, failed := initial, 0, false, false;
    }

    /** The task is where the ticks so far have brought it, and the database with it. */
    ghost predicate Tracks(schedule: Schedule, before: T, staged: T)
      reads this
    {
      && (done ==> EndedBefore(schedule, now, !failed))
      && (!done ==> forall n: nat | n < now :: !schedule(n).Finishes?)
      && stored == if done && !failed then staged else before
    }

    /** One tick; the task's end writes the database. */
    method Tick(schedule: Schedule, staged: T, ghost before: T) returns (tick: Tick)
      requires Tracks(schedule, before, staged)
      modifies this
      ensures Tracks(schedule, before, staged) && now == old(now) + 1 && tick == schedule(old(now))
      ensures old(done) || tick.Finishes? ==> done
    {
      tick := schedule(now);
      if tick.Finishes? && !done {
        done, failed := true, !tick.ok;
        if tick.ok {
          stored := staged;
        }
        assert EndsAt(schedule, now, !failed);
      }
      now := now + 1;
    }

    /** An await of the shielded task: its end wakes the request, unless a cancel reaches the request first. */
    method AwaitShield(schedule: Schedule, staged: T, ghost before: T) returns (raised: Raised)
      requires Fair(schedule) && Tracks(schedule, before, staged)
      modifies this
      ensures Tracks(schedule, before, staged) && now > old(now)
      ensures raised == Nothing ==> done && !failed
      ensures raised == Failed ==> done && failed
      ensures raised == Cancelled <==> CancelsIn(schedule, old(now), now)
    {
      ghost var end: nat :| schedule(end).Finishes?;
      ghost var from: nat := if now <= end then end + 1 else now;
      assert WakesFrom(schedule, from);
      ghost var wake: nat :| from <= wake && schedule(wake).Wakes?;
      raised := Nothing;
      while true
        invariant old(now) <= now <= wake && Tracks(schedule, before, staged) && raised == Nothing
        invariant end < now ==> done
        invariant !CancelsIn(schedule, old(now), now)
        decreases wake - now
      {
        var tick := Tick(schedule, staged, before);
        if tick.Cancels? {
          assert schedule(now - 1).Cancels?;
          return Cancelled;
        }
        if tick.Wakes? && done {
          return if failed then Failed else Nothing;
        }
      }
    }

    /** An await of the clean-up: it ends, or is cancelled; it has nothing to do with the commit. */
    method AwaitCleanup(schedule: Schedule) returns (cancelled: bool)
      requires Fair(schedule)
      modifies this`now
      ensures now > old(now) && (cancelled <==> CancelsIn(schedule, old(now), now))
    {
      assert WakesFrom(schedule, now);
      ghost var wake: nat :| now <= wake && schedule(wake).Wakes?;
      while true
        invariant old(now) <= now <= wake && !CancelsIn(schedule, old(now), now)
        decreases wake - now
      {
        var tick := schedule(now);
        now := now + 1;
        if tick.Cancels? {
          assert schedule(now - 1).Cancels?;
          return true;
        }
        if tick.Wakes? {
          return false;
        }
      }
    }

    /**
     The transaction, for every schedule. It leaves only when the commit task has ended. The flag is set,
     once, exactly when the write has become durable, whatever then leaves the transaction; without it the
     database is as it was. Nothing is raised only over a durable write, and a failure never is.
     */
    method ImmediateWrite(schedule: Schedule, body: Body, staged: T)
      returns (raised: Raised, committed: bool, ghost verdicts: nat)
      requires Fair(schedule)
      modifies this
      ensures body == Returns ==> exists n: nat :: n < now && schedule(n).Finishes?
      ensures committed <==> body == Returns && Commits(schedule)
      ensures stored == if committed then staged else old(stored)
      ensures verdicts == if committed then 1 else 0
      ensures committed ==> (raised == if CancelsIn(schedule, 0, now) then Cancelled else Nothing)
      ensures !committed ==> raised != Nothing
      ensures !committed && raised == Cancelled ==> body == IsCancelled || CancelsIn(schedule, 0, now)
      ensures !committed && raised == Failed ==> body != IsCancelled
    {
      committed, verdicts := false, 0;
      now, done, failed := 0, false, false;
      if body != Returns {
        raised := if body == Raises then Failed else Cancelled;
        var inRollback := AwaitCleanup(schedule);
        raised := if inRollback then Cancelled else raised;
      } else {
        ghost var before := stored;
        raised := AwaitShield(schedule, staged, before);
        if raised == Cancelled {
          raised := AwaitVerdict(schedule, staged, before);
          if raised == Nothing {
            committed, verdicts := true, verdicts + 1;
            raised := Cancelled;
          }
        } else if raised == Nothing {
          committed, verdicts := true, verdicts + 1;
        }
        TaskDecides(schedule);
      }
      ghost var left := now;
      var atEnd := AwaitCleanup(schedule);
      raised := if atEnd then Cancelled else raised;
      CancelsSplit(schedule, left, now);
    }

    /** Every further cancel only restarts the wait: it ends with the task. */
    method AwaitVerdict(schedule: Schedule, staged: T, ghost before: T) returns (raised: Raised)
      requires Fair(schedule) && Tracks(schedule, before, staged)
      modifies this
      ensures Tracks(schedule, before, staged) && done && now >= old(now)
      ensures raised == if failed then Failed else Nothing
    {
      ghost var end: nat :| schedule(end).Finishes?;
      while !done
        invariant Tracks(schedule, before, staged) && now >= old(now)
        decreases if done then 0 else if now <= end then end + 1 - now else 0
      {
        var again := AwaitShield(schedule, staged, before);
        if again == Failed {
          return Failed;
        }
      }
      return if failed then Failed else Nothing;
    }

    lemma TaskDecides(schedule: Schedule)
      requires done ==> EndedBefore(schedule, now, !failed)
      ensures done ==> (Commits(schedule) <==> !failed)
      ensures done ==> exists n: nat :: n < now && schedule(n).Finishes?
    {
      if done {
        var n: nat :| n < now && EndsAt(schedule, n, !failed);
        forall m: nat | EndsAt(schedule, m, true) ensures !failed {
          EndsOnce(schedule, m, n, true, !failed);
        }
        assert schedule(n).Finishes?;
      }
    }
  }

  lemma CancelsSplit(schedule: Schedule, mid: nat, to: nat)
    requires mid <= to
    ensures CancelsIn(schedule, 0, to) <==> CancelsIn(schedule, 0, mid) || CancelsIn(schedule, mid, to)
  {
  }
}
