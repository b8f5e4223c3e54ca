/**
 * The producer worker (Vendor.java). One run releases up to `ticketsToRelease`
 * tickets and stops for good at the first release that finds the pool at or
 * above `maxCapacity`. Threads and sleeps are abstracted: the thread's name is
 * a parameter, `clock(i)` is the `System.nanoTime()` reading of iteration i,
 * and `delivered(i)` says whether an interrupt reaches the sleep of iteration i.
 */
module Vendors {
  import opened Lang
  import opened Logging
  import opened Pool

  // one message, written as two literals
  const PauseMessage := "Max ticket capacity reached." + " Pausing ticket release."
  const InterruptedMessage := "Vendor interrupted"

  /** `"Ticket-" + System.nanoTime()`. */
  function TicketId(stamp: int): string {
    "Ticket-" + IntToString(stamp)
  }

  function AddedLine(name: string, ticket: string, count: int): string {
    Line(name, "Added " + ticket + ". Current ticket count: " + IntToString(count))
  }

  /** The entries of one iteration that released `ticket`, leaving `count` tickets in the pool. */
  function IterationLines(name: string, ticket: string, count: int, interrupted: bool): seq<string> {
    [AddedMessage(ticket), AddedLine(name, ticket, count)]
    + (if interrupted then [Line(name, InterruptedMessage)] else [])
  }

  /** The effect of a run on the pool and the log: the tickets appended and the entries logged. */
  datatype Release = Release(added: seq<string>, lines: seq<string>)

  /** Whether `entry` is the last of `lines`. */
  predicate EndsWith(lines: seq<string>, entry: string) {
    |lines| > 0 && lines[|lines| - 1] == entry
  }

  /**
   * What a run does from iteration `i` on, with `size` tickets in the pool
   * and `interrupted` the thread's interrupt status.
   */
  function Releases(name: string, size: nat, i: nat, quota: int, cap: int,
                    clock: nat -> int, delivered: nat -> bool, interrupted: bool): Release
    decreases quota - i
  {
    if i >= quota then Release([], [])
    else if size >= cap then Release([], [Line(name, PauseMessage)])
    else
      var ticket := TicketId(clock(i));
      // The catch block restores the interrupt status, so once set it stays set.
      var interrupted' := interrupted || delivered(i);
      var rest := Releases(name, size + 1, i + 1, quota, cap, clock, delivered, interrupted');
      Release([ticket] + rest.added, IterationLines(name, ticket, size + 1, interrupted') + rest.lines)
  }

  class Vendor {
    const pool: TicketPool
    const ticketsToRelease: int32
    const maxCapacity: int32
    const log: LoggingService

    constructor (pool: TicketPool, ticketsToRelease: int32, maxCapacity: int32, log: LoggingService)
      ensures this.pool == pool && this.ticketsToRelease == ticketsToRelease
      ensures this.maxCapacity == maxCapacity && this.log == log
    {
      this.pool := pool;
      this.ticketsToRelease := ticketsToRelease;
      this.maxCapacity := maxCapacity;
      this.log := log;
    }

    /**
     * `releaseTicket`: at or above capacity, logs the pause and reports true with
     * the pool untouched; otherwise appends exactly one ticket and reports false.
     */
    method ReleaseTicket(name: string, stamp: int) returns (atCapacity: bool)
      requires pool.log == log
      modifies pool, log
      ensures atCapacity <==> |old(pool.tickets)| >= maxCapacity as int
      ensures atCapacity ==> (pool.tickets == old(pool.tickets)
                              && log.logs == old(log.logs) + [Line(name, PauseMessage)])
      ensures !atCapacity ==> (pool.tickets == old(pool.tickets) + [TicketId(stamp)]
                               && log.logs == old(log.logs) + [AddedMessage(TicketId(stamp)),
                                                               AddedLine(name, TicketId(stamp), |pool.tickets|)])
    {
      var available := pool.GetAvailableTickets();
      if available >= maxCapacity as int {
        log.AddLog(Line(name, PauseMessage));
        return true;
      }
      var ticket := TicketId(stamp);
      pool.AddTicket(ticket);
      var count := pool.GetCurrentTicketCount();
      log.AddLog(AddedLine(name, ticket, count));
      return false;
    }

    /**
     * `delay`: the sleep throws when the thread is interrupted; the handler
     * restores the status and logs, and the loop goes on.
     */
    method Delay(name: string, interrupted: bool, delivered: bool) returns (stillInterrupted: bool)
      modifies log
      ensures stillInterrupted == (interrupted || delivered)
      ensures log.logs == old(log.logs) + (if stillInterrupted then [Line(name, InterruptedMessage)] else [])
    {
      stillInterrupted := interrupted || delivered;
      if stillInterrupted {
        log.AddLog(Line(name, InterruptedMessage));
      }
    }

    /**
     * One pass of the `run` loop: release, then (if released) sleep. `stepAdded`
     * and `stepLines` are what the pass appended; the run from iteration i is
     * that pass followed, unless it stopped, by the run from iteration i + 1.
     */
    method Iteration(name: string, i: nat, clock: nat -> int, delivered: nat -> bool, interrupted: bool)
      returns (stop: bool, interrupted': bool, ghost stepAdded: seq<string>, ghost stepLines: seq<string>)
      requires pool.log == log
      requires i < ticketsToRelease as int
      modifies pool, log
      ensures pool.tickets == old(pool.tickets) + stepAdded
      ensures log.logs == old(log.logs) + stepLines
      ensures stop <==> |old(pool.tickets)| >= maxCapacity as int
      ensures stop ==> stepAdded == [] && stepLines == [Line(name, PauseMessage)] && interrupted' == interrupted
      ensures !stop ==> && stepAdded == [TicketId(clock(i))]
                        && interrupted' == (interrupted || delivered(i))
                        && stepLines == IterationLines(name, TicketId(clock(i)), |old(pool.tickets)| + 1, interrupted')
      ensures var here := Releases(name, |old(pool.tickets)|, i, ticketsToRelease as int, maxCapacity as int,
                                   clock, delivered, interrupted);
              var rest := if stop then Release([], [])
                          else Releases(name, |pool.tickets|, i + 1, ticketsToRelease as int, maxCapacity as int,
                                        clock, delivered, interrupted');
              here == Release(stepAdded + rest.added, stepLines + rest.lines)
    {
      ghost var before := |pool.tickets|;
      stop := ReleaseTicket(name, clock(i));
      if stop {
        interrupted', stepAdded, stepLines := interrupted, [], [Line(name, PauseMessage)];
        return;
      }
      interrupted' := Delay(name, interrupted, delivered(i));
      stepAdded := [TicketId(clock(i))];
      stepLines := IterationLines(name, TicketId(clock(i)), before + 1, interrupted');
      ReleasesStep(name, before, i, ticketsToRelease as int, maxCapacity as int, clock, delivered, interrupted);
    }

    /** `run`: the pool and the log afterwards are those Releases describes. */
    method Run(name: string, clock: nat -> int, delivered: nat -> bool)
      requires pool.log == log
      modifies pool, log
      ensures var r := Releases(name, |old(pool.tickets)|, 0, ticketsToRelease as int, maxCapacity as int,
                                clock, delivered, false);
              pool.tickets == old(pool.tickets) + r.added && log.logs == old(log.logs) + r.lines
    {
      var quota, cap := ticketsToRelease as int, maxCapacity as int;
      ghost var whole := Releases(name, |pool.tickets|, 0, quota, cap, clock, delivered, false);
      // What the remaining iterations will append.
      ghost var todo := whole;
      var i := 0;
      var interrupted := false;
      while i < quota
        invariant 0 <= i
        invariant todo == Releases(name, |pool.tickets|, i, quota, cap, clock, delivered, interrupted)
        invariant old(pool.tickets) + whole.added == pool.tickets + todo.added
        invariant old(log.logs) + whole.lines == log.logs + todo.lines
        decreases quota - i
      {
        ghost var (tickets, logs, here) := (pool.tickets, log.logs, todo);
        var stop, interrupted', stepAdded, stepLines := Iteration(name, i, clock, delivered, interrupted);
        if stop {
          assert stepAdded + [] == stepAdded && stepLines + [] == stepLines;
          todo := Release([], []);
          break;
        }
        todo := Releases(name, |pool.tickets|, i + 1, quota, cap, clock, delivered, interrupted');
        AppendAssoc(tickets, stepAdded, todo.added);
        AppendAssoc(logs, stepLines, todo.lines);
        interrupted := interrupted';
        i := i + 1;
      }
    }
  }

  /** One iteration that finds room: it releases the next ticket, then the run goes on. */
  lemma ReleasesStep(name: string, size: nat, i: nat, quota: int, cap: int,
                     clock: nat -> int, delivered: nat -> bool, interrupted: bool)
    requires i < quota && size < cap
    ensures var next := Releases(name, size + 1, i + 1, quota, cap, clock, delivered, interrupted || delivered(i));
            var here := Releases(name, size, i, quota, cap, clock, delivered, interrupted);
            && here.added == [TicketId(clock(i))] + next.added
            && here.lines == IterationLines(name, TicketId(clock(i)), size + 1, interrupted || delivered(i)) + next.lines
  {
  }

  /** A run releases min(remaining quota, free room below the capacity) tickets. */
  lemma {:induction false} ReleasedCount(name: string, size: nat, i: nat, quota: int, cap: int,
                                         clock: nat -> int, delivered: nat -> bool, interrupted: bool)
    ensures |Releases(name, size, i, quota, cap, clock, delivered, interrupted).added|
            == Min(Max(quota - i, 0), Max(cap - size, 0))
    decreases quota - i
  {
    if i < quota && size < cap {
      ReleasedCount(name, size + 1, i + 1, quota, cap, clock, delivered, interrupted || delivered(i));
    }
  }

  /** Starting at or below capacity, a run never takes the pool above it. */
  lemma CapacityNeverExceeded(name: string, size: nat, quota: int, cap: int,
                              clock: nat -> int, delivered: nat -> bool)
    requires size <= cap
    ensures size + |Releases(name, size, 0, quota, cap, clock, delivered, false).added| <= cap
  {
    ReleasedCount(name, size, 0, quota, cap, clock, delivered, false);
  }

  /** The ids of `n` tickets stamped with the clock readings of iterations from, from + 1, ... */
  function Stamped(clock: nat -> int, from: nat, n: nat): seq<string> {
    seq(n, k requires 0 <= k < n => TicketId(clock(from + k)))
  }

  /** The tickets a run releases carry the clock readings of its first iterations, in order. */
  lemma {:induction false} ReleasedTickets(name: string, size: nat, i: nat, quota: int, cap: int,
                                           clock: nat -> int, delivered: nat -> bool, interrupted: bool)
    ensures Releases(name, size, i, quota, cap, clock, delivered, interrupted).added
         == Stamped(clock, i, |Releases(name, size, i, quota, cap, clock, delivered, interrupted).added|)
    decreases quota - i
  {
    if i < quota && size < cap {
      var rest := Releases(name, size + 1, i + 1, quota, cap, clock, delivered, interrupted || delivered(i)).added;
      ReleasedTickets(name, size + 1, i + 1, quota, cap, clock, delivered, interrupted || delivered(i));
      StampedCons(clock, i, |rest|);
    }
  }

  /** Peeling the first id off a stamped run. */
  lemma StampedCons(clock: nat -> int, from: nat, n: nat)
    ensures [TicketId(clock(from))] + Stamped(clock, from + 1, n) == Stamped(clock, from, n + 1)
  {
    var a, b := [TicketId(clock(from))] + Stamped(clock, from + 1, n), Stamped(clock, from, n + 1);
    forall k | 0 < k <= n
      ensures a[k] == b[k]
    {
      assert clock(from + 1 + (k - 1)) == clock(from + k);
    }
  }

  /** Interrupts caught in `delay` only add log entries: the tickets released are the same. */
  lemma {:induction false} InterruptsDoNotStopRelease(name: string, size: nat, i: nat, quota: int, cap: int,
                                                      clock: nat -> int, d1: nat -> bool, f1: bool,
                                                      d2: nat -> bool, f2: bool)
    ensures Releases(name, size, i, quota, cap, clock, d1, f1).added
         == Releases(name, size, i, quota, cap, clock, d2, f2).added
    decreases quota - i
  {
    if i < quota && size < cap {
      InterruptsDoNotStopRelease(name, size + 1, i + 1, quota, cap, clock, d1, f1 || d1(i), d2, f2 || d2(i));
    }
  }

  /**
   * The pause entry closes the run's log exactly when the quota outlasts the
   * free room: the run stops at the first capacity hit and never logs after it.
   */
  lemma {:induction false} PausedAtEnd(name: string, size: nat, i: nat, quota: int, cap: int,
                                       clock: nat -> int, delivered: nat -> bool, interrupted: bool)
    ensures EndsWith(Releases(name, size, i, quota, cap, clock, delivered, interrupted).lines, Line(name, PauseMessage))
            <==> quota - i > Max(0, cap - size)
    decreases quota - i
  {
    if i < quota && size < cap {
      var interrupted' := interrupted || delivered(i);
      var step := IterationLines(name, TicketId(clock(i)), size + 1, interrupted');
      var rest := Releases(name, size + 1, i + 1, quota, cap, clock, delivered, interrupted').lines;
      PausedAtEnd(name, size + 1, i + 1, quota, cap, clock, delivered, interrupted');
      IterationDoesNotPause(name, TicketId(clock(i)), size + 1, interrupted');
      EndsWithAppend(step, rest, Line(name, PauseMessage));
    }
  }

  /** The last entry of a concatenation is the last entry of its second part, unless that part is empty. */
  lemma EndsWithAppend(a: seq<string>, b: seq<string>, entry: string)
    ensures EndsWith(a + b, entry) == if b == [] then EndsWith(a, entry) else EndsWith(b, entry)
  {
    if b == [] {
      assert a + b == a;
    }
  }

  /** An iteration that releases a ticket never ends on the pause entry. */
  lemma IterationDoesNotPause(name: string, ticket: string, count: int, interrupted: bool)
    ensures !EndsWith(IterationLines(name, ticket, count, interrupted), Line(name, PauseMessage))
  {
    if interrupted {
      InterruptedIsNotPause(name);
    } else {
      AddedIsNotPause(name, ticket, count);
    }
  }

  /**
   * A run logs the pause entry at most once: exactly once when the quota
   * outlasts the free room, and never otherwise.
   */
  lemma {:induction false} PausedOnce(name: string, size: nat, i: nat, quota: int, cap: int,
                                      clock: nat -> int, delivered: nat -> bool, interrupted: bool)
    ensures multiset(Releases(name, size, i, quota, cap, clock, delivered, interrupted).lines)[Line(name, PauseMessage)]
            == if quota - i > Max(0, cap - size) then 1 else 0
    decreases quota - i
  {
    var pause := Line(name, PauseMessage);
    var here := Releases(name, size, i, quota, cap, clock, delivered, interrupted).lines;
    if i >= quota {
      assert here == [];
    } else if size >= cap {
      assert here == [pause];
    } else {
      var interrupted' := interrupted || delivered(i);
      var step := IterationLines(name, TicketId(clock(i)), size + 1, interrupted');
      var rest := Releases(name, size + 1, i + 1, quota, cap, clock, delivered, interrupted').lines;
      ReleasesStep(name, size, i, quota, cap, clock, delivered, interrupted);
      PausedOnce(name, size + 1, i + 1, quota, cap, clock, delivered, interrupted');
      IterationHasNoPause(name, clock(i), size + 1, interrupted');
      CountAppend(step, rest, pause);
    }
  }

  /** How often an entry occurs in a concatenation, when the first part lacks it. */
  lemma CountAppend(a: seq<string>, b: seq<string>, entry: string)
    requires entry !in a
    ensures multiset(a + b)[entry] == multiset(b)[entry]
  {
    assert multiset(a + b) == multiset(a) + multiset(b);
  }

  /** None of the entries of an iteration that releases a ticket is the pause entry. */
  lemma IterationHasNoPause(name: string, stamp: int, count: int, interrupted: bool)
    ensures Line(name, PauseMessage) !in IterationLines(name, TicketId(stamp), count, interrupted)
  {
    TicketIsNotPause(name, stamp);
    AddedIsNotPause(name, TicketId(stamp), count);
    InterruptedIsNotPause(name);
  }

  /** The pool's entry for a released ticket ends in a digit, the pause entry in a full stop. */
  lemma TicketIsNotPause(name: string, stamp: int)
    ensures AddedMessage(TicketId(stamp)) != Line(name, PauseMessage)
  {
    var pause, added, digits := Line(name, PauseMessage), AddedMessage(TicketId(stamp)), IntToString(stamp);
    assert pause[|pause| - 1] == '.';
    assert added == "Added ticket: Ticket-" + digits;
    assert added[|added| - 1] == digits[|digits| - 1];
    EndsInDigit(stamp);
  }

  lemma InterruptedIsNotPause(name: string)
    ensures Line(name, InterruptedMessage) != Line(name, PauseMessage)
  {
    LineAt(name, InterruptedMessage);
    LineAt(name, PauseMessage);
    assert InterruptedMessage[0] == 'V' && PauseMessage[0] == 'M';
  }

  lemma AddedIsNotPause(name: string, ticket: string, count: int)
    ensures AddedLine(name, ticket, count) != Line(name, PauseMessage)
  {
    var m := "Added " + ticket + ". Current ticket count: " + IntToString(count);
    LineAt(name, m);
    LineAt(name, PauseMessage);
    assert m[0] == 'A' && PauseMessage[0] == 'M';
  }

  /** Distinct clock readings give distinct ticket ids. */
  lemma TicketIdInjective(a: int, b: int)
    requires a != b
    ensures TicketId(a) != TicketId(b)
  {
    if TicketId(a) == TicketId(b) {
      PrefixedIntInjective("Ticket-", a, b);
    }
  }

  /** With a strictly increasing clock, stamped ids are pairwise distinct. */
  lemma StampedDistinct(clock: nat -> int, from: nat, n: nat)
    requires forall a: nat, b: nat :: a < b ==> clock(a) < clock(b)
    ensures forall j, k :: 0 <= j < k < n ==> Stamped(clock, from, n)[j] != Stamped(clock, from, n)[k]
  {
    var ids := Stamped(clock, from, n);
    forall j, k | 0 <= j < k < n
      ensures ids[j] != ids[k]
    {
      assert clock(from + j) < clock(from + k);
      StampedDiffer(clock, from, n, j, k);
    }
  }

  /** Two stamped ids differ when their clock readings do. */
  lemma StampedDiffer(clock: nat -> int, from: nat, n: nat, j: nat, k: nat)
    requires j < n && k < n && clock(from + j) != clock(from + k)
    ensures Stamped(clock, from, n)[j] != Stamped(clock, from, n)[k]
  {
    TicketIdInjective(clock(from + j), clock(from + k));
  }

  /** With a strictly increasing clock, no two tickets of a run share an id. */
  lemma ReleasedTicketsDistinct(name: string, size: nat, quota: int, cap: int,
                                clock: nat -> int, delivered: nat -> bool)
    requires forall a: nat, b: nat :: a < b ==> clock(a) < clock(b)
    ensures forall j, k :: 0 <= j < k < |Releases(name, size, 0, quota, cap, clock, delivered, false).added| ==>
              Releases(name, size, 0, quota, cap, clock, delivered, false).added[j]
              != Releases(name, size, 0, quota, cap, clock, delivered, false).added[k]
  {
    var added := Releases(name, size, 0, quota, cap, clock, delivered, false).added;
    ReleasedTickets(name, size, 0, quota, cap, clock, delivered, false);
    StampedDistinct(clock, 0, |added|);
  }
}
