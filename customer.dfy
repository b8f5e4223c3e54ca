/**
 * The consumer worker (Customer.java). One run makes `retrievalLimit`
 * attempts: each buys the head ticket, or logs that none is there, and an
 * interrupt that reaches the sleep after an attempt ends the run early. The
 * thread's name is a parameter and `delivered(i)` says whether an interrupt
 * reaches the sleep of attempt i.
 */
module Customers {
  import opened Lang
  import opened Logging
  import opened Pool

  // one message, written as two literals
  const WaitingMessage := "No tickets available." + " Waiting..."
  const InterruptedMessage := "Customer interrupted"
  const FinishedMessage := "Finished purchasing tickets."

  function PurchasedLine(name: string, ticket: string, count: int): string {
    Line(name, "Purchased " + ticket + ". Current ticket count: " + IntToString(count))
  }

  /** The effect of a run: the tickets bought, the pool left behind, the entries logged. */
  datatype Purchase = Purchase(bought: seq<string>, remaining: seq<string>, lines: seq<string>)

  /** Attempts from i on, against a pool holding `tickets`. */
  function Purchases(name: string, tickets: seq<string>, i: nat, limit: int, delivered: nat -> bool): Purchase
    decreases limit - i
  {
    if i >= limit then Purchase([], tickets, [])
    else
      var bought := if tickets == [] then [] else [tickets[0]];
      var left := if tickets == [] then [] else tickets[1..];
      var step := if tickets == [] then [Line(name, WaitingMessage)]
                  else [RemovedMessage(tickets[0]), PurchasedLine(name, tickets[0], |left|)];
      if delivered(i) then Purchase(bought, left, step + [Line(name, InterruptedMessage)])
      else
        var rest := Purchases(name, left, i + 1, limit, delivered);
        Purchase(bought + rest.bought, rest.remaining, step + rest.lines)
  }

  class Customer {
    const pool: TicketPool
    const retrievalLimit: int32
    const log: LoggingService

    constructor (pool: TicketPool, retrievalLimit: int32, log: LoggingService)
      ensures this.pool == pool && this.retrievalLimit == retrievalLimit && this.log == log
    {
      this.pool := pool;
      this.retrievalLimit := retrievalLimit;
      this.log := log;
    }

    /**
     * One pass of the `run` loop: an attempt, then the sleep. `stepLines` is
     * what the pass logged; the run from attempt i is that pass followed,
     * unless it was interrupted, by the run from attempt i + 1.
     */
    method Attempt(name: string, i: nat, delivered: nat -> bool)
      returns (stop: bool, ghost stepBought: seq<string>, ghost stepLines: seq<string>)
      requires pool.log == log
      requires i < retrievalLimit as int
      modifies pool, log
      ensures stop == delivered(i)
      ensures pool.tickets == (if old(pool.tickets) == [] then [] else old(pool.tickets)[1..])
      ensures stepBought == (if old(pool.tickets) == [] then [] else [old(pool.tickets)[0]])
      ensures stepLines == (if old(pool.tickets) == [] then [Line(name, WaitingMessage)]
                            else [RemovedMessage(old(pool.tickets)[0]),
                                  PurchasedLine(name, old(pool.tickets)[0], |old(pool.tickets)| - 1)])
                           + (if stop then [Line(name, InterruptedMessage)] else [])
      ensures log.logs == old(log.logs) + stepLines
      ensures var here := Purchases(name, old(pool.tickets), i, retrievalLimit as int, delivered);
              var rest := if stop then Purchase([], pool.tickets, [])
                          else Purchases(name, pool.tickets, i + 1, retrievalLimit as int, delivered);
              here == Purchase(stepBought + rest.bought, rest.remaining, stepLines + rest.lines)
    {
      var available := pool.GetAvailableTickets();
      if available == 0 {
        log.AddLog(Line(name, WaitingMessage));
        stepBought, stepLines := [], [Line(name, WaitingMessage)];
      } else {
        var ticket := pool.RemoveTicket();
        var count := pool.GetCurrentTicketCount();
        log.AddLog(PurchasedLine(name, ticket, count));
        stepBought, stepLines := [ticket], [RemovedMessage(ticket), PurchasedLine(name, ticket, count)];
      }
      stop := delivered(i);
      if stop {
        log.AddLog(Line(name, InterruptedMessage));
        stepLines := stepLines + [Line(name, InterruptedMessage)];
        assert stepBought + [] == stepBought && stepLines + [] == stepLines;
      }
    }

    /** `run`: the pool and the log afterwards are those Purchases describes, then the closing entry. */
    method Run(name: string, delivered: nat -> bool)
      requires pool.log == log
      modifies pool, log
      ensures var r := Purchases(name, old(pool.tickets), 0, retrievalLimit as int, delivered);
              pool.tickets == r.remaining && log.logs == old(log.logs) + r.lines + [Line(name, FinishedMessage)]
    {
      var limit := retrievalLimit as int;
      ghost var whole := Purchases(name, pool.tickets, 0, limit, delivered);
      // What the remaining attempts will do.
      ghost var todo := whole;
      var i := 0;
      while i < limit
        invariant 0 <= i
        invariant todo == Purchases(name, pool.tickets, i, limit, delivered)
        invariant whole.remaining == todo.remaining
        invariant old(log.logs) + whole.lines == log.logs + todo.lines
        decreases limit - i
      {
        ghost var logs := log.logs;
        var stop, stepBought, stepLines := Attempt(name, i, delivered);
        if stop {
          todo := Purchase([], pool.tickets, []);
          break;
        }
        todo := Purchases(name, pool.tickets, i + 1, limit, delivered);
        AppendAssoc(logs, stepLines, todo.lines);
        i := i + 1;
      }
      assert log.logs + [] == log.logs;
      log.AddLog(Line(name, FinishedMessage));
    }
  }

  /** Customers take tickets from the head: what was bought followed by what is left is the pool they found. */
  lemma {:induction false} BoughtFromHead(name: string, tickets: seq<string>, i: nat, limit: int, delivered: nat -> bool)
    ensures var r := Purchases(name, tickets, i, limit, delivered);
            tickets == r.bought + r.remaining
    decreases limit - i
  {
    if i < limit {
      var left := if tickets == [] then [] else tickets[1..];
      var bought := if tickets == [] then [] else [tickets[0]];
      assert tickets == bought + left;
      if !delivered(i) {
        var rest := Purchases(name, left, i + 1, limit, delivered);
        BoughtFromHead(name, left, i + 1, limit, delivered);
        AppendAssoc(bought, rest.bought, rest.remaining);
      }
    }
  }

  /** Without interrupts a customer buys exactly the first min(limit, pool size) tickets, in pool order. */
  lemma {:induction false} UninterruptedBuysPrefix(name: string, tickets: seq<string>, i: nat, limit: int,
                                                   delivered: nat -> bool)
    requires forall k: nat :: i <= k ==> !delivered(k)
    ensures Purchases(name, tickets, i, limit, delivered).bought == tickets[..Min(Max(limit - i, 0), |tickets|)]
    decreases limit - i
  {
    if i < limit {
      var left := if tickets == [] then [] else tickets[1..];
      UninterruptedBuysPrefix(name, left, i + 1, limit, delivered);
      if tickets != [] {
        var n := Min(Max(limit - (i + 1), 0), |left|);
        assert tickets[..n + 1] == [tickets[0]] + left[..n];
      }
    }
  }

  /** The number of attempts a run makes: up to and including the first one whose sleep is interrupted. */
  function Attempts(delivered: nat -> bool, i: nat, limit: int): (n: nat)
    ensures n <= Max(limit - i, 0)
    decreases limit - i
  {
    if i >= limit then 0 else if delivered(i) then 1 else 1 + Attempts(delivered, i + 1, limit)
  }

  /** Each attempt buys one ticket while the pool lasts. */
  lemma {:induction false} BoughtCount(name: string, tickets: seq<string>, i: nat, limit: int, delivered: nat -> bool)
    ensures |Purchases(name, tickets, i, limit, delivered).bought| == Min(Attempts(delivered, i, limit), |tickets|)
    decreases limit - i
  {
    if i < limit && !delivered(i) && tickets != [] {
      BoughtCount(name, tickets[1..], i + 1, limit, delivered);
    } else if i < limit && !delivered(i) {
      BoughtCount(name, tickets, i + 1, limit, delivered);
    }
  }

  /**
   * Each attempt logs one entry when the pool is empty and two when it buys,
   * and an interrupted run one more.
   */
  lemma {:induction false} LoggedCount(name: string, tickets: seq<string>, i: nat, limit: int, delivered: nat -> bool)
    ensures var r := Purchases(name, tickets, i, limit, delivered);
            |r.lines| == Attempts(delivered, i, limit) + |r.bought| + (if Interrupted(delivered, i, limit) then 1 else 0)
    decreases limit - i
  {
    if i < limit && !delivered(i) {
      var left := if tickets == [] then [] else tickets[1..];
      LoggedCount(name, left, i + 1, limit, delivered);
    }
  }

  /** Some attempt's sleep, from attempt i up to the limit, is interrupted. */
  predicate Interrupted(delivered: nat -> bool, i: nat, limit: int)
    decreases limit - i
  {
    i < limit && (delivered(i) || Interrupted(delivered, i + 1, limit))
  }

  /**
   * An interrupt is what cuts a run short: the run makes fewer attempts than
   * the limit exactly when an attempt before the last one is interrupted.
   */
  lemma {:induction false} CutShortIffInterrupted(delivered: nat -> bool, i: nat, limit: int)
    ensures Attempts(delivered, i, limit) < Max(limit - i, 0) <==> Interrupted(delivered, i, limit - 1)
    decreases limit - i
  {
    if i < limit && !delivered(i) {
      CutShortIffInterrupted(delivered, i + 1, limit);
    }
  }

  /** An interrupted run logs the interruption as its last entry before the closing one. */
  lemma {:induction false} InterruptLoggedLast(name: string, tickets: seq<string>, i: nat, limit: int, delivered: nat -> bool)
    requires Interrupted(delivered, i, limit)
    ensures var lines := Purchases(name, tickets, i, limit, delivered).lines;
            |lines| > 0 && lines[|lines| - 1] == Line(name, InterruptedMessage)
    decreases limit - i
  {
    if !delivered(i) {
      var left := if tickets == [] then [] else tickets[1..];
      InterruptLoggedLast(name, left, i + 1, limit, delivered);
    }
  }
}
