/**
 * The shared ticket pool (TicketPool.java): an unbounded FIFO list of ticket
 * strings. The pool has no capacity of its own; the bound lives in Vendor.
 */
module Pool {
  import opened Logging

  function AddedMessage(ticket: string): string {
    "Added ticket: " + ticket
  }

  function RemovedMessage(ticket: string): string {
    "Removed ticket: " + ticket
  }

  class TicketPool {
    /** The tickets, head (next to be removed) first. */
    var tickets: seq<string>
    const log: LoggingService

    constructor (log: LoggingService)
      ensures tickets == [] && this.log == log
    {
      tickets := [];
      this.log := log;
    }

    /** `addTicket`: appends at the tail and logs one "Added ticket" entry. */
    method AddTicket(ticket: string)
      modifies this, log
      ensures tickets == old(tickets) + [ticket]
      ensures log.logs == old(log.logs) + [AddedMessage(ticket)]
    {
      tickets := tickets + [ticket];
      log.AddLog(AddedMessage(ticket));
    }

    /**
     * `removeTicket`: takes the head and logs one "Removed ticket" entry.
     * On an empty pool the source blocks in `wait()` and never returns here,
     * so a non-empty pool is what a returning call needs.
     */
    method RemoveTicket() returns (ticket: string)
      requires |tickets| > 0
      modifies this, log
      ensures ticket == old(tickets)[0]
      ensures tickets == old(tickets)[1..]
      ensures log.logs == old(log.logs) + [RemovedMessage(ticket)]
    {
      ticket := tickets[0];
      tickets := tickets[1..];
      log.AddLog(RemovedMessage(ticket));
    }

    /** `getAvailableTickets`: the number of tickets held; changes nothing. */
    method GetAvailableTickets() returns (count: int)
      ensures count == |tickets|
    {
      count := |tickets|;
    }

    /** `getCurrentTicketCount`: the same query under a second name. */
    method GetCurrentTicketCount() returns (count: int)
      ensures count == |tickets|
    {
      count := |tickets|;
    }
  }

  /** Tickets leave the pool in the order they entered it: adding a sequence and removing as many gives it back. */
  method InsertionOrder(ts: seq<string>) returns (removed: seq<string>, left: int)
    ensures removed == ts && left == 0
  {
    var log := new LoggingService();
    var pool := new TicketPool(log);
    var i := 0;
    while i < |ts|
      invariant 0 <= i <= |ts| && pool.tickets == ts[..i]
    {
      pool.AddTicket(ts[i]);
      assert ts[..i + 1] == ts[..i] + [ts[i]];
      i := i + 1;
    }
    removed := [];
    i := 0;
    while i < |ts|
      invariant 0 <= i <= |ts| && pool.tickets == ts[i..] && removed == ts[..i]
    {
      var ticket := pool.RemoveTicket();
      removed := removed + [ticket];
      assert ts[..i + 1] == ts[..i] + [ts[i]];
      i := i + 1;
    }
    left := pool.GetCurrentTicketCount();
  }
}
