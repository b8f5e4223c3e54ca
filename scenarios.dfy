/**
 * Whole-system runs: the workers one after the other against one pool, and
 * the start/start/stop sequence through MainService.
 */
module Scenarios {
  import opened Lang
  import opened Logging
  import opened Config
  import opened Pool
  import opened Vendors
  import opened Customers
  import opened Threads
  import opened Services

  /**
   * A vendor filling an empty pool, then a customer: the customer buys the
   * vendor's tickets in release order, as many as its attempts and the pool allow.
   */
  lemma ProducedThenConsumed(vendor: string, customer: string, quota: int, cap: int, limit: int,
                             clock: nat -> int, vendorInterrupts: nat -> bool, customerInterrupts: nat -> bool)
    ensures var added := Releases(vendor, 0, 0, quota, cap, clock, vendorInterrupts, false).added;
            var r := Purchases(customer, added, 0, limit, customerInterrupts);
            && r.bought + r.remaining == added
            && |r.bought| == Min(Attempts(customerInterrupts, 0, limit), Min(Max(quota, 0), Max(cap, 0)))
  {
    var added := Releases(vendor, 0, 0, quota, cap, clock, vendorInterrupts, false).added;
    ReleasedCount(vendor, 0, 0, quota, cap, clock, vendorInterrupts, false);
    BoughtFromHead(customer, added, 0, limit, customerInterrupts);
    BoughtCount(customer, added, 0, limit, customerInterrupts);
  }

  /**
   * A vendor with release rate 5 and capacity 5 fills an empty pool; two
   * customers with retrieval rate 2 follow, uninterrupted; one ticket is left.
   */
  method SequentialRun(clock: nat -> int) returns (left: int)
    ensures left == 1
  {
    var log := new LoggingService();
    var pool := new TicketPool(log);
    var vendor := new Vendor(pool, 5, 5, log);
    var first := new Customer(pool, 2, log);
    var second := new Customer(pool, 2, log);
    var never := (i: nat) => false;
    vendor.Run("Vendor-1", clock, never);
    ReleasedCount("Vendor-1", 0, 0, 5, 5, clock, never, false);
    assert |pool.tickets| == 5;
    var before := pool.tickets;
    first.Run("Customer-1", never);
    BoughtFromHead("Customer-1", before, 0, 2, never);
    BoughtCount("Customer-1", before, 0, 2, never);
    assert Attempts(never, 0, 2) == 2;
    before := pool.tickets;
    second.Run("Customer-2", never);
    BoughtFromHead("Customer-2", before, 0, 2, never);
    BoughtCount("Customer-2", before, 0, 2, never);
    left := pool.GetCurrentTicketCount();
  }

  /** One vendor and one customer, with every setting present. */
  function SmallConfig(): (c: MainConfig)
    ensures Valid(c)
  {
    Create(Some(10), Some(2), Some(1), Some(5), Some(1), Some(1), true)
  }

  /**
   * startSystem twice, then stopSystem, as written: the second start swaps in
   * new workers before it throws, so the first vendor is never interrupted,
   * is no longer listed, and the service reports that nothing is running.
   */
  method SecondStartOrphansWorker()
    returns (first: Outcome, second: Outcome, stop: Outcome, orphanLive: bool, orphanListed: bool, running: bool)
    ensures first == Pass && second == Fail(IllegalState(AlreadyRunningMessage)) && stop == Pass
    ensures orphanLive && !orphanListed && !running
  {
    var log := new LoggingService();
    var threads := new ThreadService(log);
    var service := new MainService([], threads);
    ValidPlan(SmallConfig());
    first := service.StartSystem(Some(SmallConfig()));
    var worker := threads.threads[0];
    second := service.StartSystem(Some(SmallConfig()));
    stop := service.StopSystem();
    orphanLive := worker.started && !worker.interrupted;
    orphanListed := worker in threads.threads;
    running := threads.running;
  }

  /** The same calls with the running check first: the stop reaches the vendor that was started. */
  method SecondStartGuarded()
    returns (first: Outcome, second: Outcome, stop: Outcome, orphanLive: bool, running: bool)
    ensures first == Pass && second == Fail(IllegalState(AlreadyRunningMessage)) && stop == Pass
    ensures !orphanLive && !running
  {
    var log := new LoggingService();
    var threads := new ThreadService(log);
    var service := new MainService([], threads);
    ValidPlan(SmallConfig());
    first := service.StartSystemGuarded(Some(SmallConfig()));
    var worker := threads.threads[0];
    second := service.StartSystemGuarded(Some(SmallConfig()));
    stop := service.StopSystem();
    orphanLive := worker.started && !worker.interrupted;
    running := threads.running;
  }
}
