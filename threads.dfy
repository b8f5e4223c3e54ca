/**
 * The worker threads and their supervisor (ThreadService.java). A worker is a
 * java.lang.Thread running a Vendor or a Customer; the model keeps what the
 * thread was built with (its name and its task's settings) and the two facts
 * start and stop change about it: whether it was started and whether it was
 * interrupted.
 */
module Threads {
  import opened Lang
  import opened Logging
  import opened Config

  /** What a worker runs: a Vendor or a Customer with its constructor's int settings. */
  datatype Task =
    | VendorTask(ticketsToRelease: int32, maxCapacity: int32)
    | CustomerTask(retrievalLimit: int32)

  /** What a worker is built with. */
  datatype Spec = Spec(name: string, task: Task)

  const AlreadyRunningMessage := "Threads are already running."
  const NotRunningMessage := "Threads are not running."
  const StartedMessage := "All threads started."
  const StoppedMessage := "All threads stopped."

  /** `"Vendor-" + (i + 1)`. */
  function VendorName(i: nat): string {
    "Vendor-" + IntToString(i + 1)
  }

  /** `"Customer-" + (i + 1)`. */
  function CustomerName(i: nat): string {
    "Customer-" + IntToString(i + 1)
  }

  function ConfiguredMessage(vendors: int32, customers: int32): string {
    "System configured with " + IntToString(vendors as int) + " vendors and "
    + IntToString(customers as int) + " customers."
  }

  class Worker {
    const name: string
    const task: Task
    var started: bool
    var interrupted: bool

    constructor (name: string, task: Task)
      ensures this.name == name && this.task == task && !started && !interrupted
    {
      this.name := name;
      this.task := task;
      started := false;
      interrupted := false;
    }

    /** `Thread.start`: a thread starts at most once; a second start throws IllegalThreadStateException. */
    method Start() returns (outcome: Outcome)
      modifies this
      ensures outcome == (if old(started) then Fail(IllegalThreadState) else Pass)
      ensures started && interrupted == old(interrupted)
    {
      if started {
        return Fail(IllegalThreadState);
      }
      started := true;
      return Pass;
    }

    /** `Thread.interrupt`: records the interrupt request, started or not. */
    method Interrupt()
      modifies this
      ensures interrupted && started == old(started)
    {
      interrupted := true;
    }
  }

  function Describe(w: Worker): Spec {
    Spec(w.name, w.task)
  }

  /** What the listed workers were built with, in order. */
  function Describes(ws: seq<Worker>): (specs: seq<Spec>)
    ensures |specs| == |ws|
  {
    seq(|ws|, k requires 0 <= k < |ws| => Describe(ws[k]))
  }

  /** The effect of `configure`: the workers built, in order, how it ends, and what it logs. */
  datatype Plan = Plan(workers: seq<Spec>, outcome: Outcome, lines: seq<string>)

  /** `createVendorThreads` for n >= 1 vendors. */
  function VendorSpecs(n: nat, rate: int32, capacity: int32): (specs: seq<Spec>)
    ensures |specs| == n
  {
    seq(n, i requires 0 <= i < n => Spec(VendorName(i), VendorTask(rate, capacity)))
  }

  /** `createCustomerThreads` for n >= 1 customers. */
  function CustomerSpecs(n: nat, limit: int32): (specs: seq<Spec>)
    ensures |specs| == n
  {
    seq(n, i requires 0 <= i < n => Spec(CustomerName(i), CustomerTask(limit)))
  }

  /** The vendors `createVendorThreads` builds, once the settings it unboxes are known to be there. */
  function VendorPhase(c: MainConfig): seq<Spec>
    requires c.numberOfVendors.Some?
    requires c.numberOfVendors.value > 0 ==> c.ticketReleaseRate.Some? && c.maxTicketCapacity.Some?
  {
    if c.numberOfVendors.value > 0
    then VendorSpecs(c.numberOfVendors.value as nat, c.ticketReleaseRate.value, c.maxTicketCapacity.value)
    else []
  }

  /** The customers `createCustomerThreads` builds, once the settings it unboxes are known to be there. */
  function CustomerPhase(c: MainConfig): seq<Spec>
    requires c.numberOfCustomers.Some?
    requires c.numberOfCustomers.value > 0 ==> c.customerRetrievalRate.Some?
  {
    if c.numberOfCustomers.value > 0
    then CustomerSpecs(c.numberOfCustomers.value as nat, c.customerRetrievalRate.value)
    else []
  }

  /**
   * `configure`. Each loop test unboxes the Integer count and each body unboxes
   * the Integer settings it passes on, so a null count, or a null setting when
   * the count admits a first iteration, throws NullPointerException there.
   */
  function Planned(c: MainConfig): Plan {
    if c.numberOfVendors.None? then Plan([], Fail(NullPointer), [])
    else if c.numberOfVendors.value > 0 && (c.ticketReleaseRate.None? || c.maxTicketCapacity.None?) then
      Plan([], Fail(NullPointer), [])
    else if c.numberOfCustomers.None? then Plan(VendorPhase(c), Fail(NullPointer), [])
    else if c.numberOfCustomers.value > 0 && c.customerRetrievalRate.None? then Plan(VendorPhase(c), Fail(NullPointer), [])
    else Plan(VendorPhase(c) + CustomerPhase(c), Pass,
              [ConfiguredMessage(c.numberOfVendors.value, c.numberOfCustomers.value)])
  }

  /** The index of the first started flag, or the length when there is none. */
  function FirstStarted(flags: seq<bool>): (j: nat)
    ensures j <= |flags|
    ensures forall k :: 0 <= k < j ==> !flags[k]
    ensures j < |flags| ==> flags[j]
  {
    if flags == [] then 0 else if flags[0] then 0 else 1 + FirstStarted(flags[1..])
  }

  class ThreadService {
    const log: LoggingService
    var threads: seq<Worker>
    var running: bool
    /** Every worker this service has built. */
    ghost var spawned: seq<Worker>

    constructor (log: LoggingService)
      ensures this.log == log && threads == [] && !running && spawned == []
    {
      this.log := log;
      threads := [];
      running := false;
      spawned := [];
    }

    /** No worker is listed twice. */
    predicate Valid()
      reads this
    {
      forall j, k :: 0 <= j < k < |threads| ==> threads[j] != threads[k]
    }

    /**
     * Every worker that was started and not interrupted is still listed, so
     * `stopThreads` reaches it; when not running there is none.
     */
    ghost predicate Accounted()
      reads this, spawned
    {
      forall w :: w in spawned && w.started && !w.interrupted ==> running && w in threads
    }

    function StartedFlags(): seq<bool>
      reads this, threads
    {
      seq(|threads|, k requires 0 <= k < |threads| reads this, threads => threads[k].started)
    }

    /** The workers listed from index `from` on are new, not started and not interrupted. */
    ghost predicate FreshFrom(from: nat)
      reads this, threads
    {
      forall k :: from <= k < |threads| ==> !threads[k].started && !threads[k].interrupted
    }

    /**
     * `configure`: the list is cleared and rebuilt as Planned says, vendors
     * first, fresh and not started; `running` is neither read nor changed.
     */
    method Configure(config: MainConfig) returns (outcome: Outcome)
      modifies this, log
      ensures Valid() && running == old(running)
      ensures outcome == Planned(config).outcome
      ensures Describes(threads) == Planned(config).workers
      ensures FreshFrom(0)
      ensures forall k :: 0 <= k < |threads| ==> fresh(threads[k])
      ensures spawned == old(spawned) + threads
      ensures log.logs == old(log.logs) + Planned(config).lines
      ensures !old(running) && old(Accounted()) ==> Accounted()
    {
      outcome := Rebuild(config);
      if outcome.Pass? {
        log.AddLog(ConfiguredMessage(config.numberOfVendors.value, config.numberOfCustomers.value));
      }
      spawned := spawned + threads;
    }

    /** The first three lines of `configure`: clear the list, then create the vendors and the customers. */
    method Rebuild(config: MainConfig) returns (outcome: Outcome)
      modifies this
      ensures Valid() && running == old(running) && spawned == old(spawned)
      ensures outcome == Planned(config).outcome
      ensures outcome.Pass? ==> Planned(config).lines
                                == [ConfiguredMessage(config.numberOfVendors.value, config.numberOfCustomers.value)]
      ensures outcome.Fail? ==> Planned(config).lines == []
      ensures Describes(threads) == Planned(config).workers
      ensures FreshFrom(0)
      ensures forall k :: 0 <= k < |threads| ==> fresh(threads[k])
    {
      threads := [];
      outcome := CreateVendorThreads(config);
      if outcome.Pass? {
        outcome := CreateCustomerThreads(config);
        if outcome.Pass? {
          assert Describes(threads) == VendorPhase(config) + CustomerPhase(config);
        }
      }
    }

    /**
     * `startThreads`: refused while running; otherwise `running` becomes true
     * and the listed workers are started in order, up to the first one that
     * was already started, whose start throws.
     */
    method StartThreads() returns (outcome: Outcome)
      requires Valid()
      modifies this, log, threads
      ensures threads == old(threads) && spawned == old(spawned) && running
      ensures old(running) ==> outcome == Fail(IllegalState(AlreadyRunningMessage)) && log.logs == old(log.logs)
                               && forall k :: 0 <= k < |threads| ==> threads[k].started == old(threads[k].started)
      ensures !old(running) ==>
                && outcome == (if FirstStarted(old(StartedFlags())) < |threads| then Fail(IllegalThreadState) else Pass)
                && (forall k :: 0 <= k < |threads| ==>
                      threads[k].started == (k < FirstStarted(old(StartedFlags())) || old(threads[k].started)))
                && log.logs == old(log.logs) + (if outcome.Pass? then [StartedMessage] else [])
      ensures forall k :: 0 <= k < |threads| ==> threads[k].interrupted == old(threads[k].interrupted)
      ensures old(Accounted()) ==> Accounted()
    {
      if running {
        return Fail(IllegalState(AlreadyRunningMessage));
      }
      ghost var flags := StartedFlags();
      ghost var first := FirstStarted(flags);
      running := true;
      var i := 0;
      while i < |threads|
        invariant 0 <= i <= first
        invariant threads == old(threads) && spawned == old(spawned) && running && log.logs == old(log.logs)
        invariant forall k :: 0 <= k < |threads| ==> threads[k].started == (k < i || old(threads[k].started))
        invariant forall k :: 0 <= k < |threads| ==> threads[k].interrupted == old(threads[k].interrupted)
      {
        outcome := threads[i].Start();
        if outcome.Fail? {
          assert flags[i];
          return;
        }
        i := i + 1;
      }
      log.AddLog(StartedMessage);
      return Pass;
    }

    /**
     * `stopThreads`: refused when not running; otherwise every listed worker
     * is interrupted, `running` becomes false and the list is kept.
     */
    method StopThreads() returns (outcome: Outcome)
      requires Valid()
      modifies this, log, threads
      ensures threads == old(threads) && spawned == old(spawned)
      ensures forall k :: 0 <= k < |threads| ==> threads[k].started == old(threads[k].started)
      ensures !old(running) ==> outcome == Fail(IllegalState(NotRunningMessage)) && !running && log.logs == old(log.logs)
                                && forall k :: 0 <= k < |threads| ==> threads[k].interrupted == old(threads[k].interrupted)
      ensures old(running) ==> outcome == Pass && !running && log.logs == old(log.logs) + [StoppedMessage]
                               && forall k :: 0 <= k < |threads| ==> threads[k].interrupted
      ensures old(Accounted()) ==> Accounted()
    {
      if !running {
        return Fail(IllegalState(NotRunningMessage));
      }
      var i := 0;
      while i < |threads|
        invariant 0 <= i <= |threads|
        invariant threads == old(threads) && spawned == old(spawned) && running && log.logs == old(log.logs)
        invariant forall k :: 0 <= k < |threads| ==> threads[k].started == old(threads[k].started)
        invariant forall k :: 0 <= k < |threads| ==> threads[k].interrupted == (k < i || old(threads[k].interrupted))
      {
        threads[i].Interrupt();
        i := i + 1;
      }
      running := false;
      log.AddLog(StoppedMessage);
      return Pass;
    }

    /** `createVendorThreads`: appends Vendor-1, Vendor-2, ... with the release rate and the capacity. */
    method CreateVendorThreads(config: MainConfig) returns (outcome: Outcome)
      requires Valid() && FreshFrom(0)
      modifies this
      ensures Valid() && FreshFrom(0) && running == old(running)
      ensures outcome.Fail? <==> (config.numberOfVendors.None?
              || (config.numberOfVendors.value > 0 && (config.ticketReleaseRate.None? || config.maxTicketCapacity.None?)))
      ensures outcome.Fail? ==> outcome == Fail(NullPointer) && threads == old(threads)
      ensures outcome.Pass? ==> Describes(threads) == Describes(old(threads)) + VendorPhase(config)
      ensures threads[..|old(threads)|] == old(threads)
      ensures forall k :: |old(threads)| <= k < |threads| ==> fresh(threads[k])
      ensures spawned == old(spawned)
    {
      if config.numberOfVendors.None? {
        return Fail(NullPointer);
      }
      var count := config.numberOfVendors.value as int;
      var i := 0;
      while i < count
        invariant 0 <= i <= Max(count, 0) && |threads| == |old(threads)| + i
        invariant i > 0 ==> config.ticketReleaseRate.Some? && config.maxTicketCapacity.Some?
        invariant forall k :: 0 <= k < i ==>
                    Describe(threads[|old(threads)| + k]) == Spec(VendorName(k), VendorTask(config.ticketReleaseRate.value,
                                                                                           config.maxTicketCapacity.value))
        invariant threads[..|old(threads)|] == old(threads)
        invariant forall k :: |old(threads)| <= k < |threads| ==> fresh(threads[k])
        invariant Valid() && FreshFrom(0)
        invariant running == old(running) && spawned == old(spawned)
      {
        if config.ticketReleaseRate.None? || config.maxTicketCapacity.None? {
          return Fail(NullPointer);
        }
        var w := new Worker(VendorName(i), VendorTask(config.ticketReleaseRate.value, config.maxTicketCapacity.value));
        threads := threads + [w];
        i := i + 1;
      }
      return Pass;
    }

    /** `createCustomerThreads`: appends Customer-1, Customer-2, ... with the retrieval rate. */
    method CreateCustomerThreads(config: MainConfig) returns (outcome: Outcome)
      requires Valid() && FreshFrom(0)
      modifies this
      ensures Valid() && FreshFrom(0) && running == old(running)
      ensures outcome.Fail? <==> (config.numberOfCustomers.None?
              || (config.numberOfCustomers.value > 0 && config.customerRetrievalRate.None?))
      ensures outcome.Fail? ==> outcome == Fail(NullPointer) && threads == old(threads)
      ensures outcome.Pass? ==> Describes(threads) == Describes(old(threads)) + CustomerPhase(config)
      ensures threads[..|old(threads)|] == old(threads)
      ensures forall k :: |old(threads)| <= k < |threads| ==> fresh(threads[k])
      ensures spawned == old(spawned)
    {
      if config.numberOfCustomers.None? {
        return Fail(NullPointer);
      }
      var count := config.numberOfCustomers.value as int;
      var i := 0;
      while i < count
        invariant 0 <= i <= Max(count, 0) && |threads| == |old(threads)| + i
        invariant i > 0 ==> config.customerRetrievalRate.Some?
        invariant forall k :: 0 <= k < i ==>
                    Describe(threads[|old(threads)| + k]) == Spec(CustomerName(k), CustomerTask(config.customerRetrievalRate.value))
        invariant threads[..|old(threads)|] == old(threads)
        invariant forall k :: |old(threads)| <= k < |threads| ==> fresh(threads[k])
        invariant Valid() && FreshFrom(0)
        invariant running == old(running) && spawned == old(spawned)
      {
        if config.customerRetrievalRate.None? {
          return Fail(NullPointer);
        }
        var w := new Worker(CustomerName(i), CustomerTask(config.customerRetrievalRate.value));
        threads := threads + [w];
        i := i + 1;
      }
      return Pass;
    }
  }

  /** `configure` throws exactly when a count it unboxes is null, or a setting whose count admits one worker is. */
  lemma PlannedFailsOnNull(c: MainConfig)
    ensures var p := Planned(c);
            && (p.outcome.Fail? <==> (|| c.numberOfVendors.None?
                                      || (c.numberOfVendors.value > 0 && (c.ticketReleaseRate.None? || c.maxTicketCapacity.None?))
                                      || c.numberOfCustomers.None?
                                      || (c.numberOfCustomers.value > 0 && c.customerRetrievalRate.None?)))
            && (p.outcome.Fail? ==> p.outcome == Fail(NullPointer) && p.lines == [])
  {
  }

  /**
   * A configuration that passes validation builds numberOfVendors vendors and
   * then numberOfCustomers customers, each with its settings and its name.
   */
  lemma ValidPlan(c: MainConfig)
    requires Valid(c)
    ensures var p := Planned(c);
            var (v, n) := (c.numberOfVendors.value as int, c.numberOfCustomers.value as int);
            && p.outcome == Pass
            && p.lines == [ConfiguredMessage(c.numberOfVendors.value, c.numberOfCustomers.value)]
            && |p.workers| == v + n
            && (forall k :: 0 <= k < v ==>
                  p.workers[k] == Spec(VendorName(k), VendorTask(c.ticketReleaseRate.value, c.maxTicketCapacity.value)))
            && (forall k :: v <= k < v + n ==>
                  p.workers[k] == Spec(CustomerName(k - v), CustomerTask(c.customerRetrievalRate.value)))
  {
  }

  /** Vendor and customer names never collide: they differ in their first letter. */
  lemma VendorIsNotCustomer(i: nat, j: nat)
    ensures VendorName(i) != CustomerName(j)
  {
    assert VendorName(i)[0] == 'V' && CustomerName(j)[0] == 'C';
  }

  lemma VendorNameInjective(i: nat, j: nat)
    requires i != j
    ensures VendorName(i) != VendorName(j)
  {
    if VendorName(i) == VendorName(j) {
      PrefixedIntInjective("Vendor-", i + 1, j + 1);
    }
  }

  lemma CustomerNameInjective(i: nat, j: nat)
    requires i != j
    ensures CustomerName(i) != CustomerName(j)
  {
    if CustomerName(i) == CustomerName(j) {
      PrefixedIntInjective("Customer-", i + 1, j + 1);
    }
  }

  /** Vendors named in order followed by customers named in order all have names of their own. */
  lemma NamesDistinct(vs: seq<Spec>, cs: seq<Spec>)
    requires forall k :: 0 <= k < |vs| ==> vs[k].name == VendorName(k)
    requires forall k :: 0 <= k < |cs| ==> cs[k].name == CustomerName(k)
    ensures forall j, k :: 0 <= j < k < |vs + cs| ==> (vs + cs)[j].name != (vs + cs)[k].name
  {
    var w := vs + cs;
    forall j, k | 0 <= j < k < |w|
      ensures w[j].name != w[k].name
    {
      if k < |vs| {
        VendorNameInjective(j, k);
      } else if j >= |vs| {
        assert w[j] == cs[j - |vs|] && w[k] == cs[k - |vs|];
        CustomerNameInjective(j - |vs|, k - |vs|);
      } else {
        assert w[k] == cs[k - |vs|];
        VendorIsNotCustomer(j, k - |vs|);
      }
    }
  }

  /** Every worker `configure` builds has a name of its own. */
  lemma PlannedNamesDistinct(c: MainConfig)
    ensures var w := Planned(c).workers;
            forall j, k :: 0 <= j < k < |w| ==> w[j].name != w[k].name
  {
    var w := Planned(c).workers;
    if w != [] {
      var vs := VendorPhase(c);
      assert forall k :: 0 <= k < |vs| ==> vs[k].name == VendorName(k);
      if w == vs {
        NamesDistinct(vs, []);
        assert vs + [] == vs;
      } else {
        var cs := CustomerPhase(c);
        assert w == vs + cs;
        assert forall k :: 0 <= k < |cs| ==> cs[k].name == CustomerName(k);
        NamesDistinct(vs, cs);
      }
    }
  }

  /** The two guarded calls of the service's lifecycle. */
  datatype Call = StartCall | StopCall

  /**
   * Whether a call gets past the `running` guard. Either way the flag ends up
   * true after a start and false after a stop.
   */
  predicate Admitted(running: bool, call: Call) {
    running != (call == StartCall)
  }

  /** The calls of a sequence that get past the guard, from the given `running` flag. */
  function AdmittedCalls(running: bool, calls: seq<Call>): seq<Call>
    decreases |calls|
  {
    if calls == [] then []
    else (if Admitted(running, calls[0]) then [calls[0]] else []) + AdmittedCalls(calls[0] == StartCall, calls[1..])
  }

  /** Admitted starts and stops strictly alternate, beginning with a start when the service is not running. */
  lemma {:induction false} AdmittedAlternate(running: bool, calls: seq<Call>)
    ensures forall k :: 0 <= k < |AdmittedCalls(running, calls)| ==>
              AdmittedCalls(running, calls)[k] == (if (k % 2 == 0) != running then StartCall else StopCall)
    decreases |calls|
  {
    if calls != [] {
      var next := calls[0] == StartCall;
      AdmittedAlternate(next, calls[1..]);
      var rest := AdmittedCalls(next, calls[1..]);
      if Admitted(running, calls[0]) {
        var a := AdmittedCalls(running, calls);
        assert a == [calls[0]] + rest;
        forall k | 1 <= k < |a|
          ensures a[k] == (if (k % 2 == 0) != running then StartCall else StopCall)
        {
          assert a[k] == rest[k - 1];
          assert ((k - 1) % 2 == 0) == (k % 2 != 0);
        }
      } else {
        assert AdmittedCalls(running, calls) == rest;
      }
    }
  }

  /** One call of a sequence, then the rest from the flag that call leaves. */
  lemma AdmittedCallsUnfold(running: bool, calls: seq<Call>, i: nat)
    requires i < |calls|
    ensures AdmittedCalls(running, calls[i..])
         == (if Admitted(running, calls[i]) then [calls[i]] else []) + AdmittedCalls(calls[i] == StartCall, calls[i + 1..])
  {
    assert calls[i..][1..] == calls[i + 1..];
  }

  /** One more call issued keeps the loop invariant of Drive. */
  lemma AdmittedStep(admitted: seq<Call>, running: bool, calls: seq<Call>, i: nat, total: seq<Call>)
    requires i < |calls|
    requires admitted + AdmittedCalls(running, calls[i..]) == total
    ensures (if Admitted(running, calls[i]) then admitted + [calls[i]] else admitted)
            + AdmittedCalls(calls[i] == StartCall, calls[i + 1..]) == total
  {
    AdmittedCallsUnfold(running, calls, i);
    AppendAssoc(admitted, [calls[i]], AdmittedCalls(calls[i] == StartCall, calls[i + 1..]));
  }

  /**
   * Issue one `startThreads` or `stopThreads`: it gets past the running guard
   * (any outcome but IllegalStateException) exactly when Admitted says, and
   * leaves `running` as Admitted's next state.
   */
  method Issue(ts: ThreadService, call: Call) returns (passed: bool)
    requires ts.Valid()
    modifies ts, ts.log, ts.threads
    ensures ts.Valid() && ts.threads == old(ts.threads)
    ensures passed == Admitted(old(ts.running), call)
    ensures ts.running == (call == StartCall)
  {
    var outcome;
    if call == StartCall {
      outcome := ts.StartThreads();
    } else {
      outcome := ts.StopThreads();
    }
    passed := !(outcome.Fail? && outcome.error.IllegalState?);
  }

  /**
   * Issue the calls in order: the ones the guard lets through are those
   * AdmittedCalls predicts, so they strictly alternate.
   */
  method Drive(ts: ThreadService, calls: seq<Call>) returns (admitted: seq<Call>)
    requires ts.Valid()
    modifies ts, ts.log, ts.threads
    ensures ts.threads == old(ts.threads)
    ensures admitted == AdmittedCalls(old(ts.running), calls)
    ensures forall k :: 0 <= k < |admitted| ==>
              admitted[k] == (if (k % 2 == 0) != old(ts.running) then StartCall else StopCall)
  {
    ghost var running0 := ts.running;
    admitted := [];
    var i := 0;
    assert calls[0..] == calls;
    while i < |calls|
      invariant 0 <= i <= |calls|
      invariant ts.Valid() && ts.threads == old(ts.threads)
      invariant admitted + AdmittedCalls(ts.running, calls[i..]) == AdmittedCalls(running0, calls)
    {
      ghost var before := ts.running;
      var passed := Issue(ts, calls[i]);
      AdmittedStep(admitted, before, calls, i, AdmittedCalls(running0, calls));
      if passed {
        admitted := admitted + [calls[i]];
      }
      i := i + 1;
    }
    assert admitted + [] == admitted;
    AdmittedAlternate(running0, calls);
  }
}
