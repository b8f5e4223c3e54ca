# Ticket system simulation, modelled in Dafny

The Ticket System back end simulates ticket sales as a producer/consumer system:

- **Vendors** release tickets into a shared **ticket pool** until their quota is used up or the pool reaches the configured capacity.
- **Customers** buy tickets from the head of the pool, one attempt at a time.
- A **thread service** builds the workers from a **configuration record** and starts and stops them.
- A **main service** keeps the single stored configuration and drives the thread service.
- Every component appends to one **event log**.

The model describes each worker's `run` as a sequential method over the pool and the log. It does so in two layers:

- Pure specification functions (`Vendors.Releases`, `Customers.Purchases`, `Threads.Planned`) say what a whole run or a whole `configure` does, from a given state.
- The imperative methods are proved to produce exactly that. The lemmas then state what the source promises about those functions: quota counts, the capacity bound, FIFO order and the interrupt behaviour.

Interrupts are explicit inputs. `delivered(i)` says whether an interrupt reaches the sleep of iteration i. Clock readings are explicit too: `clock(i)` is the `System.nanoTime()` value that names the ticket of iteration i.

Modules follow the source files:

| module | file | contents |
|---|---|---|
| `Lang` | (platform) | `int32`/`int64`, nullable values as `Option`, the exceptions the core throws, `Integer.toString` |
| `Logging` | `LoggingService.java` | the log as a `seq<string>` field of a class |
| `Config` | `MainConfig.java` | the record as a datatype, the bean-validation predicate, constructors and setters |
| `Pool` | `TicketPool.java` | the pool as a class over a `seq<string>` field |
| `Vendors` | `Vendor.java` | `releaseTicket`, `delay`, `run` |
| `Customers` | `Customer.java` | one attempt, and `run` |
| `Threads` | `ThreadService.java` | workers as a class with `started`/`interrupted` flags, and the service with its worker list and `running` flag |
| `Services` | `MainService.java` | the configuration store as a `seq<MainConfig>`, and start and stop of the system |
| `Scenarios` | (whole system) | vendor-then-customer runs, and the start/start/stop sequence |

Paths below are relative to the repository root, under `src/main/java/com/janindu/ticket/`.

## Model

| member | source | states |
|---|---|---|
| Lang.IntToString | src/main/java/com/janindu/ticket/model/Vendor.java:56 | the decimal text Java concatenates for an int or long, a minus sign for negatives and then the digits; never empty, and Lang.NatToStringRoundTrip reads it back |
| Lang.NatToStringRoundTrip | src/main/java/com/janindu/ticket/model/Vendor.java:56 | the decimal text Java concatenates for a number reads back as that number |
| Lang.IntToStringInjective | src/main/java/com/janindu/ticket/service/ThreadService.java:55 | distinct ints print as distinct text, so names and ids built from distinct numbers differ |
| Logging.LineInjective | src/main/java/com/janindu/ticket/model/Vendor.java:82-86 | two "name: message" entries of one thread are equal only when their messages are |
| Logging.LoggingService.constructor | src/main/java/com/janindu/ticket/service/LoggingService.java:11 | a new log is empty |
| Logging.LoggingService.AddLog | src/main/java/com/janindu/ticket/service/LoggingService.java:13-15 | appends the entry at the end; earlier entries unchanged |
| Logging.LoggingService.GetLogs | src/main/java/com/janindu/ticket/service/LoggingService.java:17-19 | returns a copy equal to the log and changes nothing |
| Logging.LoggingService.ClearLogs | src/main/java/com/janindu/ticket/service/LoggingService.java:21-23 | the log is empty afterwards |
| Logging.LogOrder | src/main/java/com/janindu/ticket/service/LoggingService.java:11-23 | adding any sequence of entries one by one and reading the log returns exactly that sequence, in call order; clearing then leaves nothing |
| Config.Valid | src/main/java/com/janindu/ticket/model/MainConfig.java:17-39 | the `@NotNull` and `@Min(1)` constraints on the six Integer fields together; its meaning field by field is stated by Config.ValidFieldwise |
| Config.ValidFieldwise | src/main/java/com/janindu/ticket/model/MainConfig.java:17-39 | a record is valid exactly when each of the six constrained fields is non-null and at least 1; id and active are not constrained |
| Config.Default | src/main/java/com/janindu/ticket/model/MainConfig.java:43-45 | the no-argument constructor leaves id and every Integer null and active false |
| Config.DefaultInvalid | src/main/java/com/janindu/ticket/model/MainConfig.java:17-45 | a default-constructed record fails validation |
| Config.Create | src/main/java/com/janindu/ticket/model/MainConfig.java:47-56 | each constructor argument is read back unchanged by its getter; id stays null |
| Config.CreateValid | src/main/java/com/janindu/ticket/model/MainConfig.java:17-56 | a constructed record is valid exactly when its six Integer arguments are non-null and at least 1 |
| Config.SetId | src/main/java/com/janindu/ticket/model/MainConfig.java:62-64 | the id reads back the new value; every other field unchanged |
| Config.SetTotalTickets | src/main/java/com/janindu/ticket/model/MainConfig.java:70-72 | the field reads back the new value; every other field unchanged |
| Config.SetTicketReleaseRate | src/main/java/com/janindu/ticket/model/MainConfig.java:78-80 | the field reads back the new value; every other field unchanged |
| Config.SetCustomerRetrievalRate | src/main/java/com/janindu/ticket/model/MainConfig.java:86-88 | the field reads back the new value; every other field unchanged |
| Config.SetMaxTicketCapacity | src/main/java/com/janindu/ticket/model/MainConfig.java:94-96 | the field reads back the new value; every other field unchanged |
| Config.SetNumberOfVendors | src/main/java/com/janindu/ticket/model/MainConfig.java:102-104 | the field reads back the new value; every other field unchanged |
| Config.SetNumberOfCustomers | src/main/java/com/janindu/ticket/model/MainConfig.java:110-112 | the field reads back the new value; every other field unchanged |
| Config.SetActive | src/main/java/com/janindu/ticket/model/MainConfig.java:118-120 | the flag reads back the new value; every other field unchanged |
| Config.Get | src/main/java/com/janindu/ticket/model/MainConfig.java:58-116 | the getter of each field: returns the field's value, null included |
| Config.FieldsDetermineRecord | src/main/java/com/janindu/ticket/model/MainConfig.java:58-116 | two records on which every getter agrees are the same record |
| Config.SetterGetterRoundTrip | src/main/java/com/janindu/ticket/model/MainConfig.java:58-120 | writing back what a getter returned leaves the record unchanged |
| Config.IdAndActiveIrrelevant | src/main/java/com/janindu/ticket/model/MainConfig.java:13-41 | changing the id or the active flag does not change validity |
| Pool.TicketPool.constructor | src/main/java/com/janindu/ticket/model/TicketPool.java:21-33 | a new pool is empty and logs to the given service |
| Pool.TicketPool.AddTicket | src/main/java/com/janindu/ticket/model/TicketPool.java:40-44 | appends the ticket at the tail and logs one "Added ticket: " entry naming it |
| Pool.TicketPool.RemoveTicket | src/main/java/com/janindu/ticket/model/TicketPool.java:52-58 | on a non-empty pool, returns the head, leaves the tail, and logs one "Removed ticket: " entry naming it |
| Pool.TicketPool.GetAvailableTickets | src/main/java/com/janindu/ticket/model/TicketPool.java:66-68 | the number of tickets held; nothing changes |
| Pool.TicketPool.GetCurrentTicketCount | src/main/java/com/janindu/ticket/model/TicketPool.java:75-77 | the number of tickets held; nothing changes |
| Pool.InsertionOrder | src/main/java/com/janindu/ticket/model/TicketPool.java:40-58 | adding any sequence of tickets and removing as many returns them in insertion order and leaves the pool empty |
| Vendors.Vendor.constructor | src/main/java/com/janindu/ticket/model/Vendor.java:26-31 | the vendor keeps the pool, quota, capacity and log it is given |
| Vendors.Vendor.ReleaseTicket | src/main/java/com/janindu/ticket/model/Vendor.java:50-61 | at or above capacity: reports true, pool unchanged, the pause entry logged; below: reports false and appends exactly one ticket, logging the add and the new count |
| Vendors.Vendor.Delay | src/main/java/com/janindu/ticket/model/Vendor.java:68-75 | an interrupt (delivered now or already pending) keeps the thread interrupted and logs "Vendor interrupted"; otherwise nothing is logged |
| Vendors.Vendor.Iteration | src/main/java/com/janindu/ticket/model/Vendor.java:39-42 | a pass stops the loop exactly when the pool is at or above capacity, logging only the pause entry; otherwise it adds exactly the one ticket stamped with its clock reading, logs the add, the count and any interrupt, and keeps the interrupt sticky; its effect is what Releases says for that iteration |
| Vendors.Vendor.Run | src/main/java/com/janindu/ticket/model/Vendor.java:38-43 | the pool and the log afterwards are the old ones extended by exactly what Releases describes |
| Vendors.Releases | src/main/java/com/janindu/ticket/model/Vendor.java:38-75 | what a whole `run` does from a given pool size and iteration: the tickets it appends and the entries it logs; Vendor.Run is proved to do exactly this, and the lemmas below state its properties |
| Vendors.ReleasesStep | src/main/java/com/janindu/ticket/model/Vendor.java:39-58 | unfolding helper used by Vendor.Iteration: one iteration that finds room releases the ticket stamped with its clock reading, then the run goes on from the next iteration |
| Vendors.ReleasedCount | src/main/java/com/janindu/ticket/model/Vendor.java:39-57 | a run from pool size s adds exactly min(remaining quota, max(0, capacity − s)) tickets |
| Vendors.CapacityNeverExceeded | src/main/java/com/janindu/ticket/model/Vendor.java:52 | starting at or below capacity, a run never takes the pool above it |
| Vendors.ReleasedTickets | src/main/java/com/janindu/ticket/model/Vendor.java:56-57 | the released tickets carry the clock readings of the run's first iterations, in order |
| Vendors.InterruptsDoNotStopRelease | src/main/java/com/janindu/ticket/model/Vendor.java:41-74 | interrupts change only the log: the tickets released are the same whatever interrupts arrive |
| Vendors.PausedAtEnd | src/main/java/com/janindu/ticket/model/Vendor.java:39-55 | the pause entry is the run's last entry exactly when the quota outlasts the free room |
| Vendors.PausedOnce | src/main/java/com/janindu/ticket/model/Vendor.java:39-55 | a run logs the pause entry once when the quota outlasts the free room and never otherwise: the first capacity hit ends the run |
| Vendors.TicketIdInjective | src/main/java/com/janindu/ticket/model/Vendor.java:56 | distinct clock readings give distinct ticket ids |
| Vendors.StampedDistinct | src/main/java/com/janindu/ticket/model/Vendor.java:56 | with a strictly increasing clock, stamped ids are pairwise distinct |
| Vendors.ReleasedTicketsDistinct | src/main/java/com/janindu/ticket/model/Vendor.java:39-56 | with a strictly increasing clock, no two tickets of one run share an id |
| Customers.Customer.constructor | src/main/java/com/janindu/ticket/model/Customer.java:24-28 | the customer keeps the pool, retrieval limit and log it is given |
| Customers.Customer.Attempt | src/main/java/com/janindu/ticket/model/Customer.java:37-58 | on an empty pool the pool is unchanged and the waiting entry is logged; otherwise the head is bought, the pool becomes its tail, and the removal and the post-removal count are logged; an interrupt at the sleep adds "Customer interrupted" and stops the run; its effect is what Purchases says for that attempt |
| Customers.Customer.Run | src/main/java/com/janindu/ticket/model/Customer.java:35-63 | the pool afterwards is what Purchases leaves; the log gains Purchases' entries and then "Finished purchasing tickets." |
| Customers.Purchases | src/main/java/com/janindu/ticket/model/Customer.java:36-58 | what the attempts of a `run` do from a given pool and attempt: the tickets bought, the pool left and the entries logged; Customer.Run is proved to do exactly this, and the lemmas below state its properties |
| Customers.BoughtFromHead | src/main/java/com/janindu/ticket/model/Customer.java:39-44 | what a run bought followed by what it left is the pool it found: tickets go from the head, and the pool never goes negative |
| Customers.UninterruptedBuysPrefix | src/main/java/com/janindu/ticket/model/Customer.java:36-50 | without interrupts, a run from a pool of n tickets buys exactly its first min(retrievalLimit, n) tickets, in order |
| Customers.Attempts | src/main/java/com/janindu/ticket/model/Customer.java:36-57 | a run makes at most retrievalLimit attempts |
| Customers.BoughtCount | src/main/java/com/janindu/ticket/model/Customer.java:36-50 | a run buys one ticket per attempt while the pool lasts: min(attempts, pool size) |
| Customers.LoggedCount | src/main/java/com/janindu/ticket/model/Customer.java:39-56 | one entry per empty-pool attempt, two per purchase, one more if interrupted |
| Customers.CutShortIffInterrupted | src/main/java/com/janindu/ticket/model/Customer.java:36-57 | a run makes fewer than retrievalLimit attempts exactly when an attempt before the last is interrupted; empty-pool attempts still count |
| Customers.InterruptLoggedLast | src/main/java/com/janindu/ticket/model/Customer.java:52-57 | an interrupted run logs "Customer interrupted" as its last entry before the closing one |
| Threads.Worker.constructor | src/main/java/com/janindu/ticket/service/ThreadService.java:53-56 | a new thread has its name and task and is neither started nor interrupted |
| Threads.Worker.Start | src/main/java/com/janindu/ticket/service/ThreadService.java:36 | a worker starts once; starting it again throws IllegalThreadStateException; the interrupt flag is untouched |
| Threads.Worker.Interrupt | src/main/java/com/janindu/ticket/service/ThreadService.java:45 | the worker is marked interrupted, started or not |
| Threads.FirstStarted | src/main/java/com/janindu/ticket/service/ThreadService.java:36 | the index of the first already-started worker, or the list length; every earlier worker is unstarted |
| Threads.ThreadService.constructor | src/main/java/com/janindu/ticket/service/ThreadService.java:15-21 | a new service has an empty worker list and is not running |
| Threads.ThreadService.Configure | src/main/java/com/janindu/ticket/service/ThreadService.java:23-29 | the list is replaced by exactly the new, unstarted workers Planned lists; `running` is unchanged; the configured entry is logged only when both loops finish |
| Threads.ThreadService.Rebuild | src/main/java/com/janindu/ticket/service/ThreadService.java:24-26 | clears the list, then builds vendors and then customers as Planned lists; the first null unboxing stops it |
| Threads.ThreadService.CreateVendorThreads | src/main/java/com/janindu/ticket/service/ThreadService.java:51-58 | appends Vendor-1 … Vendor-n with the release rate and the capacity; throws NullPointerException exactly when the count is null, or a setting is null while the count admits a vendor |
| Threads.ThreadService.CreateCustomerThreads | src/main/java/com/janindu/ticket/service/ThreadService.java:60-67 | appends Customer-1 … Customer-n with the retrieval rate; throws NullPointerException exactly when the count is null, or the rate is null while the count admits a customer |
| Threads.ThreadService.StartThreads | src/main/java/com/janindu/ticket/service/ThreadService.java:31-39 | while running, throws "already running" and changes nothing; otherwise sets running and starts the workers in order until one was already started; logs "All threads started." only when all started |
| Threads.ThreadService.StopThreads | src/main/java/com/janindu/ticket/service/ThreadService.java:41-49 | when not running, throws "not running" and changes nothing; otherwise interrupts every listed worker, clears running, keeps the list and logs "All threads stopped." |
| Threads.Planned | src/main/java/com/janindu/ticket/service/ThreadService.java:23-67 | what `configure` builds from a record: the vendor and customer workers in order and the configured entry, or the NullPointerException a null unboxing raises; Configure is proved to do exactly this |
| Threads.PlannedFailsOnNull | src/main/java/com/janindu/ticket/service/ThreadService.java:23-67 | configure fails exactly when a count is null, or a setting is null while its count admits a worker; a failure is a NullPointerException with nothing logged |
| Threads.ValidPlan | src/main/java/com/janindu/ticket/service/ThreadService.java:23-67 | for a valid record: numberOfVendors vendors first, then numberOfCustomers customers, each with its name and settings, and the configured entry |
| Threads.VendorIsNotCustomer | src/main/java/com/janindu/ticket/service/ThreadService.java:55-64 | no vendor name equals a customer name |
| Threads.VendorNameInjective | src/main/java/com/janindu/ticket/service/ThreadService.java:55 | distinct vendor indices give distinct names |
| Threads.CustomerNameInjective | src/main/java/com/janindu/ticket/service/ThreadService.java:64 | distinct customer indices give distinct names |
| Threads.PlannedNamesDistinct | src/main/java/com/janindu/ticket/service/ThreadService.java:51-67 | every worker configure builds has a name no other worker has |
| Threads.AdmittedAlternate | src/main/java/com/janindu/ticket/service/ThreadService.java:32-46 | the start and stop calls that pass the running guard strictly alternate, beginning with a start when not running |
| Threads.Issue | src/main/java/com/janindu/ticket/service/ThreadService.java:31-49 | one startThreads or stopThreads gets past the running guard exactly when Admitted says, and leaves running true after a start and false after a stop |
| Threads.Drive | src/main/java/com/janindu/ticket/service/ThreadService.java:31-49 | over any sequence of start and stop calls on the service, the calls that get past the guard are those AdmittedCalls predicts, and they strictly alternate, beginning with a start when the service was not running |
| Services.MainService.constructor | src/main/java/com/janindu/ticket/service/MainService.java:16-19 | the store holds the rows the repository already has; the thread service is the one given |
| Services.MainService.SaveConfig | src/main/java/com/janindu/ticket/service/MainService.java:21-24 | afterwards the store holds exactly the saved record, which is returned |
| Services.MainService.GetConfig | src/main/java/com/janindu/ticket/service/MainService.java:26-28 | empty exactly when the store is empty; otherwise the first stored record |
| Services.MainService.ClearConfig | src/main/java/com/janindu/ticket/service/MainService.java:30-32 | the store is empty afterwards |
| Services.MainService.StartSystem | src/main/java/com/janindu/ticket/service/MainService.java:34-40 | without a configuration, throws and changes nothing; otherwise configures first, so while running the workers are replaced and "already running" is still thrown |
| Services.MainService.StopSystem | src/main/java/com/janindu/ticket/service/MainService.java:42-44 | when not running, throws "not running" and leaves every worker flag and the log unchanged; otherwise interrupts every listed worker and logs "All threads stopped."; either way running ends false, the list and the started flags are kept |
| Services.MainService.StartSystemGuarded | src/main/java/com/janindu/ticket/service/MainService.java:34-40 | a start while running throws and changes nothing; every started, uninterrupted worker stays listed |
| Scenarios.ProducedThenConsumed | src/main/java/com/janindu/ticket/model/Vendor.java:39-42 | a customer following a vendor that filled an empty pool buys the vendor's tickets from the first one on, one per attempt while they last |
| Scenarios.SequentialRun | src/main/java/com/janindu/ticket/model/Customer.java:36-50 | vendor (rate 5, capacity 5) then two uninterrupted customers (rate 2) leave exactly one ticket |
| Scenarios.SmallConfig | src/main/java/com/janindu/ticket/model/MainConfig.java:47-56 | a one-vendor, one-customer record that passes validation |
| Scenarios.SecondStartOrphansWorker | src/main/java/com/janindu/ticket/service/MainService.java:34-44 | start, start, stop as written: the first vendor stays started, uninterrupted and unlisted while the service says it is not running |
| Scenarios.SecondStartGuarded | src/main/java/com/janindu/ticket/service/MainService.java:34-44 | the same calls with the running check first: the stop reaches the started vendor |

## Left out

- Concurrency. `synchronized`, `wait`/`notifyAll`, scheduling and interleaving are not modelled. Each worker's `run` is one sequential method over the shared pool and log.
- Sleeps. `Thread.sleep(500)` and `Thread.sleep(700)` do nothing in the model. The interrupt they can raise is the `delivered(i)` input.
- Clock. `System.nanoTime()` is the `clock` parameter. The source does not make ticket ids unique. Distinctness is proved only under a strictly increasing clock.
- Thread names. `Thread.currentThread().getName()` is the `name` parameter of each worker method.
- Pool.TicketPool.RemoveTicket: requires a non-empty pool. On an empty pool the source blocks in `wait()` until a producer adds a ticket, which needs another thread. Customers call it only on a non-empty pool.
- Vendors.Vendor.Run: requires the pool and the worker to share one LoggingService, as the application wires them.
- Customers.Customer.Run: requires the pool and the worker to share one LoggingService, as the application wires them.
- Threads.Worker.Start: the model records the start and does not run the worker's `run`. Running it concurrently is out of scope.
- Threads.Worker.Start: a worker keeps its task's settings, not its references to the pool and the log.
- SLF4J. The `logger.info` and `logger.error` calls write elsewhere than the event log and are left out.
- JPA repository. `SystemConfigRepository` is a `seq<MainConfig>` with `save` as append, `deleteAll` as emptying and `findAll` in order.
- Services.MainService.SaveConfig: the generated id that `save` assigns is not modelled. The record is returned as given.
- Bean Validation. The `@NotNull`/`@Min(1)` machinery appears only as the `Config.Valid` predicate.
- `MainConfig.toString` is text formatting and is left out.
- MainController is HTTP routing and is not part of this model. Its one-argument `startSystem(ticketPool)` call does not match the MainService signature. The model follows MainService.
- Ticket pool argument. `MainService.startSystem` passes a pool to `configure`. The model's workers record their settings, not the pool, so the argument does not appear.
- Integer width. Counts are Java ints (`int32`). List sizes and the `i + 1` in worker names are unbounded integers. Lists of 2^31 entries are out of scope.

## Findings

| source | as written | input that shows it | evidently intended | confidence | as-written member | corrected member |
|---|---|---|---|---|---|---|
| src/main/java/com/janindu/ticket/service/MainService.java:38-39 | `startSystem` runs `configure`, which clears and rebuilds the worker list, before `startThreads` checks `running` | a valid one-vendor, one-customer record; `startSystem`, `startSystem` again, then `stopSystem` | a start while running throws and leaves the workers alone, so `stopSystem` interrupts every started worker | not executed | Scenarios.SecondStartOrphansWorker | Services.MainService.StartSystemGuarded |

In the as-written sequence, the second start replaces the list with new, unstarted workers and then throws "already running". The stop then interrupts only those new workers. The first workers keep running, no longer listed, while `running` is false. The corrected start checks `running` first. It is proved to keep the invariant `ThreadService.Accounted`: every started, uninterrupted worker the service ever built is listed while the service is running, and no such worker exists when it is not. `Scenarios.SecondStartGuarded` runs the same sequence against it.
