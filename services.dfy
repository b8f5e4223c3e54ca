/**
 * The orchestration layer (MainService.java): a single-slot configuration
 * store in front of the repository, and start/stop of the simulation through
 * ThreadService.
 */
module Services {
  import opened Lang
  import opened Logging
  import opened Config
  import opened Threads

  // one message, written as two literals
  const NoConfigurationMessage := "No configuration found." + " Please configure the system first."

  class MainService {
    /** The rows of the configuration repository, in the order `findAll` returns them. */
    var store: seq<MainConfig>
    const threadService: ThreadService

    /** The service over a repository that already holds `rows`. */
    constructor (rows: seq<MainConfig>, threadService: ThreadService)
      ensures store == rows && this.threadService == threadService
    {
      store := rows;
      this.threadService := threadService;
    }

    /** `saveConfig`: clears the store, then saves; the store then holds exactly this configuration. */
    method SaveConfig(config: MainConfig) returns (saved: MainConfig)
      modifies this
      ensures saved == config && store == [config]
    {
      ClearConfig();
      store := store + [config];
      saved := config;
    }

    /** `getConfig`: the first stored configuration, if there is one. */
    function GetConfig(): (r: Option<MainConfig>)
      reads this
      ensures r.None? <==> store == []
      ensures r.Some? ==> r.value == store[0]
    {
      if store == [] then None else Some(store[0])
    }

    /** `clearConfig`: `deleteAll`. */
    method ClearConfig()
      modifies this
      ensures store == []
    {
      store := [];
    }

    /**
     * `startSystem`: without a configuration it throws before touching the
     * threads; otherwise it runs `configure` and then `startThreads`. While
     * already running, the list is therefore replaced by new workers that
     * are never started, and the call still throws "already running".
     */
    method StartSystem(config: Option<MainConfig>) returns (outcome: Outcome)
      requires threadService.Valid()
      modifies threadService, threadService.log
      ensures threadService.Valid()
      ensures config.None? ==> outcome == Fail(IllegalState(NoConfigurationMessage))
                               && unchanged(threadService, threadService.log)
      ensures config.Some? ==>
                var p := Planned(config.value);
                && Describes(threadService.threads) == p.workers
                && (forall k :: 0 <= k < |threadService.threads| ==> fresh(threadService.threads[k]))
                && threadService.running == (old(threadService.running) || p.outcome.Pass?)
                && outcome == (if p.outcome.Fail? then p.outcome
                               else if old(threadService.running) then Fail(IllegalState(AlreadyRunningMessage))
                               else Pass)
                && (forall k :: 0 <= k < |threadService.threads| ==>
                      threadService.threads[k].started == outcome.Pass? && !threadService.threads[k].interrupted)
                && threadService.log.logs == old(threadService.log.logs) + p.lines
                                             + (if outcome.Pass? then [StartedMessage] else [])
    {
      if config.None? {
        return Fail(IllegalState(NoConfigurationMessage));
      }
      outcome := threadService.Configure(config.value);
      if outcome.Fail? {
        return;
      }
      outcome := threadService.StartThreads();
    }

    /** `stopSystem`: `stopThreads`, which throws exactly when the threads are not running. */
    method StopSystem() returns (outcome: Outcome)
      requires threadService.Valid()
      modifies threadService, threadService.log, threadService.threads
      ensures threadService.threads == old(threadService.threads) && !threadService.running
      ensures forall k :: 0 <= k < |threadService.threads| ==>
                threadService.threads[k].started == old(threadService.threads[k].started)
      ensures !old(threadService.running) ==>
                && outcome == Fail(IllegalState(NotRunningMessage))
                && threadService.log.logs == old(threadService.log.logs)
                && forall k :: 0 <= k < |threadService.threads| ==>
                     threadService.threads[k].interrupted == old(threadService.threads[k].interrupted)
      ensures old(threadService.running) ==>
                && outcome == Pass
                && threadService.log.logs == old(threadService.log.logs) + [StoppedMessage]
                && forall k :: 0 <= k < |threadService.threads| ==> threadService.threads[k].interrupted
      ensures old(threadService.Accounted()) ==> threadService.Accounted()
    {
      outcome := threadService.StopThreads();
    }

    /**
     * `startSystem` with the running check done first, as the guard in
     * `startThreads` evidently intends: a call while running throws and
     * changes nothing, so no started worker ever drops out of the list.
     */
    method StartSystemGuarded(config: Option<MainConfig>) returns (outcome: Outcome)
      requires threadService.Valid()
      modifies threadService, threadService.log
      ensures threadService.Valid()
      ensures config.None? ==> outcome == Fail(IllegalState(NoConfigurationMessage))
                               && unchanged(threadService, threadService.log)
      ensures config.Some? && old(threadService.running) ==>
                outcome == Fail(IllegalState(AlreadyRunningMessage)) && unchanged(threadService, threadService.log)
      ensures config.Some? && !old(threadService.running) ==>
                var p := Planned(config.value);
                && Describes(threadService.threads) == p.workers
                && (forall k :: 0 <= k < |threadService.threads| ==> fresh(threadService.threads[k]))
                && threadService.running == p.outcome.Pass?
                && outcome == p.outcome
                && (forall k :: 0 <= k < |threadService.threads| ==>
                      threadService.threads[k].started == outcome.Pass? && !threadService.threads[k].interrupted)
                && threadService.log.logs == old(threadService.log.logs) + p.lines
                                             + (if outcome.Pass? then [StartedMessage] else [])
      ensures old(threadService.Accounted()) ==> threadService.Accounted()
    {
      if config.None? {
        return Fail(IllegalState(NoConfigurationMessage));
      }
      if threadService.running {
        return Fail(IllegalState(AlreadyRunningMessage));
      }
      outcome := threadService.Configure(config.value);
      if outcome.Fail? {
        return;
      }
      outcome := threadService.StartThreads();
    }
  }
}
