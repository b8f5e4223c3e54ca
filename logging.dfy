/** The append-only event log every component writes to (LoggingService.java). */
module Logging {

  /** A worker's entry: its thread name, a colon and a space, then the message. */
  function Line(name: string, message: string): string {
    name + ": " + message
  }

  /** Two entries of one thread are equal only when their messages are. */
  lemma LineInjective(name: string, m1: string, m2: string)
    requires Line(name, m1) == Line(name, m2)
    ensures m1 == m2
  {
    var n := |name| + 2;
    assert Line(name, m1)[n..] == m1;
    assert Line(name, m2)[n..] == m2;
  }

  /** The message starts right after the name and the separator. */
  lemma LineAt(name: string, message: string)
    requires |message| > 0
    ensures Line(name, message)[|name| + 2] == message[0]
  {
  }

  class LoggingService {
    /** The entries, oldest first. */
    var logs: seq<string>

    constructor ()
      ensures logs == []
    {
      logs := [];
    }

    /** `addLog`: appends one entry at the end; earlier entries stay as they were. */
    method AddLog(message: string)
      modifies this
      ensures logs == old(logs) + [message]
    {
      logs := logs + [message];
    }

    /** `getLogs`: a copy of the current log; the log itself is not touched. */
    method GetLogs() returns (copy: seq<string>)
      ensures copy == logs
    {
      copy := logs;
    }

    /** `clearLogs`: afterwards the log is empty. */
    method ClearLogs()
      modifies this
      ensures logs == []
    {
      logs := [];
    }
  }

  /** Entries come back in the order they were added, and clearing forgets all of them. */
  method LogOrder(messages: seq<string>) returns (before: seq<string>, after: seq<string>)
    ensures before == messages
    ensures after == []
  {
    var log := new LoggingService();
    var i := 0;
    while i < |messages|
      invariant 0 <= i <= |messages| && log.logs == messages[..i]
    {
      log.AddLog(messages[i]);
      assert messages[..i + 1] == messages[..i] + [messages[i]];
      i := i + 1;
    }
    before := log.GetLogs();
    log.ClearLogs();
    after := log.GetLogs();
  }
}
