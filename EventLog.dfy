/** The event log: messages queued during a turn and shown, then cleared, by
    the next display cycle. */
module EventLog {

  class Log {
    var logs: seq<string>

    constructor ()
      ensures logs == []
    {
      logs := [];
    }

    /** Appends one message, whatever it is (an empty one included). */
    method PushLog(newLog: string)
      modifies this
      ensures logs == old(logs) + [newLog]
    {
      logs := logs + [newLog];
    }

    /** Hands over every pending message in the order pushed and empties the log. */
    method DisplayLogs() returns (shown: seq<string>)
      modifies this
      ensures shown == old(logs)
      ensures logs == []
    {
      shown := logs;
      logs := [];
    }
  }

  /** Pushing messages one by one and then draining gives them back in push
      order, whatever was pending before. */
  method PushThenDrain(log: Log, messages: seq<string>) returns (shown: seq<string>)
    modifies log
    ensures shown == old(log.logs) + messages
    ensures log.logs == []
  {
    for i := 0 to |messages|
      invariant log.logs == old(log.logs) + messages[..i]
    {
      log.PushLog(messages[i]);
    }
    assert messages[..|messages|] == messages;
    shown := log.DisplayLogs();
  }
}
