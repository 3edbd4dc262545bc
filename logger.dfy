/** The logger of src/lib/logger.ts. The console is an output trace of
    the lines written; the timestamp and the `[loxdb]` and level tags of
    each line are formatting and are not modelled. */
module Logger {
  import opened Wrappers
  import opened LogLevel

  /** One logged value. */
  datatype LogMessage = Text(text: string) | Number(n: int) | Null | Undefined

  /** The console method a line goes to. */
  datatype ConsoleMethod = ConsoleLog | ConsoleError | ConsoleWarn

  /** A line written to the console. */
  datatype LogLine = LogLine(target: ConsoleMethod, level: string, messages: seq<LogMessage>)

  /** Errors go to `console.error`, warnings to `console.warn`, the rest
      to `console.log`. */
  function ConsoleFor(level: string): (m: ConsoleMethod)
    ensures m == ConsoleError <==> level == "error"
    ensures m == ConsoleWarn <==> level == "warning"
  {
    if level == "error" then ConsoleError
    else if level == "warning" then ConsoleWarn
    else ConsoleLog
  }

  /** What `log` adds to the console for a level and messages. */
  function Emitted(writeLevels: seq<string>, level: string, messages: seq<LogMessage>): seq<LogLine> {
    if level in writeLevels then [LogLine(ConsoleFor(level), level, messages)] else []
  }

  /** Under a configured level, a message is written iff its level is at
      least as severe; an unlisted configured level silences everything. */
  lemma EmittedIffAsSevere(ordered: seq<string>, configured: string, level: string, messages: seq<LogMessage>)
    ensures |Emitted(WriteLevels(ordered, configured), level, messages)| == 1 <==>
      configured in ordered && level in ordered && IndexOf(ordered, level) <= IndexOf(ordered, configured)
    ensures configured !in ordered ==> Emitted(WriteLevels(ordered, configured), level, messages) == []
  {
    WrittenIffAsSevere(ordered, configured, level);
  }

  /** `LoxDBLogger`. */
  class LoxDBLogger {
    const writeLevels: seq<string>
    var output: seq<LogLine>

    /** The constructor: the configured level defaults to "info". */
    constructor(level: Option<string>, ordered: seq<string>)
      ensures writeLevels == WriteLevels(ordered, level.GetOr("info"))
      ensures output == []
    {
      writeLevels := WriteLevels(ordered, level.GetOr("info"));
      output := [];
    }

    /** `log`: one line when the level is written, nothing otherwise. */
    method Log(level: string, messages: seq<LogMessage>)
      modifies this
      ensures output == old(output) + Emitted(writeLevels, level, messages)
    {
      if level in writeLevels {
        output := output + [LogLine(ConsoleFor(level), level, messages)];
      }
    }

    /** `error`. */
    method Error(messages: seq<LogMessage>)
      modifies this
      ensures output == old(output) + Emitted(writeLevels, "error", messages)
    {
      Log("error", messages);
    }

    /** `warning`. */
    method Warning(messages: seq<LogMessage>)
      modifies this
      ensures output == old(output) + Emitted(writeLevels, "warning", messages)
    {
      Log("warning", messages);
    }

    /** `info`. */
    method Info(messages: seq<LogMessage>)
      modifies this
      ensures output == old(output) + Emitted(writeLevels, "info", messages)
    {
      Log("info", messages);
    }

    /** `verbose`. */
    method Verbose(messages: seq<LogMessage>)
      modifies this
      ensures output == old(output) + Emitted(writeLevels, "verbose", messages)
    {
      Log("verbose", messages);
    }

    /** `debug`. */
    method Debug(messages: seq<LogMessage>)
      modifies this
      ensures output == old(output) + Emitted(writeLevels, "debug", messages)
    {
      Log("debug", messages);
    }
  }

  /** The shared `logger`: configured from `LOX_LOG_LEVEL`. */
  method ModuleLogger(env: Option<string>, ordered: seq<string>) returns (logger: LoxDBLogger)
    ensures fresh(logger) && logger.output == []
    ensures logger.writeLevels == WriteLevels(ordered, GetLoxLogLevel(env, ordered))
  {
    logger := new LoxDBLogger(Some(GetLoxLogLevel(env, ordered)), ordered);
  }
}
