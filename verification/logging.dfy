/** Log records as data: what the package hands to Laravel's `Log` facade. */
module Logging {
  import opened Php

  datatype Level = Debug | Warning | Error

  /** One call `Log::<level>($message, $context)`. */
  datatype LogEntry = LogEntry(level: Level, message: string, context: seq<Entry>)

  /** The context array entry `$name => $value`. */
  function Pair(name: string, value: Value): Entry {
    Entry(StrKey(name), value)
  }
}
