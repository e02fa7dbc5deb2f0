/** The progress logger shared by every script: one formatted line per call and the next counter value. */
module Logging {
  import opened Strings

  /** The line printed for one call: `[title @ package][current/maximum] message`. */
  function LogLine(title: string, packageName: string, current: int, maximum: int, message: string): string {
    "[" + title + " @ " + packageName + "][" + IntToString(current) + "/" + IntToString(maximum) + "] " + message
  }

  /**
   * `log(...)`: prints `LogLine(...)` (returned here as `line`) and returns the next counter value.
   * No bound between `current` and `maximum` is checked.
   */
  function Log(title: string, packageName: string, current: int, maximum: int, message: string): (r: (string, int))
    ensures r.1 == current + 1
    ensures r.0 == LogLine(title, packageName, current, maximum, message)
  {
    (LogLine(title, packageName, current, maximum, message), current + 1)
  }

  /**
   * The line starts with the title and package name in brackets, and its counter field is the
   * decimal rendering of `current`, which reads back as `current`, whatever the other arguments are.
   */
  lemma LogLineFields(title: string, packageName: string, current: int, maximum: int, message: string)
    ensures var line := LogLine(title, packageName, current, maximum, message);
            var head := "[" + title + " @ " + packageName + "][";
            var count := IntToString(current);
            && line[..|head|] == head
            && line[|head|..|head| + |count|] == count
            && line[|head| + |count|] == '/'
            && IsIntLiteral(count) && ParseInt(count) == current
  {
    IntToStringRoundTrip(current);
    var head := "[" + title + " @ " + packageName + "][";
    var count := IntToString(current);
    var line := LogLine(title, packageName, current, maximum, message);
    assert line == head + count + ("/" + IntToString(maximum) + "] " + message);
  }

  /**
   * The lines a procedure prints when it logs `messages` one after the other under one title,
   * package and maximum: the `i`-th line carries counter `first + i` and the `i`-th message.
   */
  function LogSeries(title: string, packageName: string, first: int, maximum: int, messages: seq<string>): seq<string> {
    seq(|messages|, i requires 0 <= i < |messages| => LogLine(title, packageName, first + i, maximum, messages[i]))
  }

  /** Logging the next message of a series extends it by that message's line. */
  lemma LogSeriesNext(title: string, packageName: string, first: int, maximum: int, messages: seq<string>, k: nat)
    requires k < |messages|
    ensures LogSeries(title, packageName, first, maximum, messages[..k + 1])
         == LogSeries(title, packageName, first, maximum, messages[..k]) + [LogLine(title, packageName, first + k, maximum, messages[k])]
  {
    var longer := LogSeries(title, packageName, first, maximum, messages[..k + 1]);
    var shorter := LogSeries(title, packageName, first, maximum, messages[..k]);
    assert forall i :: 0 <= i < k ==> longer[i] == shorter[i];
  }

  /** One `log(...)` call whose line is appended to `lines`; the counter moves on by one. */
  method Emit(title: string, packageName: string, current: int, maximum: int, message: string, lines: seq<string>)
    returns (lines': seq<string>, next: int)
    ensures lines' == lines + [LogLine(title, packageName, current, maximum, message)]
    ensures next == current + 1
  {
    var (line, after) := Log(title, packageName, current, maximum, message);
    lines', next := lines + [line], after;
  }
}
