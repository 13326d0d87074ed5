/** KagParser.Run: read a line when none is pending, route it on its first
    character, hand a fresh `iscript`/`macro` record to the block parser,
    and go round again on whatever part of the line the parser left. */
module Dispatcher {
  import opened Wrappers
  import opened Errors
  import opened Records
  import opened TagParser
  import opened LineParsers
  import opened BlockParser

  /** What one parser call gives back: the record, if any; the part of the
      line still to be dispatched, None for `null`; the unread lines. */
  datatype Outcome = Outcome(cmd: Option<Record>, line: Option<string>, rest: seq<string>)

  /** The records of a run and the error that stopped it, if one did. */
  datatype RunResult = RunResult(cmds: seq<Record>, error: Option<ParseError>)

  function Prepend(cmds: seq<Record>, r: RunResult): RunResult {
    RunResult(cmds + r.cmds, r.error)
  }

  /** The `switch (peek)` of `Run`: `*` label, `@` tag, `;` comment (nothing
      comes out and the line is done), `[` inline tag, anything else a
      message. */
  function Route(line: string): (r: Result<(Option<Record>, Option<string>), ParseError>)
    requires line != ""
    ensures r.Success? && r.value.0.Some? ==> WellFormed(r.value.0.value)
    ensures r.Success? && r.value.1.Some? ==> |r.value.1.value| < |line|
    ensures line[0] == ';' ==> r == Success((None, None))
  {
    if line[0] == '*' then
      match ParseLabel(line)
      case Failure(e) => Failure(e)
      case Success(cmd) => Success((Some(cmd), None))
    else if line[0] == '@' then
      match ParseTag(line)
      case Failure(e) => Failure(e)
      case Success(t) => Success((Some(t.cmd), t.line))
    else if line[0] == ';' then Success((None, None))
    else if line[0] == '[' then
      match ParseInline(line)
      case Failure(e) => Failure(e)
      case Success((cmd, rest)) => Success((Some(cmd), Some(rest)))
    else
      match ParseMsg(line)
      case Failure(e) => Failure(e)
      case Success((cmd, rest)) => Success((Some(cmd), rest))
  }

  /** One pass of the loop body after the empty-line check: route the line,
      then, for a record that came from the start of a freshly read line,
      capture a raw block. Only a block reads further lines. */
  function Dispatch(line: string, rest: seq<string>, start: bool): (r: Result<Outcome, ParseError>)
    requires line != ""
    ensures r.Success? ==> |r.value.rest| <= |rest|
    ensures r.Success? && !start ==> r.value.rest == rest
    ensures r.Success? && r.value.line.Some? ==> |r.value.line.value| < |line|
    ensures r.Success? && r.value.cmd.Some? ==> WellFormed(r.value.cmd.value)
    ensures Route(line).Success? && (!start || Route(line).value.0.None? || !IsBlockTag(Route(line).value.0.value)) ==>
      r == Success(Outcome(Route(line).value.0, Route(line).value.1, rest))
  {
    match Route(line)
    case Failure(e) => Failure(e)
    case Success((cmd, left)) =>
      if start && cmd.Some? && IsBlockTag(cmd.value) then
        match CaptureBlock(cmd.value, rest)
        case Failure(e) => Failure(e)
        case Success((block, after)) => Success(Outcome(Some(block), None, after))
      else Success(Outcome(cmd, left, rest))
  }

  /** The size of the pending line, `null` counting as the smallest. */
  function PendingSize(line: Option<string>): nat {
    if line.None? then 0 else |line.value| + 1
  }

  /** The `while (!input.EndOfStream)` loop, from the unread lines and the
      pending part of the current line. A pending part is only looked at
      while unread lines remain, so what is left of the last line is never
      dispatched. Records come out in the order they were parsed; an error
      ends the run and keeps the records before it. */
  function Loop(rest: seq<string>, line: Option<string>): (r: RunResult)
    ensures forall i :: 0 <= i < |r.cmds| ==> WellFormed(r.cmds[i])
    decreases |rest|, PendingSize(line)
  {
    if |rest| == 0 then RunResult([], None)
    else
      var start := line.None?;
      var cur := if start then rest[0] else line.value;
      var unread := if start then rest[1..] else rest;
      if cur == "" then Loop(unread, None)
      else
        match Dispatch(cur, unread, start)
        case Failure(e) => RunResult([], Some(e))
        case Success(o) =>
          var tail := Loop(o.rest, o.line);
          if o.cmd.Some? then Prepend([o.cmd.value], tail) else tail
  }

  /** `KagParser.Run` over the lines of a script. */
  function Run(input: seq<string>): (r: RunResult)
    ensures forall i :: 0 <= i < |r.cmds| ==> WellFormed(r.cmds[i])
  {
    Loop(input, None)
  }
}
