/** KagTagParser: the character-level state machine that reads one `@tag`
    line, or the inside of one `[tag]`, into a command record.

    The C# class keeps its state in four fields and moves a `ref string`
    cursor; here the state is a value and every step returns the shortened
    line, the new state and the record built so far. */
module TagParser {
  import opened Wrappers
  import opened Errors
  import opened Text
  import opened Records

  /** `_tagname`, `_valuename`, `_equal`, `_address`. A None string stands for
      `null`. */
  datatype TagState = TagState(tagname: Option<string>, valuename: Option<string>, equal: bool, address: bool)

  /** The line left to read, the state and the record after one step. */
  datatype Step = Step(line: string, st: TagState, cmd: Record)

  /** What `Parse` hands back: the record and the `ref line` it leaves, None
      when the line was used up. */
  datatype TagOut = TagOut(cmd: Record, line: Option<string>)

  predicate IsNullOrEmpty(s: Option<string>) {
    s.None? || s.value == ""
  }

  /** What the handlers keep true of the fields between two tokens: names
      are never empty, a parameter name needs a tag name, `=` needs a
      parameter name and `&` needs `=`. */
  predicate Valid(st: TagState) {
    && (st.tagname.Some? ==> st.tagname.value != "")
    && (st.valuename.Some? ==> st.valuename.value != "" && st.tagname.Some?)
    && (st.equal ==> st.valuename.Some?)
    && (st.address ==> st.equal)
  }

  /** The state at the start of `Parse`: `_tagname = null` and `Reset()`. */
  const Initial := TagState(None, None, false, false)

  /** `Reset()`: forget the pending parameter, keep the tag name. */
  function Reset(st: TagState): TagState {
    st.(valuename := None, equal := false, address := false)
  }

  /** The length of the longest prefix of `s` free of token boundaries. */
  function SymbolFree(s: string): (n: nat)
    ensures n <= |s| && NoSymbol(s[..n])
    ensures n == |s| || IsSymbol(s[n])
  {
    if s == "" || IsSymbol(s[0]) then 0
    else
      var m := SymbolFree(s[1..]);
      assert s[..m + 1] == [s[0]] + s[1..][..m];
      m + 1
  }

  /** `ReadToken`: "" when the line starts with a space; the single boundary
      character when it starts with any other boundary; otherwise the run of
      characters up to the next boundary or the end of the line. It never
      moves the cursor. */
  function ReadToken(line: string): (t: string)
    requires line != ""
    ensures t == "" <==> line[0] == ' '
    ensures t != "" ==> |t| <= |line| && t == line[..|t|]
    ensures line[0] != ' ' && IsSymbol(line[0]) ==> t == [line[0]]
    ensures !IsSymbol(line[0]) ==> NoSymbol(t) && (|t| == |line| || IsSymbol(line[|t|]))
  {
    if line[0] == ' ' then ""
    else
      var n := SymbolFree(line);
      if n == 0 then line[..1] else line[..n]
  }

  /** `IsEnding`: whether the next token closes a value (a space, `]` or
      `;`). On an empty line `ReadToken` indexes `line[0]` and throws. */
  function IsEnding(line: string): (r: Result<bool, ParseError>)
    ensures r.Failure? <==> line == ""
    ensures r.Failure? ==> r.error == IndexOutOfRange
    ensures r.Success? ==> (r.value <==> line[0] == ' ' || line[0] == ']' || line[0] == ';')
  {
    if line == "" then Failure(IndexOutOfRange)
    else
      var token := ReadToken(line);
      Success(token == "" || token == "]" || token == ";")
  }

  /** The position of the closer in a quoted span whose scan has reached
      `i`: a backslash makes the scan jump over the next character. */
  function QuoteEnd(line: string, rhs: char, i: nat): (r: Option<nat>)
    ensures r.Some? ==> i <= r.value < |line| && line[r.value] == rhs
    decreases |line| - i
  {
    if i >= |line| then None
    else if line[i] == '\\' then QuoteEnd(line, rhs, i + 2)
    else if line[i] == rhs then Some(i)
    else QuoteEnd(line, rhs, i + 1)
  }

  /** The closer paired with an opener: `)` for `(`, `"` for anything else. */
  function Closer(lhs: char): char {
    if lhs == '(' then ')' else '"'
  }

  /** `ReadQuote`: the text between the opener at index 0 and its closer,
      kept verbatim (escapes are skipped over, not undone), and the line
      after the closer; None when the quote never closes. */
  function ReadQuote(line: string, lhs: char): (r: Option<(string, string)>)
    ensures r.Some? ==> |r.value.1| < |line| && IsSuffix(r.value.1, line)
    ensures r.Some? ==> line == line[..1] + r.value.0 + [Closer(lhs)] + r.value.1
  {
    match QuoteEnd(line, Closer(lhs), 1)
    case None => None
    case Some(e) =>
      assert line == line[..1] + line[1..e] + [Closer(lhs)] + line[e + 1..];
      Some((line[1..e], line[e + 1..]))
  }

  /** The string a value is stored as: `&"content"` after `&`, the
      content itself otherwise. */
  function Pushed(st: TagState, content: string): string {
    if st.address then "&\"" + content + "\"" else content
  }

  /** `PushValue`: store the pending parameter, as `&"content"` when the
      value was addressed, and reset the state. */
  function PushValue(st: TagState, cmd: Record, content: string): (r: (TagState, Record))
    requires st.valuename.Some?
    ensures r.0 == Reset(st)
    ensures Assigns(cmd, r.1, st.valuename.value, Pushed(st, content))
    ensures DistinctKeys(cmd) ==> DistinctKeys(r.1)
  {
    PutKeepsDistinct(cmd, st.valuename.value, Pushed(st, content));
    (Reset(st), Put(cmd, st.valuename.value, Pushed(st, content)))
  }

  /** `ParseWhitespace`, on a line that starts with a space: commits a pending
      bare name as "1", then trims the white prefix. */
  function ParseWhitespace(line: string, st: TagState, cmd: Record): (r: Result<Step, ParseError>)
    requires Valid(st) && line != "" && line[0] == ' '
    ensures r.Failure? <==> IsNullOrEmpty(st.tagname)
    ensures r.Failure? ==> r.error == CantFindInstruction
    ensures r.Success? ==> r.value.line == TrimStart(line) && |r.value.line| < |line|
    ensures r.Success? ==> Valid(r.value.st) && r.value.st.valuename.None? && r.value.st.tagname == st.tagname
    ensures r.Success? && st.valuename.Some? ==> Assigns(cmd, r.value.cmd, st.valuename.value, Pushed(st, "1"))
    ensures r.Success? && st.valuename.None? ==> r.value.cmd == cmd
    ensures r.Success? ==> IsSuffix(r.value.line, line)
    ensures r.Success? && DistinctKeys(cmd) ==> DistinctKeys(r.value.cmd)
  {
    if IsNullOrEmpty(st.tagname) then Failure(CantFindInstruction)
    else
      var (st', cmd') := if !IsNullOrEmpty(st.valuename) then PushValue(st, cmd, "1") else (st, cmd);
      Success(Step(TrimStart(line), st', cmd'))
  }

  /** `ParseAddressing`, on a line that starts with `&`: legal only after `=`.
      When an ending token follows, the value is the literal "&"; otherwise
      the state remembers the `&` for the quote that must come next. */
  function ParseAddressing(line: string, st: TagState, cmd: Record): (r: Result<Step, ParseError>)
    requires Valid(st) && line != "" && line[0] == '&'
    ensures r.Failure? <==> !st.equal || line == "&"
    ensures !st.equal ==> r == Failure(IsolatedAddressing)
    ensures st.equal && line == "&" ==> r == Failure(IndexOutOfRange)
    ensures r.Success? ==> st.equal && Valid(r.value.st) && |r.value.line| < |line|
    ensures r.Success? && (line[1] == ' ' || line[1] == ']' || line[1] == ';') ==>
      r.value.line == TrimStart(line[1..]) && r.value.st == Reset(st) && Assigns(cmd, r.value.cmd, st.valuename.value, "&")
    ensures r.Success? && !(line[1] == ' ' || line[1] == ']' || line[1] == ';') ==>
      r.value.line == line[1..] && r.value.st == st.(address := true) && r.value.cmd == cmd
    ensures r.Success? ==> IsSuffix(r.value.line, line)
    ensures r.Success? && DistinctKeys(cmd) ==> DistinctKeys(r.value.cmd)
  {
    if !st.equal then Failure(IsolatedAddressing)
    else
      var st' := st.(address := true);
      var rest := line[1..];
      match IsEnding(rest)
      case Failure(e) => Failure(e)
      case Success(ending) =>
        if ending then
          PutKeepsDistinct(cmd, st'.valuename.value, "&");
          Success(Step(TrimStart(rest), Reset(st'), Put(cmd, st'.valuename.value, "&")))
        else Success(Step(rest, st', cmd))
  }

  /** `ParseQuote`, on a line that starts with `"` or `(`: legal only after
      `=`, and `(` not after `&`. Stores the quoted content and resets. */
  function ParseQuote(line: string, st: TagState, cmd: Record, token: string): (r: Result<Step, ParseError>)
    requires Valid(st) && line != "" && token == line[..1] && (token == "\"" || token == "(")
    ensures r.Failure? <==> !st.equal || (st.address && token == "(") || ReadQuote(line, token[0]).None?
    ensures !st.equal ==> r == Failure(IsolatedQuote)
    ensures st.equal && st.address && token == "(" ==> r == Failure(AddressingWithParen)
    ensures st.equal && !(st.address && token == "(") && ReadQuote(line, token[0]).None? ==> r == Failure(OpenedQuote)
    ensures r.Success? ==> Valid(r.value.st) && r.value.st == Reset(st) && |r.value.line| < |line|
    ensures r.Success? ==> ReadQuote(line, token[0]).Some? && r.value.line == ReadQuote(line, token[0]).value.1
    ensures r.Success? ==>
      Assigns(cmd, r.value.cmd, st.valuename.value, Pushed(st, ReadQuote(line, token[0]).value.0))
    ensures r.Success? ==> IsSuffix(r.value.line, line)
    ensures r.Success? && DistinctKeys(cmd) ==> DistinctKeys(r.value.cmd)
  {
    if !st.equal then Failure(IsolatedQuote)
    else if st.address && token == "(" then Failure(AddressingWithParen)
    else match ReadQuote(line, token[0])
      case None => Failure(OpenedQuote)
      case Some((content, rest)) =>
        var (st', cmd') := PushValue(st, cmd, content);
        Success(Step(rest, st', cmd'))
  }

  /** `ParseEqual`, on a line that starts with `=`: needs a pending parameter
      name and a value token right after it. */
  function ParseEqual(line: string, st: TagState, cmd: Record): (r: Result<Step, ParseError>)
    requires Valid(st) && line != "" && line[0] == '='
    ensures r.Failure? <==> IsNullOrEmpty(st.valuename) || line == "=" || line[1] == ' ' || line[1] == ']' || line[1] == ';'
    ensures IsNullOrEmpty(st.valuename) ==> r == Failure(NoParamNameBeforeEqual)
    ensures !IsNullOrEmpty(st.valuename) && line == "=" ==> r == Failure(IndexOutOfRange)
    ensures !IsNullOrEmpty(st.valuename) && |line| > 1 && (line[1] == ' ' || line[1] == ']' || line[1] == ';') ==>
      r == Failure(ExpectingValueAfterEqual)
    ensures r.Success? ==> r.value == Step(line[1..], st.(equal := true), cmd) && Valid(r.value.st)
    ensures r.Success? ==> IsSuffix(r.value.line, line)
    ensures r.Success? && DistinctKeys(cmd) ==> DistinctKeys(r.value.cmd)
  {
    if IsNullOrEmpty(st.valuename) then Failure(NoParamNameBeforeEqual)
    else
      var rest := line[1..];
      match IsEnding(rest)
      case Failure(e) => Failure(e)
      case Success(ending) =>
        if ending then Failure(ExpectingValueAfterEqual)
        else Success(Step(rest, st.(equal := true), cmd))
  }

  /** `ParseSymbol`, on any other token: the first one names the tag, then
      tokens alternate between a parameter name and its bare value. A token
      right after `&` is an error. */
  function ParseSymbol(line: string, st: TagState, cmd: Record, token: string): (r: Result<Step, ParseError>)
    requires Valid(st) && token != "" && |token| <= |line| && token == line[..|token|]
    ensures r.Failure? <==> st.address
    ensures r.Failure? ==> r.error == AddressingWithSymbol
    ensures r.Success? ==> Valid(r.value.st) && r.value.line == line[|token|..]
    ensures r.Success? && st.tagname.None? ==> r.value.st == st.(tagname := Some(token)) && r.value.cmd == cmd
    ensures r.Success? && st.tagname.Some? && st.valuename.Some? ==>
      r.value.st == Reset(st) && Assigns(cmd, r.value.cmd, st.valuename.value, token)
    ensures r.Success? && st.tagname.Some? && st.valuename.None? ==>
      r.value.st == st.(valuename := Some(token)) && r.value.cmd == cmd
    ensures r.Success? ==> IsSuffix(r.value.line, line)
    ensures r.Success? && DistinctKeys(cmd) ==> DistinctKeys(r.value.cmd)
  {
    if st.address then Failure(AddressingWithSymbol)
    else
      var rest := line[|token|..];
      if st.tagname.None? then Success(Step(rest, st.(tagname := Some(token)), cmd))
      else if !IsNullOrEmpty(st.valuename) then
        var (st', cmd') := PushValue(st, cmd, token);
        Success(Step(rest, st', cmd'))
      else Success(Step(rest, st.(valuename := Some(token)), cmd))
  }

  /** One token's worth of the `switch` in `Parse`, for every token that does
      not end the loop. */
  function Handle(line: string, st: TagState, cmd: Record, token: string): (r: Result<Step, ParseError>)
    requires Valid(st) && line != "" && token == ReadToken(line) && token != "]" && token != ";"
    ensures r.Success? ==> Valid(r.value.st) && |r.value.line| < |line| && IsSuffix(r.value.line, line)
    ensures r.Success? && DistinctKeys(cmd) ==> DistinctKeys(r.value.cmd)
  {
    if token == "" then ParseWhitespace(line, st, cmd)
    else if token == "&" then ParseAddressing(line, st, cmd)
    else if token == "\"" || token == "(" then ParseQuote(line, st, cmd, token)
    else if token == "=" then ParseEqual(line, st, cmd)
    else ParseSymbol(line, st, cmd, token)
  }

  /** The `while (parsing)` loop of `Parse`. It stops, without error, on an
      empty line, on `]`, and on `;` after an `@` tag name when no `=` or
      `&` is pending; every other step shortens the line. */
  function Scan(line: string, st: TagState, cmd: Record): (r: Result<Step, ParseError>)
    requires Valid(st)
    ensures r.Success? ==> Valid(r.value.st)
    ensures r.Success? ==> IsSuffix(r.value.line, line)
    ensures r.Success? ==> r.value.line == "" || r.value.line[0] == ']' || r.value.line[0] == ';'
    ensures r.Success? && |r.value.line| == |line| ==> r.value.st == st && r.value.cmd == cmd
    ensures r.Success? && r.value.line != "" && r.value.line[0] == ';' ==>
      r.value.st.tagname.Some? && r.value.st.tagname.value[0] == '@' && !r.value.st.equal && !r.value.st.address
    ensures r.Success? && DistinctKeys(cmd) ==> DistinctKeys(r.value.cmd)
    ensures line != "" && line[0] == ';' ==> (r.Success? <==>
      st.tagname.Some? && st.tagname.value[0] == '@' && !st.equal && !st.address)
    ensures line != "" && line[0] == ';' && st.tagname.None? ==> r == Failure(NullReference)
    decreases |line|
  {
    if line == "" then Success(Step(line, st, cmd))
    else
      var token := ReadToken(line);
      if token == "]" then Success(Step(line, st, cmd))
      else if token == ";" then
        if st.tagname.None? then Failure(NullReference)
        else if st.tagname.value[0] != '@' || st.address || st.equal then Failure(IsolatedComment)
        else Success(Step(line, st, cmd))
      else
        match Handle(line, st, cmd, token)
        case Failure(e) => Failure(e)
        case Success(next) =>
          var r := Scan(next.line, next.st, next.cmd);
          if r.Success? then SuffixTrans(line, next.line, r.value.line); r else r
  }

  /** Drop one leading `@` from the tag name. */
  function StripAt(name: string): (r: string)
    ensures name != "" && name[0] == '@' ==> name == "@" + r
    ensures (name == "" || name[0] != '@') ==> r == name
  {
    if |name| > 0 && name[0] == '@' then name[1..] else name
  }

  /** `KagTagParser.Parse`: scan the line, insist on a tag name, store it
      (without its `@`) under `tagname` as the record's last write, and turn
      an exhausted line into `null`. */
  function ParseTag(line: string): (r: Result<TagOut, ParseError>)
    ensures r.Success? ==> WellFormed(r.value.cmd)
    ensures r.Success? && r.value.line.Some? ==>
      r.value.line.value != "" && |r.value.line.value| < |line| && IsSuffix(r.value.line.value, line)
    ensures r.Success? && r.value.line.Some? ==> r.value.line.value[0] == ']' || r.value.line.value[0] == ';'
    ensures line == "" ==> r == Failure(NoTagname)
  {
    match Scan(line, Initial, [])
    case Failure(e) => Failure(e)
    case Success(s) =>
      if IsNullOrEmpty(s.st.tagname) then Failure(NoTagname)
      else
        var name := StripAt(s.st.tagname.value);
        var rest := if s.line == "" then None else Some(s.line);
        assert DistinctKeys(s.cmd);
        PutInPlace(s.cmd, "tagname", name);
        Success(TagOut(Put(s.cmd, "tagname", name), rest))
  }
}
