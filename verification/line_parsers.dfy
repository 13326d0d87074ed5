/** The parsers that take a whole line, or the part of a line the dispatcher
    hands them: KagLabelParser, KagTagInlineParser and KagMsgParser.
    KagCommentParser produces nothing and is a branch of the dispatcher. */
module LineParsers {
  import opened Wrappers
  import opened Errors
  import opened Text
  import opened Records
  import opened TagParser

  /** The record of a label line, in the order the parser writes its keys. */
  function LabelRecord(text: string, pagename: string, cansave: string): Record {
    [("tagname", "_label"), ("pagename", pagename), ("cansave", cansave), ("label", text)]
  }

  /** `KagLabelParser.Parse`: split `*label|page` at its first `|`. The label
      keeps its `*`; a line without `|` is all label and cannot be saved; a
      `|` in first position is a syntax error. The whole line is consumed. */
  function ParseLabel(line: string): (r: Result<Record, ParseError>)
    ensures r.Failure? <==> line != "" && line[0] == '|'
    ensures r.Failure? ==> r.error == LabelSyntax
    ensures '|' !in line ==> r == Success(LabelRecord(line, "", "false"))
    ensures forall i :: 0 < i && FirstAt(line, '|', i) ==>
      r == Success(LabelRecord(line[..i], line[i + 1..], "true"))
    ensures r.Success? ==> WellFormed(r.value)
  {
    match IndexOf(line, '|')
    case None => Success(LabelRecord(line, "", "false"))
    case Some(pipe) =>
      if pipe == 0 then Failure(LabelSyntax)
      else
        assert forall i :: 0 < i && FirstAt(line, '|', i) ==> i == pipe by {
          forall i | 0 < i && FirstAt(line, '|', i) {
            FirstAtUnique(line, '|', i, pipe);
          }
        }
        var pagename := if pipe + 1 >= |line| then "" else line[pipe + 1..];
        assert pagename == line[pipe + 1..];
        Success(LabelRecord(line[..pipe], pagename, "true"))
  }

  /** `KagTagInlineParser.Parse`: drop the `[` and the white space after it,
      run the tag tokenizer, and demand that it stopped on `]`. The `]` is
      consumed and the rest of the line is handed back. */
  function ParseInline(line: string): (r: Result<(Record, string), ParseError>)
    ensures line == "" ==> r == Failure(IndexOutOfRange)
    ensures r.Success? ==> WellFormed(r.value.0)
    ensures r.Success? ==> IsSuffix("]" + r.value.1, line)
    ensures r.Success? ==> ParseTag(TrimStart(line[1..])) == Success(TagOut(r.value.0, Some("]" + r.value.1)))
    ensures line != "" && ParseTag(TrimStart(line[1..])).Success? && ParseTag(TrimStart(line[1..])).value.line.None? ==>
      r == Failure(NullReference)
    ensures line != "" && ParseTag(TrimStart(line[1..])).Success? ==>
      var t := ParseTag(TrimStart(line[1..])).value;
      t.line.Some? && t.line.value[0] != ']' ==> r == Failure(InlineSyntax)
  {
    if line == "" then Failure(IndexOutOfRange)
    else
      var inner := TrimStart(line[1..]);
      match ParseTag(inner)
      case Failure(e) => Failure(e)
      case Success(t) =>
        if t.line.None? then Failure(NullReference)
        else if t.line.value[0] != ']' then Failure(InlineSyntax)
        else
          InlineShape(line, t.line.value);
          Success((t.cmd, t.line.value[1..]))
  }

  /** What the tokenizer left inside `[...]` is what is left of the whole
      line, and starts with the `]`. */
  lemma InlineShape(line: string, tail: string)
    requires line != "" && IsSuffix(tail, TrimStart(line[1..])) && tail != "" && tail[0] == ']'
    ensures tail == "]" + tail[1..] && IsSuffix(tail, line)
  {
    SuffixTrans(line[1..], TrimStart(line[1..]), tail);
    SuffixTrans(line, line[1..], tail);
  }

  /** The record of a run of message text. */
  function MsgRecord(text: string): Record {
    [("tagname", "_msg"), ("text", text)]
  }

  /** `KagMsgParser.Parse`: the text up to the first `[` is a message; the
      `[` and what follows it are left for the dispatcher. A line that
      starts with `[` is an error. */
  function ParseMsg(line: string): (r: Result<(Record, Option<string>), ParseError>)
    ensures r.Failure? <==> line != "" && line[0] == '['
    ensures r.Failure? ==> r.error == MsgSyntax
    ensures '[' !in line ==> r == Success((MsgRecord(line), None))
    ensures r.Success? && r.value.1.Some? ==>
      var rest := r.value.1.value;
      rest != "" && rest[0] == '[' && |rest| < |line| &&
      r.value.0 == MsgRecord(line[..|line| - |rest|]) && '[' !in line[..|line| - |rest|] &&
      line == line[..|line| - |rest|] + rest
    ensures r.Success? ==> WellFormed(r.value.0) && (r.value.1.None? <==> '[' !in line)
  {
    match IndexOf(line, '[')
    case None => Success((MsgRecord(line), None))
    case Some(tag) =>
      if tag == 0 then Failure(MsgSyntax)
      else
        assert line == line[..tag] + line[tag..];
        Success((MsgRecord(line[..tag]), Some(line[tag..])))
  }

  /** Text free of `[` followed by a `[`: the text is the message and the
      rest is handed back whole. */
  lemma MsgSplit(m: string, tail: string)
    requires m != "" && '[' !in m && tail != "" && tail[0] == '['
    ensures ParseMsg(m + tail) == Success((MsgRecord(m), Some(tail)))
  {
    var l := m + tail;
    assert FirstAt(l, '[', |m|) by {
      assert l[|m|] == tail[0];
      forall k | 0 <= k < |m| ensures l[k] != '[' { assert l[k] == m[k]; }
    }
    FirstAtUnique(l, '[', |m|, IndexOf(l, '[').value);
    assert l[..|m|] == m && l[|m|..] == tail;
  }
}
