/** Properties of a whole run: every record is well formed, and how each
    kind of line contributes to the records, in order. */
module RunProperties {
  import opened Wrappers
  import opened Errors
  import opened Text
  import opened Records
  import opened TagParser
  import opened LineParsers
  import opened BlockParser
  import opened Dispatcher
  import opened TagProperties

  /** An empty line and a comment line add nothing. */
  lemma RunSkips(l: string, rest: seq<string>)
    requires l == "" || l[0] == ';'
    ensures Run([l] + rest) == Run(rest)
  {
    assert ([l] + rest)[1..] == rest;
  }

  /** A label line adds its record. */
  lemma RunLabel(l: string, rest: seq<string>)
    requires l != "" && l[0] == '*'
    ensures '|' !in l ==> Run([l] + rest) == Prepend([LabelRecord(l, "", "false")], Run(rest))
    ensures forall i: nat :: FirstAt(l, '|', i) ==>
      Run([l] + rest) == Prepend([LabelRecord(l[..i], l[i + 1..], "true")], Run(rest))
  {
    assert ([l] + rest)[1..] == rest;
    var cmd := ParseLabel(l).value;
    assert Get(cmd, "tagname") == Some("_label");
  }

  /** A line of plain text is one message. */
  lemma RunMessage(m: string, rest: seq<string>)
    requires Plain(m)
    ensures Run([m] + rest) == Prepend([MsgRecord(m)], Run(rest))
  {
    assert ([m] + rest)[1..] == rest;
    assert Get(MsgRecord(m), "tagname") == Some("_msg");
  }

  /** A line the router's parser rejects ends the run with that error and
      adds nothing; the records before it stay. */
  lemma RunError(l: string, rest: seq<string>)
    requires l != "" && Route(l).Failure?
    ensures Run([l] + rest) == RunResult([], Some(Route(l).error))
  {
    assert ([l] + rest)[1..] == rest;
  }

  /** The record an `@` line or an inline tag with these parameters
      builds. */
  function TagRecord(name: string, ps: seq<Param>): Record {
    Put(Apply(None, [], ps).1, "tagname", name)
  }

  /** A freshly read line whose record opens no block: the record, then
      the loop goes on with what its parser left. */
  lemma LoopFreshStep(l: string, rest: seq<string>, c: Record, left: Option<string>)
    requires l != "" && Route(l) == Success((Some(c), left)) && !IsBlockTag(c)
    ensures Run([l] + rest) == Prepend([c], Loop(rest, left))
  {
    assert ([l] + rest)[1..] == rest;
    var o := Dispatch(l, rest, true);
    assert o == Success(Outcome(Some(c), left, rest));
  }

  lemma RouteTag(l: string, t: TagOut)
    requires l != "" && l[0] == '@' && ParseTag(l) == Success(t)
    ensures Route(l) == Success((Some(t.cmd), t.line))
  {
  }

  /** An `@` line that opens no block adds its record. */
  lemma RunTag(name: string, ps: seq<Param>, rest: seq<string>)
    requires IsWord(name) && AllOk(ps) && name != "iscript" && name != "macro"
    ensures Run(["@" + name + ParamsText(ps)] + rest) == Prepend([TagRecord(name, ps)], Run(rest))
  {
    var l := "@" + name + ParamsText(ps);
    var c := TagRecord(name, ps);
    TagRoundTrip(name, ps);
    assert l[0] == '@';
    RouteTag(l, TagOut(c, None));
    assert Get(c, "tagname") == Some(name);
    LoopFreshStep(l, rest, c, None);
  }

  /** Plain text: not empty, no sigil in front, no `[` in it. */
  predicate Plain(m: string) {
    m != "" && m[0] != '*' && m[0] != '@' && m[0] != ';' && m[0] != '[' && '[' !in m
  }

  lemma RouteMsg(l: string)
    requires l != "" && l[0] != '*' && l[0] != '@' && l[0] != ';' && l[0] != '[' && ParseMsg(l).Success?
    ensures Route(l) == Success((Some(ParseMsg(l).value.0), ParseMsg(l).value.1))
  {
  }

  lemma LoopMessageThen(m: string, tail: string, rest: seq<string>)
    requires Plain(m) && tail != "" && tail[0] == '['
    ensures Run([m + tail] + rest) == Prepend([MsgRecord(m)], Loop(rest, Some(tail)))
  {
    var l := m + tail;
    assert l[0] == m[0];
    MsgSplit(m, tail);
    RouteMsg(l);
    assert Get(MsgRecord(m), "tagname") == Some("_msg");
    LoopFreshStep(l, rest, MsgRecord(m), Some(tail));
  }

  /** A pending part of a line, with lines still unread, is routed and
      the loop goes on with what its parser left. */
  lemma LoopPendingStep(cur: string, rest: seq<string>, c: Record, left: Option<string>)
    requires cur != "" && rest != [] && Route(cur) == Success((Some(c), left))
    ensures Loop(rest, Some(cur)) == Prepend([c], Loop(rest, left))
  {
    var o := Dispatch(cur, rest, false);
    assert o == Success(Outcome(Some(c), left, rest));
  }

  lemma RouteInline(l: string, c: Record, u: string)
    requires l != "" && l[0] == '[' && ParseInline(l) == Success((c, u))
    ensures Route(l) == Success((Some(c), Some(u)))
  {
  }

  lemma LoopInlineThen(name: string, ps: seq<Param>, u: string, rest: seq<string>)
    requires IsWord(name) && AllOk(ps) && rest != []
    ensures Loop(rest, Some("[" + name + ParamsText(ps) + "]" + u)) ==
      Prepend([TagRecord(StripAt(name), ps)], Loop(rest, Some(u)))
  {
    var tail := "[" + name + ParamsText(ps) + "]" + u;
    var c := TagRecord(StripAt(name), ps);
    InlineRoundTrip(name, ps, u);
    assert tail[0] == '[';
    RouteInline(tail, c, u);
    LoopPendingStep(tail, rest, c, Some(u));
  }

  lemma LoopPending(u: string, rest: seq<string>)
    requires u == "" || Plain(u)
    requires rest != []
    ensures Loop(rest, Some(u)) == Prepend(if u == "" then [] else [MsgRecord(u)], Loop(rest, None))
  {
    if u != "" {
      assert Get(MsgRecord(u), "tagname") == Some("_msg");
    } else {
      assert Prepend([], Loop(rest, None)) == Loop(rest, None) by {
        assert [] + Loop(rest, None).cmds == Loop(rest, None).cmds;
      }
    }
  }

  lemma PrependTwice(a: seq<Record>, b: seq<Record>, r: RunResult)
    ensures Prepend(a, Prepend(b, r)) == Prepend(a + b, r)
  {
    assert a + (b + r.cmds) == (a + b) + r.cmds;
  }

  /** Text, an inline tag and more text on one line that is not the last:
      three records, and no block capture, since the tag does not start the
      line. */
  lemma RunInline(m: string, name: string, ps: seq<Param>, u: string, rest: seq<string>)
    requires Plain(m) && IsWord(name) && AllOk(ps) && (u == "" || Plain(u)) && rest != []
    ensures Run([m + "[" + name + ParamsText(ps) + "]" + u] + rest) ==
      Prepend([MsgRecord(m), TagRecord(StripAt(name), ps)] + (if u == "" then [] else [MsgRecord(u)]), Run(rest))
  {
    var tail := "[" + name + ParamsText(ps) + "]" + u;
    var us := if u == "" then [] else [MsgRecord(u)];
    InlineLineText(m, name, ParamsText(ps), u);
    LoopMessageThen(m, tail, rest);
    LoopInlineThen(name, ps, u, rest);
    LoopPending(u, rest);
    PrependThree(MsgRecord(m), TagRecord(StripAt(name), ps), us, Run(rest));
  }

  lemma InlineLineText(m: string, name: string, pt: string, u: string)
    ensures m + "[" + name + pt + "]" + u == m + ("[" + name + pt + "]" + u)
  {
  }

  lemma PrependThree(a: Record, b: Record, c: seq<Record>, r: RunResult)
    ensures Prepend([a], Prepend([b], Prepend(c, r))) == Prepend([a, b] + c, r)
  {
    PrependTwice([b], c, r);
    PrependTwice([a], [b] + c, r);
    assert [a] + ([b] + c) == [a, b] + c;
  }

  /** What is left of the last line is never dispatched: after a message
      on the final line, an inline tag and anything after it are lost. */
  lemma RunDropsLastLeftover(m: string, x: string)
    requires Plain(m)
    ensures Run([m + "[" + x]) == RunResult([MsgRecord(m)], None)
  {
    LoopMessageThen(m, "[" + x, []);
    assert [m + "[" + x] + [] == [m + "[" + x];
    assert m + ("[" + x) == m + "[" + x;
  }

  /** The record a captured block becomes. */
  function BlockRecord(cmd: Record, body: seq<string>): Record
    requires IsBlockTag(cmd)
  {
    var base := BlockBase(Get(cmd, "tagname").value);
    Put(Put(cmd, "tagname", "_" + base), base, JoinLines(body))
  }

  lemma CaptureClosed(cmd: Record, body: seq<string>, marker: string, rest: seq<string>)
    requires IsBlockTag(cmd)
    requires var base := BlockBase(Get(cmd, "tagname").value);
      IsEndMarker(base, marker) && forall i :: 0 <= i < |body| ==> !IsEndMarker(base, body[i])
    ensures CaptureBlock(cmd, body + [marker] + rest) == Success((BlockRecord(cmd, body), rest))
  {
    var base := BlockBase(Get(cmd, "tagname").value);
    var input := body + [marker] + rest;
    assert FirstEnd(base, input, |body|) by {
      assert input[|body|] == marker;
      forall i | 0 <= i < |body| ensures !IsEndMarker(base, input[i]) { assert input[i] == body[i]; }
    }
    FirstEndUnique(base, input, |body|, FindEnd(base, input).value);
    assert input[..|body|] == body && input[|body| + 1..] == rest;
  }

  /** A line that opens a block, its body and the end marker: one record
      holding the body, and the run goes on after the marker. Whatever
      followed the opening tag on its line is discarded. */
  lemma RunBlock(o: string, cmd: Record, body: seq<string>, marker: string, rest: seq<string>)
    requires o != "" && Route(o).Success? && Route(o).value.0 == Some(cmd) && IsBlockTag(cmd)
    requires var base := BlockBase(Get(cmd, "tagname").value);
      IsEndMarker(base, marker) && forall i :: 0 <= i < |body| ==> !IsEndMarker(base, body[i])
    ensures Run([o] + body + [marker] + rest) == Prepend([BlockRecord(cmd, body)], Run(rest))
  {
    var after := body + [marker] + rest;
    assert [o] + body + [marker] + rest == [o] + after;
    assert ([o] + after)[1..] == after;
    CaptureClosed(cmd, body, marker, rest);
  }

  /** A block that never meets its end marker ends the run with an error
      and adds nothing. */
  lemma RunBlockUnclosed(o: string, cmd: Record, rest: seq<string>)
    requires o != "" && Route(o).Success? && Route(o).value.0 == Some(cmd) && IsBlockTag(cmd)
    requires var base := BlockBase(Get(cmd, "tagname").value);
      forall i :: 0 <= i < |rest| ==> !IsEndMarker(base, rest[i])
    ensures Run([o] + rest) == RunResult([], Some(BlockEndNotFound))
  {
    assert ([o] + rest)[1..] == rest;
  }

  lemma BlockNamesAreWords(name: string)
    requires name == "iscript" || name == "macro"
    ensures IsWord(name)
  {
    forall i | 0 <= i < |name| ensures !IsSymbol(name[i]) && !IsWhite(name[i]) {
      assert name[i] in "iscriptmacro";
    }
  }

  /** `@iscript` and `@macro` lines open blocks. */
  lemma RunBlockTag(name: string, ps: seq<Param>, body: seq<string>, marker: string, rest: seq<string>)
    requires (name == "iscript" || name == "macro") && AllOk(ps)
    requires IsEndMarker(BlockBase(name), marker) && forall i :: 0 <= i < |body| ==> !IsEndMarker(BlockBase(name), body[i])
    ensures IsBlockTag(TagRecord(name, ps))
    ensures Run(["@" + name + ParamsText(ps)] + body + [marker] + rest) ==
      Prepend([BlockRecord(TagRecord(name, ps), body)], Run(rest))
  {
    BlockNamesAreWords(name);
    TagRoundTrip(name, ps);
    var o := "@" + name + ParamsText(ps);
    assert o[0] == '@';
    RunBlock(o, TagRecord(name, ps), body, marker, rest);
  }

  /** `[iscript]` or `[macro]` at the start of a line opens a block too,
      and the text after the `]` is lost. */
  lemma RunInlineBlockTag(name: string, ps: seq<Param>, u: string, body: seq<string>, marker: string, rest: seq<string>)
    requires (name == "iscript" || name == "macro") && AllOk(ps)
    requires IsEndMarker(BlockBase(name), marker) && forall i :: 0 <= i < |body| ==> !IsEndMarker(BlockBase(name), body[i])
    ensures IsBlockTag(TagRecord(name, ps))
    ensures Run(["[" + name + ParamsText(ps) + "]" + u] + body + [marker] + rest) ==
      Prepend([BlockRecord(TagRecord(name, ps), body)], Run(rest))
  {
    BlockNamesAreWords(name);
    assert StripAt(name) == name;
    InlineRoundTrip(name, ps, u);
    var o := "[" + name + ParamsText(ps) + "]" + u;
    assert o[0] == '[';
    RouteInline(o, TagRecord(name, ps), u);
    RunBlock(o, TagRecord(name, ps), body, marker, rest);
  }

  /** A lone `@` is a tag whose name is empty once the `@` is stripped. */
  lemma RunLoneAt(rest: seq<string>)
    ensures Run(["@"] + rest) == Prepend([[("tagname", "")]], Run(rest))
  {
    LoneAt();
    RouteTag("@", TagOut([("tagname", "")], None));
    LoopFreshStep("@", rest, [("tagname", "")], None);
  }

  lemma LoneAt()
    ensures ParseTag("@") == Success(TagOut([("tagname", "")], None))
  {
    assert ReadToken("@") == "@";
    assert Scan("", Between("@", None), []) == Success(Step("", Between("@", None), []));
  }
}
