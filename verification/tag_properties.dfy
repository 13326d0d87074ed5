/** Properties of the tag tokenizer as a whole: a tag line printed from a
    name and a list of parameters parses back to the record of those
    parameters, and the error cases the tokenizer guards against. */
module TagProperties {
  import opened Wrappers
  import opened Errors
  import opened Text
  import opened Records
  import opened TagParser
  import opened QuoteProperties
  import opened LineParsers

  /** A name the tokenizer reads as one token: no boundary and no white
      space in it. */
  predicate IsWord(w: string) {
    w != "" && forall i :: 0 <= i < |w| ==> !IsSymbol(w[i]) && !IsWhite(w[i])
  }

  /** The ways a parameter value can be written. */
  datatype Value =
    | Bare(word: string)      // k=word
    | Quoted(body: string)    // k="body"
    | Paren(body: string)     // k=(body)
    | Addressed(body: string) // k=&"body"

  datatype Param = Flag(key: string) | Pair(key: string, value: Value)

  predicate ValueOk(v: Value) {
    match v
    case Bare(w) => IsWord(w)
    case Quoted(b) => QuoteBody(b, '"')
    case Paren(b) => QuoteBody(b, ')')
    case Addressed(b) => QuoteBody(b, '"')
  }

  predicate ParamOk(p: Param) {
    IsWord(p.key) && (p.Pair? ==> ValueOk(p.value))
  }

  function ValueText(v: Value): string {
    match v
    case Bare(w) => w
    case Quoted(b) => "\"" + b + "\""
    case Paren(b) => "(" + b + ")"
    case Addressed(b) => "&\"" + b + "\""
  }

  /** The string a value is stored as: quotes are stripped, an addressed
      value keeps its `&` and quotes. */
  function Stored(v: Value): string {
    match v
    case Bare(w) => w
    case Quoted(b) => b
    case Paren(b) => b
    case Addressed(b) => "&\"" + b + "\""
  }

  function ParamText(p: Param): string {
    match p
    case Flag(k) => " " + k
    case Pair(k, v) => " " + k + "=" + ValueText(v)
  }

  function ParamsText(ps: seq<Param>): string {
    if ps == [] then "" else ParamText(ps[0]) + ParamsText(ps[1..])
  }

  /** A bare name is written as "1" once a space follows it. */
  function Commit(pending: Option<string>, cmd: Record): Record {
    if pending.Some? then Put(cmd, pending.value, "1") else cmd
  }

  /** The meaning of one parameter: the pending name is committed first. */
  function ApplyOne(pending: Option<string>, cmd: Record, p: Param): (Option<string>, Record) {
    var c := Commit(pending, cmd);
    match p
    case Flag(k) => (Some(k), c)
    case Pair(k, v) => (None, Put(c, k, Stored(v)))
  }

  /** The meaning of a parameter list read left to right: the name still
      waiting for a space, and the record. */
  function Apply(pending: Option<string>, cmd: Record, ps: seq<Param>): (r: (Option<string>, Record))
    ensures (pending.Some? ==> pending.value != "") && (forall i :: 0 <= i < |ps| ==> IsWord(ps[i].key)) ==>
      (r.0.Some? ==> r.0.value != "")
    decreases |ps|
  {
    if ps == [] then (pending, cmd)
    else
      var s := ApplyOne(pending, cmd, ps[0]);
      Apply(s.0, s.1, ps[1..])
  }

  /** What may follow a parameter: nothing, a space, `]` or `;`. */
  predicate Boundary(r: string) {
    r == "" || r[0] == ' ' || r[0] == ']' || r[0] == ';'
  }

  /** The state between two parameters. */
  function Between(t: string, pending: Option<string>): TagState {
    TagState(Some(t), pending, false, false)
  }

  lemma {:induction false} SymbolFreeOfWord(w: string, r: string)
    requires NoSymbol(w) && (r == "" || IsSymbol(r[0]))
    ensures SymbolFree(w + r) == |w|
    decreases |w|
  {
    if w == "" {
      assert w + r == r;
    } else {
      assert (w + r)[0] == w[0];
      assert (w + r)[1..] == w[1..] + r;
      SymbolFreeOfWord(w[1..], r);
    }
  }

  lemma WordToken(w: string, r: string)
    requires IsWord(w) && (r == "" || IsSymbol(r[0]))
    ensures ReadToken(w + r) == w
  {
    SymbolFreeOfWord(w, r);
    assert (w + r)[0] == w[0];
    assert (w + r)[..|w|] == w;
  }

  lemma TrimSpace(x: string)
    requires x != "" && !IsWhite(x[0])
    ensures TrimStart(" " + x) == x
  {
    assert (" " + x)[1..] == x;
  }

  /** One turn of the `Parse` loop on a token that does not stop it. */
  lemma ScanStep(line: string, st: TagState, cmd: Record)
    requires Valid(st) && line != "" && ReadToken(line) != "]" && ReadToken(line) != ";"
    requires Handle(line, st, cmd, ReadToken(line)).Success?
    ensures var h := Handle(line, st, cmd, ReadToken(line)).value;
      Scan(line, st, cmd) == Scan(h.line, h.st, h.cmd)
  {
  }

  /** A space commits a pending bare name as "1" and is trimmed. */
  lemma ScanSpace(x: string, t: string, pending: Option<string>, cmd: Record)
    requires x != "" && !IsWhite(x[0]) && t != "" && (pending.Some? ==> pending.value != "")
    ensures Scan(" " + x, Between(t, pending), cmd) == Scan(x, Between(t, None), Commit(pending, cmd))
  {
    TrimSpace(x);
    ScanStep(" " + x, Between(t, pending), cmd);
  }

  /** A final space commits a pending bare name as "1" and ends the scan. */
  lemma ScanSpaceEnd(t: string, pending: Option<string>, cmd: Record)
    requires t != "" && (pending.Some? ==> pending.value != "")
    ensures Scan(" ", Between(t, pending), cmd) == Success(Step("", Between(t, None), Commit(pending, cmd)))
  {
    assert TrimStart(" ") == "";
    ScanStep(" ", Between(t, pending), cmd);
    ScanStops("", Between(t, None), Commit(pending, cmd));
  }

  /** A word after the tag name becomes the pending parameter name. */
  lemma ScanName(k: string, x: string, t: string, cmd: Record)
    requires IsWord(k) && (x == "" || IsSymbol(x[0])) && t != ""
    ensures Scan(k + x, Between(t, None), cmd) == Scan(x, Between(t, Some(k)), cmd)
  {
    WordToken(k, x);
    assert (k + x)[0] == k[0];
    assert (k + x)[|k|..] == x;
    ScanStep(k + x, Between(t, None), cmd);
  }

  /** `=` after a pending name, with a value token after it. */
  lemma ScanEqual(x: string, t: string, k: string, cmd: Record)
    requires x != "" && x[0] != ' ' && x[0] != ']' && x[0] != ';' && t != "" && k != ""
    ensures Scan("=" + x, Between(t, Some(k)), cmd) == Scan(x, Between(t, Some(k)).(equal := true), cmd)
  {
    assert ("=" + x)[1..] == x;
    ScanStep("=" + x, Between(t, Some(k)), cmd);
  }

  lemma ScanBareValue(w: string, x: string, t: string, k: string, cmd: Record)
    requires IsWord(w) && (x == "" || IsSymbol(x[0])) && t != "" && k != ""
    ensures Scan("=" + (w + x), Between(t, Some(k)), cmd) == Scan(x, Between(t, None), Put(cmd, k, w))
  {
    assert (w + x)[0] == w[0];
    ScanEqual(w + x, t, k, cmd);
    ScanWordValue(w, x, Between(t, Some(k)).(equal := true), cmd);
  }

  /** A word where a value is expected is the value. */
  lemma ScanWordValue(w: string, x: string, st: TagState, cmd: Record)
    requires Valid(st) && st.tagname.Some? && st.valuename.Some? && !st.address
    requires IsWord(w) && (x == "" || IsSymbol(x[0]))
    ensures Scan(w + x, st, cmd) == Scan(x, Reset(st), Put(cmd, st.valuename.value, w))
  {
    assert (w + x)[0] == w[0];
    WordToken(w, x);
    assert (w + x)[|w|..] == x;
    ScanStep(w + x, st, cmd);
  }

  lemma ScanQuotedValue(opener: char, b: string, x: string, st: TagState, cmd: Record)
    requires (opener == '"' || opener == '(') && QuoteBody(b, Closer(opener))
    requires Valid(st) && st.equal && !(st.address && opener == '(')
    ensures Scan([opener] + b + [Closer(opener)] + x, st, cmd) ==
      Scan(x, Reset(st), Put(cmd, st.valuename.value, if st.address then "&\"" + b + "\"" else b))
  {
    var line := [opener] + b + [Closer(opener)] + x;
    ReadQuoteOf(opener, b, Closer(opener), x);
    assert line[..1] == [opener];
    ScanStep(line, st, cmd);
  }

  lemma BoundaryOfParams(ps: seq<Param>, r: string)
    requires Boundary(r)
    ensures Boundary(ParamsText(ps) + r)
  {
    if ps != [] {
      assert (ParamsText(ps) + r)[0] == ' ';
    }
  }

  lemma ScanQuotedPair(opener: char, b: string, x: string, t: string, k: string, cmd: Record)
    requires (opener == '"' || opener == '(') && QuoteBody(b, Closer(opener)) && t != "" && k != ""
    ensures Scan("=" + ([opener] + b + [Closer(opener)] + x), Between(t, Some(k)), cmd) == Scan(x, Between(t, None), Put(cmd, k, b))
  {
    var q := [opener] + b + [Closer(opener)] + x;
    ScanEqual(q, t, k, cmd);
    ScanQuotedValue(opener, b, x, Between(t, Some(k)).(equal := true), cmd);
  }

  lemma ScanAddressedPair(b: string, x: string, t: string, k: string, cmd: Record)
    requires QuoteBody(b, '"') && t != "" && k != ""
    ensures Scan("=" + ("&" + (['"'] + b + ['"'] + x)), Between(t, Some(k)), cmd) ==
      Scan(x, Between(t, None), Put(cmd, k, "&\"" + b + "\""))
  {
    var q := ['"'] + b + ['"'] + x;
    var st := Between(t, Some(k)).(equal := true);
    ScanEqual("&" + q, t, k, cmd);
    assert ("&" + q)[1..] == q;
    ScanStep("&" + q, st, cmd);
    ScanQuotedValue('"', b, x, st.(address := true), cmd);
  }

  lemma ScanBareOf(w: string, x: string, t: string, k: string, cmd: Record)
    requires IsWord(w) && Boundary(x) && t != "" && k != ""
    ensures Scan("=" + ValueText(Bare(w)) + x, Between(t, Some(k)), cmd) == Scan(x, Between(t, None), Put(cmd, k, w))
  {
    assert "=" + ValueText(Bare(w)) + x == "=" + (w + x);
    ScanBareValue(w, x, t, k, cmd);
  }

  lemma ScanQuotedOf(b: string, x: string, t: string, k: string, cmd: Record)
    requires QuoteBody(b, '"') && t != "" && k != ""
    ensures Scan("=" + ValueText(Quoted(b)) + x, Between(t, Some(k)), cmd) == Scan(x, Between(t, None), Put(cmd, k, b))
  {
    assert "=" + ValueText(Quoted(b)) + x == "=" + (['"'] + b + [Closer('"')] + x);
    ScanQuotedPair('"', b, x, t, k, cmd);
  }

  lemma ScanParenOf(b: string, x: string, t: string, k: string, cmd: Record)
    requires QuoteBody(b, ')') && t != "" && k != ""
    ensures Scan("=" + ValueText(Paren(b)) + x, Between(t, Some(k)), cmd) == Scan(x, Between(t, None), Put(cmd, k, b))
  {
    assert "=" + ValueText(Paren(b)) + x == "=" + (['('] + b + [Closer('(')] + x);
    ScanQuotedPair('(', b, x, t, k, cmd);
  }

  lemma ScanAddressedOf(b: string, x: string, t: string, k: string, cmd: Record)
    requires QuoteBody(b, '"') && t != "" && k != ""
    ensures Scan("=" + ValueText(Addressed(b)) + x, Between(t, Some(k)), cmd) ==
      Scan(x, Between(t, None), Put(cmd, k, "&\"" + b + "\""))
  {
    assert "=" + ValueText(Addressed(b)) + x == "=" + ("&" + (['"'] + b + ['"'] + x));
    ScanAddressedPair(b, x, t, k, cmd);
  }

  /** The value part of a parameter, read after its name. */
  lemma ScanValueOf(v: Value, x: string, t: string, k: string, cmd: Record)
    requires ValueOk(v) && Boundary(x) && t != "" && k != ""
    ensures Scan("=" + ValueText(v) + x, Between(t, Some(k)), cmd) == Scan(x, Between(t, None), Put(cmd, k, Stored(v)))
  {
    match v
    case Bare(w) => ScanBareOf(w, x, t, k, cmd);
    case Quoted(b) => ScanQuotedOf(b, x, t, k, cmd);
    case Paren(b) => ScanParenOf(b, x, t, k, cmd);
    case Addressed(b) => ScanAddressedOf(b, x, t, k, cmd);
  }

  /** A flag: its name becomes the pending one. */
  lemma ScanFlag(k: string, x: string, t: string, pending: Option<string>, cmd: Record)
    requires IsWord(k) && Boundary(x) && t != "" && (pending.Some? ==> pending.value != "")
    ensures Scan(" " + k + x, Between(t, pending), cmd) == Scan(x, Between(t, Some(k)), Commit(pending, cmd))
  {
    assert " " + k + x == " " + (k + x);
    assert (k + x)[0] == k[0];
    ScanSpace(k + x, t, pending, cmd);
    ScanName(k, x, t, Commit(pending, cmd));
  }

  lemma ScanPair(k: string, v: Value, x: string, t: string, pending: Option<string>, cmd: Record)
    requires IsWord(k) && ValueOk(v) && Boundary(x) && t != "" && (pending.Some? ==> pending.value != "")
    ensures Scan(" " + k + "=" + ValueText(v) + x, Between(t, pending), cmd) ==
      Scan(x, Between(t, None), Put(Commit(pending, cmd), k, Stored(v)))
  {
    var y := "=" + ValueText(v) + x;
    assert " " + k + "=" + ValueText(v) + x == " " + (k + y);
    assert (k + y)[0] == k[0];
    ScanSpace(k + y, t, pending, cmd);
    ScanName(k, y, t, Commit(pending, cmd));
    ScanValueOf(v, x, t, k, Commit(pending, cmd));
  }

  predicate AllOk(ps: seq<Param>) {
    forall i :: 0 <= i < |ps| ==> ParamOk(ps[i])
  }

  lemma ScanParamOf(p: Param, x: string, t: string, pending: Option<string>, cmd: Record)
    requires ParamOk(p) && Boundary(x) && t != "" && (pending.Some? ==> pending.value != "")
    ensures Scan(ParamText(p) + x, Between(t, pending), cmd) ==
      Scan(x, Between(t, ApplyOne(pending, cmd, p).0), ApplyOne(pending, cmd, p).1)
  {
    match p
    case Flag(k) => ScanFlag(k, x, t, pending, cmd);
    case Pair(k, v) => ScanPair(k, v, x, t, pending, cmd);
  }

  lemma ParamsTextSplit(ps: seq<Param>, x: string)
    requires ps != []
    ensures ParamsText(ps) + x == ParamText(ps[0]) + (ParamsText(ps[1..]) + x)
  {
    var h, t := ParamText(ps[0]), ParamsText(ps[1..]);
    assert ParamsText(ps) == h + t;
    Assoc(h, t, x);
  }

  lemma AllOkTail(ps: seq<Param>)
    requires ps != [] && AllOk(ps)
    ensures AllOk(ps[1..]) && ParamOk(ps[0])
  {
    assert forall i :: 0 <= i < |ps| - 1 ==> ps[1..][i] == ps[i + 1];
  }

  lemma ParamsTextCons(ps: seq<Param>, x: string)
    requires ps != [] && Boundary(x)
    ensures ParamsText(ps) + x == ParamText(ps[0]) + (ParamsText(ps[1..]) + x)
    ensures Boundary(ParamsText(ps[1..]) + x)
    ensures AllOk(ps) ==> AllOk(ps[1..]) && ParamOk(ps[0])
  {
    BoundaryOfParams(ps[1..], x);
    ParamsTextSplit(ps, x);
    if AllOk(ps) {
      AllOkTail(ps);
    }
  }

  /** A parameter list is read as `Apply` describes it. */
  lemma {:induction false} ScanParams(ps: seq<Param>, x: string, t: string, pending: Option<string>, cmd: Record)
    requires AllOk(ps) && Boundary(x) && t != "" && (pending.Some? ==> pending.value != "")
    ensures Scan(ParamsText(ps) + x, Between(t, pending), cmd) ==
      Scan(x, Between(t, Apply(pending, cmd, ps).0), Apply(pending, cmd, ps).1)
    decreases |ps|
  {
    if ps == [] {
      assert ParamsText(ps) + x == x;
    } else {
      ParamsTextCons(ps, x);
      var y := ParamsText(ps[1..]) + x;
      ScanParamOf(ps[0], y, t, pending, cmd);
      var s := ApplyOne(pending, cmd, ps[0]);
      ScanParams(ps[1..], x, t, s.0, s.1);
    }
  }

  /** Regrouping a concatenation, for the texts the examples build. */
  lemma Assoc(a: string, b: string, c: string)
    ensures a + b + c == a + (b + c)
  {
  }

  /** The first word names the tag. */
  lemma ScanTagName(name: string, x: string)
    requires IsWord(name) && (x == "" || IsSymbol(x[0]))
    ensures Scan(name + x, Initial, []) == Scan(x, Between(name, None), [])
  {
    WordToken(name, x);
    assert (name + x)[0] == name[0];
    assert (name + x)[|name|..] == x;
    ScanStep(name + x, Initial, []);
  }

  lemma ScanParamsFrom(name: string, ps: seq<Param>, x: string)
    requires IsWord(name) && AllOk(ps) && Boundary(x)
    ensures Scan(name + ParamsText(ps) + x, Initial, []) ==
      Scan(x, Between(name, Apply(None, [], ps).0), Apply(None, [], ps).1)
  {
    BoundaryOfParams(ps, x);
    Assoc(name, ParamsText(ps), x);
    ScanTagName(name, ParamsText(ps) + x);
    ScanParams(ps, x, name, None, []);
  }

  /** The scan stops at once on an empty line and on `]`. */
  lemma ScanStops(x: string, st: TagState, cmd: Record)
    requires Valid(st) && (x == "" || x[0] == ']')
    ensures Scan(x, st, cmd) == Success(Step(x, st, cmd))
  {
  }

  /** On an `@` line the scan also stops on `;` between parameters. */
  lemma ScanCommentStops(c: string, t: string, pending: Option<string>, cmd: Record)
    requires t != "" && t[0] == '@' && (pending.Some? ==> pending.value != "")
    ensures Scan(";" + c, Between(t, pending), cmd) == Success(Step(";" + c, Between(t, pending), cmd))
  {
    assert (";" + c)[0] == ';';
  }

  /** `ParseTag` once the scan has stopped in state `Between(t, pending)`. */
  lemma ParseTagAfter(line: string, x: string, t: string, pending: Option<string>, cmd: Record)
    requires t != "" && Scan(line, Initial, []) == Success(Step(x, Between(t, pending), cmd))
    ensures ParseTag(line) == Success(TagOut(Put(cmd, "tagname", StripAt(t)), if x == "" then None else Some(x)))
  {
  }

  lemma AtSign(name: string)
    requires IsWord(name)
    ensures IsWord("@" + name) && StripAt("@" + name) == name
  {
  }

  /** An `@` line printed from a tag name and parameters parses back to
      the record `Apply` describes, with the name stored last under
      `tagname`. A flag at the very end of the line is never committed: no
      space follows it. */
  lemma TagRoundTrip(name: string, ps: seq<Param>)
    requires IsWord(name) && AllOk(ps)
    ensures ParseTag("@" + name + ParamsText(ps)) ==
      Success(TagOut(Put(Apply(None, [], ps).1, "tagname", name), None))
  {
    var a := Apply(None, [], ps);
    var line := "@" + name + ParamsText(ps);
    AtSign(name);
    assert line == line + "";
    ScanParamsFrom("@" + name, ps, "");
    ScanStops("", Between("@" + name, a.0), a.1);
    ParseTagAfter(line, "", "@" + name, a.0, a.1);
  }

  /** With a space after the last parameter, a trailing flag is written
      as "1". */
  lemma TagRoundTripSpace(name: string, ps: seq<Param>)
    requires IsWord(name) && AllOk(ps)
    ensures ParseTag("@" + name + ParamsText(ps) + " ") ==
      Success(TagOut(Put(Commit(Apply(None, [], ps).0, Apply(None, [], ps).1), "tagname", name), None))
  {
    var a := Apply(None, [], ps);
    AtSign(name);
    ScanParamsFrom("@" + name, ps, " ");
    ScanSpaceEnd("@" + name, a.0, a.1);
    ParseTagAfter("@" + name + ParamsText(ps) + " ", "", "@" + name, None, Commit(a.0, a.1));
  }

  /** `ParseInline` once the tag parser has stopped on the `]`. */
  lemma ParseInlineAfter(line: string, cmd: Record, u: string)
    requires line != "" && ParseTag(TrimStart(line[1..])) == Success(TagOut(cmd, Some("]" + u)))
    ensures ParseInline(line) == Success((cmd, u))
  {
    assert ("]" + u)[1..] == u;
  }

  lemma InlineText(name: string, ps: seq<Param>, u: string)
    requires IsWord(name)
    ensures var line := "[" + name + ParamsText(ps) + "]" + u;
      line != "" && TrimStart(line[1..]) == name + ParamsText(ps) + ("]" + u)
  {
    InlineTextOf(name, ParamsText(ps), u);
  }

  lemma InlineTextOf(name: string, pt: string, u: string)
    requires name != "" && !IsWhite(name[0])
    ensures var line := "[" + name + pt + "]" + u;
      line != "" && TrimStart(line[1..]) == name + pt + ("]" + u)
  {
    var line := "[" + name + pt + "]" + u;
    assert line[1..] == name + pt + ("]" + u);
    assert line[1..][0] == name[0];
  }

  /** An inline `[name params]` followed by text `u` parses back to the
      record and hands `u` back; a trailing flag is dropped as on an `@`
      line. */
  lemma InlineRoundTrip(name: string, ps: seq<Param>, u: string)
    requires IsWord(name) && AllOk(ps)
    ensures ParseInline("[" + name + ParamsText(ps) + "]" + u) ==
      Success((Put(Apply(None, [], ps).1, "tagname", StripAt(name)), u))
  {
    var a := Apply(None, [], ps);
    var inner := name + ParamsText(ps) + ("]" + u);
    InlineText(name, ps, u);
    ScanParamsFrom(name, ps, "]" + u);
    ScanStops("]" + u, Between(name, a.0), a.1);
    ParseTagAfter(inner, "]" + u, name, a.0, a.1);
    ParseInlineAfter("[" + name + ParamsText(ps) + "]" + u, Put(a.1, "tagname", StripAt(name)), u);
  }

  function ExampleParams(v: string): seq<Param> {
    [Pair("a", Bare(v)), Pair("c", Quoted("d e")), Flag("f")]
  }

  lemma ExampleOk(v: string)
    requires IsWord(v)
    ensures AllOk(ExampleParams(v))
  {
    assert QuoteBody("d e", '"') by {
      assert "d e"[1..] == " e" && " e"[1..] == "e" && "e"[1..] == "";
    }
    assert IsWord("a") && IsWord("c") && IsWord("f");
  }

  lemma ExampleParamsText(v: string)
    ensures ParamsText(ExampleParams(v)) == " a=" + v + (" c=\"d e\"" + " f")
  {
    var ps := ExampleParams(v);
    assert ParamsText(ps[2..]) == " f" by { assert ps[2..][1..] == []; }
    assert ParamsText(ps[1..]) == " c=\"d e\"" + " f" by { assert ps[1..][1..] == ps[2..]; }
  }

  lemma ExampleText(name: string, v: string)
    requires IsWord(v)
    ensures AllOk(ExampleParams(v))
    ensures "@" + name + ParamsText(ExampleParams(v)) + " " == "@" + name + " a=" + v + " c=\"d e\" f "
  {
    ExampleOk(v);
    ExampleParamsText(v);
  }

  lemma PutAbsent(r: Record, k: string, v: string)
    requires forall i :: 0 <= i < |r| ==> r[i].0 != k
    ensures Put(r, k, v) == r + [(k, v)]
  {
  }

  lemma ExamplePuts(v: string)
    ensures Put([], "a", v) == [("a", v)]
    ensures Put([("a", v)], "c", "d e") == [("a", v), ("c", "d e")]
    ensures Put([("a", v), ("c", "d e")], "f", "1") == [("a", v), ("c", "d e"), ("f", "1")]
  {
    PutAbsent([], "a", v);
    PutSecond(v);
    PutThird(v);
  }

  lemma PutSecond(v: string)
    ensures Put([("a", v)], "c", "d e") == [("a", v), ("c", "d e")]
  {
    var r := [("a", v)];
    assert r[0].0 != "c" by { assert r[0].0[0] != "c"[0]; }
    PutAbsent(r, "c", "d e");
  }

  lemma PutThird(v: string)
    ensures Put([("a", v), ("c", "d e")], "f", "1") == [("a", v), ("c", "d e"), ("f", "1")]
  {
    var r := [("a", v), ("c", "d e")];
    assert r[0].0 != "f" by { assert r[0].0[0] != "f"[0]; }
    assert r[1].0 != "f" by { assert r[1].0[0] != "f"[0]; }
    PutAbsent(r, "f", "1");
  }

  lemma ExampleName(v: string, name: string)
    ensures Put([("a", v), ("c", "d e"), ("f", "1")], "tagname", name) == [("a", v), ("c", "d e"), ("f", "1"), ("tagname", name)]
  {
    PutAbsent([("a", v), ("c", "d e"), ("f", "1")], "tagname", name);
  }

  lemma ApplyCons(pending: Option<string>, cmd: Record, p: Param, rest: seq<Param>)
    ensures Apply(pending, cmd, [p] + rest) == Apply(ApplyOne(pending, cmd, p).0, ApplyOne(pending, cmd, p).1, rest)
  {
    assert ([p] + rest)[1..] == rest;
  }

  lemma ExampleSteps(v: string)
    ensures ApplyOne(None, [], Pair("a", Bare(v))) == (None, [("a", v)])
    ensures ApplyOne(None, [("a", v)], Pair("c", Quoted("d e"))) == (None, [("a", v), ("c", "d e")])
    ensures ApplyOne(None, [("a", v), ("c", "d e")], Flag("f")) == (Some("f"), [("a", v), ("c", "d e")])
  {
    ExamplePuts(v);
  }

  /** `Apply` over three parameters, one step at a time. */
  lemma ApplyThree(p1: Param, p2: Param, p3: Param, r1: Record, r2: Record, last: Option<string>)
    requires ApplyOne(None, [], p1) == (None, r1)
    requires ApplyOne(None, r1, p2) == (None, r2)
    requires ApplyOne(None, r2, p3) == (last, r2)
    ensures Apply(None, [], [p1] + ([p2] + [p3])) == (last, r2)
  {
    ApplyCons(None, [], p1, [p2] + [p3]);
    ApplyCons(None, r1, p2, [p3]);
    ApplyCons(None, r2, p3, []);
    assert [p3] + [] == [p3];
  }

  lemma ExampleApply(v: string)
    ensures var a := Apply(None, [], ExampleParams(v));
      Commit(a.0, a.1) == [("a", v), ("c", "d e"), ("f", "1")]
  {
    var r2 := [("a", v), ("c", "d e")];
    ExamplePuts(v);
    ExampleSteps(v);
    assert ExampleParams(v) == [Pair("a", Bare(v))] + ([Pair("c", Quoted("d e"))] + [Flag("f")]);
    ApplyThree(Pair("a", Bare(v)), Pair("c", Quoted("d e")), Flag("f"), [("a", v)], r2, Some("f"));
  }

  /** `@name a=v c="d e" f `: a bare value, a quoted one with its space
      kept, and a flag committed by the trailing space. */
  lemma TagExample(name: string, v: string)
    requires IsWord(name) && IsWord(v)
    ensures ParseTag("@" + name + " a=" + v + " c=\"d e\" f ") ==
      Success(TagOut([("a", v), ("c", "d e"), ("f", "1"), ("tagname", name)], None))
  {
    var ps := ExampleParams(v);
    ExampleText(name, v);
    ExampleApply(v);
    ExampleName(v, name);
    TagRoundTripSpace(name, ps);
  }

  /** After the parameters and one space, the scan goes on in state
      `Between` with the pending flag committed. */
  lemma AtSpace(name: string, ps: seq<Param>, x: string)
    requires IsWord(name) && AllOk(ps) && x != "" && !IsWhite(x[0])
    ensures var a := Apply(None, [], ps);
      Scan("@" + name + ParamsText(ps) + " " + x, Initial, []) == Scan(x, Between("@" + name, None), Commit(a.0, a.1))
  {
    var a := Apply(None, [], ps);
    assert IsWord("@" + name);
    assert "@" + name + ParamsText(ps) + " " + x == "@" + name + ParamsText(ps) + (" " + x);
    ScanParamsFrom("@" + name, ps, " " + x);
    ScanSpace(x, "@" + name, a.0, a.1);
  }

  /** ... and after a parameter name `k`, with `k` pending. */
  lemma AtName(name: string, ps: seq<Param>, k: string, y: string)
    requires IsWord(name) && AllOk(ps) && IsWord(k) && (y == "" || IsSymbol(y[0]))
    ensures var a := Apply(None, [], ps);
      Scan("@" + name + ParamsText(ps) + " " + k + y, Initial, []) == Scan(y, Between("@" + name, Some(k)), Commit(a.0, a.1))
  {
    var a := Apply(None, [], ps);
    assert "@" + name + ParamsText(ps) + " " + k + y == "@" + name + ParamsText(ps) + " " + (k + y);
    assert (k + y)[0] == k[0];
    AtSpace(name, ps, k + y);
    ScanName(k, y, "@" + name, Commit(a.0, a.1));
  }

  lemma ParseTagFails(line: string, e: ParseError)
    requires Scan(line, Initial, []) == Failure(e)
    ensures ParseTag(line) == Failure(e)
  {
  }

  lemma ScanStray(x: string, t: string, cmd: Record)
    requires t != ""
    ensures Scan("=" + x, Between(t, None), cmd) == Failure(NoParamNameBeforeEqual)
    ensures Scan("\"" + x, Between(t, None), cmd) == Failure(IsolatedQuote)
    ensures Scan("&" + x, Between(t, None), cmd) == Failure(IsolatedAddressing)
  {
    assert ("=" + x)[0] == '=' && ("\"" + x)[0] == '"' && ("&" + x)[0] == '&';
  }

  /** An error met right after the space that follows the parameters. */
  lemma TagFailsAfterSpace(name: string, ps: seq<Param>, y: string, e: ParseError)
    requires IsWord(name) && AllOk(ps) && y != "" && !IsWhite(y[0])
    requires var a := Apply(None, [], ps); Scan(y, Between("@" + name, None), Commit(a.0, a.1)) == Failure(e)
    ensures ParseTag("@" + name + ParamsText(ps) + " " + y) == Failure(e)
  {
    AtSpace(name, ps, y);
    ParseTagFails("@" + name + ParamsText(ps) + " " + y, e);
  }

  lemma SpacedText(name: string, ps: seq<Param>, s: string, x: string)
    requires |s| == 2 && s[0] == ' '
    ensures "@" + name + ParamsText(ps) + s + x == "@" + name + ParamsText(ps) + " " + (s[1..] + x)
  {
  }

  /** A token that cannot open a parameter, right after the space that
      follows the parameters. */
  lemma TagStray(name: string, ps: seq<Param>, x: string)
    requires IsWord(name) && AllOk(ps)
    ensures ParseTag("@" + name + ParamsText(ps) + " " + ("=" + x)) == Failure(NoParamNameBeforeEqual)
    ensures ParseTag("@" + name + ParamsText(ps) + " " + ("\"" + x)) == Failure(IsolatedQuote)
    ensures ParseTag("@" + name + ParamsText(ps) + " " + ("&" + x)) == Failure(IsolatedAddressing)
  {
    var a := Apply(None, [], ps);
    ScanStray(x, "@" + name, Commit(a.0, a.1));
    TagFailsAfterSpace(name, ps, "=" + x, NoParamNameBeforeEqual);
    TagFailsAfterSpace(name, ps, "\"" + x, IsolatedQuote);
    TagFailsAfterSpace(name, ps, "&" + x, IsolatedAddressing);
  }

  /** `=` with no parameter name before it. */
  lemma TagEqualWithoutName(name: string, ps: seq<Param>, x: string)
    requires IsWord(name) && AllOk(ps)
    ensures ParseTag("@" + name + ParamsText(ps) + " =" + x) == Failure(NoParamNameBeforeEqual)
  {
    SpacedText(name, ps, " =", x);
    TagStray(name, ps, x);
  }

  /** A quote where no `=` came before it. */
  lemma TagIsolatedQuote(name: string, ps: seq<Param>, x: string)
    requires IsWord(name) && AllOk(ps)
    ensures ParseTag("@" + name + ParamsText(ps) + " \"" + x) == Failure(IsolatedQuote)
  {
    SpacedText(name, ps, " \"", x);
    TagStray(name, ps, x);
  }

  /** An `&` where no `=` came before it. */
  lemma TagIsolatedAddressing(name: string, ps: seq<Param>, x: string)
    requires IsWord(name) && AllOk(ps)
    ensures ParseTag("@" + name + ParamsText(ps) + " &" + x) == Failure(IsolatedAddressing)
  {
    SpacedText(name, ps, " &", x);
    TagStray(name, ps, x);
  }

  /** The errors a value can raise right after `k=`. */
  lemma ScanBadValue(x: string, t: string, k: string, cmd: Record)
    requires t != "" && k != ""
    ensures x == "" ==> Scan("=" + x, Between(t, Some(k)), cmd) == Failure(IndexOutOfRange)
    ensures x != "" && Boundary(x) ==> Scan("=" + x, Between(t, Some(k)), cmd) == Failure(ExpectingValueAfterEqual)
  {
    if x == "" {
      ScanHandleFails("=", Between(t, Some(k)), cmd);
    } else if Boundary(x) {
      assert ("=" + x)[0] == '=' && ("=" + x)[1..] == x;
      ScanHandleFails("=" + x, Between(t, Some(k)), cmd);
    }
  }

  /** A token whose handler fails makes the scan fail the same way. */
  lemma ScanHandleFails(line: string, st: TagState, cmd: Record)
    requires Valid(st) && line != "" && ReadToken(line) != "]" && ReadToken(line) != ";"
    requires Handle(line, st, cmd, ReadToken(line)).Failure?
    ensures Scan(line, st, cmd) == Failure(Handle(line, st, cmd, ReadToken(line)).error)
  {
  }

  lemma ScanBadQuote(c: string, t: string, k: string, cmd: Record)
    requires t != "" && k != "" && Unclosed(c, '"')
    ensures Scan("=\"" + c, Between(t, Some(k)), cmd) == Failure(OpenedQuote)
  {
    var q := "\"" + c;
    assert "=\"" + c == "=" + q;
    assert q[1..] == c && q[0] == '"';
    ScanEqual(q, t, k, cmd);
    ReadQuoteNone(q, '"');
  }

  /** `&` after `=` and before a value marks the value as addressed. */
  lemma ScanAddress(y: string, t: string, k: string, cmd: Record)
    requires t != "" && k != "" && y != "" && y[0] != ' ' && y[0] != ']' && y[0] != ';'
    ensures Scan("&" + y, Between(t, Some(k)).(equal := true), cmd) ==
      Scan(y, Between(t, Some(k)).(equal := true, address := true), cmd)
  {
    var q := "&" + y;
    assert q[0] == '&' && q[1..] == y;
    ScanStep(q, Between(t, Some(k)).(equal := true), cmd);
  }

  lemma ScanParenAddressed(x: string, t: string, k: string, cmd: Record)
    requires t != "" && k != ""
    ensures Scan("(" + x, Between(t, Some(k)).(equal := true, address := true), cmd) == Failure(AddressingWithParen)
  {
    assert ("(" + x)[0] == '(';
  }

  lemma ScanBadAddress(x: string, t: string, k: string, cmd: Record)
    requires t != "" && k != ""
    ensures Scan("=&(" + x, Between(t, Some(k)), cmd) == Failure(AddressingWithParen)
  {
    var y := "(" + x;
    assert "=&(" + x == "=" + ("&" + y);
    assert ("&" + y)[0] == '&' && y[0] == '(';
    ScanEqual("&" + y, t, k, cmd);
    ScanAddress(y, t, k, cmd);
    ScanParenAddressed(x, t, k, cmd);
  }

  lemma ScanSymbolAfterAddress(w: string, x: string, st: TagState, cmd: Record)
    requires Valid(st) && st.address && IsWord(w) && (x == "" || IsSymbol(x[0]))
    ensures Scan(w + x, st, cmd) == Failure(AddressingWithSymbol)
  {
    assert (w + x)[0] == w[0];
    WordToken(w, x);
    ScanHandleFails(w + x, st, cmd);
  }

  lemma ScanAddressSymbol(w: string, x: string, t: string, k: string, cmd: Record)
    requires t != "" && k != "" && IsWord(w) && (x == "" || IsSymbol(x[0]))
    ensures Scan("=&" + w + x, Between(t, Some(k)), cmd) == Failure(AddressingWithSymbol)
  {
    var q := "&" + (w + x);
    assert "=&" + w + x == "=" + q;
    assert (w + x)[0] == w[0] && q[0] == '&';
    ScanEqual(q, t, k, cmd);
    ScanAddress(w + x, t, k, cmd);
    ScanSymbolAfterAddress(w, x, Between(t, Some(k)).(equal := true, address := true), cmd);
  }

  /** An error met right after a parameter name `k`. */
  lemma TagFailsAfterName(name: string, ps: seq<Param>, k: string, y: string, e: ParseError)
    requires IsWord(name) && AllOk(ps) && IsWord(k) && y != "" && IsSymbol(y[0])
    requires var a := Apply(None, [], ps); Scan(y, Between("@" + name, Some(k)), Commit(a.0, a.1)) == Failure(e)
    ensures ParseTag("@" + name + ParamsText(ps) + " " + k + y) == Failure(e)
  {
    AtName(name, ps, k, y);
    ParseTagFails("@" + name + ParamsText(ps) + " " + k + y, e);
  }

  /** `k=` at the end of the line: `IsEnding` reads past it. */
  lemma TagEqualAtEnd(name: string, ps: seq<Param>, k: string)
    requires IsWord(name) && AllOk(ps) && IsWord(k)
    ensures ParseTag("@" + name + ParamsText(ps) + " " + k + "=") == Failure(IndexOutOfRange)
  {
    var a := Apply(None, [], ps);
    assert "=" == "=" + "";
    ScanBadValue("", "@" + name, k, Commit(a.0, a.1));
    TagFailsAfterName(name, ps, k, "=", IndexOutOfRange);
  }

  /** `k=` followed by a space, `]` or `;`. */
  lemma TagEqualWithoutValue(name: string, ps: seq<Param>, k: string, x: string)
    requires IsWord(name) && AllOk(ps) && IsWord(k) && x != "" && Boundary(x)
    ensures ParseTag("@" + name + ParamsText(ps) + " " + k + "=" + x) == Failure(ExpectingValueAfterEqual)
  {
    var a := Apply(None, [], ps);
    Assoc("@" + name + ParamsText(ps) + " " + k, "=", x);
    ScanBadValue(x, "@" + name, k, Commit(a.0, a.1));
    TagFailsAfterName(name, ps, k, "=" + x, ExpectingValueAfterEqual);
  }

  /** A quote that never closes. */
  lemma TagOpenedQuote(name: string, ps: seq<Param>, k: string, c: string)
    requires IsWord(name) && AllOk(ps) && IsWord(k) && Unclosed(c, '"')
    ensures ParseTag("@" + name + ParamsText(ps) + " " + k + "=\"" + c) == Failure(OpenedQuote)
  {
    var a := Apply(None, [], ps);
    Assoc("@" + name + ParamsText(ps) + " " + k, "=\"", c);
    ScanBadQuote(c, "@" + name, k, Commit(a.0, a.1));
    TagFailsAfterName(name, ps, k, "=\"" + c, OpenedQuote);
  }

  /** `k=&(`: a parenthesised value cannot be addressed. */
  lemma TagAddressingWithParen(name: string, ps: seq<Param>, k: string, x: string)
    requires IsWord(name) && AllOk(ps) && IsWord(k)
    ensures ParseTag("@" + name + ParamsText(ps) + " " + k + "=&(" + x) == Failure(AddressingWithParen)
  {
    var a := Apply(None, [], ps);
    Assoc("@" + name + ParamsText(ps) + " " + k, "=&(", x);
    ScanBadAddress(x, "@" + name, k, Commit(a.0, a.1));
    TagFailsAfterName(name, ps, k, "=&(" + x, AddressingWithParen);
  }

  /** `k=&w`: after `&` only a quote may follow. */
  lemma TagAddressingWithSymbol(name: string, ps: seq<Param>, k: string, w: string, x: string)
    requires IsWord(name) && AllOk(ps) && IsWord(k) && IsWord(w) && (x == "" || IsSymbol(x[0]))
    ensures ParseTag("@" + name + ParamsText(ps) + " " + k + "=&" + w + x) == Failure(AddressingWithSymbol)
  {
    var a := Apply(None, [], ps);
    assert "@" + name + ParamsText(ps) + " " + k + "=&" + w + x == "@" + name + ParamsText(ps) + " " + k + ("=&" + w + x);
    ScanAddressSymbol(w, x, "@" + name, k, Commit(a.0, a.1));
    TagFailsAfterName(name, ps, k, "=&" + w + x, AddressingWithSymbol);
  }

  /** A `;` after a space ends an `@` line: what is before it is kept and
      the comment is handed back. */
  lemma TagComment(name: string, ps: seq<Param>, c: string)
    requires IsWord(name) && AllOk(ps)
    ensures var a := Apply(None, [], ps);
      ParseTag("@" + name + ParamsText(ps) + " ;" + c) ==
        Success(TagOut(Put(Commit(a.0, a.1), "tagname", name), Some(";" + c)))
  {
    var a := Apply(None, [], ps);
    assert "@" + name + ParamsText(ps) + " ;" + c == "@" + name + ParamsText(ps) + " " + (";" + c);
    AtSpace(name, ps, ";" + c);
    AtSign(name);
    ScanCommentStops(c, "@" + name, None, Commit(a.0, a.1));
    ParseTagAfter("@" + name + ParamsText(ps) + " ;" + c, ";" + c, "@" + name, None, Commit(a.0, a.1));
  }

  /** Inside `[...]` a `;` right after a tag name without `@` is an
      error of the tokenizer. */
  lemma InlineComment(name: string, c: string)
    requires IsWord(name) && name[0] != '@'
    ensures ParseInline("[" + name + ";" + c) == Failure(IsolatedComment)
  {
    var line := "[" + name + ";" + c;
    assert line[1..] == name + (";" + c);
    assert line[1..][0] == name[0];
    assert TrimStart(line[1..]) == line[1..];
    ScanTagName(name, ";" + c);
  }

  /** An inline tag name may start with `@`: then the tokenizer stops on
      the `;` and hands it back, and the inline parser, which wants `]`,
      fails instead. */
  lemma InlineCommentAt(name: string, c: string)
    requires IsWord(name)
    ensures ParseInline("[@" + name + ";" + c) == Failure(InlineSyntax)
  {
    var line := "[@" + name + ";" + c;
    var inner := "@" + name + (";" + c);
    AtSign(name);
    InlineAtText(name, c);
    ScanTagName("@" + name, ";" + c);
    ScanCommentStops(c, "@" + name, None, []);
    ParseTagAfter(inner, ";" + c, "@" + name, None, []);
  }

  lemma InlineAtText(name: string, c: string)
    requires name != ""
    ensures var line := "[@" + name + ";" + c;
      line != "" && TrimStart(line[1..]) == "@" + name + (";" + c)
  {
    var line := "[@" + name + ";" + c;
    assert line[1..] == "@" + name + (";" + c);
    assert line[1..][0] == '@';
  }

  /** A line that starts with a space, or with `]`, names no tag. */
  lemma TagWithoutName(x: string)
    ensures ParseTag(" " + x) == Failure(CantFindInstruction)
    ensures ParseTag("]" + x) == Failure(NoTagname)
  {
    assert (" " + x)[0] == ' ' && ("]" + x)[0] == ']';
  }

  /** A `;` straight after the parameters also ends an `@` line, and a
      flag still pending there is dropped. */
  lemma TagCommentDropsFlag(name: string, ps: seq<Param>, c: string)
    requires IsWord(name) && AllOk(ps)
    ensures ParseTag("@" + name + ParamsText(ps) + ";" + c) ==
      Success(TagOut(Put(Apply(None, [], ps).1, "tagname", name), Some(";" + c)))
  {
    var a := Apply(None, [], ps);
    AtSign(name);
    assert "@" + name + ParamsText(ps) + ";" + c == "@" + name + ParamsText(ps) + (";" + c);
    ScanParamsFrom("@" + name, ps, ";" + c);
    ScanCommentStops(c, "@" + name, a.0, a.1);
    ParseTagAfter("@" + name + ParamsText(ps) + ";" + c, ";" + c, "@" + name, a.0, a.1);
  }

  /** `k=&` before a space, `]` or `;` stores a lone "&". */
  lemma ScanAmpersand(x: string, t: string, k: string, cmd: Record)
    requires t != "" && k != "" && x != "" && Boundary(x)
    ensures Scan("=&" + x, Between(t, Some(k)), cmd) == Scan(TrimStart(x), Between(t, None), Put(cmd, k, "&"))
  {
    var q := "&" + x;
    var st := Between(t, Some(k)).(equal := true);
    assert "=&" + x == "=" + q;
    assert q[0] == '&' && q[1..] == x;
    ScanEqual(q, t, k, cmd);
    ScanStep(q, st, cmd);
  }

  lemma ScanAmpersandAtEnd(x: string, t: string, k: string, cmd: Record)
    requires t != "" && k != "" && x == ""
    ensures Scan("=&" + x, Between(t, Some(k)), cmd) == Failure(IndexOutOfRange)
  {
    var q := "&" + x;
    assert "=&" + x == "=" + q;
    assert q[0] == '&' && q[1..] == x;
    ScanEqual(q, t, k, cmd);
  }

  /** `k=&` then only white space: the value is "&". */
  lemma TagAmpersand(name: string, ps: seq<Param>, k: string, x: string)
    requires IsWord(name) && AllOk(ps) && IsWord(k) && x != "" && x[0] == ' ' && TrimStart(x) == ""
    ensures var a := Apply(None, [], ps);
      ParseTag("@" + name + ParamsText(ps) + " " + k + "=&" + x) ==
        Success(TagOut(Put(Put(Commit(a.0, a.1), k, "&"), "tagname", name), None))
  {
    var a := Apply(None, [], ps);
    assert "@" + name + ParamsText(ps) + " " + k + "=&" + x == "@" + name + ParamsText(ps) + " " + k + ("=&" + x);
    AtName(name, ps, k, "=&" + x);
    var c := Put(Commit(a.0, a.1), k, "&");
    ScanAmpersand(x, "@" + name, k, Commit(a.0, a.1));
    assert Scan("", Between("@" + name, None), c) == Success(Step("", Between("@" + name, None), c));
    assert StripAt("@" + name) == name;
    ParseTagDone("@" + name + ParamsText(ps) + " " + k + "=&" + x, "@" + name, c);
  }

  lemma ParseTagDone(line: string, t: string, cmd: Record)
    requires t != "" && Scan(line, Initial, []) == Success(Step("", Between(t, None), cmd))
    ensures ParseTag(line) == Success(TagOut(Put(cmd, "tagname", StripAt(t)), None))
  {
  }

  /** `k=&` at the end of the line: `IsEnding` reads past it. */
  lemma TagAmpersandAtEnd(name: string, ps: seq<Param>, k: string, x: string)
    requires IsWord(name) && AllOk(ps) && IsWord(k) && x == ""
    ensures ParseTag("@" + name + ParamsText(ps) + " " + k + "=&" + x) == Failure(IndexOutOfRange)
  {
    var a := Apply(None, [], ps);
    Assoc("@" + name + ParamsText(ps) + " " + k, "=&", x);
    ScanAmpersandAtEnd(x, "@" + name, k, Commit(a.0, a.1));
    TagFailsAfterName(name, ps, k, "=&" + x, IndexOutOfRange);
  }
}
