/** A reader for the text `OutputKRKR` prints, used as the inverse that pins
    down the rendering: for records whose keys and values hold no `"`, the
    printed text gives the records back. With a `"` inside a value the
    output is ambiguous, because nothing is escaped. */
module OutputDecode {
  import opened Wrappers
  import opened Records
  import opened Output

  predicate StartsWith(s: string, p: string) {
    |p| <= |s| && s[..|p|] == p
  }

  /** The text before the first `"` and the text after it. */
  function UpToQuote(s: string): (r: Option<(string, string)>)
    ensures r.Some? ==> |r.value.1| < |s|
  {
    if s == "" then None
    else if s[0] == '"' then Some(("", s[1..]))
    else match UpToQuote(s[1..])
      case None => None
      case Some((a, b)) => Some(([s[0]] + a, b))
  }

  /** Entries up to and including the `]` that closes the record; returns
      them and the text after that `]`. */
  function DecodeEntries(s: string): (r: Option<(Record, string)>)
    ensures r.Some? ==> |r.value.1| < |s|
    decreases |s|
  {
    if StartsWith(s, "]") then Some(([], s[1..]))
    else if !StartsWith(s, "\"") then None
    else match UpToQuote(s[1..])
      case None => None
      case Some((k, s1)) =>
        if !StartsWith(s1, " => \"") then None
        else match UpToQuote(s1[5..])
          case None => None
          case Some((v, s2)) =>
            if StartsWith(s2, ",\n") then
              match DecodeEntries(s2[2..])
              case None => None
              case Some((es, s3)) => Some(([(k, v)] + es, s3))
            else if StartsWith(s2, "\n]") then Some(([(k, v)], s2[2..]))
            else None
  }

  /** The records after the opening `(const) [` line, up to the final `]`. */
  function DecodeRecords(s: string): (r: Option<seq<Record>>)
    decreases |s|
  {
    if s == "]\n" then Some([])
    else if !StartsWith(s, "(const) %[\n") then None
    else match DecodeEntries(s[11..])
      case None => None
      case Some((cmd, s1)) =>
        if StartsWith(s1, ",\n") then
          match DecodeRecords(s1[2..])
          case None => None
          case Some(cmds) => Some([cmd] + cmds)
        else if s1 == "\n]\n" then Some([cmd])
        else None
  }

  function Decode(s: string): Option<seq<Record>> {
    if StartsWith(s, "(const) [\n") then DecodeRecords(s[10..]) else None
  }

  predicate QuoteFree(cmd: Record) {
    forall i :: 0 <= i < |cmd| ==> '"' !in cmd[i].0 && '"' !in cmd[i].1
  }

  lemma {:induction false} UpToQuoteOf(a: string, b: string)
    requires '"' !in a
    ensures UpToQuote(a + "\"" + b) == Some((a, b))
  {
    if a == "" {
      assert a + "\"" + b == "\"" + b;
    } else {
      assert (a + "\"" + b)[1..] == a[1..] + "\"" + b;
      UpToQuoteOf(a[1..], b);
      assert [a[0]] + a[1..] == a;
    }
  }

  lemma PrefixOf(p: string, t: string)
    ensures StartsWith(p + t, p) && (p + t)[|p|..] == t
  {
    assert (p + t)[..|p|] == p;
  }

  lemma FirstCharDiffers(s: string, p: string)
    requires s != "" && p != "" && s[0] != p[0]
    ensures !StartsWith(s, p)
  {
    if |p| <= |s| {
      assert s[..|p|][0] == s[0];
    }
  }

  /** One entry and what follows it. */
  lemma DecodeEntry(e: (string, string), rest: string)
    requires '"' !in e.0 && '"' !in e.1
    ensures var s := EntryText(e) + rest;
      var s1 := " => \"" + e.1 + "\"" + rest;
      StartsWith(s, "\"") && !StartsWith(s, "]") &&
      UpToQuote(s[1..]) == Some((e.0, s1)) && StartsWith(s1, " => \"") &&
      UpToQuote(s1[5..]) == Some((e.1, rest))
  {
    var s := EntryText(e) + rest;
    var s1 := " => \"" + e.1 + "\"" + rest;
    assert s == "\"" + (e.0 + "\"" + s1);
    PrefixOf("\"", e.0 + "\"" + s1);
    FirstCharDiffers(s, "]");
    UpToQuoteOf(e.0, s1);
    assert s1 == " => \"" + (e.1 + "\"" + rest);
    PrefixOf(" => \"", e.1 + "\"" + rest);
    UpToQuoteOf(e.1, rest);
  }

  /** The last entry of a record, closed by `]`. */
  lemma DecodeEntryLast(e: (string, string), tail: string)
    requires '"' !in e.0 && '"' !in e.1
    ensures DecodeEntries(EntryText(e) + ("\n]" + tail)) == Some(([e], tail))
  {
    var s2 := "\n]" + tail;
    DecodeEntry(e, s2);
    FirstCharDiffers(s2, ",\n");
    PrefixOf("\n]", tail);
  }

  /** An entry followed by `,` and more entries. */
  lemma DecodeEntryCons(e: (string, string), more: string, es: Record, t: string)
    requires '"' !in e.0 && '"' !in e.1 && DecodeEntries(more) == Some((es, t))
    ensures DecodeEntries(EntryText(e) + (",\n" + more)) == Some(([e] + es, t))
  {
    DecodeEntry(e, ",\n" + more);
    PrefixOf(",\n", more);
  }

  lemma QuoteFreeTail(cmd: Record)
    requires QuoteFree(cmd) && cmd != []
    ensures QuoteFree(cmd[1..]) && '"' !in cmd[0].0 && '"' !in cmd[0].1
  {
    forall i | 0 <= i < |cmd[1..]| ensures '"' !in cmd[1..][i].0 && '"' !in cmd[1..][i].1 {
      assert cmd[1..][i] == cmd[i + 1];
    }
  }

  lemma {:induction false} DecodeEntriesText(cmd: Record, tail: string)
    requires QuoteFree(cmd)
    ensures DecodeEntries(EntriesText(cmd) + "]" + tail) == Some((cmd, tail))
    decreases |cmd|
  {
    var s := EntriesText(cmd) + "]" + tail;
    if cmd == [] {
      assert s == "]" + tail;
      PrefixOf("]", tail);
    } else if |cmd| == 1 {
      assert s == EntryText(cmd[0]) + ("\n]" + tail);
      DecodeEntryLast(cmd[0], tail);
      assert [cmd[0]] == cmd;
    } else {
      var more := EntriesText(cmd[1..]) + "]" + tail;
      assert s == EntryText(cmd[0]) + (",\n" + more);
      QuoteFreeTail(cmd);
      DecodeEntriesText(cmd[1..], tail);
      DecodeEntryCons(cmd[0], more, cmd[1..], tail);
      assert [cmd[0]] + cmd[1..] == cmd;
    }
  }

  lemma DecodeLastRecord(cmd: Record)
    requires QuoteFree(cmd)
    ensures DecodeRecords("(const) %[\n" + (EntriesText(cmd) + "]" + "\n]\n")) == Some([cmd])
  {
    var after := "\n]\n";
    var s := "(const) %[\n" + (EntriesText(cmd) + "]" + after);
    PrefixOf("(const) %[\n", EntriesText(cmd) + "]" + after);
    FirstCharDiffers(s, "]\n");
    DecodeEntriesText(cmd, after);
    FirstCharDiffers(after, ",\n");
  }

  lemma DecodeRecordThenMore(cmd: Record, more: string)
    requires QuoteFree(cmd) && DecodeRecords(more).Some?
    ensures DecodeRecords("(const) %[\n" + (EntriesText(cmd) + "]" + (",\n" + more))) == Some([cmd] + DecodeRecords(more).value)
  {
    var after := ",\n" + more;
    var s := "(const) %[\n" + (EntriesText(cmd) + "]" + after);
    PrefixOf("(const) %[\n", EntriesText(cmd) + "]" + after);
    FirstCharDiffers(s, "]\n");
    DecodeEntriesText(cmd, after);
    PrefixOf(",\n", more);
  }

  lemma ShapeMore(e: string, r: string)
    ensures "(const) %[\n" + e + "],\n" + r + "]\n" == "(const) %[\n" + (e + "]" + (",\n" + (r + "]\n")))
  {
  }

  lemma {:induction false} DecodeRecordsText(cmds: seq<Record>)
    requires forall i :: 0 <= i < |cmds| ==> QuoteFree(cmds[i])
    ensures DecodeRecords(RecordsText(cmds) + "]\n") == Some(cmds)
    decreases |cmds|
  {
    var s := RecordsText(cmds) + "]\n";
    if cmds == [] {
      assert s == "]\n";
    } else if |cmds| == 1 {
      assert RecordsText(cmds[1..]) == "";
      assert s == "(const) %[\n" + (EntriesText(cmds[0]) + "]" + "\n]\n");
      DecodeLastRecord(cmds[0]);
      assert [cmds[0]] == cmds;
    } else {
      var more := RecordsText(cmds[1..]) + "]\n";
      var e := EntriesText(cmds[0]);
      assert RecordsText(cmds) == RecordText(cmds[0], false) + RecordsText(cmds[1..]);
      assert RecordText(cmds[0], false) == "(const) %[\n" + e + "],\n";
      ShapeMore(e, RecordsText(cmds[1..]));
      DecodeRecordsText(cmds[1..]);
      DecodeRecordThenMore(cmds[0], more);
      assert [cmds[0]] + cmds[1..] == cmds;
    }
  }

  /** Reading back the rendered text gives the records, whenever no key or
      value holds a `"`. */
  lemma DecodeRender(cmds: seq<Record>)
    requires forall i :: 0 <= i < |cmds| ==> QuoteFree(cmds[i])
    ensures Decode(Render(cmds)) == Some(cmds)
  {
    assert Render(cmds)[10..] == RecordsText(cmds) + "]\n";
    DecodeRecordsText(cmds);
  }

  /** Without escaping, a `"` in a value can pass for the end of a key: two
      different records print the same text. */
  lemma RenderNotInjective()
    ensures Render([[("a", "b\" => \"c")]]) == Render([[("a\" => \"b", "c")]])
    ensures [("a", "b\" => \"c")] != [("a\" => \"b", "c")]
  {
    assert EntryText(("a", "b\" => \"c")) == EntryText(("a\" => \"b", "c"));
  }
}
