/** KagParser.OutputKRKR: the command list printed as a TJS2 constant array
    of constant dictionaries. The console writes are collected into the
    returned text; each `WriteLine` ends with "\n". Nothing is escaped. */
module Output {
  import opened Records

  /** `"key" => "value"`. */
  function EntryText(e: (string, string)): string {
    "\"" + e.0 + "\"" + " => " + "\"" + e.1 + "\""
  }

  /** The entries of one record, one per line, with `,` after all but the
      last. */
  function EntriesText(r: Record): string {
    if r == [] then ""
    else if |r| == 1 then EntryText(r[0]) + "\n"
    else EntryText(r[0]) + ",\n" + EntriesText(r[1..])
  }

  /** One record, closed by `],` unless it is the last one. */
  function RecordText(r: Record, last: bool): string {
    "(const) %[\n" + EntriesText(r) + (if last then "]\n" else "],\n")
  }

  function RecordsText(cmds: seq<Record>): string {
    if cmds == [] then "" else RecordText(cmds[0], |cmds| == 1) + RecordsText(cmds[1..])
  }

  /** The whole output, as a separator-based definition. */
  function Render(cmds: seq<Record>): string {
    "(const) [\n" + RecordsText(cmds) + "]\n"
  }

  /** The inner `foreach` of `OutputKRKR`: print each entry, then `,` while
      the running count is below the record's size. */
  method EntriesOut(cmd: Record) returns (out: string)
    ensures out == EntriesText(cmd)
  {
    out := "";
    var valueindex := 0;
    while valueindex < |cmd|
      invariant 0 <= valueindex <= |cmd|
      invariant out + EntriesText(cmd[valueindex..]) == EntriesText(cmd)
    {
      var kv := cmd[valueindex];
      assert cmd[valueindex..][1..] == cmd[valueindex + 1..];
      out := out + "\"" + kv.0 + "\"" + " => " + "\"" + kv.1 + "\"";
      valueindex := valueindex + 1;
      if valueindex < |cmd| {
        out := out + ",\n";
      } else {
        out := out + "\n";
      }
    }
    assert cmd[valueindex..] == [];
  }

  lemma RecordsTextAt(cmds: seq<Record>, i: nat)
    requires i < |cmds|
    ensures RecordsText(cmds[i..]) == RecordText(cmds[i], i + 1 == |cmds|) + RecordsText(cmds[i + 1..])
  {
    assert cmds[i..][1..] == cmds[i + 1..];
  }

  /** `OutputKRKR` as written: a counting loop that decides, after each
      record, whether `],` or `]` closes it. */
  method OutputKRKR(cmds: seq<Record>) returns (out: string)
    ensures out == Render(cmds)
  {
    out := "(const) [\n";
    var cmdindex := 0;
    while cmdindex < |cmds|
      invariant 0 <= cmdindex <= |cmds|
      invariant out + RecordsText(cmds[cmdindex..]) == "(const) [\n" + RecordsText(cmds)
    {
      var entries := EntriesOut(cmds[cmdindex]);
      var text := "(const) %[\n" + entries;
      if cmdindex + 1 < |cmds| {
        text := text + "],\n";
      } else {
        text := text + "]\n";
      }
      RecordsTextAt(cmds, cmdindex);
      out := out + text;
      cmdindex := cmdindex + 1;
    }
    assert cmds[cmdindex..] == [];
    out := out + "]\n";
  }
}
