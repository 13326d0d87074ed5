/** KagBlockParser: the raw body of an `iscript` or `macro` tag, taken line
    by line, unparsed, up to its end marker. */
module BlockParser {
  import opened Wrappers
  import opened Errors
  import opened Records

  /** `IsBlockTag`: the record opens a raw block. */
  predicate IsBlockTag(cmd: Record) {
    Get(cmd, "tagname") == Some("iscript") || Get(cmd, "tagname") == Some("macro")
  }

  /** `IsBlockTag` looks the tag name up as `TryGetValue` does: a record
      whose entries name it `iscript` or `macro` opens a block, and one
      without a `tagname` entry does not. */
  lemma BlockTagOf(cmd: Record)
    requires DistinctKeys(cmd)
    ensures IsBlockTag(cmd) <==> ("tagname", "iscript") in cmd || ("tagname", "macro") in cmd
    ensures (forall i :: 0 <= i < |cmd| ==> cmd[i].0 != "tagname") ==> !IsBlockTag(cmd)
  {
    GetOfEntry(cmd, "tagname", "iscript");
    GetOfEntry(cmd, "tagname", "macro");
  }

  /** The name the block is stored under: `iscript` is stored as `script`. */
  function BlockBase(tagname: string): string {
    if tagname == "iscript" then "script" else tagname
  }

  /** The two lines that close a block: `@end<base>` and `[end<base>]`. */
  predicate IsEndMarker(base: string, line: string) {
    line == "@end" + base || line == "[end" + base + "]"
  }

  /** `k` is the position of the first end marker among `lines`. */
  predicate FirstEnd(base: string, lines: seq<string>, k: nat) {
    k < |lines| && IsEndMarker(base, lines[k]) && forall i :: 0 <= i < k ==> !IsEndMarker(base, lines[i])
  }

  lemma FirstEndUnique(base: string, lines: seq<string>, j: nat, k: nat)
    requires FirstEnd(base, lines, j) && FirstEnd(base, lines, k)
    ensures j == k
  {
  }

  /** The index of the first end marker among `lines`. */
  function FindEnd(base: string, lines: seq<string>): (r: Option<nat>)
    ensures r.None? <==> forall i :: 0 <= i < |lines| ==> !IsEndMarker(base, lines[i])
    ensures r.Some? ==> FirstEnd(base, lines, r.value)
  {
    if lines == [] then None
    else if IsEndMarker(base, lines[0]) then Some(0)
    else match FindEnd(base, lines[1..])
      case None => None
      case Some(i) => Some(i + 1)
  }

  /** What `StringBuilder.AppendLine` builds: every line followed by a
      newline. */
  function JoinLines(lines: seq<string>): string {
    if lines == [] then "" else lines[0] + "\n" + JoinLines(lines[1..])
  }

  /** `KagBlockParser.Parse`: read lines up to the first end marker; the
      record is renamed `_<base>` in place and the body is stored under
      `<base>`; the lines after the marker are what is left to read.
      Running out of lines is an error. The dispatcher only builds this
      parser for a record that passed `IsBlockTag`. */
  function CaptureBlock(cmd: Record, input: seq<string>): (r: Result<(Record, seq<string>), ParseError>)
    requires IsBlockTag(cmd)
    ensures
      var base := BlockBase(Get(cmd, "tagname").value);
      (r.Failure? <==> forall i :: 0 <= i < |input| ==> !IsEndMarker(base, input[i])) &&
      (r.Failure? ==> r.error == BlockEndNotFound) &&
      (forall k: nat :: FirstEnd(base, input, k) ==>
         r.Success? && r.value.1 == input[k + 1..] &&
         Get(r.value.0, "tagname") == Some("_" + base) &&
         Get(r.value.0, base) == Some(JoinLines(input[..k])) &&
         (forall key :: key != "tagname" && key != base ==> Get(r.value.0, key) == Get(cmd, key)))
    ensures r.Success? ==> |r.value.1| < |input|
    ensures r.Success? && WellFormed(cmd) ==> WellFormed(r.value.0)
  {
    var base := BlockBase(Get(cmd, "tagname").value);
    match FindEnd(base, input)
    case None => Failure(BlockEndNotFound)
    case Some(k) =>
      assert forall j :: FirstEnd(base, input, j) ==> j == k by {
        forall j | FirstEnd(base, input, j) {
          FirstEndUnique(base, input, j, k);
        }
      }
      var renamed := Put(cmd, "tagname", "_" + base);
      PutKeepsDistinct(cmd, "tagname", "_" + base);
      PutKeepsDistinct(renamed, base, JoinLines(input[..k]));
      Success((Put(renamed, base, JoinLines(input[..k])), input[k + 1..]))
  }
}
