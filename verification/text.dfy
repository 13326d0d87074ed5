/** Character classes and the few string primitives of the .NET library the
    parser relies on, over `string == seq<char>`. */
module Text {
  import opened Wrappers

  /** The token boundaries of the tag tokenizer: `= ] [ ( ) " & ;` and space. */
  predicate IsSymbol(c: char) {
    c == '=' || c == ']' || c == '[' || c == '(' || c == ')' ||
    c == '"' || c == '&' || c == ';' || c == ' '
  }

  /** A fixed stand-in for `char.IsWhiteSpace`: space, tab, line feed,
      vertical tab, form feed and carriage return. */
  predicate IsWhite(c: char) {
    c == ' ' || c == '\t' || c == '\n' || c == '\U{000B}' || c == '\U{000C}' || c == '\r'
  }

  predicate NoSymbol(s: string) {
    forall i :: 0 <= i < |s| ==> !IsSymbol(s[i])
  }

  /** `String.TrimStart()`: drops the longest all-white prefix. */
  function TrimStart(s: string): (r: string)
    ensures IsSuffix(r, s)
    ensures forall i :: 0 <= i < |s| - |r| ==> IsWhite(s[i])
    ensures r == "" || !IsWhite(r[0])
  {
    if s != "" && IsWhite(s[0]) then TrimStart(s[1..]) else s
  }

  /** `i` is the position of the first `c` in `s`. */
  predicate FirstAt(s: string, c: char, i: nat) {
    i < |s| && s[i] == c && forall k :: 0 <= k < i ==> s[k] != c
  }

  /** `String.IndexOf(char)`: the position of the first occurrence, or None
      where the .NET method returns -1. */
  function IndexOf(s: string, c: char): (r: Option<nat>)
    ensures r.None? <==> c !in s
    ensures r.Some? ==> FirstAt(s, c, r.value)
  {
    if s == "" then None
    else if s[0] == c then Some(0)
    else match IndexOf(s[1..], c)
      case None => None
      case Some(i) => Some(i + 1)
  }

  /** The first occurrence is unique. */
  lemma FirstAtUnique(s: string, c: char, i: nat, j: nat)
    requires FirstAt(s, c, i) && FirstAt(s, c, j)
    ensures i == j
  {
  }

  /** `t` is what is left of `s` after a cursor moved forward. */
  predicate IsSuffix(t: string, s: string) {
    |t| <= |s| && t == s[|s| - |t|..]
  }

  lemma SuffixTrans(a: string, b: string, c: string)
    requires IsSuffix(b, a) && IsSuffix(c, b)
    ensures IsSuffix(c, a)
  {
    assert a[|a| - |b|..][|b| - |c|..] == a[|a| - |c|..];
  }
}
