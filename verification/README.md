# KAG script parser, modelled in Dafny

This project models the parser of KAG scripts in `KagParser.cs`. KAG is the
scenario language of the KiriKiri visual-novel engine. The parser turns the
lines of a script into an ordered list of command records. Each record is an
ordered string-to-string map that always has a `tagname`. It then prints the
list in KiriKiri's `(const) [ ... ]` dictionary syntax.

The model follows the source's structure:

- `Records`: a record is an association list. Writing a key that is present
  overwrites it in place, and writing a new key appends it. This matches the
  insertion order in which a .NET `Dictionary` lists its entries.
- `Text`: the character classes, `TrimStart` and `IndexOf`.
- `TagParser`: `KagTagParser`. Its four state fields are `_tagname`,
  `_valuename`, `_equal` and `_address`. Here they are a `TagState` value.
  The moving `ref string` cursor becomes a shorter line returned by every
  step. `Scan` is the `while (parsing)` loop. Each `Parse*` handler is a
  function returning the next step or an error.
- `LineParsers`: `KagLabelParser`, `KagTagInlineParser` and
  `KagMsgParser`. `KagCommentParser` is the `;` branch of `Dispatcher.Route`.
- `BlockParser`: `KagBlockParser`, the raw body of `iscript` and `macro`.
- `Dispatcher`: `KagParser.Run`. The input is a `seq<string>` of lines. A run
  returns the records parsed so far and the error that stopped it, if any.
- `Output`: `KagParser.OutputKRKR`, as a function returning the text, plus a
  method that builds the text with the source's loops.
- `QuoteProperties`, `TagProperties`, `RunProperties`, `OutputDecode`: the
  properties that relate the operations to independent definitions:
  - a grammar for quoted spans;
  - a printer for parameter lists;
  - line-by-line meanings of a run;
  - a decoder for the rendered text.

Errors are one datatype, `Errors.ParseError`. Besides the exceptions the
source throws on purpose, it covers three runtime failures:

- an index past the end of the line, `IndexOutOfRange`, when `IsEnding`
  reads an empty line after `=` or `&`;
- a `null` tag name indexed at `;`, `NullReference`;
- a `null` line indexed by the inline parser, also `NullReference`.
- an empty line given to the inline parser, where `"".Substring(1)` throws
  `ArgumentOutOfRangeException`, here `IndexOutOfRange`. `Dispatcher.Route`
  only hands it lines that start with `[`, so a run never meets it.

## Model

| member | source | states |
|---|---|---|
| Text.TrimStart | KagParser.cs:273 | the result is a suffix of the input; everything dropped is white space; the result is empty or starts with a non-white character |
| Text.IndexOf | KagParser.cs:319 | None exactly when the character does not occur; otherwise the index of its first occurrence |
| Records.Get | KagParser.cs:355-356 | None exactly when no entry has the key; otherwise the value is that of an entry with the key |
| Records.Put | KagParser.cs:34-37 | afterwards the key maps to the value and every other key is unchanged; a new key is appended at the end; a present key keeps the length |
| Records.PutInPlace | KagParser.cs:403-404 | with distinct keys, assigning a key rewrites only the entry with that key, at its position, and keeps the keys distinct |
| Records.PutKeepsDistinct | KagParser.cs:132 | assigning never creates a duplicate key |
| TagParser.SymbolFree | KagParser.cs:89-96 | the length of the longest prefix without a token boundary: the prefix has no boundary, and the next character, if any, is one |
| TagParser.ReadToken | KagParser.cs:82-99 | "" exactly when the line starts with a space; a single boundary character when it starts with another boundary; otherwise the longest boundary-free prefix; always a prefix of the line |
| TagParser.IsEnding | KagParser.cs:136-140 | fails with IndexOutOfRange exactly on an empty line; otherwise true exactly when the line starts with a space, `]` or `;` |
| TagParser.QuoteEnd | KagParser.cs:113-125 | a found position lies in the line, at or after the start, and holds the closer |
| TagParser.ReadQuote | KagParser.cs:101-128 | on success the rest is a strictly shorter suffix, and the line is the opener, the content, the closer and the rest, in that order |
| TagParser.PushValue | KagParser.cs:130-134 | the state is reset; the pending name is assigned the content, wrapped as `&"…"` after `&`, and every other key keeps its value or stays absent; the keys stay distinct |
| TagParser.ParseWhitespace | KagParser.cs:261-274 | CantFindInstruction exactly when no tag name is set; otherwise the white prefix is trimmed and the pending parameter is forgotten; a pending name is assigned "1" (or `&"1"`) with every other key unchanged, and without one the record is unchanged |
| TagParser.ParseAddressing | KagParser.cs:276-295 | fails exactly without `=` (IsolatedAddressing) or at the end of the line (IndexOutOfRange); before a space, `]` or `;` the pending name is assigned "&", every other key is unchanged and the state reset; otherwise only the address flag is set and the record is unchanged |
| TagParser.ParseQuote | KagParser.cs:242-259 | fails exactly without `=` (IsolatedQuote), for `&(` (AddressingWithParen) or when the quote never closes (OpenedQuote); otherwise the content, wrapped as `&"…"` after `&`, is assigned to the pending name, every other key is unchanged, the state is reset and the line resumes after the closer |
| TagParser.ParseEqual | KagParser.cs:227-240 | fails exactly without a pending name (NoParamNameBeforeEqual), at the end of the line (IndexOutOfRange) or before a space, `]` or `;` (ExpectingValueAfterEqual); otherwise only the `=` flag is set and the record is unchanged |
| TagParser.ParseSymbol | KagParser.cs:212-225 | AddressingWithSymbol exactly after `&`; otherwise the first word names the tag, the next word becomes the pending name, and a word after a pending name is assigned to it with every other key unchanged and the state reset |
| TagParser.Handle | KagParser.cs:161-195 | each handled token keeps the state invariant, shortens the line and keeps the keys distinct |
| TagParser.Scan | KagParser.cs:155-197 | stops only on an empty line, on `]`, or on `;` after an `@` tag name when no `=` or `&` is pending (a pending bare name is allowed); `;` is accepted exactly then, and is NullReference before any tag name; the line left is a suffix; the keys stay distinct |
| TagParser.ParseTag | KagParser.cs:147-210 | the record has a tag name and distinct keys; the line left is null once used up, else a shorter suffix starting with `]` or `;`; an empty line has no tag name |
| QuoteProperties.QuoteEndFinds | KagParser.cs:113-125 | a closer preceded by a well-formed body is the one the scan finds |
| QuoteProperties.QuoteEndSound | KagParser.cs:113-125 | what the scan skips over is a well-formed body |
| QuoteProperties.QuoteEndNone | KagParser.cs:113-127 | the scan finds no closer exactly when the rest is a body plus at most one dangling backslash |
| QuoteProperties.ReadQuoteOf | KagParser.cs:101-128 | an opener, a body with escapes kept verbatim and the closer read back as that body and the rest of the line |
| QuoteProperties.ReadQuoteSome | KagParser.cs:101-128 | a successful read returns a well-formed body |
| QuoteProperties.ReadQuoteNone | KagParser.cs:101-128 | the read fails exactly when the quote is unclosed |
| TagProperties.Apply | KagParser.cs:130-134 | the reference meaning of a parameter list; the pending name it leaves is never empty |
| TagProperties.ScanParams | KagParser.cs:155-197 | scanning a printed parameter list gives the state and record that `Apply` describes |
| TagProperties.TagRoundTrip | KagParser.cs:147-210 | `@name` plus printed parameters parses to the parameters' record, with `tagname` written last and the `@` stripped; a flag at the very end of the line is dropped |
| TagProperties.TagRoundTripSpace | KagParser.cs:261-274 | with a trailing space, a final flag is stored as "1" |
| TagProperties.InlineRoundTrip | KagParser.cs:298-313 | `[name params]u` parses to the same record and hands back `u`; a flag just before `]` is dropped |
| TagProperties.TagExample | KagParser.cs:147-274 | `@name a=v c="d e" f ` gives `a`=v, `c`="d e", `f`="1", then `tagname`=name, in that order |
| TagProperties.TagEqualWithoutName | KagParser.cs:227-231 | `=` after a space has no pending name, so `k = v` fails with NoParamNameBeforeEqual |
| TagProperties.TagEqualAtEnd | KagParser.cs:233-235 | `k=` at the end of the line fails with IndexOutOfRange |
| TagProperties.TagEqualWithoutValue | KagParser.cs:235-236 | `k= `, `k=]` and `k=;` fail with ExpectingValueAfterEqual |
| TagProperties.TagOpenedQuote | KagParser.cs:253-255 | `k="` with an unclosed rest fails with OpenedQuote |
| TagProperties.TagIsolatedQuote | KagParser.cs:245-246 | a quote with no `=` before it fails with IsolatedQuote |
| TagProperties.TagIsolatedAddressing | KagParser.cs:278-279 | `&` with no `=` before it fails with IsolatedAddressing |
| TagProperties.TagAddressingWithParen | KagParser.cs:248-249 | `k=&(` fails with AddressingWithParen |
| TagProperties.TagAddressingWithSymbol | KagParser.cs:214-215 | `k=&word` fails with AddressingWithSymbol |
| TagProperties.TagAmpersand | KagParser.cs:287-292 | `k=&` followed only by spaces stores the value "&" |
| TagProperties.TagAmpersandAtEnd | KagParser.cs:282-287 | `k=&` at the end of the line fails with IndexOutOfRange |
| TagProperties.TagComment | KagParser.cs:169-174 | ` ;` ends an `@` line: the record so far is kept and the comment is handed back |
| TagProperties.TagCommentDropsFlag | KagParser.cs:169-174 | a `;` right after a flag ends the line and drops the flag |
| TagProperties.InlineComment | KagParser.cs:170-171 | inside `[...]` a `;` right after a tag name without `@` is IsolatedComment |
| TagProperties.InlineCommentAt | KagParser.cs:169-174 | `[@name;…]` passes the tokenizer, which stops on the `;` (KagParser.cs:305-307 then fails with InlineSyntax because the stop is not `]`) |
| TagProperties.TagWithoutName | KagParser.cs:161-200 | a line starting with a space is CantFindInstruction; one starting with `]` has no tag name |
| LineParsers.ParseLabel | KagParser.cs:16-40 | fails exactly when `|` is first; with no `|` the whole line is the label, pagename is "" and cansave is "false"; at the first `|` the label is the text before it, pagename the text after it and cansave "true"; keys in the order tagname, pagename, cansave, label |
| LineParsers.ParseInline | KagParser.cs:300-312 | "" is IndexOutOfRange; a used-up line is NullReference; a stop on a character other than `]` is InlineSyntax; on success the tag parser stopped on `]` inside the line, and what follows that `]` is handed back |
| LineParsers.ParseMsg | KagParser.cs:317-338 | fails exactly when `[` is first; with no `[` the whole line is the message and the line is used up; otherwise the message is the `[`-free text before the first `[` and the rest from `[` on is handed back |
| LineParsers.MsgSplit | KagParser.cs:319-329 | text free of `[` then a `[`: the text is the message and the rest is handed back whole |
| BlockParser.FindEnd | KagParser.cs:387-396 | None exactly when no line is an end marker; otherwise the first end marker |
| BlockParser.CaptureBlock | KagParser.cs:373-406 | BlockEndNotFound exactly when no end marker follows; otherwise `tagname` becomes `_<base>`, the lines before the first marker joined with newlines are stored under `<base>`, other keys are unchanged, and reading resumes after the marker |
| Dispatcher.Route | KagParser.cs:432-453 | a comment line yields nothing and is used up; records are well formed; a left-over part of the line is shorter |
| Dispatcher.Dispatch | KagParser.cs:453-460 | block capture happens only for a block tag from a freshly read line; otherwise the routed result is passed on and no line is read |
| Dispatcher.Loop | KagParser.cs:413-465 | every record the loop collects has a tag name and distinct keys |
| Dispatcher.Run | KagParser.cs:413-465 | every record of a run has a tag name and distinct keys |
| TagParser.StripAt | KagParser.cs:202-203 | a name starting with `@` is `@` followed by the result; any other name is returned unchanged |
| BlockParser.BlockTagOf | KagParser.cs:353-360 | with distinct keys, a record is a block tag exactly when an entry names it `iscript` or `macro`; a record without a `tagname` entry is not |
| Records.GetOfEntry | KagParser.cs:355-356 | with distinct keys, a lookup finds a value exactly when the record holds that entry |
| RunProperties.RunSkips | KagParser.cs:427-431 | an empty line and a comment line add nothing |
| RunProperties.RunLabel | KagParser.cs:437-438 | a label line adds its label record |
| RunProperties.RunMessage | KagParser.cs:449-450 | a plain line adds one message; this includes a line of spaces, which is not skipped |
| RunProperties.RunError | KagParser.cs:452 | a line the parser rejects ends the run with that error, and the records before it are kept |
| RunProperties.RunTag | KagParser.cs:440-441 | an `@` line that opens no block adds its tag record |
| RunProperties.RunInline | KagParser.cs:446-463 | text, an inline tag and text on a line that is not the last give three records in order, and the inline tag opens no block |
| RunProperties.RunDropsLastLeftover | KagParser.cs:416 | what is left of the final line is never dispatched |
| RunProperties.RunBlock | KagParser.cs:456-460 | a block line, its body and the end marker give one record holding the body, and the rest of the opening line is discarded |
| RunProperties.RunBlockUnclosed | KagParser.cs:399-400 | a block without an end marker ends the run with BlockEndNotFound and adds nothing |
| RunProperties.RunBlockTag | KagParser.cs:375-378 | `@iscript` and `@macro` lines open blocks, closed by `@endscript`/`[endscript]` or `@endmacro`/`[endmacro]` |
| RunProperties.RunInlineBlockTag | KagParser.cs:456 | `[iscript]` and `[macro]` at the start of a line open blocks too |
| RunProperties.RunLoneAt | KagParser.cs:199-203 | a lone `@` gives a record whose tag name is "" |
| Output.EntriesOut | KagParser.cs:477-483 | the entry loop prints the entries as `"k" => "v"` separated by `,` and newlines |
| Output.OutputKRKR | KagParser.cs:467-492 | the printed text is the outer `(const) [` line, each record's block closed by `],` or, for the last, `]`, then `]` |
| OutputDecode.DecodeRender | KagParser.cs:467-492 | when no key or value holds a quote, the rendered text decodes back to the record list |
| OutputDecode.RenderNotInjective | KagParser.cs:479 | keys and values are not escaped, so two different lists can render to the same text |

## Left out

- Program.cs: the command-line check, opening the file and printing `[Error]`. It is I/O around `Run`.
- `StreamReader` and `Console`: input is a sequence of lines, and output is a returned string.
- The text of the exception messages: errors are kinds, not strings.
- `Debug.Assert` calls: they do not run in release builds, and no contract stands for them.
- Unicode white space: `TrimStart` uses a fixed set of ASCII white characters.
- The culture-sensitive `IndexOf("|")` is modelled as an ordinal search for the character.
- The platform newline: every `AppendLine` and `WriteLine` ends with `"\n"`.
- `MoveCursor`'s error branch (KagParser.cs:68-69): every call passes a position no greater than the line's length, so it cannot be reached.
- CaptureBlock: it requires a block tag. The only place that builds a block parser checks for one first (KagParser.cs:456), so the `KeyNotFoundException` of `_cmd["tagname"]` cannot occur.
- TagParser handlers: they require the state invariant `Valid`, which `Parse` establishes and every handler keeps. The null-key failure of `PushValue` is therefore not modelled.
- Dispatcher.Loop: the `while` loop is a recursive function, not a method with mutable fields.
- The tag round-trip lemmas cover parameters whose names and bare values are words free of boundaries and white space. For other spellings the model states only what each handler does to one token: the assigned key and value, every other key unchanged, and the resulting state. No lemma composes those steps into the record of a whole line.
- The culture-sensitive `StartsWith("@")` of KagParser.cs:202 is modelled as an ordinal test of the first character.
