/** The closed set of ways a parse run can fail. The first group are the
    syntax errors the parser raises itself; the second group are the runtime
    exceptions the .NET code runs into on inputs it does not guard against. */
module Errors {

  datatype ParseError =
    // KagLabelParser: a label line whose first '|' is at index 0
    | LabelSyntax
    // KagTagParser
    | IsolatedComment
    | CantFindInstruction
    | IsolatedAddressing
    | IsolatedQuote
    | AddressingWithParen
    | OpenedQuote
    | NoParamNameBeforeEqual
    | ExpectingValueAfterEqual
    | AddressingWithSymbol
    | NoTagname
    // KagTagInlineParser: the tag is not followed by ']'
    | InlineSyntax
    // KagMsgParser: a message that starts with '['
    | MsgSyntax
    // KagBlockParser: input ended before the end marker
    | BlockEndNotFound
    // runtime exceptions: indexing or cutting an empty string
    | IndexOutOfRange
    // runtime exceptions: indexing a null string
    | NullReference
}
