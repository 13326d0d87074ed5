/** What `ReadQuote` accepts, stated as a grammar: the body of a quote is a
    run of items, each an escape pair (a backslash and any character) or a
    single character that is neither a backslash nor the closer. */
module QuoteProperties {
  import opened Wrappers
  import opened TagParser

  /** `c` is a run of quote-body items. */
  predicate QuoteBody(c: string, rhs: char)
    decreases |c|
  {
    c == "" ||
    (c[0] == '\\' && |c| >= 2 && QuoteBody(c[2..], rhs)) ||
    (c[0] != '\\' && c[0] != rhs && QuoteBody(c[1..], rhs))
  }

  /** `c` is a run of quote-body items, possibly followed by one dangling
      backslash: a quote that never closes. */
  predicate Unclosed(c: string, rhs: char)
    decreases |c|
  {
    c == "" || c == "\\" ||
    (c[0] == '\\' && |c| >= 2 && Unclosed(c[2..], rhs)) ||
    (c[0] != '\\' && c[0] != rhs && Unclosed(c[1..], rhs))
  }

  lemma {:induction false} QuoteEndFinds(line: string, rhs: char, i: nat, j: nat)
    requires rhs != '\\' && i <= j < |line| && line[j] == rhs && QuoteBody(line[i..j], rhs)
    ensures QuoteEnd(line, rhs, i) == Some(j)
    decreases j - i
  {
    if i < j {
      var c := line[i..j];
      assert c[0] == line[i];
      if line[i] == '\\' {
        assert c[2..] == line[i + 2..j];
        QuoteEndFinds(line, rhs, i + 2, j);
      } else {
        assert c[1..] == line[i + 1..j];
        QuoteEndFinds(line, rhs, i + 1, j);
      }
    }
  }

  lemma {:induction false} QuoteEndSound(line: string, rhs: char, i: nat)
    requires QuoteEnd(line, rhs, i).Some?
    ensures QuoteBody(line[i..QuoteEnd(line, rhs, i).value], rhs)
    decreases |line| - i
  {
    var j := QuoteEnd(line, rhs, i).value;
    if line[i] == '\\' {
      QuoteEndSound(line, rhs, i + 2);
      assert line[i..j][2..] == line[i + 2..j];
    } else if line[i] != rhs {
      QuoteEndSound(line, rhs, i + 1);
      assert line[i..j][1..] == line[i + 1..j];
    }
  }

  lemma {:induction false} QuoteEndNone(line: string, rhs: char, i: nat)
    requires rhs != '\\' && i <= |line|
    ensures QuoteEnd(line, rhs, i).None? <==> Unclosed(line[i..], rhs)
    decreases |line| - i
  {
    var c := line[i..];
    if i < |line| {
      assert c[0] == line[i];
      if line[i] == '\\' {
        if i + 1 == |line| {
          assert c == "\\";
        } else {
          assert c[2..] == line[i + 2..];
          QuoteEndNone(line, rhs, i + 2);
        }
      } else if line[i] != rhs {
        assert c[1..] == line[i + 1..];
        QuoteEndNone(line, rhs, i + 1);
      }
    }
  }

  /** `ReadQuote` returns the content and the rest exactly when the line is
      an opener, a quote body, the closer and the rest. */
  lemma ReadQuoteOf(x: char, c: string, rhs: char, rest: string)
    requires (rhs == '"' || rhs == ')') && QuoteBody(c, rhs)
    ensures ReadQuote([x] + c + [rhs] + rest, if rhs == ')' then '(' else '"') == Some((c, rest))
  {
    var line := [x] + c + [rhs] + rest;
    assert line[1..1 + |c|] == c;
    QuoteEndFinds(line, rhs, 1, 1 + |c|);
    assert line[1 + |c| + 1..] == rest;
  }

  lemma ReadQuoteSome(line: string, lhs: char)
    requires ReadQuote(line, lhs).Some?
    ensures var (c, rest) := ReadQuote(line, lhs).value;
      line == line[..1] + c + [Closer(lhs)] + rest && QuoteBody(c, Closer(lhs))
  {
    QuoteEndSound(line, Closer(lhs), 1);
  }

  /** `ReadQuote` finds no closer exactly when what follows the opener is an
      unclosed body. */
  lemma ReadQuoteNone(line: string, lhs: char)
    requires line != ""
    ensures ReadQuote(line, lhs).None? <==> Unclosed(line[1..], Closer(lhs))
  {
    QuoteEndNone(line, Closer(lhs), 1);
  }
}
