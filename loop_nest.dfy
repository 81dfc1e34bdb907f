/** The shape both emitters give a loop nest: one header line per loop,
    each indented two spaces deeper than the one before, then the closing
    braces in reverse order, each at the indentation of the loop it closes. */
module LoopNest {

  import opened Text

  /** Indentation of the line inside `k` enclosing loops. */
  function Indentation(indent: string, k: nat): string
  {
    indent + Repeat("  ", k)
  }

  /** Header lines of a nest: `headers[k]` inside `k` enclosing loops. */
  function NestOpen(indent: string, headers: seq<string>): seq<string>
  {
    seq(|headers|, k requires 0 <= k < |headers| => Indentation(indent, k) + headers[k])
  }

  /** Closing lines of an `n`-deep nest, innermost first. */
  function NestClose(indent: string, n: nat): seq<string>
  {
    seq(n, j requires 0 <= j < n => Indentation(indent, n - 1 - j) + "}")
  }

  /** Lines of text, each followed by a newline. */
  function Unlines(ls: seq<string>): string
  {
    if |ls| == 0 then "" else Unlines(ls[..|ls| - 1]) + ls[|ls| - 1] + "\n"
  }

  lemma UnlinesSnoc(ls: seq<string>, k: nat)
    requires k < |ls|
    ensures Unlines(ls[..k + 1]) == Unlines(ls[..k]) + ls[k] + "\n"
  {
    assert ls[..k + 1][..k] == ls[..k];
  }

  /** Header `k` stands after `2 * k` spaces more than the first: every
      opened loop indents its body by two spaces. */
  lemma OpenIndentation(indent: string, headers: seq<string>, k: nat)
    requires k < |headers|
    ensures |NestOpen(indent, headers)| == |headers|
    ensures NestOpen(indent, headers)[k] == Indentation(indent, k) + headers[k]
    ensures |Indentation(indent, k)| == |indent| + 2 * k
  {
    RepeatLength("  ", k);
  }

  /** There are as many closing lines as headers, and closing line `j`
      stands at the indentation of header `n - 1 - j`: the braces close the
      loops in reverse order. A read-out of NestOpen and NestClose; that the
      emitters write these lines is proved by OpenNest, CloseNest and
      ClosersReversed. */
  lemma ClosePairsWithOpen(indent: string, headers: seq<string>, j: nat)
    requires j < |headers|
    ensures |NestClose(indent, |headers|)| == |NestOpen(indent, headers)|
    ensures var k := |headers| - 1 - j;
      && NestOpen(indent, headers)[k] == Indentation(indent, k) + headers[k]
      && NestClose(indent, |headers|)[j] == Indentation(indent, k) + "}"
  {
  }

  lemma UnlinesLastOccurrences(c: char, ls: seq<string>)
    requires c != '\n' && |ls| > 0
    ensures Occurrences(c, Unlines(ls)) == Occurrences(c, Unlines(ls[..|ls| - 1])) + Occurrences(c, ls[|ls| - 1])
  {
    var init, last := ls[..|ls| - 1], ls[|ls| - 1];
    OccurrencesAppend(c, Unlines(init), last);
    OccurrencesAppend(c, Unlines(init) + last, "\n");
    OccurrencesAbsent(c, "\n");
  }

  lemma MulSucc(m: nat, n: nat)
    ensures m * n + m == m * (n + 1)
  {
  }

  /** When every line holds `m` copies of a character other than the line
      break, the text holds `m` per line. */
  lemma {:induction false} UnlinesOccurrences(c: char, ls: seq<string>, m: nat)
    requires c != '\n'
    requires forall k :: 0 <= k < |ls| ==> Occurrences(c, ls[k]) == m
    ensures Occurrences(c, Unlines(ls)) == m * |ls|
  {
    if |ls| > 0 {
      var init := ls[..|ls| - 1];
      assert forall k :: 0 <= k < |init| ==> init[k] == ls[k];
      UnlinesOccurrences(c, init, m);
      UnlinesLastOccurrences(c, ls);
      MulSucc(m, |init|);
    }
  }

  lemma {:induction false} RepeatAvoids(c: char, s: string, k: nat)
    requires c !in s
    ensures c !in Repeat(s, k)
  {
    if k > 0 {
      RepeatAvoids(c, s, k - 1);
    }
  }

  /** Every closing line holds one `}` and no `{`. */
  lemma CloseBraces(indent: string, n: nat)
    requires '{' !in indent && '}' !in indent
    ensures Occurrences('}', Unlines(NestClose(indent, n))) == n
    ensures Occurrences('{', Unlines(NestClose(indent, n))) == 0
  {
    var ls := NestClose(indent, n);
    forall k | 0 <= k < n
      ensures Occurrences('}', ls[k]) == 1 && Occurrences('{', ls[k]) == 0
    {
      var pad := Indentation(indent, n - 1 - k);
      RepeatAvoids('{', "  ", n - 1 - k);
      RepeatAvoids('}', "  ", n - 1 - k);
      OccurrencesAbsent('{', pad + "}");
      OccurrencesAbsent('}', pad);
      OccurrencesAppend('}', pad, "}");
    }
    UnlinesOccurrences('}', ls, 1);
    UnlinesOccurrences('{', ls, 0);
  }

  /** Writing line `k` after the first `k` lines gives the first `k + 1`. */
  lemma UnlinesStep(ls: seq<string>, k: nat, line: string)
    requires k < |ls| && ls[k] == line
    ensures Unlines(ls[..k]) + (line + "\n") == Unlines(ls[..k + 1])
  {
    UnlinesSnoc(ls, k);
  }

  lemma GrowIndent(indent: string, k: nat)
    ensures Indentation(indent, k) + "  " == Indentation(indent, k + 1)
  {
    RepeatSnoc("  ", k);
  }

  /** The closing line an emitter stores for each opened loop, in opening
      order. */
  function Closers(indent: string, n: nat): seq<string>
  {
    seq(n, k requires 0 <= k < n => Indentation(indent, k) + "}")
  }

  lemma ClosersSnoc(indent: string, k: nat)
    ensures Closers(indent, k + 1) == Closers(indent, k) + [Indentation(indent, k) + "}"]
  {
  }

  /** Written back to front, the stored closers are the nest's closing
      lines. */
  lemma ClosersReversed(indent: string, n: nat)
    ensures Reverse(Closers(indent, n)) == NestClose(indent, n)
  {
  }

  /** Writes one header line per loop, each two spaces deeper than the one
      before, storing the closing line of each; returns the indentation of
      the innermost body. */
  method OpenNest(indent0: string, headers: seq<string>) returns (tt: string, close: seq<string>, indent: string)
    ensures tt == Unlines(NestOpen(indent0, headers))
    ensures close == Closers(indent0, |headers|)
    ensures indent == Indentation(indent0, |headers|)
  {
    tt := "";
    indent := indent0;
    close := [];
    var cntl := 0;
    while cntl < |headers|
      invariant 0 <= cntl <= |headers|
      invariant indent == Indentation(indent0, cntl)
      invariant tt == Unlines(NestOpen(indent0, headers)[..cntl])
      invariant close == Closers(indent0, cntl)
    {
      UnlinesStep(NestOpen(indent0, headers), cntl, indent + headers[cntl]);
      tt := tt + (indent + headers[cntl] + "\n");
      ClosersSnoc(indent0, cntl);
      close := close + [indent + "}"];
      GrowIndent(indent0, cntl);
      indent := indent + "  ";
      cntl := cntl + 1;
    }
    assert NestOpen(indent0, headers)[..cntl] == NestOpen(indent0, headers);
  }

  /** Writes the stored closers back to front, one per line. */
  method CloseNest(close: seq<string>) returns (tt: string)
    ensures tt == Unlines(Reverse(close))
  {
    ghost var closers := Reverse(close);
    tt := "";
    var j := 0;
    while j < |close|
      invariant 0 <= j <= |close|
      invariant tt == Unlines(closers[..j])
    {
      UnlinesStep(closers, j, close[|close| - 1 - j]);
      tt := tt + (close[|close| - 1 - j] + "\n");
      j := j + 1;
    }
    assert closers[..j] == closers;
  }
}
