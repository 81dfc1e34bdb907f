/** The block-access code the RDM emitter writes for one reduced density
    matrix term: the hash-key vector of the block, the `get_block` fetch, a
    loop nest over the target indices, the accumulation of the block into
    `odata` at two Horner subscripts, and the closing braces. */
module RdmEmitter {

  import opened Text
  import opened Symbols
  import opened LoopNest
  import opened Horner

  /** The hash keys of `xs`, one `<gen>->key()` per index, in list order. */
  function HashKeys(xs: seq<Index>): seq<string>
  {
    seq(|xs|, k requires 0 <= k < |xs| => xs[k].gen + "->key()")
  }

  /** The hash-key vector line: the keys of the RDM indices, last index
      first. */
  function HashLine(indent: string, r: Rdm): string
  {
    indent + "std::vector<size_t> i0hash = vec(" + Join(", ", HashKeys(Reverse(r.index))) + ");\n"
  }

  /** The fetch of the block from the RDM of the term's rank. */
  function FetchLine(indent: string, r: Rdm): string
  {
    indent + "std::unique_ptr<double[]> data = rdm" + NatToString(Rank(r)) + "->get_block(i0hash);\n"
  }

  /** The header of the loop over one target index, its variable being
      `i<num>`. */
  function LoopHeader(x: Index): string
  {
    "for (int i" + x.num + " =0; i" + x.num + " != " + x.gen + "->size(); ++i" + x.num + ") {"
  }

  function LoopHeaders(loop: seq<Index>): seq<string>
  {
    seq(|loop|, k requires 0 <= k < |loop| => LoopHeader(loop[k]))
  }

  /** The target side: the `odata` subscript over the loop indices, last
      loop index first, closed by `]` and a newline. */
  function TargetText(loop: seq<Index>): string
  {
    "odata[" + Subscript(Reverse(loop), "]\n")
  }

  /** The source side: the prefactor times the `data` subscript over the RDM
      indices, last index first. */
  function SourceText(r: Rdm): string
  {
    "(" + r.factor + ") * data[" + Subscript(Reverse(r.index), "]")
  }

  /** The accumulation, written at the indentation `inner` of the innermost
      loop body. */
  function AccumulationLine(inner: string, r: Rdm, loop: seq<Index>): string
  {
    inner + TargetText(loop) + inner + " += " + SourceText(r) + ";\n"
  }

  /** Everything the emitter writes for term `r` inside a caller indented by
      `indent0`, looping over `loop`. */
  function Block(r: Rdm, indent0: string, loop: seq<Index>): string
  {
    var indent := indent0 + "  ";
    HashLine(indent, r)
    + FetchLine(indent, r)
    + Unlines(NestOpen(indent, LoopHeaders(loop)))
    + AccumulationLine(Indentation(indent, |loop|), r, loop)
    + Unlines(NestClose(indent, |loop|))
  }

  /** Writes the hash-key vector line, walking the indices from the back. */
  method HashVector(indent: string, r: Rdm) returns (tt: string)
    ensures tt == HashLine(indent, r)
  {
    ghost var keys := HashKeys(Reverse(r.index));
    ghost var pre := indent + "std::vector<size_t> i0hash = vec(";
    tt := indent + "std::vector<size_t> i0hash = vec(";
    var cntr := 0;
    while cntr < |r.index|
      invariant 0 <= cntr <= |r.index|
      invariant tt == pre + Join(", ", keys[..cntr])
    {
      var x := r.index[|r.index| - 1 - cntr];
      JoinPrefix(", ", keys, cntr);
      if cntr != 0 {
        AppendSep(pre, Join(", ", keys[..cntr]), ", ", x.gen + "->key()");
        tt := tt + ", ";
      }
      tt := tt + x.gen + "->key()";
      cntr := cntr + 1;
    }
    assert keys[..cntr] == keys;
    tt := tt + ");\n";
  }

  /** Writes the block for term `r` as the emitter does. */
  method Generate(r: Rdm, indent0: string, loop: seq<Index>) returns (tt: string)
    ensures tt == Block(r, indent0, loop)
  {
    var indent := indent0 + "  ";
    tt := HashVector(indent, r);
    tt := tt + (indent + "std::unique_ptr<double[]> data = rdm" + NatToString(|r.index| / 2) + "->get_block(i0hash);\n");
    var nest, close, inner := OpenNest(indent, LoopHeaders(loop));
    tt := tt + nest;

    var ls := "odata[";
    var lsub, lgroups := OffsetText(Reverse(loop), "]\n");
    ls := ls + lsub;
    var rs := "(" + r.factor + ") * data[";
    var rsub, rgroups := OffsetText(Reverse(r.index), "]");
    rs := rs + rsub;
    tt := tt + (inner + ls + inner + " += " + rs + ";\n");

    var closing := CloseNest(close);
    ClosersReversed(indent, |loop|);
    tt := tt + closing;
  }

  // What the block promises.

  /** The hash-key vector starts with the key of the last RDM index and
      lists the others after one separator; for a single index there is no
      separator at all. */
  lemma HashOrder(xs: seq<Index>)
    requires |xs| > 0
    ensures Join(", ", HashKeys(Reverse(xs)))
         == if |xs| == 1 then xs[|xs| - 1].gen + "->key()"
            else xs[|xs| - 1].gen + "->key()" + ", " + Join(", ", HashKeys(Reverse(xs[..|xs| - 1])))
  {
    var init := xs[..|xs| - 1];
    assert HashKeys(Reverse(xs)) == [xs[|xs| - 1].gen + "->key()"] + HashKeys(Reverse(init));
    JoinCons(", ", xs[|xs| - 1].gen + "->key()", HashKeys(Reverse(init)));
  }

  /** The hash-key vector holds every key and one separator fewer than there
      are indices. */
  lemma HashLength(xs: seq<Index>)
    requires |xs| > 0
    ensures |Join(", ", HashKeys(Reverse(xs)))| == TotalLength(HashKeys(Reverse(xs))) + 2 * (|xs| - 1)
  {
    JoinLength(", ", HashKeys(Reverse(xs)));
  }

  /** Read left to right, a subscript over the reversed list `xs` mentions
      the loop variable `i<num>` of every index exactly once, last index
      first. */
  lemma VariableOrder(xs: seq<Index>)
    requires |xs| > 0
    ensures var f, n := Build(0, |xs|), |xs|;
      && |Vars(f)| == n
      && (forall k :: 0 <= k < n ==> At(LoopVars(Reverse(xs)), Vars(f)[k]) == LoopVars(xs)[n - 1 - k])
      && (forall k, j :: 0 <= k < j < n ==> Vars(f)[k] != Vars(f)[j])
  {
    var f, n, rs := Build(0, |xs|), |xs|, Reverse(xs);
    SubscriptMentions(xs);
    forall k | 0 <= k < n
      ensures At(LoopVars(rs), Vars(f)[k]) == LoopVars(xs)[n - 1 - k]
    {
      assert Vars(f)[k] == k && rs[k] == xs[n - 1 - k];
    }
  }

  /** The strides of that subscript are the Horner heads of every index
      but the first, last index first. */
  lemma StrideOrder(xs: seq<Index>)
    requires |xs| > 0
    ensures var f, n := Build(0, |xs|), |xs|;
      && |Strides(f)| == n - 1
      && (forall k :: 0 <= k < n - 1 ==> At(Heads(Reverse(xs)), Strides(f)[k]) == Heads(xs)[n - 1 - k])
  {
    var f, n, rs := Build(0, |xs|), |xs|, Reverse(xs);
    SubscriptMentions(xs);
    forall k | 0 <= k < n - 1
      ensures At(Heads(rs), Strides(f)[k]) == Heads(xs)[n - 1 - k]
    {
      assert Strides(f)[k] == k && rs[k] == xs[n - 1 - k];
    }
  }

  lemma PlainReversed(xs: seq<Index>)
    requires PlainIndices(xs)
    ensures PlainIndices(Reverse(xs))
  {
  }

  /** Concatenation step, stated on plain strings to keep solver cost
      small. */
  lemma Balanced5(a: string, b: string, c: string, d: string, e: string)
    requires Balanced(a) && Balanced(b) && Balanced(c) && Balanced(d) && Balanced(e)
    ensures Balanced(a + b + c + d + e)
  {
    BalancedConcat(a, b);
    BalancedConcat(a + b, c);
    BalancedConcat(a + b + c, d);
    BalancedConcat(a + b + c + d, e);
  }

  lemma TargetBalanced(loop: seq<Index>)
    requires PlainIndices(loop)
    ensures Balanced(TargetText(loop))
  {
    PlainReversed(loop);
    SubscriptBalanced(Reverse(loop), "]\n");
    ParenFreeBalanced("odata[");
    BalancedConcat("odata[", Subscript(Reverse(loop), "]\n"));
  }

  lemma SourceBalanced(r: Rdm)
    requires PlainIndices(r.index) && ParenFree(r.factor)
    ensures Balanced(SourceText(r))
  {
    PlainReversed(r.index);
    SubscriptBalanced(Reverse(r.index), "]");
    FactorTimesBalanced(r.factor, Subscript(Reverse(r.index), "]"));
  }

  /** Concatenation step, stated on plain strings to keep solver cost
      small. */
  lemma FactorTimesBalanced(factor: string, sub: string)
    requires ParenFree(factor) && Balanced(sub)
    ensures Balanced("(" + factor + ") * data[" + sub)
  {
    ParenFreeBalanced(factor);
    BalancedWrap(factor);
    ParenFreeBalanced(" * data[");
    BalancedConcat("(" + factor + ")", " * data[");
    BalancedConcat("(" + factor + ")" + " * data[", sub);
    assert "(" + factor + ") * data[" + sub == "(" + factor + ")" + " * data[" + sub;
  }

  /** When the index texts, the prefactor and the indentation hold no round
      brackets, every bracket of the accumulation line closes one opened
      before it and all are closed: the `cntp` groups the subscripts open
      are all closed. */
  lemma AccumulationBalanced(r: Rdm, indent: string, loop: seq<Index>)
    requires PlainIndices(loop)
    requires PlainIndices(r.index) && ParenFree(r.factor)
    requires ParenFree(indent)
    ensures Balanced(AccumulationLine(Indentation(indent, |loop|), r, loop))
  {
    var inner := Indentation(indent, |loop|);
    RepeatAvoids('(', "  ", |loop|);
    RepeatAvoids(')', "  ", |loop|);
    ParenFreeBalanced(inner);
    ParenFreeBalanced(" += ");
    ParenFreeBalanced(";\n");
    TargetBalanced(loop);
    SourceBalanced(r);
    Balanced5(inner, TargetText(loop), inner, " += ", SourceText(r));
    BalancedConcat(inner + TargetText(loop) + inner + " += " + SourceText(r), ";\n");
  }

  /** Text without curly braces. */
  predicate BraceFree(s: string)
  {
    forall k :: 0 <= k < |s| ==> s[k] != '{' && s[k] != '}'
  }

  predicate BraceFreeIndices(xs: seq<Index>)
  {
    forall k :: 0 <= k < |xs| ==> BraceFree(xs[k].num) && BraceFree(xs[k].gen)
  }

  lemma BraceFreeMembers(s: string)
    ensures BraceFree(s) <==> '{' !in s && '}' !in s
  {
  }

  lemma BraceFreeConcat(a: string, b: string)
    requires BraceFree(a) && BraceFree(b)
    ensures BraceFree(a + b)
  {
  }

  /** Two more spaces of indentation add no braces. */
  lemma DeeperBraceFree(indent: string)
    requires BraceFree(indent)
    ensures BraceFree(indent + "  ") && '{' !in indent + "  " && '}' !in indent + "  "
  {
  }

  /** Concatenation step, stated on plain strings to keep solver cost
      small. */
  lemma BraceFree3(a: string, b: string, c: string)
    requires BraceFree(a) && BraceFree(b) && BraceFree(c)
    ensures BraceFree(a + b + c)
  {
  }

  lemma BraceFreeCount(s: string)
    requires BraceFree(s)
    ensures Occurrences('{', s) == 0 && Occurrences('}', s) == 0
  {
  }

  lemma BraceFreeReversed(xs: seq<Index>)
    requires BraceFreeIndices(xs)
    ensures BraceFreeIndices(Reverse(xs))
    ensures forall k :: 0 <= k < |xs| ==> '{' !in Reverse(xs)[k].num && '{' !in Reverse(xs)[k].gen
    ensures forall k :: 0 <= k < |xs| ==> '}' !in Reverse(xs)[k].num && '}' !in Reverse(xs)[k].gen
  {
  }

  lemma PadBraceFree(indent: string, k: nat)
    requires BraceFree(indent)
    ensures BraceFree(Indentation(indent, k))
  {
    RepeatAvoids('{', "  ", k);
    RepeatAvoids('}', "  ", k);
    BraceFreeMembers(Repeat("  ", k));
    BraceFreeConcat(indent, Repeat("  ", k));
  }

  /** A loop header line holds one `{` and no `}`. */
  lemma HeaderBraces(indent: string, x: Index, k: nat)
    requires BraceFree(indent) && BraceFree(x.num) && BraceFree(x.gen)
    ensures Occurrences('{', Indentation(indent, k) + LoopHeader(x)) == 1
    ensures Occurrences('}', Indentation(indent, k) + LoopHeader(x)) == 0
  {
    var pad := Indentation(indent, k);
    var a := "for (int i" + x.num;
    var b := " =0; i" + x.num + " != ";
    var c := x.gen + "->size(); ++i" + x.num + ") ";
    assert pad + LoopHeader(x) == pad + a + b + c + "{";
    PadBraceFree(indent, k);
    BraceFreeConcat("for (int i", x.num);
    BraceFree3(" =0; i", x.num, " != ");
    BraceFree3(x.gen, "->size(); ++i", x.num);
    BraceFreeConcat(x.gen + "->size(); ++i" + x.num, ") ");
    BraceFree3(pad, a, b);
    BraceFreeConcat(pad + a + b, c);
    BraceFreeCount(pad + a + b + c);
    OccurrencesAppend('{', pad + a + b + c, "{");
    OccurrencesAppend('}', pad + a + b + c, "{");
  }

  lemma OpenBraces(indent: string, loop: seq<Index>)
    requires BraceFree(indent) && BraceFreeIndices(loop)
    ensures Occurrences('{', Unlines(NestOpen(indent, LoopHeaders(loop)))) == |loop|
    ensures Occurrences('}', Unlines(NestOpen(indent, LoopHeaders(loop)))) == 0
  {
    var ls := NestOpen(indent, LoopHeaders(loop));
    forall k | 0 <= k < |ls|
      ensures Occurrences('{', ls[k]) == 1 && Occurrences('}', ls[k]) == 0
    {
      HeaderBraces(indent, loop[k], k);
    }
    UnlinesOccurrences('{', ls, 1);
    UnlinesOccurrences('}', ls, 0);
  }

  lemma HashBraceFree(indent: string, r: Rdm)
    requires BraceFree(indent) && BraceFreeIndices(r.index)
    ensures BraceFree(HashLine(indent, r))
  {
    var keys := HashKeys(Reverse(r.index));
    BraceFreeReversed(r.index);
    assert '{' !in "->key()" && '}' !in "->key()";
    JoinAvoids('{', ", ", keys);
    JoinAvoids('}', ", ", keys);
    var joined := Join(", ", keys);
    BraceFreeMembers(joined);
    BraceFree3(indent, "std::vector<size_t> i0hash = vec(", joined);
    BraceFreeConcat(indent + "std::vector<size_t> i0hash = vec(" + joined, ");\n");
  }

  lemma FetchBraceFree(indent: string, r: Rdm)
    requires BraceFree(indent)
    ensures BraceFree(FetchLine(indent, r))
  {
  }

  lemma SubscriptBraceFree(xs: seq<Index>, terminator: string)
    requires BraceFreeIndices(xs) && BraceFree(terminator)
    ensures BraceFree(Subscript(Reverse(xs), terminator))
  {
    BraceFreeReversed(xs);
    BraceFreeMembers(terminator);
    SubscriptAvoids('{', Reverse(xs), terminator);
    SubscriptAvoids('}', Reverse(xs), terminator);
    BraceFreeMembers(Subscript(Reverse(xs), terminator));
  }

  lemma AccumulationBraceFree(indent: string, r: Rdm, loop: seq<Index>)
    requires BraceFree(indent) && BraceFree(r.factor) && BraceFreeIndices(loop) && BraceFreeIndices(r.index)
    ensures BraceFree(AccumulationLine(Indentation(indent, |loop|), r, loop))
  {
    var inner := Indentation(indent, |loop|);
    PadBraceFree(indent, |loop|);
    SubscriptBraceFree(loop, "]\n");
    SubscriptBraceFree(r.index, "]");
    BraceFreeConcat("odata[", Subscript(Reverse(loop), "]\n"));
    BraceFree3("(", r.factor, ") * data[");
    BraceFreeConcat("(" + r.factor + ") * data[", Subscript(Reverse(r.index), "]"));
    BraceFree3(inner, TargetText(loop), inner);
    BraceFree3(inner + TargetText(loop) + inner, " += ", SourceText(r));
    BraceFreeConcat(inner + TargetText(loop) + inner + " += " + SourceText(r), ";\n");
  }

  /** The lines around the loop nest hold no curly braces. */
  lemma PlainLines(r: Rdm, indent0: string, loop: seq<Index>)
    requires BraceFree(indent0) && BraceFree(r.factor) && BraceFreeIndices(loop) && BraceFreeIndices(r.index)
    ensures var indent := indent0 + "  ";
      && Occurrences('{', HashLine(indent, r)) == 0 && Occurrences('}', HashLine(indent, r)) == 0
      && Occurrences('{', FetchLine(indent, r)) == 0 && Occurrences('}', FetchLine(indent, r)) == 0
      && Occurrences('{', AccumulationLine(Indentation(indent, |loop|), r, loop)) == 0
      && Occurrences('}', AccumulationLine(Indentation(indent, |loop|), r, loop)) == 0
  {
    var indent := indent0 + "  ";
    DeeperBraceFree(indent0);
    HashBraceFree(indent, r);
    FetchBraceFree(indent, r);
    AccumulationBraceFree(indent, r, loop);
    BraceFreeCount(HashLine(indent, r));
    BraceFreeCount(FetchLine(indent, r));
    BraceFreeCount(AccumulationLine(Indentation(indent, |loop|), r, loop));
  }

  /** When no rendered text holds curly braces, the block opens exactly one
      `{` per loop index and closes exactly as many. */
  lemma BlockBraces(r: Rdm, indent0: string, loop: seq<Index>)
    requires BraceFree(indent0) && BraceFree(r.factor) && BraceFreeIndices(loop) && BraceFreeIndices(r.index)
    ensures Occurrences('{', Block(r, indent0, loop)) == |loop|
    ensures Occurrences('}', Block(r, indent0, loop)) == |loop|
  {
    var indent := indent0 + "  ";
    var h, f, o := HashLine(indent, r), FetchLine(indent, r), Unlines(NestOpen(indent, LoopHeaders(loop)));
    var a, z := AccumulationLine(Indentation(indent, |loop|), r, loop), Unlines(NestClose(indent, |loop|));
    PlainLines(r, indent0, loop);
    DeeperBraceFree(indent0);
    OpenBraces(indent, loop);
    CloseBraces(indent, |loop|);
    Count5('{', h, f, o, a, z);
    Count5('}', h, f, o, a, z);
  }

  /** Concatenation step, stated on plain strings to keep solver cost
      small. */
  lemma Count5(c: char, a: string, b: string, d: string, e: string, f: string)
    ensures Occurrences(c, a + b + d + e + f)
         == Occurrences(c, a) + Occurrences(c, b) + Occurrences(c, d) + Occurrences(c, e) + Occurrences(c, f)
  {
    OccurrencesAppend(c, a, b);
    OccurrencesAppend(c, a + b, d);
    OccurrencesAppend(c, a + b + d, e);
    OccurrencesAppend(c, a + b + d + e, f);
  }
}
