/** The linearised block offset the RDM emitter writes as an array
    subscript. For indices x0, x1, ..., x(n-1) it is Horner's form
        i<x0>+x0->size()*(i<x1>+x1->size()*( ... i<x(n-2)>+x(n-2)->size()*i<x(n-1)>))
    where the innermost product has no bracket of its own. The nested form
    is a small tree over positions in the index list, so that what it
    mentions can be stated apart from the text the index helpers render. */
module Horner {

  import opened Text
  import opened Symbols

  /** The nested form over positions of an index list: the last position
      alone, the innermost pair `i<x> + x->size()*i<y>`, or one position
      whose extent multiplies the bracketed rest. */
  datatype Form = Last(pos: nat) | Pair(pos: nat, last: nat) | Nest(pos: nat, inner: Form)

  /** The nested form over positions lo .. n-1. */
  function Build(lo: nat, n: nat): Form
    requires lo < n
    decreases n - lo
  {
    if lo + 1 == n then Last(lo)
    else if lo + 2 == n then Pair(lo, lo + 1)
    else Nest(lo, Build(lo + 1, n))
  }

  /** Loop variable positions, left to right. */
  function Vars(f: Form): seq<nat>
  {
    match f
    case Last(k) => [k]
    case Pair(k, j) => [k, j]
    case Nest(k, t) => [k] + Vars(t)
  }

  /** Positions whose extent is multiplied in, left to right. */
  function Strides(f: Form): seq<nat>
  {
    match f
    case Last(_) => []
    case Pair(k, _) => [k]
    case Nest(k, t) => [k] + Strides(t)
  }

  /** Number of bracketed groups. */
  function Groups(f: Form): nat
  {
    match f
    case Last(_) => 0
    case Pair(_, _) => 0
    case Nest(_, t) => 1 + Groups(t)
  }

  /** Word `k` of `ws`, nothing past its end. */
  function At(ws: seq<string>, k: nat): string
  {
    if k < |ws| then ws[k] else ""
  }

  /** The loop variable `i<x>` of every index. */
  function LoopVars(xs: seq<Index>): seq<string>
  {
    seq(|xs|, k requires 0 <= k < |xs| => "i" + xs[k].num)
  }

  /** The Horner step `i<x>+x->size()*` of every index. */
  function Heads(xs: seq<Index>): seq<string>
  {
    seq(|xs|, k requires 0 <= k < |xs| => "i" + xs[k].num + "+" + xs[k].gen + "->size()*")
  }

  /** The text of a nested form, given the step text `hs[k]` and the loop
      variable `vs[k]` of every position. */
  function Render(f: Form, hs: seq<string>, vs: seq<string>): string
  {
    match f
    case Last(k) => At(vs, k)
    case Pair(k, j) => At(hs, k) + At(vs, j)
    case Nest(k, t) => At(hs, k) + ("(" + Render(t, hs, vs) + ")")
  }

  function Range(lo: nat, hi: nat): seq<nat>
    requires lo <= hi
  {
    seq(hi - lo, k requires 0 <= k < hi - lo => lo + k)
  }

  /** Grouping brackets of a Horner subscript over `m` indices. */
  function GroupDepth(m: nat): nat
  {
    if m >= 2 then m - 2 else 0
  }

  /** A subscript over `rs` followed by `terminator`; nothing at all for no
      indices. */
  function Subscript(rs: seq<Index>, terminator: string): string
  {
    if |rs| == 0 then "" else Render(Build(0, |rs|), Heads(rs), LoopVars(rs)) + terminator
  }

  /** Read left to right, the subscript mentions the loop variable of every
      position lo .. n-1 exactly once, in increasing order. */
  lemma {:induction false} BuildVars(lo: nat, n: nat)
    requires lo < n
    ensures Vars(Build(lo, n)) == Range(lo, n)
    decreases n - lo
  {
    if lo + 2 < n {
      BuildVars(lo + 1, n);
      assert Range(lo, n) == [lo] + Range(lo + 1, n);
    } else if lo + 2 == n {
      assert Range(lo, n) == [lo, lo + 1];
    } else {
      assert Range(lo, n) == [lo];
    }
  }

  /** Every position but the last has its extent multiplied in, once each,
      in increasing order. */
  lemma {:induction false} BuildStrides(lo: nat, n: nat)
    requires lo < n
    ensures Strides(Build(lo, n)) == Range(lo, n - 1)
    decreases n - lo
  {
    if lo + 2 < n {
      BuildStrides(lo + 1, n);
      assert Range(lo, n - 1) == [lo] + Range(lo + 1, n - 1);
    } else if lo + 2 == n {
      assert Range(lo, n - 1) == [lo];
    } else {
      assert Range(lo, n - 1) == [];
    }
  }

  /** A subscript over m indices has GroupDepth(m) = m - 2 bracketed groups
      (none for one or two indices). */
  lemma {:induction false} BuildGroups(lo: nat, n: nat)
    requires lo < n
    ensures Groups(Build(lo, n)) == GroupDepth(n - lo)
    decreases n - lo
  {
    if lo + 2 < n {
      BuildGroups(lo + 1, n);
    }
  }

  /** The index variables a subscript over `xs` mentions, left to right,
      are exactly the positions of `xs`, and the extents exactly all of them
      but the last. */
  lemma SubscriptMentions(xs: seq<Index>)
    requires |xs| > 0
    ensures var vs := Vars(Build(0, |xs|));
      |vs| == |xs| && forall k :: 0 <= k < |xs| ==> vs[k] == k
    ensures var ss := Strides(Build(0, |xs|));
      |ss| == |xs| - 1 && forall k :: 0 <= k < |xs| - 1 ==> ss[k] == k
    ensures Groups(Build(0, |xs|)) == GroupDepth(|xs|)
  {
    BuildVars(0, |xs|);
    BuildStrides(0, |xs|);
    BuildGroups(0, |xs|);
  }

  /** Index text free of round brackets. */
  predicate PlainIndices(xs: seq<Index>)
  {
    forall k :: 0 <= k < |xs| ==> ParenFree(xs[k].num) && ParenFree(xs[k].gen)
  }

  lemma VarBalanced(xs: seq<Index>, k: nat)
    requires PlainIndices(xs)
    ensures Balanced(At(LoopVars(xs), k))
  {
    if k < |xs| {
      assert ParenFree(xs[k].num);
      assert ParenFree("i" + xs[k].num);
    }
    ParenFreeBalanced(At(LoopVars(xs), k));
  }

  /** `i<x>+x->size()*` is balanced: the call brackets of `size()` pair up. */
  lemma HeadBalanced(xs: seq<Index>, k: nat)
    requires PlainIndices(xs)
    ensures Balanced(At(Heads(xs), k))
  {
    if k < |xs| {
      var x := xs[k];
      var front := "i" + x.num + "+" + x.gen + "->size";
      assert ParenFree(x.num) && ParenFree(x.gen);
      assert ParenFree(front);
      assert At(Heads(xs), k) == front + ("(" + "" + ")") + "*";
      ParenFreeBalanced(front);
      ParenFreeBalanced("");
      ParenFreeBalanced("*");
      BalancedWrap("");
      BalancedConcat(front, "(" + "" + ")");
      BalancedConcat(front + ("(" + "" + ")"), "*");
    } else {
      ParenFreeBalanced("");
    }
  }

  lemma BalancedStep(head: string, inner: string)
    requires Balanced(head) && Balanced(inner)
    ensures Balanced(head + ("(" + inner + ")"))
  {
    BalancedWrap(inner);
    BalancedConcat(head, "(" + inner + ")");
  }

  /** When the index helpers render no round brackets, every bracket of the
      subscript text closes one opened before it, and all are closed. */
  lemma {:induction false} RenderBalanced(f: Form, xs: seq<Index>)
    requires PlainIndices(xs)
    ensures Balanced(Render(f, Heads(xs), LoopVars(xs)))
  {
    var hs, vs := Heads(xs), LoopVars(xs);
    match f
    case Last(k) =>
      VarBalanced(xs, k);
    case Pair(k, j) =>
      HeadBalanced(xs, k);
      VarBalanced(xs, j);
      BalancedConcat(At(hs, k), At(vs, j));
    case Nest(k, t) =>
      RenderBalanced(t, xs);
      HeadBalanced(xs, k);
      BalancedStep(At(hs, k), Render(t, hs, vs));
  }

  /** The emitter's subscript is balanced over plain index text. */
  lemma SubscriptBalanced(rs: seq<Index>, terminator: string)
    requires PlainIndices(rs) && ParenFree(terminator)
    ensures Balanced(Subscript(rs, terminator))
  {
    if |rs| == 0 {
      ParenFreeBalanced("");
    } else {
      RenderBalanced(Build(0, |rs|), rs);
      ParenFreeBalanced(terminator);
      BalancedConcat(Render(Build(0, |rs|), Heads(rs), LoopVars(rs)), terminator);
    }
  }

  /** Subscript text avoids a character that no word and no terminator
      holds. */
  lemma {:induction false} RenderAvoids(c: char, f: Form, hs: seq<string>, vs: seq<string>)
    requires c != '(' && c != ')'
    requires forall k :: 0 <= k < |hs| ==> c !in hs[k]
    requires forall k :: 0 <= k < |vs| ==> c !in vs[k]
    ensures c !in Render(f, hs, vs)
  {
    match f
    case Last(k) =>
    case Pair(k, j) =>
    case Nest(k, t) =>
      RenderAvoids(c, t, hs, vs);
  }

  lemma SubscriptAvoids(c: char, rs: seq<Index>, terminator: string)
    requires c !in "i+->size()*" && c !in terminator
    requires forall k :: 0 <= k < |rs| ==> c !in rs[k].num && c !in rs[k].gen
    ensures c !in Subscript(rs, terminator)
  {
    var hs, vs := Heads(rs), LoopVars(rs);
    forall k | 0 <= k < |rs|
      ensures c !in hs[k] && c !in vs[k]
    {
      assert c != 'i' && c != '+' && c !in "->size()*";
    }
    assert c != '(' && c != ')';
    if |rs| > 0 {
      RenderAvoids(c, Build(0, |rs|), hs, vs);
    }
  }

  // The emitter writes the subscript left to right, one index per step,
  // opening a bracket at every step but the last two and closing them all
  // at the end. StepText, Written and Linear describe that linear form.

  /** What the emitter writes at position `k` of `n` before the last one:
      one Horner step, opening a group unless it is the innermost. */
  function StepText(hs: seq<string>, n: nat, k: nat): string
  {
    At(hs, k) + (if k + 2 < n then "(" else "")
  }

  /** The steps for positions lo .. hi-1 of `n`, in order. */
  function Written(hs: seq<string>, n: nat, lo: nat, hi: nat): string
    requires lo <= hi
    decreases hi - lo
  {
    if lo == hi then "" else StepText(hs, n, lo) + Written(hs, n, lo + 1, hi)
  }

  lemma {:induction false} WrittenSnoc(hs: seq<string>, n: nat, lo: nat, hi: nat)
    requires lo <= hi
    ensures Written(hs, n, lo, hi + 1) == Written(hs, n, lo, hi) + StepText(hs, n, hi)
    decreases hi - lo
  {
    if lo < hi {
      var step, mid, last := StepText(hs, n, lo), Written(hs, n, lo + 1, hi), StepText(hs, n, hi);
      WrittenSnoc(hs, n, lo + 1, hi);
      Assoc(step, mid, last);
    }
  }

  /** Regrouping step, stated on plain strings so that the proofs using it
      keep solver cost small. */
  lemma Assoc(a: string, b: string, c: string)
    ensures a + (b + c) == (a + b) + c
  {
  }

  /** The linear text over positions lo .. n-1: its steps, the last loop
      variable, and one closing bracket per group. */
  function Linear(hs: seq<string>, vs: seq<string>, lo: nat): string
    requires lo < |vs|
  {
    Written(hs, |vs|, lo, |vs| - 1) + At(vs, |vs| - 1) + Repeat(")", GroupDepth(|vs| - lo))
  }

  /** Regrouping step, stated on plain strings so that the proofs using it
      keep solver cost small. */
  lemma RegroupNest(head: string, rest: string, v: string, closers: string)
    ensures head + ("(" + (rest + v + closers) + ")") == (head + "(") + rest + v + (closers + ")")
  {
  }

  /** The linear form the emitter writes is the nested Horner form. */
  lemma {:induction false} RenderIsLinear(hs: seq<string>, vs: seq<string>, lo: nat)
    requires lo < |vs|
    ensures Render(Build(lo, |vs|), hs, vs) == Linear(hs, vs, lo)
    decreases |vs| - lo
  {
    var n := |vs|;
    if lo + 2 < n {
      RenderIsLinear(hs, vs, lo + 1);
      var head, rest, v := At(hs, lo), Written(hs, n, lo + 1, n - 1), At(vs, n - 1);
      var closers := Repeat(")", GroupDepth(n - lo - 1));
      assert Render(Build(lo, n), hs, vs) == head + ("(" + Render(Build(lo + 1, n), hs, vs) + ")");
      assert Written(hs, n, lo, n - 1) == (head + "(") + rest;
      RepeatSnoc(")", GroupDepth(n - lo - 1));
      RegroupNest(head, rest, v, closers);
    } else if lo + 2 == n {
      assert Written(hs, n, lo, lo + 1) == At(hs, lo) + "" + "";
    } else {
      assert Written(hs, n, lo, lo) == "" && Repeat(")", 0) == "";
    }
  }

  /** Regrouping step, stated on plain strings so that the proofs using it
      keep solver cost small. */
  lemma StepAssoc(pre: string, num: string, gen: string, open: bool)
    ensures pre + (("i" + num + "+" + gen + "->size()*") + (if open then "(" else ""))
      == pre + "i" + num + "+" + gen + (if open then "->size()*(" else "->size()*")
  {
  }

  /** One pass of the emitter's loop before the last index appends what it
      writes for that index. */
  lemma StepWritten(rs: seq<Index>, cnt: nat)
    requires cnt + 2 <= |rs|
    ensures Written(Heads(rs), |rs|, 0, cnt + 1)
      == Written(Heads(rs), |rs|, 0, cnt) + "i" + rs[cnt].num + "+" + rs[cnt].gen
         + (if cnt + 2 < |rs| then "->size()*(" else "->size()*")
  {
    WrittenSnoc(Heads(rs), |rs|, 0, cnt);
    assert At(Heads(rs), cnt) == "i" + rs[cnt].num + "+" + rs[cnt].gen + "->size()*";
    StepAssoc(Written(Heads(rs), |rs|, 0, cnt), rs[cnt].num, rs[cnt].gen, cnt + 2 < |rs|);
  }

  /** Regrouping step, stated on plain strings so that the proofs using it
      keep solver cost small. */
  lemma TailAssoc(whole: string, pre: string, v: string, num: string, closers: string, terminator: string)
    requires whole == pre + v + closers + terminator && v == "i" + num
    ensures whole == pre + "i" + num + closers + terminator
  {
  }

  /** The last pass writes the last loop variable and closes every group. */
  lemma LastText(rs: seq<Index>, terminator: string)
    requires |rs| > 0
    ensures Subscript(rs, terminator)
      == Written(Heads(rs), |rs|, 0, |rs| - 1) + "i" + rs[|rs| - 1].num + Repeat(")", GroupDepth(|rs|))
         + terminator
  {
    var n, hs, vs := |rs|, Heads(rs), LoopVars(rs);
    var written, closers := Written(hs, n, 0, n - 1), Repeat(")", GroupDepth(n));
    RenderIsLinear(hs, vs, 0);
    assert Render(Build(0, n), hs, vs) == written + At(vs, n - 1) + closers;
    assert Subscript(rs, terminator) == Render(Build(0, n), hs, vs) + terminator;
    assert At(vs, n - 1) == "i" + rs[n - 1].num;
    TailAssoc(Subscript(rs, terminator), written, At(vs, n - 1), rs[n - 1].num, closers, terminator);
  }

  /** Writes the subscript over `rs` as the source does, and returns the
      number of groups it opens. */
  method OffsetText(rs: seq<Index>, terminator: string) returns (s: string, groups: nat)
    ensures s == Subscript(rs, terminator)
    ensures groups == GroupDepth(|rs|)
  {
    var n := |rs|;
    s := "";
    groups := 0;
    var cnt := 0;
    while cnt < n
      invariant 0 <= cnt <= n
      invariant cnt < n ==> s == Written(Heads(rs), n, 0, cnt)
      invariant cnt < n ==> groups == if cnt < GroupDepth(n) then cnt else GroupDepth(n)
      invariant cnt == n ==> groups == GroupDepth(n)
      invariant n == 0 ==> s == ""
      invariant 0 < n == cnt ==> s == Written(Heads(rs), n, 0, n - 1) + "i" + rs[n - 1].num
                                      + Repeat(")", GroupDepth(n)) + terminator
    {
      var x := rs[cnt];
      if cnt != n - 1 && cnt != n - 2 {
        StepWritten(rs, cnt);
        s := s + "i" + x.num + "+" + x.gen + "->size()*(";
        groups := groups + 1;
      } else if cnt == n - 2 {
        StepWritten(rs, cnt);
        s := s + "i" + x.num + "+" + x.gen + "->size()*";
      } else {
        ghost var before := s;
        s := s + "i" + x.num;
        var p := 0;
        while p != groups
          invariant 0 <= p <= groups
          invariant s == before + "i" + x.num + Repeat(")", p)
        {
          s := s + ")";
          p := p + 1;
        }
        s := s + terminator;
      }
      cnt := cnt + 1;
    }
    if n > 0 {
      LastText(rs, terminator);
    }
  }
}
