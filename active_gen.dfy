/** The active-space units the generator writes: one C++ class per unit,
    numbered by a counter the generator keeps across calls, whose
    constructor loops over the unit's target indices and adds one
    density-matrix term per line. */
module ActiveEmitter {

  import opened Wrappers
  import opened Text
  import opened Symbols
  import opened LoopNest

  // ---------------------------------------------------------------------
  // One density-matrix term as a line of code

  /** `a == b` for one delta pair. */
  function Clauses(delta: seq<(Index, Index)>): seq<string>
  {
    seq(|delta|, k requires 0 <= k < |delta| => delta[k].0.name + " == " + delta[k].1.name)
  }

  /** The guard of a term: an `if (...) ` over all delta pairs, or nothing
      when the term has none. */
  function Guard(delta: seq<(Index, Index)>): string
  {
    if |delta| == 0 then "" else "if (" + Join(" && ", Clauses(delta)) + ") "
  }

  /** How the term ends: a plain call, or a call times the merged tensor. */
  function Tail(merged: Option<Tensor>): string
  {
    if merged.Some? then ") * " + merged.value.text else ");"
  }

  /** The line for term `r` accumulating into the target slots `target`. */
  function RdmLine(r: Rdm, target: string, merged: Option<Tensor>): string
  {
    Guard(r.delta) + "data(" + target + ") += " + r.fac + " * gamma"
    + NatToString(|r.index| / 2) + "(" + Join(", ", Names(r.index)) + Tail(merged)
  }

  /** Writes the guard clauses, a separator before every clause but the
      first. */
  method GuardText(delta: seq<(Index, Index)>) returns (s: string)
    ensures s == Guard(delta)
  {
    s := "";
    if |delta| > 0 {
      ghost var cs := Clauses(delta);
      s := s + "if (";
      var j := 0;
      while j < |delta|
        invariant 0 <= j <= |delta|
        invariant s == "if (" + Join(" && ", cs[..j])
      {
        JoinPrefix(" && ", cs, j);
        if j != 0 {
          AppendSep("if (", Join(" && ", cs[..j]), " && ", cs[j]);
          s := s + " && ";
        }
        s := s + (delta[j].0.name + " == " + delta[j].1.name);
        j := j + 1;
      }
      assert cs[..j] == cs;
      s := s + ") ";
    }
  }

  /** Writes the index names, a separator after every name but the last,
      counting down to the last one as the source does. */
  method IndexList(xs: seq<Index>) returns (s: string)
    ensures s == Join(", ", Names(xs))
  {
    ghost var ns := Names(xs);
    s := "";
    var j := |xs| - 1;
    var k := 0;
    while k < |xs|
      invariant 0 <= k <= |xs| && j == |xs| - 1 - k
      invariant s == if k == 0 then "" else if k < |xs| then Join(", ", ns[..k]) + ", " else Join(", ", ns)
    {
      JoinPrefix(", ", ns, k);
      assert ns[..|xs|] == ns;
      s := s + xs[k].name;
      if j != 0 {
        s := s + ", ";
      }
      k := k + 1;
      j := j - 1;
    }
  }

  /** Writes the line for term `r`. */
  method RdmStr(r: Rdm, target: string, merged: Option<Tensor>) returns (s: string)
    ensures s == RdmLine(r, target, merged)
  {
    s := GuardText(r.delta);
    s := s + "data(" + target + ") += " + r.fac + " * gamma";
    s := s + NatToString(|r.index| / 2) + "(";
    var list := IndexList(r.index);
    s := s + list;
    if merged.Some? {
      s := s + (") * " + merged.value.text);
    } else {
      s := s + ");";
    }
  }

  // ---------------------------------------------------------------------
  // The target slots: the unit's indices not carried by the merged tensor

  /** Position of the first index of `m` that is the index `id`, or `|m|`
      when there is none. */
  function Find(m: seq<Index>, id: nat): (r: nat)
    ensures r <= |m|
    ensures forall j :: 0 <= j < r ==> m[j].id != id
    ensures r < |m| ==> m[r].id == id
  {
    if |m| == 0 then 0 else if m[0].id == id then 0 else 1 + Find(m[1..], id)
  }

  /** The indices of `xs` the merged tensor does not carry, in order. */
  function Kept(xs: seq<Index>, m: seq<Index>): seq<Index>
  {
    if |xs| == 0 then []
    else if Find(m, xs[|xs| - 1].id) < |m| then Kept(xs[..|xs| - 1], m)
    else Kept(xs[..|xs| - 1], m) + [xs[|xs| - 1]]
  }

  /** The target text as the emitter builds it: a separator goes before a
      name whenever something has been written already. */
  function Target(xs: seq<Index>, m: seq<Index>): string
  {
    if |xs| == 0 then ""
    else
      var t := Target(xs[..|xs| - 1], m);
      var x := xs[|xs| - 1];
      if Find(m, x.id) < |m| then t
      else if |t| > 0 then t + ", " + x.name
      else t + x.name
  }

  /** Writes the target text. */
  method TargetList(xs: seq<Index>, m: seq<Index>) returns (target: string)
    ensures target == Target(xs, m)
  {
    target := "";
    var k := 0;
    while k < |xs|
      invariant 0 <= k <= |xs|
      invariant target == Target(xs[..k], m)
    {
      assert xs[..k + 1][..k] == xs[..k];
      var x := xs[k];
      if Find(m, x.id) == |m| {
        if |target| > 0 {
          target := target + ", ";
        }
        target := target + x.name;
      }
      k := k + 1;
    }
    assert xs[..k] == xs;
  }

  lemma {:induction false} KeptMembers(xs: seq<Index>, m: seq<Index>, x: Index)
    ensures x in Kept(xs, m) <==> x in xs && Find(m, x.id) == |m|
  {
    if |xs| > 0 {
      var init := xs[..|xs| - 1];
      KeptMembers(init, m, x);
      assert xs == init + [xs[|xs| - 1]];
    }
  }

  /** When no index renders as empty text, the target is exactly the kept
      names joined by `", "`. */
  lemma {:induction false} TargetIsJoin(xs: seq<Index>, m: seq<Index>)
    requires forall k :: 0 <= k < |xs| ==> xs[k].name != ""
    ensures Target(xs, m) == Join(", ", Names(Kept(xs, m)))
  {
    if |xs| > 0 {
      var init, x := xs[..|xs| - 1], xs[|xs| - 1];
      assert forall k :: 0 <= k < |init| ==> init[k] == xs[k];
      TargetIsJoin(init, m);
      var ws := Names(Kept(init, m));
      if Find(m, x.id) == |m| {
        KeptNames(init, m);
        assert forall k :: 0 <= k < |ws| ==> ws[k] == Kept(init, m)[k].name;
        JoinEmpty(", ", ws);
        assert Names(Kept(xs, m)) == ws + [x.name];
        assert (ws + [x.name])[..|ws|] == ws;
      }
    }
  }

  lemma {:induction false} KeptNames(xs: seq<Index>, m: seq<Index>)
    requires forall k :: 0 <= k < |xs| ==> xs[k].name != ""
    ensures forall k :: 0 <= k < |Kept(xs, m)| ==> Kept(xs, m)[k].name != ""
  {
    if |xs| > 0 {
      var init := xs[..|xs| - 1];
      assert forall k :: 0 <= k < |init| ==> init[k] == xs[k];
      KeptNames(init, m);
      var ks := Kept(init, m);
      assert forall k :: 0 <= k < |ks| ==> ks[k].name != "";
    }
  }

  // ---------------------------------------------------------------------
  // One unit: a class named after the counter

  /** Indentation of the outermost loop inside the constructor. */
  const LoopIndent := "      "

  /** The header of the loop over one target slot. */
  function ActiveHeader(x: Index): string
  {
    "for (int " + x.name + " = 0; " + x.name + " != nact_; ++" + x.name + ") {"
  }

  function ActiveHeaders(xs: seq<Index>): seq<string>
  {
    seq(|xs|, k requires 0 <= k < |xs| => ActiveHeader(xs[k]))
  }

  /** The file header and the base-class include, written before the first
      unit only. */
  function Preamble(header: string, count: nat): string
  {
    if count == 0 then header + "\n\n" + "#include \"active_base.h\"\n" else ""
  }

  /** The class head up to the index-ordering comment: the class and its
      constructor are named after `count`, and the base gets the storage
      rank `rank`. */
  function Opening(count: nat, rank: int): string
  {
    "class Active_" + NatToString(count) + OpeningRest(count, rank)
  }

  function OpeningRest(count: nat, rank: int): string
  {
    " : public Active_base {\n" + "  public:\n" + "    Active_" + NatToString(count) + "() : Active_base("
    + IntToString(rank) + ") {\n      // Here nact**" + IntToString(rank)
    + " storage is already created in unique_ptr<double[]> data_.\n      // Index ordering is "
  }

  /** The end of the constructor, the destructor and the end of the class. */
  function Closing(count: nat): string
  {
    "    };\n    ~Active_" + NatToString(count) + "() {};\n" + "};\n\n"
  }

  /** The per-term lines at the innermost indentation, in term order. */
  function TermLines(inner: string, rdms: seq<Rdm>, target: string, merged: Option<Tensor>): seq<string>
  {
    seq(|rdms|, k requires 0 <= k < |rdms| => inner + RdmLine(rdms[k], target, merged))
  }

  /** Storage rank of a unit: its index count less the merged tensor's. */
  function StorageRank(a: Active, merged: Option<Tensor>): int
  {
    |a.index| - |MergedIndex(merged)|
  }

  /** Everything but the preamble: the class of unit `count`. */
  function Body(count: nat, a: Active, merged: Option<Tensor>): string
  {
    var target := Target(a.index, MergedIndex(merged));
    Opening(count, StorageRank(a, merged)) + target + "\n"
    + Unlines(NestOpen(LoopIndent, ActiveHeaders(a.index)))
    + Unlines(TermLines(Indentation(LoopIndent, |a.index|), a.rdms, target, merged))
    + Unlines(NestClose(LoopIndent, |a.index|))
    + Closing(count)
  }

  /** What the generator writes for unit `a` when `count` units came before
      it in the same file. */
  function Unit(header: string, count: nat, a: Active, merged: Option<Tensor>): string
  {
    Preamble(header, count) + Body(count, a, merged)
  }

  /** Writes one line per term. */
  method TermText(inner: string, rdms: seq<Rdm>, target: string, merged: Option<Tensor>) returns (s: string)
    ensures s == Unlines(TermLines(inner, rdms, target, merged))
  {
    ghost var ls := TermLines(inner, rdms, target, merged);
    s := "";
    var k := 0;
    while k < |rdms|
      invariant 0 <= k <= |rdms|
      invariant s == Unlines(ls[..k])
    {
      var line := RdmStr(rdms[k], target, merged);
      UnlinesStep(ls, k, inner + line);
      s := s + (inner + line + "\n");
      k := k + 1;
    }
    assert ls[..k] == ls;
  }

  /** Writes the class of unit `count`. */
  method ClassText(count: nat, a: Active, merged: Option<Tensor>) returns (body: string)
    ensures body == Body(count, a, merged)
  {
    var m: seq<Index> := [];
    if merged.Some? {
      m := merged.value.index;
    }
    var rank := |a.index| - |m|;
    body := "class Active_" + NatToString(count)
      + (" : public Active_base {\n" + "  public:\n" + "    Active_" + NatToString(count) + "() : Active_base("
         + IntToString(rank) + ") {\n      // Here nact**" + IntToString(rank)
         + " storage is already created in unique_ptr<double[]> data_.\n      // Index ordering is ");
    assert body == Opening(count, StorageRank(a, merged));
    var target := TargetList(a.index, m);
    body := body + target + "\n";
    var nest, close, indent := OpenNest(LoopIndent, ActiveHeaders(a.index));
    body := body + nest;
    var lines := TermText(indent, a.rdms, target, merged);
    body := body + lines;
    var closing := CloseNest(close);
    ClosersReversed(LoopIndent, |a.index|);
    body := body + closing;
    body := body + ("    };\n    ~Active_" + NatToString(count) + "() {};\n" + "};\n\n");
  }

  /** The generator of one file's units; `count` is the number of units
      written so far. */
  class ActiveGenerator {
    const header: string
    var count: nat

    constructor(header: string)
      ensures this.header == header && count == 0
    {
      this.header := header;
      count := 0;
    }

    /** Writes unit `a` and counts it. */
    method Generate(a: Active, merged: Option<Tensor>) returns (text: string)
      modifies this
      ensures count == old(count) + 1
      ensures text == Unit(header, old(count), a, merged)
    {
      var ss := "";
      if count == 0 {
        ss := header + "\n\n";
      }
      if count == 0 {
        ss := ss + "#include \"active_base.h\"\n";
      }
      var body := ClassText(count, a, merged);
      text := ss + body;
      count := count + 1;
    }
  }

  // ---------------------------------------------------------------------
  // What a unit promises

  /** A term is guarded exactly when it has delta pairs. */
  lemma GuardIff(delta: seq<(Index, Index)>)
    ensures Guard(delta) != "" <==> |delta| > 0
    ensures |delta| > 0 ==> Guard(delta)[..4] == "if (" && Guard(delta)[|Guard(delta)| - 2..] == ") "
  {
  }

  /** The guard tests the first pair first and joins each further pair by
      `" && "`, one clause per pair. */
  lemma GuardClauses(delta: seq<(Index, Index)>)
    requires |delta| > 0
    ensures var first := delta[0].0.name + " == " + delta[0].1.name;
      Guard(delta) == "if (" + (if |delta| == 1 then first else first + " && " + Join(" && ", Clauses(delta[1..]))) + ") "
  {
    assert Clauses(delta) == [delta[0].0.name + " == " + delta[0].1.name] + Clauses(delta[1..]);
    JoinCons(" && ", delta[0].0.name + " == " + delta[0].1.name, Clauses(delta[1..]));
  }

  /** A term line ends with `");"` without a merged tensor and with the
      product by the merged tensor otherwise. */
  lemma LineEnding(r: Rdm, target: string, merged: Option<Tensor>)
    ensures var line := RdmLine(r, target, merged);
      && (merged.None? ==> |line| >= 2 && line[|line| - 2..] == ");")
      && (merged.Some? ==> var t := ") * " + merged.value.text; |line| >= |t| && line[|line| - |t|..] == t)
  {
  }

  /** The text after the class name's number. */
  function ClassRest(count: nat, a: Active, merged: Option<Tensor>): string
  {
    var target := Target(a.index, MergedIndex(merged));
    OpeningRest(count, StorageRank(a, merged)) + target + "\n"
    + Unlines(NestOpen(LoopIndent, ActiveHeaders(a.index)))
    + Unlines(TermLines(Indentation(LoopIndent, |a.index|), a.rdms, target, merged))
    + Unlines(NestClose(LoopIndent, |a.index|))
    + Closing(count)
  }

  /** Regrouping step, stated on plain strings so that the proofs using it
      keep solver cost small. */
  lemma Regroup7(p: string, o: string, b: string, c: string, d: string, e: string, f: string, g: string)
    ensures p + o + b + c + d + e + f + g == p + (o + b + c + d + e + f + g)
  {
  }

  predicate StartsSpace(s: string)
  {
    |s| > 0 && s[0] == ' '
  }

  /** Appending keeps a leading space; stated on plain strings to keep
      solver cost small. */
  lemma StartsSpaceAppend(a: string, b: string)
    requires StartsSpace(a)
    ensures StartsSpace(a + b)
  {
  }

  lemma OpeningRestStartsSpace(count: nat, rank: int)
    ensures StartsSpace(OpeningRest(count, rank))
  {
  }

  lemma BodySplit(count: nat, a: Active, merged: Option<Tensor>)
    ensures Body(count, a, merged) == "class Active_" + NatToString(count) + ClassRest(count, a, merged)
    ensures StartsSpace(ClassRest(count, a, merged))
  {
    var target := Target(a.index, MergedIndex(merged));
    var o := OpeningRest(count, StorageRank(a, merged));
    var u1 := Unlines(NestOpen(LoopIndent, ActiveHeaders(a.index)));
    var u2 := Unlines(TermLines(Indentation(LoopIndent, |a.index|), a.rdms, target, merged));
    var u3 := Unlines(NestClose(LoopIndent, |a.index|));
    Regroup7("class Active_" + NatToString(count), o, target, "\n", u1, u2, u3, Closing(count));
    OpeningRestStartsSpace(count, StorageRank(a, merged));
    StartsSpaceAppend(o, target);
    StartsSpaceAppend(o + target, "\n");
    StartsSpaceAppend(o + target + "\n", u1);
    StartsSpaceAppend(o + target + "\n" + u1, u2);
    StartsSpaceAppend(o + target + "\n" + u1 + u2, u3);
    StartsSpaceAppend(o + target + "\n" + u1 + u2 + u3, Closing(count));
  }

  /** Classes written at different counts differ: each unit's class is
      named `Active_<count>` after the number it was written at. */
  lemma BodiesDistinct(c1: nat, a1: Active, m1: Option<Tensor>, c2: nat, a2: Active, m2: Option<Tensor>)
    requires c1 != c2
    ensures Body(c1, a1, m1) != Body(c2, a2, m2)
  {
    if Body(c1, a1, m1) == Body(c2, a2, m2) {
      BodySplit(c1, a1, m1);
      BodySplit(c2, a2, m2);
      DigitRun("class Active_", NatToString(c1), ClassRest(c1, a1, m1), NatToString(c2), ClassRest(c2, a2, m2));
      NatToStringInjective(c1, c2);
    }
  }

  /** The file header and the include come before the first unit only;
      later units are their class alone. A read-out of Unit and Preamble. */
  lemma PreambleOnlyFirst(header: string, count: nat, a: Active, merged: Option<Tensor>)
    ensures count == 0 ==> Unit(header, count, a, merged)
                           == header + "\n\n" + "#include \"active_base.h\"\n" + Body(count, a, merged)
    ensures count > 0 ==> Unit(header, count, a, merged) == Body(count, a, merged)
  {
  }
}
