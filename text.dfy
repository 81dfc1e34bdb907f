/** Plain text helpers shared by the emitters: repetition, joining with a
    separator, decimal rendering of integers as C++ stream insertion writes
    them, and round-bracket balance. */
module Text {

  /** `s` written `k` times in a row. */
  function Repeat(s: string, k: nat): string
  {
    if k == 0 then "" else Repeat(s, k - 1) + s
  }

  lemma {:induction false} RepeatLength(s: string, k: nat)
    ensures |Repeat(s, k)| == k * |s|
  {
    if k > 0 {
      RepeatLength(s, k - 1);
    }
  }

  lemma RepeatSnoc(s: string, k: nat)
    ensures Repeat(s, k + 1) == Repeat(s, k) + s
  {
  }

  function Reverse<T>(xs: seq<T>): seq<T>
  {
    seq(|xs|, k requires 0 <= k < |xs| => xs[|xs| - 1 - k])
  }

  /** The words of `ws` with `sep` between each neighbouring pair and
      nowhere else, built from the back as the emitters' loops build it. */
  function Join(sep: string, ws: seq<string>): string
  {
    if |ws| == 0 then ""
    else if |ws| == 1 then ws[0]
    else Join(sep, ws[..|ws| - 1]) + sep + ws[|ws| - 1]
  }

  function TotalLength(ws: seq<string>): nat
  {
    if |ws| == 0 then 0 else TotalLength(ws[..|ws| - 1]) + |ws[|ws| - 1]|
  }

  /** A joined list holds every word and exactly one separator fewer than
      it has words. */
  lemma {:induction false} JoinLength(sep: string, ws: seq<string>)
    requires |ws| > 0
    ensures |Join(sep, ws)| == TotalLength(ws) + (|ws| - 1) * |sep|
  {
    if |ws| > 1 {
      var init := ws[..|ws| - 1];
      JoinLength(sep, init);
      assert init[..|init| - 1] == ws[..|ws| - 1][..|ws| - 2];
      assert TotalLength(init) + |ws[|ws| - 1]| == TotalLength(ws);
      assert (|ws| - 2) * |sep| + |sep| == (|ws| - 1) * |sep|;
    } else {
      assert ws[..0] == [];
    }
  }

  /** Read from the front, a joined list is its first word followed by a
      separator before each later word: no separator leads or trails. */
  lemma {:induction false} JoinCons(sep: string, w: string, ws: seq<string>)
    ensures Join(sep, [w] + ws) == if |ws| == 0 then w else w + sep + Join(sep, ws)
  {
    var all := [w] + ws;
    if |ws| == 1 {
      assert all[..1] == [w];
    } else if |ws| > 1 {
      var init, last := ws[..|ws| - 1], ws[|ws| - 1];
      assert all[..|all| - 1] == [w] + init && all[|all| - 1] == last;
      assert Join(sep, all) == Join(sep, [w] + init) + sep + last;
      JoinCons(sep, w, init);
      AppendSep(w + sep, Join(sep, init), sep, last);
    }
  }

  /** Extending a joined prefix by one word adds one separator, except
      before the first word. */
  lemma JoinPrefix(sep: string, ws: seq<string>, k: nat)
    requires k < |ws|
    ensures Join(sep, ws[..k + 1]) == if k == 0 then ws[0] else Join(sep, ws[..k]) + sep + ws[k]
  {
    assert ws[..k + 1][..k] == ws[..k];
  }

  /** Regrouping step, stated on plain strings so that the proofs using it
      keep solver cost small. */
  lemma AppendSep(pre: string, done: string, sep: string, w: string)
    ensures pre + done + sep + w == pre + (done + sep + w)
  {
  }

  lemma {:induction false} JoinAvoids(c: char, sep: string, ws: seq<string>)
    requires c !in sep
    requires forall k :: 0 <= k < |ws| ==> c !in ws[k]
    ensures c !in Join(sep, ws)
  {
    if |ws| > 1 {
      var init := ws[..|ws| - 1];
      assert forall k :: 0 <= k < |init| ==> init[k] == ws[k];
      JoinAvoids(c, sep, init);
    }
  }

  /** When no word is empty, the joined text is empty exactly when there
      are no words. */
  lemma JoinEmpty(sep: string, ws: seq<string>)
    requires forall k :: 0 <= k < |ws| ==> ws[k] != ""
    ensures Join(sep, ws) == "" <==> |ws| == 0
  {
  }

  function Digit(d: nat): char
    requires d < 10
  {
    (48 + d) as char
  }

  predicate IsDigit(c: char)
  {
    '0' <= c <= '9'
  }

  /** Decimal text of `n`, most significant digit first, no leading zeros. */
  function NatToString(n: nat): (r: string)
    ensures |r| >= 1
    ensures forall k :: 0 <= k < |r| ==> IsDigit(r[k])
    ensures (|r| == 1) == (n < 10)
  {
    if n < 10 then [Digit(n)] else NatToString(n / 10) + [Digit(n % 10)]
  }

  /** Decimal text of an `int`, with a leading minus sign when negative. */
  function IntToString(i: int): string
  {
    if i < 0 then "-" + NatToString(-i) else NatToString(i)
  }

  /** The value of a decimal numeral, most significant digit first. */
  function DecimalValue(s: string): int
  {
    if |s| == 0 then 0 else DecimalValue(s[..|s| - 1]) * 10 + (s[|s| - 1] as int - '0' as int)
  }

  /** Read back, the decimal text of `n` is `n`. */
  lemma {:induction false} NatToStringValue(n: nat)
    ensures DecimalValue(NatToString(n)) == n
  {
    var s := NatToString(n);
    if n >= 10 {
      NatToStringValue(n / 10);
      assert s[..|s| - 1] == NatToString(n / 10);
    }
  }

  /** Distinct numbers have distinct decimal texts. */
  lemma {:induction false} NatToStringInjective(a: nat, b: nat)
    requires NatToString(a) == NatToString(b)
    ensures a == b
  {
    var s := NatToString(a);
    if a >= 10 && b >= 10 {
      assert s[|s| - 1] == Digit(a % 10) == Digit(b % 10);
      assert s[..|s| - 1] == NatToString(a / 10) == NatToString(b / 10);
      NatToStringInjective(a / 10, b / 10);
    }
  }

  /** A run of digits followed by a non-digit is determined by the text it
      starts: two decimal renderings that precede non-digits in the same
      text are the same rendering. */
  lemma DigitRun(p: string, d1: string, s1: string, d2: string, s2: string)
    requires forall k :: 0 <= k < |d1| ==> IsDigit(d1[k])
    requires forall k :: 0 <= k < |d2| ==> IsDigit(d2[k])
    requires |s1| > 0 && !IsDigit(s1[0]) && |s2| > 0 && !IsDigit(s2[0])
    requires p + d1 + s1 == p + d2 + s2
    ensures d1 == d2
  {
    var t := p + d1 + s1;
    var k := if |d1| < |d2| then |d1| else |d2|;
    CharAt(p, d1, s1, k);
    CharAt(p, d2, s2, k);
    assert |d1| == |d2|;
    assert d1 == t[|p|..|p| + |d1|];
  }

  lemma CharAt(p: string, d: string, s: string, k: nat)
    requires k < |d| + |s|
    ensures (p + d + s)[|p| + k] == if k < |d| then d[k] else s[k - |d|]
  {
  }

  /** Number of times `c` occurs in `s`. */
  function Occurrences(c: char, s: string): nat
  {
    if |s| == 0 then 0
    else Occurrences(c, s[..|s| - 1]) + (if s[|s| - 1] == c then 1 else 0)
  }

  lemma {:induction false} OccurrencesAppend(c: char, a: string, b: string)
    ensures Occurrences(c, a + b) == Occurrences(c, a) + Occurrences(c, b)
  {
    if |b| == 0 {
      assert a + b == a;
    } else {
      assert (a + b)[..|a + b| - 1] == a + b[..|b| - 1];
      OccurrencesAppend(c, a, b[..|b| - 1]);
    }
  }

  lemma {:induction false} OccurrencesAbsent(c: char, s: string)
    requires c !in s
    ensures Occurrences(c, s) == 0
  {
    if |s| > 0 {
      assert c !in s[..|s| - 1];
      OccurrencesAbsent(c, s[..|s| - 1]);
    }
  }

  /** Opened minus closed round brackets. */
  function Depth(s: string): int
  {
    Occurrences('(', s) - Occurrences(')', s)
  }

  /** Every `)` closes an earlier `(` and all of them are closed. */
  ghost predicate Balanced(s: string)
  {
    Depth(s) == 0 && forall k :: 0 <= k <= |s| ==> Depth(s[..k]) >= 0
  }

  predicate ParenFree(s: string)
  {
    '(' !in s && ')' !in s
  }

  lemma DepthAppend(a: string, b: string)
    ensures Depth(a + b) == Depth(a) + Depth(b)
  {
    OccurrencesAppend('(', a, b);
    OccurrencesAppend(')', a, b);
  }

  lemma ParenFreeBalanced(s: string)
    requires ParenFree(s)
    ensures Balanced(s)
  {
    forall k | 0 <= k <= |s|
      ensures Depth(s[..k]) == 0
    {
      assert '(' !in s[..k] && ')' !in s[..k];
      OccurrencesAbsent('(', s[..k]);
      OccurrencesAbsent(')', s[..k]);
    }
    assert s[..|s|] == s;
  }

  lemma BalancedConcat(a: string, b: string)
    requires Balanced(a) && Balanced(b)
    ensures Balanced(a + b)
  {
    DepthAppend(a, b);
    forall k | 0 <= k <= |a + b|
      ensures Depth((a + b)[..k]) >= 0
    {
      if k <= |a| {
        assert (a + b)[..k] == a[..k];
      } else {
        assert (a + b)[..k] == a + b[..k - |a|];
        DepthAppend(a, b[..k - |a|]);
      }
    }
  }

  lemma BalancedWrap(s: string)
    requires Balanced(s)
    ensures Balanced("(" + s + ")")
  {
    var w := "(" + s + ")";
    assert Depth("(") == 1 && Depth(")") == -1;
    DepthAppend("(", s);
    DepthAppend("(" + s, ")");
    forall k | 0 <= k <= |w|
      ensures Depth(w[..k]) >= 0
    {
      if k == 0 {
        assert w[..k] == "";
      } else if k <= |s| + 1 {
        assert w[..k] == "(" + s[..k - 1];
        DepthAppend("(", s[..k - 1]);
      } else {
        assert w[..k] == w;
      }
    }
  }
}
