/** The text names of virtual ring points, and why no two of them are equal. */
module VirtualKeys {

  function Digit(d: nat): char
    requires d < 10
  {
    "0123456789"[d]
  }

  /** Decimal text of a natural number, without leading zeros. */
  function Decimal(n: nat): string {
    if n < 10 then [Digit(n)] else Decimal(n / 10) + [Digit(n % 10)]
  }

  /** strconv.Itoa. */
  function Itoa(n: int): string {
    if n < 0 then "-" + Decimal(-n) else Decimal(n)
  }

  /** The key "node_<id>_<replica>" a virtual point is hashed from. */
  function VirtualKey(id: int, replica: nat): string {
    "node_" + (Itoa(id) + "_" + Itoa(replica))
  }

  lemma {:induction false} DecimalShape(n: nat)
    ensures Decimal(n) != [] && (|Decimal(n)| == 1 <==> n < 10)
    ensures forall k :: 0 <= k < |Decimal(n)| ==> '0' <= Decimal(n)[k] <= '9'
  {
    if n >= 10 {
      DecimalShape(n / 10);
    }
  }

  lemma DigitInjective(d: nat, e: nat)
    requires d < 10 && e < 10 && Digit(d) == Digit(e)
    ensures d == e
  {
  }

  lemma {:induction false} DecimalInjective(m: nat, n: nat)
    requires Decimal(m) == Decimal(n)
    ensures m == n
  {
    DecimalShape(m);
    DecimalShape(n);
    if m < 10 {
      DigitInjective(m, n);
    } else {
      var s, k := Decimal(m), |Decimal(m)| - 1;
      assert s[..k] == Decimal(m / 10) && s[..k] == Decimal(n / 10);
      assert s[k] == Digit(m % 10) && s[k] == Digit(n % 10);
      DecimalInjective(m / 10, n / 10);
      DigitInjective(m % 10, n % 10);
    }
  }

  lemma ItoaShape(n: int)
    ensures '_' !in Itoa(n)
    ensures Itoa(n) != [] && (Itoa(n)[0] == '-' <==> n < 0)
  {
    DecimalShape(if n < 0 then -n else n);
  }

  lemma ItoaInjective(m: int, n: int)
    requires Itoa(m) == Itoa(n)
    ensures m == n
  {
    ItoaShape(m);
    ItoaShape(n);
    if m < 0 {
      assert Decimal(-m) == Itoa(m)[1..] && Decimal(-n) == Itoa(n)[1..];
      DecimalInjective(-m, -n);
    } else {
      DecimalInjective(m, n);
    }
  }

  lemma SeparatorFallsInside(a: string, b: string, c: string, d: string, sep: char)
    requires a + [sep] + b == c + [sep] + d && |a| < |c|
    ensures sep in c
  {
    assert (a + [sep] + b)[|a|] == sep && (c + [sep] + d)[|a|] == c[|a|];
  }

  /** Text before the first separator is determined by the whole text. */
  lemma SeparatorSplits(a: string, b: string, c: string, d: string, sep: char)
    requires sep !in a && sep !in c
    requires a + [sep] + b == c + [sep] + d
    ensures a == c && b == d
  {
    if |a| < |c| {
      SeparatorFallsInside(a, b, c, d, sep);
    } else if |c| < |a| {
      SeparatorFallsInside(c, d, a, b, sep);
    }
    var s, t := a + [sep] + b, c + [sep] + d;
    assert a == s[..|a|] && c == t[..|c|];
    assert b == s[|a| + 1..] && d == t[|c| + 1..];
  }

  lemma PrefixCancels(p: string, a: string, b: string)
    requires p + a == p + b
    ensures a == b
  {
    assert a == (p + a)[|p|..] && b == (p + b)[|p|..];
  }

  /** Distinct (node, replica) pairs never share a key, negative node ids included. */
  lemma VirtualKeyInjective(id: int, i: nat, jd: int, j: nat)
    requires VirtualKey(id, i) == VirtualKey(jd, j)
    ensures id == jd && i == j
  {
    PrefixCancels("node_", Itoa(id) + "_" + Itoa(i), Itoa(jd) + "_" + Itoa(j));
    ItoaShape(id);
    ItoaShape(jd);
    SeparatorSplits(Itoa(id), Itoa(i), Itoa(jd), Itoa(j), '_');
    ItoaInjective(id, jd);
    ItoaInjective(i, j);
  }
  // ----- the text is the number -----

  /** The number a decimal text stands for. */
  function Read(text: string): int {
    if text == [] then 0 else 10 * Read(text[..|text| - 1]) + (text[|text| - 1] as int - '0' as int)
  }

  lemma {:induction false} DecimalReads(n: nat)
    ensures Read(Decimal(n)) == n && (Decimal(n)[0] == '0' ==> n == 0)
  {
    if n >= 10 {
      DecimalReads(n / 10);
      DecimalShape(n / 10);
      assert Decimal(n)[..|Decimal(n)| - 1] == Decimal(n / 10);
    }
  }

  /** Itoa writes the number in decimal, with a sign when it is negative and without leading zeros. */
  lemma ItoaReads(n: int)
    ensures Itoa(n) != []
    ensures if n < 0 then Itoa(n)[0] == '-' && Read(Itoa(n)[1..]) == -n && Itoa(n)[1..] != [] && Itoa(n)[1] != '0'
            else Read(Itoa(n)) == n && Itoa(n)[0] != '-' && (Itoa(n)[0] == '0' ==> n == 0)
  {
    var m := if n < 0 then -n else n;
    DecimalReads(m);
    DecimalShape(m);
    assert n < 0 ==> Itoa(n)[1..] == Decimal(m);
  }

  /** The key of a virtual point in full. */
  lemma KeyText(id: int, replica: nat)
    ensures VirtualKey(id, replica) == "node_" + Itoa(id) + "_" + Itoa(replica)
    ensures VirtualKey(-3, 12) == "node_-3_12"
  {
    assert Decimal(12) == Decimal(1) + ['2'] && Decimal(1) == ['1'];
    assert Itoa(12) == "12" && Itoa(-3) == "-3";
  }
}
