/** Decimal rendering of integers (the %d verb), with its inverse. */
module Decimal {

  predicate IsDigit(c: char) { '0' <= c <= '9' }

  function Digit(d: nat): (c: char)
    requires d < 10
    ensures IsDigit(c)
    ensures c as int == '0' as int + d
  {
    "0123456789"[d]
  }

  function Render(n: nat): (s: string)
    ensures s != []
    ensures forall i :: 0 <= i < |s| ==> IsDigit(s[i])
  {
    if n < 10 then [Digit(n)] else Render(n / 10) + [Digit(n % 10)]
  }

  function Itoa(i: int): (s: string)
    ensures s != []
    ensures forall k :: 0 <= k < |s| ==> IsDigit(s[k]) || s[k] == '-'
  {
    if i < 0 then "-" + Render(-i) else Render(i)
  }

  function Parse(s: string): nat
    requires forall i :: 0 <= i < |s| ==> IsDigit(s[i])
  {
    if s == [] then 0
    else
      assert IsDigit(s[|s| - 1]);
      10 * Parse(s[..|s| - 1]) + (s[|s| - 1] as int - '0' as int)
  }

  lemma {:induction false} ParseInvertsRender(n: nat)
    ensures Parse(Render(n)) == n
  {
    if n >= 10 {
      ParseInvertsRender(n / 10);
      assert Render(n)[..|Render(n)| - 1] == Render(n / 10);
    }
  }

  lemma {:induction false} RenderInjective(m: nat, n: nat)
    requires Render(m) == Render(n)
    ensures m == n
  {
    ParseInvertsRender(m);
    ParseInvertsRender(n);
  }

  /** A minus sign stands first exactly for a negative number. */
  lemma Signed(i: int)
    ensures Itoa(i)[0] == '-' <==> i < 0
    ensures if i < 0 then Itoa(i)[1..] == Render(-i) else Itoa(i) == Render(i)
  {
    hide Render;
  }

  lemma ItoaInjective(a: int, b: int)
    requires Itoa(a) == Itoa(b)
    ensures a == b
  {
    hide Itoa, Render;
    Signed(a);
    Signed(b);
    if a < 0 {
      RenderInjective(-a, -b);
    } else {
      RenderInjective(a, b);
    }
  }

  /** The text before the first separator, and the text after it, are determined by the whole. */
  lemma FirstSeparator(sep: char, a: string, x: string, b: string, y: string)
    requires sep !in a && sep !in b
    requires a + [sep] + x == b + [sep] + y
    ensures a == b && x == y
  {
    var v, w := a + [sep] + x, b + [sep] + y;
    assert v[|a|] == sep && forall i :: 0 <= i < |a| ==> v[i] == a[i] && v[i] != sep;
    assert w[|b|] == sep && forall i :: 0 <= i < |b| ==> w[i] == b[i] && w[i] != sep;
    assert |a| == |b|;
    assert a == v[..|a|] && x == v[|a| + 1..];
    assert b == w[..|b|] && y == w[|b| + 1..];
  }
}
