/** Decimal digit strings: the value of a digit run (`parseInt` of `\d+`, Python's
    `int` of digits) and the rendering of a natural number (`String(n)`, `str(n)`). */
module Decimal {

  /** An ASCII decimal digit, which is what `\d` matches in a JavaScript regular
      expression without the `u` flag. */
  predicate IsDigit(c: char) {
    '0' <= c <= '9'
  }

  predicate AllDigits(s: string) {
    forall i :: 0 <= i < |s| ==> IsDigit(s[i])
  }

  predicate HasDigit(s: string) {
    exists i :: 0 <= i < |s| && IsDigit(s[i])
  }

  /** A digit run as `String(n)` would print it: non-empty, and a leading zero
      only for zero itself. */
  predicate Canonical(s: string) {
    |s| > 0 && AllDigits(s) && (s[0] == '0' ==> |s| == 1)
  }

  function DigitValue(c: char): (d: nat)
    requires IsDigit(c)
    ensures d < 10
  {
    c as int - '0' as int
  }

  function DigitChar(d: nat): (c: char)
    requires d < 10
    ensures IsDigit(c) && DigitValue(c) == d
  {
    ('0' as int + d) as char
  }

  /** The number a digit run denotes, most significant digit first. */
  function Value(s: string): nat
    requires AllDigits(s)
  {
    if |s| == 0 then 0 else Value(s[..|s| - 1]) * 10 + DigitValue(s[|s| - 1])
  }

  /** The decimal rendering of `n`, without leading zeros. */
  function Render(n: nat): (r: string)
    ensures |r| > 0 && AllDigits(r)
  {
    if n < 10 then [DigitChar(n)] else Render(n / 10) + [DigitChar(n % 10)]
  }

  /** Reading back a rendering gives the number. */
  lemma {:induction false} ValueOfRender(n: nat)
    ensures Value(Render(n)) == n
  {
    if n >= 10 {
      var r := Render(n);
      assert r[..|r| - 1] == Render(n / 10);
      ValueOfRender(n / 10);
    }
  }

  /** Every rendering is canonical. */
  lemma {:induction false} RenderIsCanonical(n: nat)
    ensures Canonical(Render(n))
  {
    if n >= 10 {
      RenderIsCanonical(n / 10);
      assert Render(n)[0] == Render(n / 10)[0];
    }
  }

  /** A canonical digit run with more than one digit denotes at least ten. */
  lemma {:induction false} ValueAtLeastTen(s: string)
    requires Canonical(s) && |s| > 1
    ensures Value(s) >= 10
  {
    var init := s[..|s| - 1];
    assert init[0] == s[0];
    if |init| > 1 {
      assert Canonical(init);
      ValueAtLeastTen(init);
    } else {
      assert init == [s[0]];
      assert Value(init) == Value(init[..0]) * 10 + DigitValue(s[0]);
      assert init[..0] == [];
    }
  }

  /** Rendering the value of a canonical digit run gives the run back: for such
      runs `Render` and `Value` are mutually inverse. */
  lemma {:induction false} RenderOfValue(s: string)
    requires Canonical(s)
    ensures Render(Value(s)) == s
  {
    var init := s[..|s| - 1];
    var last := s[|s| - 1];
    if |s| == 1 {
      assert init == [];
      assert Render(Value(s)) == [DigitChar(DigitValue(last))];
      assert ('0' as int + DigitValue(last)) as char == last;
    } else {
      ValueAtLeastTen(s);
      assert init[0] == s[0];
      assert Canonical(init);
      RenderOfValue(init);
      var v := Value(s);
      assert v == Value(init) * 10 + DigitValue(last);
      assert v / 10 == Value(init) && v % 10 == DigitValue(last);
      assert ('0' as int + DigitValue(last)) as char == last;
      assert s == init + [last];
    }
  }

  /** Distinct numbers render distinctly. */
  lemma RenderInjective(m: nat, n: nat)
    ensures Render(m) == Render(n) ==> m == n
  {
    ValueOfRender(m);
    ValueOfRender(n);
  }
}
