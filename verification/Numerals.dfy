/** Decimal numerals: plain, as `str(n)` writes them, and zero-padded, as `f"{n:06d}"` does,
    with the string order that sort keys are compared by. */
module Numerals {
  import opened Wrappers

  function Digit(d: nat): char
    requires d < 10
  {
    '0' + d as char
  }

  function DigitValue(c: char): nat
    requires IsDigit(c)
  {
    c as int - '0' as int
  }

  predicate IsDigit(c: char) { '0' <= c <= '9' }

  /** The digits of `n`, most significant first, at least `width` of them. */
  function Padded(n: nat, width: nat): (t: string)
    ensures forall i :: 0 <= i < |t| ==> IsDigit(t[i])
    decreases n, width
  {
    if n < 10 && width <= 1 then [Digit(n)]
    else Padded(n / 10, if width == 0 then 0 else width - 1) + [Digit(n % 10)]
  }

  function Text(n: nat): string { Padded(n, 1) }

  function Power10(k: nat): nat { if k == 0 then 1 else 10 * Power10(k - 1) }

  lemma {:induction false} PaddedLength(n: nat, width: nat)
    requires width >= 1 && n < Power10(width)
    ensures |Padded(n, width)| == width
    decreases width
  {
    if width > 1 {
      PaddedLength(n / 10, width - 1);
    }
  }

  function Value(t: string): nat
    requires forall i :: 0 <= i < |t| ==> IsDigit(t[i])
  {
    if t == "" then 0 else Value(t[..|t| - 1]) * 10 + DigitValue(t[|t| - 1])
  }

  /** Reading a numeral back, leading zeros or not. */
  lemma {:induction false} ValueOfPadded(n: nat, width: nat)
    ensures Value(Padded(n, width)) == n
    decreases n, width
  {
    if n >= 10 || width > 1 {
      var w := if width == 0 then 0 else width - 1;
      ValueOfPadded(n / 10, w);
      assert Padded(n, width)[..|Padded(n, width)| - 1] == Padded(n / 10, w);
    } else {
      assert Padded(n, width)[..0] == "";
    }
  }

  /** The order of sort keys: by the first differing character, a prefix first. */
  predicate Less(a: string, b: string) {
    b != "" && (a == "" || a[0] < b[0] || (a[0] == b[0] && Less(a[1..], b[1..])))
  }

  lemma {:induction false} LessIrreflexive(a: string)
    ensures !Less(a, a)
  {
    if a != "" { LessIrreflexive(a[1..]); }
  }

  lemma {:induction false} LessTransitive(a: string, b: string, c: string)
    requires Less(a, b) && Less(b, c)
    ensures Less(a, c)
  {
    if a != "" && a[0] == b[0] == c[0] { LessTransitive(a[1..], b[1..], c[1..]); }
  }

  lemma {:induction false} LessTotal(a: string, b: string)
    ensures Less(a, b) || a == b || Less(b, a)
  {
    if a != "" && b != "" && a[0] == b[0] {
      LessTotal(a[1..], b[1..]);
      assert a == [a[0]] + a[1..] && b == [b[0]] + b[1..];
    }
  }

  lemma {:induction false} LessSamePrefix(p: string, a: string, b: string)
    ensures Less(p + a, p + b) <==> Less(a, b)
  {
    if p == "" {
      assert p + a == a && p + b == b;
    } else {
      assert (p + a)[1..] == p[1..] + a && (p + b)[1..] == p[1..] + b;
      LessSamePrefix(p[1..], a, b);
    }
  }

  lemma {:induction false} LessLastCharacter(a: string, x: char, b: string, y: char)
    requires |a| == |b|
    ensures Less(a + [x], b + [y]) <==> Less(a, b) || (a == b && x < y)
  {
    if a != "" {
      assert (a + [x])[1..] == a[1..] + [x] && (b + [y])[1..] == b[1..] + [y];
      LessLastCharacter(a[1..], x, b[1..], y);
      assert a == [a[0]] + a[1..] && b == [b[0]] + b[1..];
      if a == b { LessIrreflexive(a); }
    }
  }

  /** Zero-padded numerals sort as strings the way the numbers sort. */
  lemma {:induction false} PaddedOrder(i: nat, j: nat, width: nat)
    requires width >= 1 && i < Power10(width) && j < Power10(width)
    ensures Less(Padded(i, width), Padded(j, width)) <==> i < j
    decreases width
  {
    if width > 1 {
      PaddedLength(i / 10, width - 1);
      PaddedLength(j / 10, width - 1);
      PaddedOrder(i / 10, j / 10, width - 1);
      LessLastCharacter(Padded(i / 10, width - 1), Digit(i % 10), Padded(j / 10, width - 1), Digit(j % 10));
      ValueOfPadded(i / 10, width - 1);
      ValueOfPadded(j / 10, width - 1);
    }
  }
}
