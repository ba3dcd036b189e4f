/** Decimal numerals as the store and the version counter print and read them. */
module Decimal {

  predicate IsDigit(c: char) {
    '0' <= c <= '9'
  }

  predicate AllDigits(s: string) {
    forall i :: 0 <= i < |s| ==> IsDigit(s[i])
  }

  function Digit(d: nat): char
    requires d < 10
  {
    ('0' as int + d) as char
  }

  function Value(c: char): nat
    requires IsDigit(c)
  {
    c as int - '0' as int
  }

  /** The shortest numeral of `n`. */
  function Itoa(n: nat): (s: string)
    ensures |s| >= 1 && AllDigits(s)
  {
    if n < 10 then [Digit(n)] else Itoa(n / 10) + [Digit(n % 10)]
  }

  function Parse(s: string): nat
    requires AllDigits(s)
  {
    if s == [] then 0 else Parse(s[..|s| - 1]) * 10 + Value(s[|s| - 1])
  }

  lemma {:induction false} ParseItoa(n: nat)
    ensures Parse(Itoa(n)) == n
  {
    if n >= 10 {
      ParseItoa(n / 10);
      assert Itoa(n)[..|Itoa(n)| - 1] == Itoa(n / 10);
    }
  }

  // ---------------------------------------------------------------- fixed width

  function Pow10(w: nat): nat {
    if w == 0 then 1 else 10 * Pow10(w - 1)
  }

  /** The last `w` digits of `n`. */
  function Fixed(n: nat, w: nat): (s: string)
    ensures |s| == w && AllDigits(s)
  {
    if w == 0 then [] else Fixed(n / 10, w - 1) + [Digit(n % 10)]
  }

  function Zeros(k: nat): string {
    seq(k, _ => '0')
  }

  /** `n` padded with zeros on the left to at least `w` characters. */
  function PadTo(n: nat, w: nat): string {
    var s := Itoa(n);
    if |s| >= w then s else Zeros(w - |s|) + s
  }

  lemma {:induction false} FixedZero(w: nat)
    ensures Fixed(0, w) == Zeros(w)
  {
    if w > 0 {
      FixedZero(w - 1);
      assert Zeros(w) == Zeros(w - 1) + ['0'];
    }
  }

  lemma {:induction false} ItoaLength(n: nat, w: nat)
    requires n < Pow10(w) && w > 0
    ensures |Itoa(n)| <= w
  {
    if n >= 10 {
      ItoaLength(n / 10, w - 1);
    }
  }

  lemma {:induction false} ItoaLong(n: nat, w: nat)
    requires n >= Pow10(w)
    ensures |Itoa(n)| > w
  {
    if w > 0 {
      ItoaLong(n / 10, w - 1);
    }
  }

  lemma {:induction false} ParseFixed(n: nat, w: nat)
    requires n < Pow10(w)
    ensures Parse(Fixed(n, w)) == n
  {
    if w > 0 {
      ParseFixed(n / 10, w - 1);
      assert Fixed(n, w)[..w - 1] == Fixed(n / 10, w - 1);
    }
  }

  /** A numeral has no zero in front. */
  lemma {:induction false} ItoaIsShortest(n: nat)
    ensures Itoa(n)[0] == '0' <==> n == 0
    ensures |Itoa(n)| > 1 <==> n >= 10
  {
    if n >= 10 {
      ItoaIsShortest(n / 10);
    }
  }

  lemma {:induction false} PadToIsFixed(n: nat, w: nat)
    requires n < Pow10(w) && w > 0
    ensures PadTo(n, w) == Fixed(n, w)
  {
    if n < 10 {
      FixedZero(w - 1);
    } else {
      PadToIsFixed(n / 10, w - 1);
      ItoaLength(n, w);
      assert Itoa(n) == Itoa(n / 10) + [Digit(n % 10)];
    }
  }
}

/** Byte order on keys, and the padded decimal keys of the store. */
module BoltKeys {
  import opened Decimal

  const MAX_ID: int := 2147483647

  /** The order in which a cursor visits keys. */
  predicate Before(a: string, b: string) {
    if b == [] then false
    else if a == [] then true
    else a[0] < b[0] || (a[0] == b[0] && Before(a[1..], b[1..]))
  }

  lemma {:induction false} BeforeIrreflexive(a: string)
    ensures !Before(a, a)
  {
    if a != [] {
      BeforeIrreflexive(a[1..]);
    }
  }

  lemma {:induction false} BeforeTransitive(a: string, b: string, c: string)
    requires Before(a, b) && Before(b, c)
    ensures Before(a, c)
  {
    if a != [] && a[0] == b[0] == c[0] {
      BeforeTransitive(a[1..], b[1..], c[1..]);
    }
  }

  lemma {:induction false} BeforeTotal(a: string, b: string)
    ensures Before(a, b) || a == b || Before(b, a)
  {
    if a != [] && b != [] && a[0] == b[0] {
      BeforeTotal(a[1..], b[1..]);
      assert a == [a[0]] + a[1..] && b == [b[0]] + b[1..];
    }
  }

  lemma {:induction false} BeforeAppend(a: string, b: string, x: string, y: string)
    requires |a| == |b| && Before(a, b)
    ensures Before(a + x, b + y)
  {
    if a[0] == b[0] {
      BeforeAppend(a[1..], b[1..], x, y);
      assert (a + x)[1..] == a[1..] + x && (b + y)[1..] == b[1..] + y;
    }
  }

  lemma {:induction false} BeforeCommonPrefix(p: string, x: string, y: string)
    requires Before(x, y)
    ensures Before(p + x, p + y)
  {
    if p == [] {
      assert p + x == x && p + y == y;
    } else {
      BeforeCommonPrefix(p[1..], x, y);
      assert (p + x)[1..] == p[1..] + x && (p + y)[1..] == p[1..] + y;
    }
  }

  lemma {:induction false} FixedOrder(a: nat, b: nat, w: nat)
    requires a < b < Pow10(w)
    ensures Before(Fixed(a, w), Fixed(b, w))
  {
    if a / 10 < b / 10 {
      FixedOrder(a / 10, b / 10, w - 1);
      BeforeAppend(Fixed(a / 10, w - 1), Fixed(b / 10, w - 1), [Digit(a % 10)], [Digit(b % 10)]);
    } else {
      BeforeCommonPrefix(Fixed(a / 10, w - 1), [Digit(a % 10)], [Digit(b % 10)]);
    }
  }

  /** The key of an integer id: at least ten characters, a sign counting as one. */
  function Key(id: int): string {
    if id >= 0 then PadTo(id, 10) else "-" + PadTo(-id, 9)
  }

  const KEY_LIMIT: int := 10000000000

  /** A key of an id from zero up to ten digits is ten digits that read as the id; with more digits it is
      the plain numeral, and the sign of a negative id takes one of the ten places. */
  lemma KeyReads(id: int)
    ensures 0 <= id < KEY_LIMIT ==> |Key(id)| == 10 && AllDigits(Key(id)) && Parse(Key(id)) == id
    ensures id >= KEY_LIMIT ==> Key(id) == Itoa(id)
    ensures -1000000000 < id < 0 ==> |Key(id)| == 10 && Key(id)[0] == '-'
    ensures -1000000000 < id < 0 ==> AllDigits(Key(id)[1..]) && Parse(Key(id)[1..]) == -id
  {
    assert Pow10(10) == KEY_LIMIT && Pow10(9) == 1000000000 by {
      assert Pow10(5) == 100000;
      assert Pow10(7) == 100 * Pow10(5);
      assert Pow10(9) == 100 * Pow10(7);
    }
    if 0 <= id < KEY_LIMIT {
      PadToIsFixed(id, 10);
      ParseFixed(id, 10);
    } else if id >= KEY_LIMIT {
      ItoaLong(id, 10);
    } else if id > -1000000000 {
      PadToIsFixed(-id, 9);
      ParseFixed(-id, 9);
      assert Key(id)[1..] == PadTo(-id, 9);
    }
  }

  /** Below ten thousand million, byte order of keys is the order of ids, and keys are unique. */
  lemma KeyOrder(a: int, b: int)
    requires 0 <= a < KEY_LIMIT && 0 <= b < KEY_LIMIT
    ensures Before(Key(a), Key(b)) <==> a < b
    ensures Key(a) == Key(b) <==> a == b
  {
    assert Pow10(10) == KEY_LIMIT by {
      assert Pow10(5) == 100000;
      assert Pow10(7) == 100 * Pow10(5);
      assert Pow10(9) == 100 * Pow10(7);
    }
    PadToIsFixed(a, 10);
    PadToIsFixed(b, 10);
    if a < b {
      FixedOrder(a, b, 10);
    } else if b < a {
      FixedOrder(b, a, 10);
    }
    BeforeIrreflexive(Key(a));
    if Before(Key(a), Key(b)) && Before(Key(b), Key(a)) {
      BeforeTransitive(Key(a), Key(b), Key(a));
    }
    BeforeIrreflexive(Key(b));
  }
}
