/** Table sizes are powers of two, so that masking a hash value is taking it modulo the size. */
module TableSizes {

  function Pow2(e: nat): (n: nat)
    ensures n >= 1
  {
    if e == 0 then 1 else 2 * Pow2(e - 1)
  }

  /** The size of a table: a power of two from 8 up to the largest an unsigned int holds. */
  ghost predicate IsSize(n: nat) { exists e: nat :: 3 <= e <= 31 && n == Pow2(e) }

  const LARGEST := 0x8000_0000

  /** The bitwise `and` of two unsigned integers. */
  function BitAnd(a: nat, b: nat): nat {
    if a == 0 || b == 0 then 0 else 2 * BitAnd(a / 2, b / 2) + (a % 2) * (b % 2)
  }

  lemma {:induction false} AndMask(h: nat, e: nat)
    ensures BitAnd(h, Pow2(e) - 1) == h % Pow2(e)
  {
    if h > 0 && e > 0 {
      AndMask(h / 2, e - 1);
      var p := Pow2(e - 1);
      assert (2 * p - 1) / 2 == p - 1 && (2 * p - 1) % 2 == 1;
      HalfMod(h, p);
    } else if e > 0 {
      assert 0 % Pow2(e) == 0;
    }
  }

  lemma HalfMod(h: nat, p: nat)
    requires p >= 1
    ensures h % (2 * p) == 2 * ((h / 2) % p) + h % 2
  {
    var q, r := (h / 2) / p, (h / 2) % p;
    assert h / 2 == q * p + r;
    assert h == 2 * (h / 2) + h % 2;
    assert h == q * (2 * p) + (2 * r + h % 2) by {
      assert 2 * (q * p) == q * (2 * p);
    }
    ModUnique(h, 2 * p, q, 2 * r + h % 2);
  }

  lemma ModUnique(a: nat, b: nat, q: nat, r: nat)
    requires b > 0 && a == q * b + r && r < b
    ensures a % b == r
  {
    var d := a / b - q;
    assert a == (a / b) * b + a % b;
    assert d * b == (a / b) * b - q * b;
    Multiple(d, b);
  }

  lemma Multiple(d: int, b: int)
    requires b > 0
    ensures d >= 1 ==> d * b >= b
    ensures d <= -1 ==> d * b <= -b
  {
    if d >= 1 {
      assert (d - 1) * b >= 0;
    } else if d <= -1 {
      assert (-d - 1) * b >= 0;
    }
  }

  lemma MaskIsModulo(h: nat, size: nat)
    requires IsSize(size)
    ensures BitAnd(h, size - 1) == h % size
  {
    var e: nat :| 3 <= e <= 31 && size == Pow2(e);
    AndMask(h, e);
  }

  lemma SizeEight()
    ensures Pow2(3) == 8 && IsSize(8)
  {
    assert Pow2(3) == 8;
  }

  lemma {:induction false} Pow2Grows(a: nat, b: nat)
    requires a <= b
    ensures Pow2(a) <= Pow2(b)
  {
    if a < b {
      Pow2Grows(a, b - 1);
    }
  }

  lemma Pow31()
    ensures Pow2(31) == LARGEST
  {
    assert Pow2(8) == 256;
    assert Pow2(16) == 0x1_0000;
    assert Pow2(24) == 0x100_0000;
  }

  /** A size below the largest one can be doubled. */
  lemma Doubles(size: nat)
    requires IsSize(size)
    ensures 8 <= size <= LARGEST && (size < LARGEST ==> IsSize(2 * size))
  {
    var e: nat :| 3 <= e <= 31 && size == Pow2(e);
    SizeEight();
    Pow31();
    Pow2Grows(3, e);
    Pow2Grows(e, 31);
    if size < LARGEST {
      assert Pow2(e + 1) == 2 * size;
    }
  }
}
