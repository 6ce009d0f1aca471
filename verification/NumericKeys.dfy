/** HANDLE_NUMERIC: string keys that are decimal numerals are stored as integer keys. */
module NumericKeys {
  import opened Common
  import opened OrderedMap

  /** The limits of a 32-bit long and unsigned long. */
  const LONG_MAX := 0x7FFF_FFFF
  const ULONG_RANGE := 0x1_0000_0000

  predicate IsDigit(c: char) { '0' <= c <= '9' }

  predicate AllDigits(s: string) { forall i :: 0 <= i < |s| ==> IsDigit(s[i]) }

  /** The number a string of digits denotes. */
  function Value(s: string): nat
    requires AllDigits(s)
  {
    if s == "" then 0 else Value(s[..|s| - 1]) * 10 + (s[|s| - 1] as int - '0' as int)
  }

  /** The decimal text of a number. */
  function Decimal(n: nat): (s: string)
    ensures |s| > 0
  {
    if n < 10 then [DigitChar(n)] else Decimal(n / 10) + [DigitChar(n % 10)]
  }

  function DigitChar(d: nat): (c: char)
    requires d < 10
    ensures IsDigit(c) && c as int - '0' as int == d
  {
    ('0' as int + d) as char
  }

  /** Digits without a superfluous leading zero. */
  predicate Canonical(s: string) { |s| > 0 && AllDigits(s) && (s[0] == '0' ==> |s| == 1) }

  /** The integer a key, given with its terminating NUL, is converted to. */
  function Numeral(key: string): Option<nat> {
    if |key| > 0 && key[|key| - 1] == '\0' && Canonical(key[..|key| - 1]) && Value(key[..|key| - 1]) < LONG_MAX
    then Some(Value(key[..|key| - 1]))
    else None
  }

  /** strtol(key, NULL, 10) on a string of digits: it saturates. */
  function Strtol(digits: string): nat
    requires AllDigits(digits)
  {
    if Value(digits) < LONG_MAX then Value(digits) else LONG_MAX
  }

  /** The macro, with tmp as an index into key. */
  method HandleNumeric(key: string) returns (idx: Option<nat>)
    ensures idx == Numeral(key)
  {
    idx := None;
    if |key| == 0 || !IsDigit(key[0]) {
      return;
    }
    var end := |key| - 1;
    if key[0] == '0' && |key| > 2 {
      return;
    }
    var tmp := 1;
    while tmp < end
      invariant 1 <= tmp && (end >= 1 ==> tmp <= end)
      invariant forall i :: 0 <= i < tmp && i < |key| ==> IsDigit(key[i])
    {
      if !IsDigit(key[tmp]) {
        break;
      }
      tmp := tmp + 1;
    }
    if tmp == end && key[tmp] == '\0' {
      var n := Strtol(key[..end]);
      if n != LONG_MAX {
        idx := Some(n);
      }
    }
  }

  /** The key an element is stored under. */
  function StoredKey(hash: string -> nat, key: string): (nat, string) {
    match Numeral(key)
    case Some(n) => (n, "")
    case None => (hash(key), key)
  }

  lemma {:induction false} DecimalDigits(n: nat)
    ensures Canonical(Decimal(n)) && Value(Decimal(n)) == n && (n > 0 ==> Decimal(n)[0] != '0')
  {
    var s := Decimal(n);
    if n < 10 {
      assert s[..|s| - 1] == "";
    } else {
      DecimalDigits(n / 10);
      assert s[..|s| - 1] == Decimal(n / 10);
      assert s[0] == Decimal(n / 10)[0];
    }
  }

  lemma {:induction false} CanonicalIsDecimal(s: string)
    requires Canonical(s)
    ensures Decimal(Value(s)) == s && (s[0] != '0' ==> Value(s) > 0)
  {
    var t := s[..|s| - 1];
    if t == "" {
      assert Value(s) == s[0] as int - '0' as int;
    } else {
      assert t[0] == s[0];
      CanonicalIsDecimal(t);
      assert s == t + [s[|s| - 1]];
    }
  }

  /** The decimal text of every number below LONG_MAX reaches that number. */
  lemma DecimalReaches(n: nat)
    requires n < LONG_MAX
    ensures Numeral(Decimal(n) + "\0") == Some(n)
  {
    DecimalDigits(n);
    assert (Decimal(n) + "\0")[..|Decimal(n) + "\0"| - 1] == Decimal(n);
  }

  /** Nothing but the decimal texts of those numbers is converted. */
  lemma NumeralOnly(key: string)
    ensures Numeral(key).Some? ==> Numeral(key).value < LONG_MAX && key == Decimal(Numeral(key).value) + "\0"
  {
    if Numeral(key).Some? {
      var s := key[..|key| - 1];
      CanonicalIsDecimal(s);
      assert key == s + "\0";
    }
  }

  /** Distinct keys are never stored under the same key. */
  lemma StoredKeyInjective(hash: string -> nat, key1: string, key2: string)
    requires |key1| > 0 && |key2| > 0 && StoredKey(hash, key1) == StoredKey(hash, key2)
    ensures key1 == key2
  {
    if Numeral(key1).Some? {
      CanonicalIsDecimal(key1[..|key1| - 1]);
      CanonicalIsDecimal(key2[..|key2| - 1]);
      assert key1 == key1[..|key1| - 1] + "\0";
      assert key2 == key2[..|key2| - 1] + "\0";
    }
  }
}
