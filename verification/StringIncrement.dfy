/** Perl-style string increment (zend_operators.c, increment_string): an odometer with a radix for every character. */
module StringIncrement {

  datatype Class = Lower | Upper | Numeric | Other

  function ClassOf(c: char): Class {
    if 'a' <= c <= 'z' then Lower else if 'A' <= c <= 'Z' then Upper else if '0' <= c <= '9' then Numeric else Other
  }

  /** The lowest character of a class. */
  function Zero(k: Class): char
    requires !k.Other?
  {
    match k case Lower => 'a' case Upper => 'A' case Numeric => '0'
  }

  function Radix(k: Class): nat { if k.Numeric? then 10 else 26 }

  function Digit(c: char): (d: nat)
    requires !ClassOf(c).Other?
    ensures d < Radix(ClassOf(c))
  {
    c as int - Zero(ClassOf(c)) as int
  }

  /** What is put in front when the carry runs off the left end. */
  function Lead(k: Class): char
    requires !k.Other?
  {
    if k.Numeric? then '1' else Zero(k)
  }

  predicate Alphanumeric(s: string) { forall i :: 0 <= i < |s| ==> !ClassOf(s[i]).Other? }

  function Classes(s: string): (ks: seq<Class>)
    ensures |ks| == |s| && forall i :: 0 <= i < |s| ==> ks[i] == ClassOf(s[i])
  {
    seq(|s|, i requires 0 <= i < |s| => ClassOf(s[i]))
  }

  /** The number of strings with these classes. */
  function Size(ks: seq<Class>): (n: nat)
    ensures n >= 1
  {
    if ks == [] then 1 else Size(ks[..|ks| - 1]) * Radix(ks[|ks| - 1])
  }

  /** The place of an alphanumeric string among those with the same classes. */
  function Place(s: string): nat
    requires Alphanumeric(s)
  {
    if s == "" then 0
    else Place(s[..|s| - 1]) * Radix(ClassOf(s[|s| - 1])) + Digit(s[|s| - 1])
  }

  /** One tick from the right end, and whether it carries over the left end. */
  function Tick(s: string): (string, bool) {
    if s == "" then ("", true)
    else
      var c := s[|s| - 1];
      var k := ClassOf(c);
      if k.Other? then (s, false)
      else if Digit(c) + 1 < Radix(k) then (s[..|s| - 1] + [c + 1 as char], false)
      else
        var (t, carry) := Tick(s[..|s| - 1]);
        (t + [Zero(k)], carry)
  }

  function Incremented(s: string): string {
    if s == "" then "1"
    else
      var (t, carry) := Tick(s);
      if carry && !ClassOf(s[0]).Other? then [Lead(ClassOf(s[0]))] + t else t
  }

  /** A carry over the left end means that every character was the last of its class. */
  lemma {:induction false} CarryMeans(s: string)
    ensures |Tick(s).0| == |s|
    ensures Tick(s).1 ==> Alphanumeric(s)
  {
    if s != "" {
      CarryMeans(s[..|s| - 1]);
      assert s == s[..|s| - 1] + [s[|s| - 1]];
    }
  }

  /** The tick has come down to position pos, leaving rest behind. */
  ghost predicate Underway(was: string, pos: int, rest: string) {
    -1 <= pos < |was| && Tick(was) == (Tick(was[..pos + 1]).0 + rest, Tick(was[..pos + 1]).1)
  }

  lemma Start(was: string)
    requires was != ""
    ensures Underway(was, |was| - 1, "")
  {
    assert was[..|was|] == was;
    assert Tick(was).0 + "" == Tick(was).0;
  }

  lemma TickOn(p: string, c: char)
    ensures var k := ClassOf(c);
      Tick(p + [c]) ==
        if k.Other? then (p + [c], false)
        else if Digit(c) + 1 < Radix(k) then (p + [c + 1 as char], false)
        else (Tick(p).0 + [Zero(k)], Tick(p).1)
  {
    assert (p + [c])[..|p|] == p;
  }

  /** One round of the loop. */
  lemma Round(was: string, pos: nat, rest: string)
    requires pos < |was| && Underway(was, pos, rest)
    ensures var c := was[pos];
      if ClassOf(c).Other? then Tick(was) == (was[..pos] + [c] + rest, false)
      else if Digit(c) + 1 < Radix(ClassOf(c)) then Tick(was) == (was[..pos] + [c + 1 as char] + rest, false)
      else Underway(was, pos - 1, [Zero(ClassOf(c))] + rest)
  {
    hide Tick;
    var c := was[pos];
    assert was[..pos + 1] == was[..pos] + [c];
    TickOn(was[..pos], c);
    var t := Tick(was[..pos]).0;
    if !ClassOf(c).Other? {
      assert (t + [Zero(ClassOf(c))]) + rest == t + ([Zero(ClassOf(c))] + rest);
    }
    assert pos - 1 + 1 == pos;
  }

  /** increment_string: the buffer is rewritten in place; only a carry over the left end takes a new one. */
  method IncrementString(s: array<char>) returns (t: array<char>)
    modifies s
    ensures t[..] == Incremented(old(s[..]))
    ensures t == s || fresh(t)
    ensures t == s <==> s.Length > 0 && !Tick(old(s[..])).1
  {
    hide Tick, Underway;
    ghost var was := s[..];
    CarryMeans(was);
    if s.Length == 0 {
      t := new char[1](_ => '1');
      return;
    }
    var carry := false;
    var pos := s.Length - 1;
    var last := Other;
    Start(was);
    assert s[pos + 1..] == "";
    while pos >= 0
      invariant -1 <= pos < s.Length && s[..pos + 1] == was[..pos + 1] && Underway(was, pos, s[pos + 1..])
      invariant pos < s.Length - 1 ==> carry && last == ClassOf(was[pos + 1]) && !last.Other?
      decreases pos
    {
      var ch := s[pos];
      assert ch == was[pos];
      ghost var rest := s[pos + 1..];
      Round(was, pos, rest);
      if ClassOf(ch).Other? {
        carry := false;
        assert s[..] == was[..pos] + [ch] + rest;
        break;
      }
      last := ClassOf(ch);
      if Digit(ch) + 1 == Radix(last) {
        s[pos] := Zero(last);
        carry := true;
      } else {
        s[pos] := s[pos] + 1 as char;
        carry := false;
        assert s[..] == was[..pos] + [ch + 1 as char] + rest;
        break;
      }
      assert s[pos..] == [s[pos]] + rest;
      pos := pos - 1;
    }
    t := s;
    if carry {
      Finish(was, s[..]);
      t := new char[s.Length + 1](i requires 0 <= i <= s.Length reads s => if i == 0 then Lead(last) else s[i - 1]);
      assert t[..] == [Lead(last)] + s[..];
    }
  }

  lemma Finish(was: string, rest: string)
    requires Underway(was, -1, rest)
    ensures Tick(was) == (rest, true)
  {
    assert was[..0] == "" && "" + rest == rest;
  }

  // What a tick does to the place

  lemma TickStep(s: string)
    requires s != "" && Alphanumeric(s)
    ensures var p := s[..|s| - 1]; var k := ClassOf(s[|s| - 1]);
      Alphanumeric(p) && Classes(p) == Classes(s)[..|s| - 1] && Size(Classes(s)) == Size(Classes(p)) * Radix(k)
  {
  }

  lemma Distribute(a: int, b: int, r: int)
    ensures (a + b) * r == a * r + b * r
  {
  }

  lemma AtLeast(e: nat, r: nat)
    ensures e * r >= 0 && (e >= 1 ==> e * r >= r)
  {
    if e >= 1 {
      Distribute(e - 1, 1, r);
    }
  }

  lemma Carrying(p: nat, size: nat, d: nat, r: nat)
    requires p < size && d < r
    ensures p * r + d < size * r
    ensures d + 1 == r ==> (p * r + d + 1 == (p + 1) * r) && (p * r + d + 1 == size * r <==> p + 1 == size)
    ensures d + 1 < r ==> p * r + d + 1 < size * r
  {
    var e := size - p - 1;
    Distribute(p, 1, r);
    Distribute(p + 1, e, r);
    AtLeast(e, r);
  }

  /** A tick keeps the class of every character and moves to the next place, from the last back to the first. */
  lemma {:induction false} TickPlace(s: string)
    requires Alphanumeric(s)
    ensures var (t, carry) := Tick(s);
      Alphanumeric(t) && Classes(t) == Classes(s) && Place(s) < Size(Classes(s)) &&
      (carry <==> Place(s) + 1 == Size(Classes(s))) && Place(t) == if carry then 0 else Place(s) + 1
  {
    if s != "" {
      var p, c := s[..|s| - 1], s[|s| - 1];
      var k := ClassOf(c);
      var (t, carry) := Tick(s);
      TickStep(s);
      TickPlace(p);
      CarryMeans(p);
      Carrying(Place(p), Size(Classes(p)), Digit(c), Radix(k));
      var q := if Digit(c) + 1 < Radix(k) then p else Tick(p).0;
      assert t[..|t| - 1] == q;
      assert |t| == |s| && ClassOf(t[|t| - 1]) == k;
      forall i | 0 <= i < |s|
        ensures ClassOf(t[i]) == ClassOf(s[i])
      {
        if i < |s| - 1 {
          assert t[i] == q[i] && ClassOf(q[i]) == Classes(q)[i] && Classes(p)[i] == ClassOf(p[i]);
        }
      }
      assert Classes(t) == Classes(s);
    }
  }

  /**
   The successor of a non-empty alphanumeric string. While there is a next place, the classes stay and the place
   rises by one; after the last place the string grows by one character, which is 1, a or A by the class of the leftmost,
   and goes on from the first place.
   */
  lemma Successor(s: string)
    requires s != "" && Alphanumeric(s)
    ensures Place(s) + 1 < Size(Classes(s)) ==>
      var t := Incremented(s); Alphanumeric(t) && Classes(t) == Classes(s) && Place(t) == Place(s) + 1
    ensures Place(s) + 1 >= Size(Classes(s)) ==>
      var t := Incremented(s);
      Place(s) + 1 == Size(Classes(s)) && |t| == |s| + 1 &&
      t[0] == (if '0' <= s[0] <= '9' then '1' else if 'a' <= s[0] <= 'z' then 'a' else 'A') &&
      Alphanumeric(t[1..]) && Classes(t[1..]) == Classes(s) && Place(t[1..]) == 0
  {
    TickPlace(s);
    var (t, carry) := Tick(s);
    if carry {
      assert Incremented(s)[1..] == t;
    }
  }

  lemma {:induction false} TickConcat(p: string, q: string)
    requires p != "" && ClassOf(p[|p| - 1]).Other? && Alphanumeric(q)
    ensures Tick(p + q) == (p + Tick(q).0, false)
  {
    if q == "" {
      assert p + q == p;
    } else {
      var s := p + q;
      assert s[..|s| - 1] == p + q[..|q| - 1];
      TickConcat(p, q[..|q| - 1]);
      assert Tick(s).0 == p + Tick(q).0;
    }
  }

  /**
   Behind a character that is neither letter nor digit, only what follows it ticks, and a carry is lost: the string
   moves to a next place exactly when what follows is not already at its last.
   */
  lemma CarryLost(p: string, q: string)
    requires p != "" && ClassOf(p[|p| - 1]).Other? && Alphanumeric(q)
    ensures Incremented(p + q) == p + Tick(q).0
    ensures Place(q) < Size(Classes(q)) && Alphanumeric(Tick(q).0)
    ensures Place(Tick(q).0) == Place(q) + 1 <==> Place(q) + 1 < Size(Classes(q))
  {
    TickConcat(p, q);
    TickPlace(q);
  }

  // Strings of one class of letters

  predicate OfClass(s: string, k: Class) { forall i :: 0 <= i < |s| ==> ClassOf(s[i]) == k }

  /** The number a string of letters stands for when a is 1, z is 26 and aa is 27. */
  function Bijective(s: string): nat
    requires Alphanumeric(s)
  {
    if s == "" then 0 else Bijective(s[..|s| - 1]) * 26 + Digit(s[|s| - 1]) + 1
  }

  lemma {:induction false} TickBijective(s: string, k: Class)
    requires OfClass(s, k) && (k.Lower? || k.Upper?)
    ensures var (t, carry) := Tick(s);
      OfClass(t, k) && |t| == |s| && (if carry then Bijective([Zero(k)] + t) else Bijective(t)) == Bijective(s) + 1
  {
    if s == "" {
      assert [Zero(k)] + Tick(s).0 == [Zero(k)] && ([Zero(k)][..0]) == "";
    } else {
      var p, c := s[..|s| - 1], s[|s| - 1];
      TickBijective(p, k);
      var (t, carry) := Tick(s);
      if Digit(c) + 1 < Radix(k) {
        assert t[..|t| - 1] == p;
      } else {
        assert t[..|t| - 1] == Tick(p).0;
        var u := [Zero(k)] + t;
        assert u[..|u| - 1] == [Zero(k)] + Tick(p).0;
      }
    }
  }

  /** On letters of one case the increment is the successor in bijective base 26. */
  lemma LettersCount(s: string, k: Class)
    requires s != "" && OfClass(s, k) && (k.Lower? || k.Upper?)
    ensures OfClass(Incremented(s), k) && Bijective(Incremented(s)) == Bijective(s) + 1
  {
    TickBijective(s, k);
  }

  /** The empty string counts as nothing. */
  lemma EmptyCounts()
    ensures Incremented("") == "1"
  {
  }
}

/** The increment on decimal numerals. */
module IncrementedNumerals {
  import opened NumericKeys
  import opened StringIncrement

  /** On decimal numerals of any length, leading zeros included, the increment adds one. */
  lemma DigitsCount(s: string)
    requires s != "" && AllDigits(s)
    ensures AllDigits(Incremented(s)) && Value(Incremented(s)) == Value(s) + 1
  {
    TickDigits(s);
  }

  lemma {:induction false} TickDigits(s: string)
    requires AllDigits(s)
    ensures var (t, carry) := Tick(s);
      AllDigits(t) && |t| == |s| && AllDigits("1" + t) && (if carry then Value("1" + t) else Value(t)) == Value(s) + 1
  {
    if s == "" {
      assert "1" + Tick(s).0 == "1" && "1"[..0] == "";
    } else {
      var p, c := s[..|s| - 1], s[|s| - 1];
      TickDigits(p);
      var (t, carry) := Tick(s);
      if Digit(c) + 1 < Radix(ClassOf(c)) {
        assert t[..|t| - 1] == p;
      } else {
        assert t[..|t| - 1] == Tick(p).0;
        var u := "1" + t;
        assert u[..|u| - 1] == "1" + Tick(p).0;
      }
    }
  }
}
