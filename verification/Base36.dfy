/** Long division of a byte string in place, and the base 36 rendering built from it (cfn/naming.go). */
module Base36 {

  newtype byte = x: int | 0 <= x < 256

  /** What the bytes denote, most significant first. */
  function Number(b: seq<byte>): nat {
    if b == [] then 0 else Number(b[..|b| - 1]) * 256 + b[|b| - 1] as int
  }

  const Digits: string := "0123456789abcdefghijklmnopqrstuvwxyz"

  predicate IsDigit(c: char) {
    '0' <= c <= '9' || 'a' <= c <= 'z'
  }

  function DigitValue(c: char): (v: nat)
    requires IsDigit(c)
    ensures v < 36
  {
    if c <= '9' then c as int - '0' as int else c as int - 'a' as int + 10
  }

  predicate AllDigits(s: string) {
    forall k :: 0 <= k < |s| ==> IsDigit(s[k])
  }

  /** What a base 36 string denotes, most significant digit first. */
  function Value(s: string): nat
    requires AllDigits(s)
  {
    if s == [] then 0 else Value(s[..|s| - 1]) * 36 + DigitValue(s[|s| - 1])
  }

  /** No digit to spare: a leading zero only in "0" itself. */
  predicate Canonical(s: string) {
    s != [] && AllDigits(s) && (s[0] == '0' ==> |s| == 1)
  }

  function Power(e: nat): (p: nat)
    ensures p > 0
  {
    if e == 0 then 1 else 36 * Power(e - 1)
  }

  /** `n` with `e` zero digits behind it. */
  function Shifted(n: nat, e: nat): nat
    decreases e
  {
    if e == 0 then n else Shifted(n * 36, e - 1)
  }

  lemma {:induction false} ShiftAdds(a: nat, b: nat, e: nat)
    ensures Shifted(a + b, e) == Shifted(a, e) + Shifted(b, e)
    decreases e
  {
    if e > 0 {
      ShiftAdds(a * 36, b * 36, e - 1);
    }
  }

  lemma {:induction false} ShiftTimes36(a: nat, e: nat)
    ensures Shifted(a, e + 1) == Shifted(a, e) * 36
    decreases e
  {
    if e > 0 {
      ShiftTimes36(a * 36, e - 1);
    }
  }

  lemma {:induction false} ShiftedZero(e: nat)
    ensures Shifted(0, e) == 0
  {
    if e > 0 {
      ShiftedZero(e - 1);
    }
  }

  lemma DigitsMatch(v: nat)
    requires v < 36
    ensures IsDigit(Digits[v]) && DigitValue(Digits[v]) == v
  {
    assert v < 10 ==> Digits[v] == '0' + v as char;
    assert v >= 10 ==> Digits[v] == 'a' + (v - 10) as char;
  }

  lemma NumberExtends(b: seq<byte>, x: byte)
    ensures Number(b + [x]) == Number(b) * 256 + x as int
  {
    assert (b + [x])[..|b|] == b;
  }

  lemma {:induction false} ValueOfLeading(c: char, s: string)
    requires IsDigit(c) && AllDigits(s)
    ensures AllDigits([c] + s)
    ensures Value([c] + s) == Shifted(DigitValue(c), |s|) + Value(s)
  {
    if s != [] {
      var t, d := s[..|s| - 1], s[|s| - 1];
      ValueOfLeading(c, t);
      assert ([c] + s)[..|s|] == [c] + t && ([c] + s)[|s|] == d;
      ShiftTimes36(DigitValue(c), |t|);
      assert Value([c] + s) == Value([c] + t) * 36 + DigitValue(d);
      assert Value(s) == Value(t) * 36 + DigitValue(d);
    } else {
      assert [c] + s == [c] && [c][..0] == [];
    }
  }

  lemma {:induction false} ValueBelowPower(s: string)
    requires AllDigits(s)
    ensures Value(s) < Power(|s|)
  {
    if s != [] {
      ValueBelowPower(s[..|s| - 1]);
    }
  }

  lemma {:induction false} LeadingDigitCounts(s: string)
    requires s != [] && AllDigits(s) && s[0] != '0'
    ensures Value(s) >= Power(|s| - 1)
  {
    if |s| > 1 {
      LeadingDigitCounts(s[..|s| - 1]);
    } else {
      assert s[..0] == [];
    }
  }

  /** A canonical string is the only one for its value. */
  lemma {:induction false} CanonicalUnique(s: string, t: string)
    requires Canonical(s) && Canonical(t) && Value(s) == Value(t)
    ensures s == t
  {
    if |s| == 1 && |t| == 1 {
      assert s[..0] == [] && t[..0] == [];
      SameDigit(s[0], t[0]);
    } else if |s| == 1 || |t| == 1 {
      var short, long := if |s| == 1 then s else t, if |s| == 1 then t else s;
      PowerGrows(1, |long| - 1);
      ValueBelowPower(short);
      LeadingDigitCounts(long);
    } else {
      var p, q := s[..|s| - 1], t[..|t| - 1];
      LeadingDigitCounts(p);
      LeadingDigitCounts(q);
      var x, y := DigitValue(s[|s| - 1]), DigitValue(t[|t| - 1]);
      assert Value(p) * 36 + x == Value(q) * 36 + y;
      assert Value(p) == Value(q) && x == y;
      SameDigit(s[|s| - 1], t[|t| - 1]);
      CanonicalUnique(p, q);
      assert s == p + [s[|s| - 1]] && t == q + [t[|t| - 1]];
    }
  }

  lemma SameDigit(c: char, d: char)
    requires IsDigit(c) && IsDigit(d) && DigitValue(c) == DigitValue(d)
    ensures c == d
  {}

  lemma {:induction false} PowerGrows(a: nat, b: nat)
    requires a <= b
    ensures Power(a) <= Power(b)
    decreases b - a
  {
    if a < b {
      PowerGrows(a, b - 1);
    }
  }

  /** The number of digits says how large the number is: what the bucket suffix's slice rests on. */
  lemma LongEnoughIff(s: string, len: nat)
    requires Canonical(s) && len > 0
    ensures |s| > len <==> Value(s) >= Power(len)
  {
    ValueBelowPower(s);
    if |s| > len {
      LeadingDigitCounts(s);
      PowerGrows(len, |s| - 1);
    } else {
      PowerGrows(|s|, len);
    }
  }

  /** One byte of the long division: the quotient digit fits a byte. */
  lemma DivisionStep(before: nat, done: nat, rem: nat, digit: nat)
    requires before == done * 36 + rem && rem < 36 && digit < 256
    ensures (rem * 256 + digit) / 36 < 256
    ensures before * 256 + digit == (done * 256 + (rem * 256 + digit) / 36) * 36 + (rem * 256 + digit) % 36
  {}

  /** One byte's share of the quotient: it always fits a byte. */
  function Share(rem: nat, x: byte): byte
    requires rem < 36
  {
    DivisionStep(rem, 0, rem, x as int);
    ((rem * 256 + x as int) / 36) as byte
  }

  function Rest(rem: nat, x: byte): (r: nat)
    ensures r < 36
  {
    (rem * 256 + x as int) % 36
  }

  lemma ByteDivided(was: seq<byte>, done: seq<byte>, rem: nat, x: byte)
    requires Number(was) == Number(done) * 36 + rem && rem < 36
    ensures Number(was + [x]) == Number(done + [Share(rem, x)]) * 36 + Rest(rem, x)
    ensures Number(done + [Share(rem, x)]) == 0 <==> Number(done) == 0 && Share(rem, x) == 0
  {
    DivisionStep(Number(was), Number(done), rem, x as int);
    NumberExtends(was, x);
    NumberExtends(done, Share(rem, x));
  }

  /** The inner loop: divides the bytes by 36 where they lie. */
  method DivideInPlace(n: array<byte>) returns (rem: nat, zero: bool)
    modifies n
    ensures Number(old(n[..])) == Number(n[..]) * 36 + rem && rem < 36
    ensures zero <==> Number(n[..]) == 0
  {
    zero, rem := true, 0;
    ghost var was, done := n[..], [];
    hide Number, Share, Rest;
    NumberOfNone();
    for i := 0 to n.Length
      invariant |done| == i && rem < 36
      invariant |was| == n.Length
      invariant forall k :: 0 <= k < i ==> n[k] == done[k]
      invariant forall k :: i <= k < n.Length ==> n[k] == was[k]
      invariant Number(was[..i]) == Number(done) * 36 + rem
      invariant zero <==> Number(done) == 0
    {
      assert was[..i + 1] == was[..i] + [was[i]];
      ByteDivided(was[..i], done, rem, n[i]);
      var rest := Rest(rem, n[i]);
      n[i] := Share(rem, n[i]);
      rem := rest;
      if n[i] != 0 {
        zero := false;
      }
      done := done + [n[i]];
    }
    assert was[..n.Length] == was;
    assert n[..] == done;
  }

  lemma NumberOfNone()
    ensures Number([]) == 0
  {}

  function Reversed(s: string): (r: string)
    ensures |r| == |s|
    ensures forall k :: 0 <= k < |s| ==> r[k] == s[|s| - 1 - k]
  {
    if s == [] then [] else Reversed(s[1..]) + [s[0]]
  }

  /** The closing swap loop. */
  method Reverse(given: string) returns (out: string)
    ensures out == Reversed(given)
  {
    out := given;
    var i, j := 0, |out| - 1;
    while i < j
      invariant 0 <= i && i + j == |given| - 1 && |out| == |given| && i <= j + 2
      invariant forall k :: 0 <= k < i || j < k < |given| ==> out[k] == given[|given| - 1 - k]
      invariant forall k :: i <= k <= j ==> out[k] == given[k]
    {
      out := out[i := out[j]][j := out[i]];
      i, j := i + 1, j - 1;
    }
  }

  /** One more digit in front of what has been written. */
  lemma Appended(n: nat, quotient: nat, rem: nat, out: string)
    requires AllDigits(out) && rem < 36 && n == quotient * 36 + rem
    ensures AllDigits(out + [Digits[rem]])
    ensures Shifted(n, |out|) + Value(Reversed(out))
         == Shifted(quotient, |out| + 1) + Value(Reversed(out + [Digits[rem]]))
  {
    DigitsMatch(rem);
    assert Reversed(out + [Digits[rem]]) == [Digits[rem]] + Reversed(out);
    ValueOfLeading(Digits[rem], Reversed(out));
    ShiftAdds(quotient * 36, rem, |out|);
  }

  /** The outer loop: digits, least significant first. */
  method Digitise(n: array<byte>) returns (out: string)
    modifies n
    ensures out != [] && AllDigits(out) && Value(Reversed(out)) == Number(old(n[..]))
    ensures |out| > 1 ==> out[|out| - 1] != '0'
  {
    ghost var whole := Number(n[..]);
    out := [];
    var zero := false;
    hide Number, Value, Shifted, Reversed;
    while !zero
      invariant AllDigits(out)
      invariant whole == Shifted(Number(n[..]), |out|) + Value(Reversed(out))
      invariant zero ==> Number(n[..]) == 0 && out != []
      invariant !zero && out != [] ==> Number(n[..]) > 0
      invariant zero && |out| > 1 ==> out[|out| - 1] != '0'
      decreases !zero, Number(n[..])
    {
      ghost var before := Number(n[..]);
      var rem;
      rem, zero := DivideInPlace(n);
      Appended(before, Number(n[..]), rem, out);
      DigitsMatch(rem);
      out := out + [Digits[rem]];
    }
    ShiftedZero(|out|);
  }

  /** `base36`: the digits denote what the bytes denote, and no other string without a spare zero does. */
  method Base36(b: array<byte>) returns (text: string)
    ensures Canonical(text) && Value(text) == Number(b[..])
    ensures forall other: string :: Canonical(other) && Value(other) == Number(b[..]) ==> other == text
  {
    var n := new byte[b.Length](i requires 0 <= i < b.Length reads b => b[i]);
    assert n[..] == b[..];
    var out := Digitise(n);
    text := Reverse(out);
    forall other: string | Canonical(other) && Value(other) == Number(b[..])
      ensures other == text
    {
      CanonicalUnique(other, text);
    }
  }
}
