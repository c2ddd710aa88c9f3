/** Decimal text: what `%d` prints, what `atoi` reads, and the hand-written
    converter of the bank server. */
module Decimal {

  predicate IsDigit(c: char) {
    '0' <= c <= '9'
  }

  function DigitChar(d: nat): (c: char)
    requires d < 10
    ensures IsDigit(c) && c as int - '0' as int == d
  {
    '0' + d as char
  }

  /** The digits of a natural number, most significant first, without leading zeros. */
  function Digits(n: nat): (s: string)
    ensures |s| > 0 && forall i | 0 <= i < |s| :: IsDigit(s[i])
    ensures s[0] == '0' ==> n == 0
  {
    if n < 10 then [DigitChar(n)] else Digits(n / 10) + [DigitChar(n % 10)]
  }

  /** What `printf` writes for `%d`. */
  function Print(z: int): (s: string)
    ensures |s| > 0 && ' ' !in s
    ensures forall i | 0 <= i < |s| :: s[i] == '-' || IsDigit(s[i])
    ensures IsDigit(s[|s| - 1])
  {
    if z < 0 then "-" + Digits(-z) else Digits(z)
  }

  /** The number read from the leading digits of `s`, after `acc` has been read. */
  function ReadDigits(s: string, acc: nat): nat {
    if s == "" || !IsDigit(s[0]) then acc
    else ReadDigits(s[1..], 10 * acc + (s[0] as int - '0' as int))
  }

  predicate IsBlank(c: char) {
    c == ' ' || 9 as char <= c <= 13 as char
  }

  /** The C library's `atoi`: blanks, an optional sign, then digits up to the first other character. */
  function Atoi(s: string): int {
    if s == "" then 0
    else if IsBlank(s[0]) then Atoi(s[1..])
    else if s[0] == '-' then 0 - ReadDigits(s[1..], 0)
    else if s[0] == '+' then ReadDigits(s[1..], 0)
    else ReadDigits(s, 0)
  }

  lemma {:induction false} ReadDigitsAppend(s: string, d: char, acc: nat)
    requires forall i | 0 <= i < |s| :: IsDigit(s[i])
    requires IsDigit(d)
    ensures ReadDigits(s + [d], acc) == 10 * ReadDigits(s, acc) + (d as int - '0' as int)
    decreases |s|
  {
    if s == "" {
      assert (s + [d])[1..] == "";
    } else {
      assert (s + [d])[1..] == s[1..] + [d];
      ReadDigitsAppend(s[1..], d, 10 * acc + (s[0] as int - '0' as int));
    }
  }

  lemma {:induction false} ReadDigitsOfDigits(n: nat)
    ensures ReadDigits(Digits(n), 0) == n
  {
    if n < 10 {
      assert Digits(n)[1..] == "";
    } else {
      ReadDigitsOfDigits(n / 10);
      ReadDigitsAppend(Digits(n / 10), DigitChar(n % 10), 0);
    }
  }

  /** Reading back what was printed gives the number. */
  lemma AtoiOfPrint(z: int)
    ensures Atoi(Print(z)) == z
  {
    if z < 0 {
      ReadDigitsOfDigits(-z);
      assert Print(z)[1..] == Digits(-z);
    } else {
      ReadDigitsOfDigits(z);
    }
  }

  predicate StopsDigits(rest: string) {
    rest == "" || !IsDigit(rest[0])
  }

  lemma {:induction false} ReadDigitsBefore(s: string, rest: string, acc: nat)
    requires (forall i | 0 <= i < |s| :: IsDigit(s[i])) && StopsDigits(rest)
    ensures ReadDigits(s + rest, acc) == ReadDigits(s, acc)
    decreases |s|
  {
    if s == "" {
      assert s + rest == rest;
    } else {
      assert (s + rest)[1..] == s[1..] + rest;
      ReadDigitsBefore(s[1..], rest, 10 * acc + (s[0] as int - '0' as int));
    }
  }

  lemma {:induction false} AtoiSkips(blanks: string, s: string)
    requires forall i | 0 <= i < |blanks| :: blanks[i] == ' '
    ensures Atoi(blanks + s) == Atoi(s)
    decreases |blanks|
  {
    if blanks == "" {
      assert blanks + s == s;
    } else {
      assert (blanks + s)[1..] == blanks[1..] + s;
      AtoiSkips(blanks[1..], s);
    }
  }

  lemma AtoiBefore(z: int, rest: string)
    requires StopsDigits(rest)
    ensures Atoi(Print(z) + rest) == z
  {
    var n: nat := if z < 0 then -z else z;
    ReadDigitsOfDigits(n);
    ReadDigitsBefore(Digits(n), rest, 0);
    if z < 0 {
      assert (Print(z) + rest)[1..] == Digits(n) + rest;
    } else {
      assert IsDigit((Digits(n) + rest)[0]);
    }
  }

  lemma AtoiPlus(n: nat, rest: string)
    requires StopsDigits(rest)
    ensures Atoi("+" + (Digits(n) + rest)) == n
  {
    ReadDigitsOfDigits(n);
    ReadDigitsBefore(Digits(n), rest, 0);
    assert ("+" + (Digits(n) + rest))[1..] == Digits(n) + rest;
  }

  /** `atoi` skips blanks, takes a sign of either kind, and stops behind the digits. */
  lemma AtoiReads(blanks: string, z: int, rest: string)
    requires (forall i | 0 <= i < |blanks| :: blanks[i] == ' ') && StopsDigits(rest)
    ensures Atoi(blanks + (Print(z) + rest)) == z
    ensures z >= 0 ==> Atoi(blanks + ("+" + (Print(z) + rest))) == z
  {
    AtoiSkips(blanks, Print(z) + rest);
    AtoiBefore(z, rest);
    if z >= 0 {
      AtoiSkips(blanks, "+" + (Print(z) + rest));
      AtoiPlus(z, rest);
    }
  }

  lemma PrintInjective(x: int, y: int)
    ensures Print(x) == Print(y) <==> x == y
  {
    AtoiOfPrint(x);
    AtoiOfPrint(y);
  }

  // ----- the hand-written converter -----

  function Reversed(s: string): (r: string)
    ensures |r| == |s|
    ensures forall i | 0 <= i < |s| :: r[i] == s[|s| - 1 - i]
  {
    seq(|s|, i requires 0 <= i < |s| => s[|s| - 1 - i])
  }

  /** The digits the division loop has still to produce: none once the number is used up. */
  function Pending(n: nat): string {
    if n == 0 then "" else Digits(n)
  }

  lemma PushDigit(n: nat, written: string)
    requires n > 0
    ensures Pending(n) + Reversed(written) == Pending(n / 10) + Reversed(written + [DigitChar(n % 10)])
    ensures |Pending(n)| == |Pending(n / 10)| + 1
  {
    assert Reversed(written + [DigitChar(n % 10)]) == [DigitChar(n % 10)] + Reversed(written);
  }

  /** The division loop: leaves the digits of `N` in `str`, least significant first. */
  method WriteDigits(N: nat, str: array<char>) returns (i: nat)
    requires |Pending(N)| < str.Length
    modifies str
    ensures i == |Pending(N)| && Reversed(str[..i]) == Pending(N)
    ensures forall k | i <= k < str.Length :: str[k] == old(str[k])
  {
    i := 0;
    var n := N;
    while n > 0
      invariant i + |Pending(n)| == |Pending(N)|
      invariant Pending(N) == Pending(n) + Reversed(str[..i])
      invariant forall k | i <= k < str.Length :: str[k] == old(str[k])
    {
      PushDigit(n, str[..i]);
      ghost var before := str[..i];
      str[i] := DigitChar(n % 10);
      assert str[..i + 1] == before + [DigitChar(n % 10)];
      i := i + 1;
      n := n / 10;
    }
  }

  /** The reversal loop over the first `n` cells. */
  method ReverseInPlace(str: array<char>, n: nat)
    requires n <= str.Length
    modifies str
    ensures str[..n] == Reversed(old(str[..n]))
    ensures forall k | n <= k < str.Length :: str[k] == old(str[k])
  {
    var j, k := 0, n - 1;
    while j < k
      invariant 0 <= j && k == n - 1 - j && j <= k + 2
      invariant forall m | 0 <= m < j :: str[m] == old(str[n - 1 - m]) && str[n - 1 - m] == old(str[m])
      invariant forall m | j <= m <= k :: str[m] == old(str[m])
      invariant forall m | n <= m < str.Length :: str[m] == old(str[m])
    {
      str[j], str[k] := str[k], str[j];
      j, k := j + 1, k - 1;
    }
  }

  /** Exactly the canonical decimal of every number except 0, which it writes as the empty string. */
  method IntToStr(N: int, str: array<char>)
    requires (if N == 0 then 0 else |Print(N)|) < str.Length
    modifies str
    ensures N != 0 ==> str[..|Print(N)|] == Print(N) && str[|Print(N)|] == '\0'
    ensures N == 0 ==> str[0] == '\0'
    ensures forall k | (if N == 0 then 0 else |Print(N)|) < k < str.Length :: str[k] == old(str[k])
  {
    var i := WriteDigits(if N < 0 then -N else N, str);
    if N < 0 {
      ghost var before := str[..i];
      str[i] := '-';
      i := i + 1;
      assert str[..i] == before + "-";
      assert Reversed(before + "-") == "-" + Reversed(before);
    }
    str[i] := '\0';
    assert N != 0 ==> Reversed(str[..i]) == Print(N);
    assert i == if N == 0 then 0 else |Print(N)|;
    ReverseInPlace(str, i);
  }
}
