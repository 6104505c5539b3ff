/** Bytes, characters in strings, white space, decimal numbers and quotients. */
module Text {
  import opened Wrappers

  type byte = x: int | 0 <= x < 256

  /** The first place of a character. */
  function IndexOf(s: string, c: char): (i: Option<nat>)
    ensures i.None? <==> c !in s
    ensures i.Some? ==> i.value < |s| && s[i.value] == c && forall j :: 0 <= j < i.value ==> s[j] != c
  {
    if s == [] then None
    else if s[0] == c then Some(0)
    else
      var r := IndexOf(s[1..], c);
      assert s == [s[0]] + s[1..];
      if r.Some? then Some(r.value + 1) else None
  }

  const DIGITS := "0123456789"
  const LOWER := "abcdefghijklmnopqrstuvwxyz"
  const UPPER := "ABCDEFGHIJKLMNOPQRSTUVWXYZ"

  lemma {:induction false} CharsInOrder()
    ensures |DIGITS| == 10 && forall i :: 0 <= i < 10 ==> DIGITS[i] == '0' + i as char
    ensures |LOWER| == 26 && forall i :: 0 <= i < 26 ==> LOWER[i] == 'a' + i as char
    ensures |UPPER| == 26 && forall i :: 0 <= i < 26 ==> UPPER[i] == 'A' + i as char
  {
  }

  /** White space, as Unicode defines it. */
  predicate IsSpace(c: char) {
    || '\t' <= c <= '\r' || c == ' ' || c == '\U{0085}' || c == '\U{00A0}' || c == '\U{1680}'
    || '\U{2000}' <= c <= '\U{200A}' || c == '\U{2028}' || c == '\U{2029}' || c == '\U{202F}'
    || c == '\U{205F}' || c == '\U{3000}'
  }

  function TrimSpace(s: string): (r: string)
  {
    if s == [] then []
    else if IsSpace(s[0]) then TrimSpace(s[1..])
    else if IsSpace(s[|s| - 1]) then TrimSpace(s[..|s| - 1])
    else s
  }

  predicate AllSpace(s: string) {
    forall c :: c in s ==> IsSpace(c)
  }

  /** Trimming takes away white space at both ends, and all of it. */
  lemma {:induction false} TrimSplit(s: string) returns (a: string, b: string)
    ensures s == a + TrimSpace(s) + b && AllSpace(a) && AllSpace(b)
    ensures var t := TrimSpace(s); t != "" ==> !IsSpace(t[0]) && !IsSpace(t[|t| - 1])
    decreases |s|
  {
    a, b := "", "";
    if s != "" && IsSpace(s[0]) {
      a, b := TrimSplit(s[1..]);
      a := MoreFront(s[0], a, TrimSpace(s), b);
      assert s == [s[0]] + s[1..];
    } else if s != "" && IsSpace(s[|s| - 1]) {
      a, b := TrimSplit(s[..|s| - 1]);
      b := MoreBack(a, TrimSpace(s), b, s[|s| - 1]);
      assert s == s[..|s| - 1] + [s[|s| - 1]];
    }
  }

  lemma {:induction false} MoreFront(c: char, a: string, t: string, b: string) returns (more: string)
    requires IsSpace(c) && AllSpace(a)
    ensures AllSpace(more) && more + t + b == [c] + (a + t + b)
  {
    more := [c] + a;
  }

  lemma {:induction false} MoreBack(a: string, t: string, b: string, c: char) returns (more: string)
    requires IsSpace(c) && AllSpace(b)
    ensures AllSpace(more) && a + t + more == a + t + b + [c]
  {
    more := b + [c];
  }

  function Digit(n: nat): (c: char)
    requires n < 10
  {
    '0' + n as char
  }

  /** A number in decimal. */
  function Itoa(n: nat): (s: string)
    ensures s != "" && forall c :: c in s ==> '0' <= c <= '9'
  {
    if n < 10 then [Digit(n)] else Itoa(n / 10) + [Digit(n % 10)]
  }

  /** The value of a string of decimal digits. */
  function Digits(s: string): (n: Option<nat>)
  {
    if s == [] then Some(0)
    else
      var c, high := s[|s| - 1], Digits(s[..|s| - 1]);
      if high.None? || !('0' <= c <= '9') then None else Some(high.value * 10 + (c - '0') as int)
  }

  /** What has a value is exactly a string of digits. */
  lemma {:induction false} DigitsIff(s: string)
    ensures Digits(s).Some? <==> forall c :: c in s ==> c in DIGITS
  {
    if s != [] {
      var n := |s| - 1;
      DigitsIff(s[..n]);
      DigitIff(s[n]);
      assert forall c :: c in s <==> c in s[..n] || c == s[n];
    }
  }

  lemma {:induction false} DigitIff(c: char)
    ensures '0' <= c <= '9' <==> c in DIGITS
  {
    CharsInOrder();
    if '0' <= c <= '9' {
      assert DIGITS[(c - '0') as int] == c;
    }
  }

  const MAX := 0x7FFF_FFFF_FFFF_FFFF

  /** A decimal number with an optional sign, if it fits 64 bits. */
  function Atoi(s: string): (n: Option<int>)
  {
    var signed := s != "" && (s[0] == '-' || s[0] == '+');
    var body := if signed then s[1..] else s;
    var n := Digits(body);
    if body == "" || n.None? then None
    else
      var k: int := n.value;
      var value: int := if signed && s[0] == '-' then -k else k;
      if -MAX - 1 <= value <= MAX then Some(value) else None
  }

  lemma {:induction false} DivAtLeast(a: nat, t: nat, q: nat)
    requires 1 <= t && q * t <= a
    ensures q <= a / t
  {
    var d := a / t;
    assert a == d * t + a % t;
    assert q * t < (d + 1) * t;
  }

  lemma {:induction false} DivBelow(a: nat, t: nat, q: nat)
    requires 1 <= t && a < q * t
    ensures 0 <= a / t < q
  {
    var d := a / t;
    assert a == d * t + a % t;
    assert d * t < q * t;
  }

  lemma {:induction false} DigitsItoa(n: nat)
    ensures Digits(Itoa(n)) == Some(n)
  {
    if n < 10 {
      assert Itoa(n)[..0] == [];
    } else {
      DigitsItoa(n / 10);
      var s := Itoa(n);
      assert s[..|s| - 1] == Itoa(n / 10) && s[|s| - 1] == Digit(n % 10);
    }
  }

  lemma {:induction false} AtoiItoa(n: nat)
    requires n <= MAX
    ensures Atoi(Itoa(n)) == Some(n)
  {
    DigitsItoa(n);
    assert Itoa(n)[0] in Itoa(n);
  }
}
