/**
 * The PHP string semantics the core relies on: truthiness of a string, the
 * decimal text of an integer (`(string) $int`), and the rule by which a
 * string used as an array key is read as an integer key.
 */
module PhpStrings {
  import opened Wrappers

  /** `if ($s)` for a string: only "" and "0" are false. */
  predicate Truthy(s: string)
    ensures Truthy(s) ==> |s| > 0
    ensures |s| >= 2 ==> Truthy(s)
  {
    s != "" && s != "0"
  }

  predicate IsDigit(c: char)
  {
    '0' <= c <= '9'
  }

  predicate AllDigits(s: string)
  {
    forall i :: 0 <= i < |s| ==> IsDigit(s[i])
  }

  function DigitChar(d: nat): (c: char)
    requires d < 10
    ensures IsDigit(c)
  {
    (48 + d) as char
  }

  function DigitValue(c: char): (d: nat)
    requires IsDigit(c)
    ensures d < 10 && DigitChar(d) == c
  {
    c as int - 48
  }

  /** The number a string of decimal digits denotes, most significant first. */
  function DigitsValue(s: string): nat
    requires AllDigits(s)
  {
    if s == [] then 0 else DigitsValue(s[..|s| - 1]) * 10 + DigitValue(s[|s| - 1])
  }

  /** A non-empty digit string without a leading zero (or exactly "0"). */
  predicate IsCanonicalNat(s: string)
  {
    |s| > 0 && AllDigits(s) && (s[0] == '0' ==> |s| == 1)
  }

  function NatToDecimal(n: nat): (r: string)
    ensures |r| > 0 && IsDigit(r[0])
  {
    if n < 10 then [DigitChar(n)] else NatToDecimal(n / 10) + [DigitChar(n % 10)]
  }

  /** `(string) $i` for an integer `$i`. */
  function IntToDecimal(i: int): (r: string)
    ensures |r| > 0 && (r[0] == '-' <==> i < 0)
  {
    if i < 0 then "-" + NatToDecimal(-i) else NatToDecimal(i)
  }

  /**
   * The integer a string denotes when PHP uses it as an array key: "0", or
   * digits without a leading zero, optionally preceded by "-" ("-0" excepted).
   * Every other string stays a string key.
   */
  function IntegerKey(s: string): (r: Option<int>)
    ensures r.Some? ==> |s| > 0 && (s[0] == '-' || IsCanonicalNat(s))
    ensures r.Some? && s[0] != '-' ==> r.value >= 0
  {
    if |s| > 1 && s[0] == '-' && IsCanonicalNat(s[1..]) && s[1..] != "0" then
      var magnitude: int := DigitsValue(s[1..]);
      Some(-magnitude)
    else if IsCanonicalNat(s) then Some(DigitsValue(s))
    else None
  }

  lemma {:induction false} NatToDecimalCanonical(n: nat)
    ensures IsCanonicalNat(NatToDecimal(n)) && DigitsValue(NatToDecimal(n)) == n
  {
    var s := NatToDecimal(n);
    if n >= 10 {
      var t := NatToDecimal(n / 10);
      NatToDecimalCanonical(n / 10);
      assert s[..|s| - 1] == t;
      assert s[0] == t[0];
    }
  }

  lemma {:induction false} CanonicalNatToDecimal(s: string)
    requires IsCanonicalNat(s)
    ensures NatToDecimal(DigitsValue(s)) == s
  {
    if |s| > 1 {
      var t := s[..|s| - 1];
      assert IsCanonicalNat(t) by { assert t[0] == s[0]; }
      CanonicalNatToDecimal(t);
      var v := DigitsValue(t);
      assert v != 0;
      var d := DigitValue(s[|s| - 1]);
      assert DigitsValue(s) == v * 10 + d;
      assert (v * 10 + d) / 10 == v && (v * 10 + d) % 10 == d;
      assert s == t + [s[|s| - 1]];
    }
  }

  /** `(string) $i` read back as an array key is the integer `$i`, and it is the only string that is. */
  lemma IntegerKeyOfDecimal(s: string, i: int)
    ensures IntegerKey(s) == Some(i) <==> s == IntToDecimal(i)
  {
    if s == IntToDecimal(i) {
      if i < 0 {
        NatToDecimalCanonical(-i);
        var u := NatToDecimal(-i);
        assert s[1..] == u;
      } else {
        NatToDecimalCanonical(i);
      }
    }
    if IntegerKey(s) == Some(i) {
      if |s| > 1 && s[0] == '-' && IsCanonicalNat(s[1..]) && s[1..] != "0" {
        var u := s[1..];
        CanonicalNatToDecimal(u);
        if DigitsValue(u) == 0 {
          assert false;
        }
        assert s == "-" + u;
      } else {
        CanonicalNatToDecimal(s);
      }
    }
  }
}
