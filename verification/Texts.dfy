/** Texts built by concatenation and taken apart again from the right: decimal numbers
    and fields after the last separator. */
module Texts {
  function Digit(d: nat): (c: char)
    requires d < 10
    ensures '0' <= c <= '9' && c as int - '0' as int == d
  {
    '0' + d as char
  }

  /** std::to_string of a natural number. */
  function Decimal(n: nat): (s: string)
    ensures s != "" && forall c :: c in s ==> '0' <= c <= '9'
  {
    if n < 10 then [Digit(n)] else Decimal(n / 10) + [Digit(n % 10)]
  }

  function DigitValue(c: char): nat {
    if '0' <= c <= '9' then c as int - '0' as int else 0
  }

  function Parsed(s: string): nat {
    if s == "" then 0 else Parsed(s[..|s| - 1]) * 10 + DigitValue(s[|s| - 1])
  }

  lemma {:induction false} ParsedDecimal(n: nat)
    ensures Parsed(Decimal(n)) == n
  {
    if n >= 10 {
      ParsedDecimal(n / 10);
      assert Decimal(n)[..|Decimal(n)| - 1] == Decimal(n / 10);
    } else {
      assert Decimal(n)[..0] == "";
    }
  }

  /** Where the last c before position n is, or -1. */
  function LastIndex(s: string, c: char, n: nat): (i: int)
    requires n <= |s|
    ensures -1 <= i < n
    ensures i >= 0 ==> s[i] == c
    ensures forall k :: i < k < n ==> s[k] != c
  {
    if n == 0 then -1
    else if s[n - 1] == c then n - 1
    else LastIndex(s, c, n - 1)
  }

  /** The last separator is where it was put if what follows has none. */
  lemma LastIndexOfJoined(left: string, c: char, right: string)
    requires c !in right
    ensures var s := left + [c] + right; LastIndex(s, c, |s|) == |left|
  {
    var s := left + [c] + right;
    assert s[|left|] == c;
    forall k | |left| < k < |s|
      ensures s[k] != c
    {
      assert s[k] == right[k - |left| - 1];
    }
  }

  /** Joined fields are equal only if the parts are, when the right parts have no separator. */
  lemma JoinedOnce(left: string, right: string, left': string, right': string, c: char)
    requires c !in right && c !in right'
    requires left + [c] + right == left' + [c] + right'
    ensures left == left' && right == right'
  {
    LastIndexOfJoined(left, c, right);
    LastIndexOfJoined(left', c, right');
    var s := left + [c] + right;
    assert left == s[..|left|] && left' == s[..|left|];
    assert right == s[|left| + 1..] && right' == s[|left| + 1..];
  }
}
