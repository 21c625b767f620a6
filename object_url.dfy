/**
 * The browser's object-URL service (`URL.createObjectURL` / `URL.revokeObjectURL`) as an
 * abstract generator: the n-th URL minted is `blob:` followed by n in decimal. All the
 * form relies on is that a minted URL is never empty and never equals an earlier one.
 */
module ObjectUrl {

  const Scheme: string := "blob:"

  function DigitChar(d: nat): (c: char)
    requires d < 10
    ensures '0' <= c <= '9'
  {
    ('0' as int + d) as char
  }

  /** The decimal numeral of n, most significant digit first, without leading zeros. */
  function Decimal(n: nat): (s: string)
    ensures |s| >= 1
    ensures |s| == 1 <==> n < 10
    ensures forall i :: 0 <= i < |s| ==> '0' <= s[i] <= '9'
  {
    if n < 10 then [DigitChar(n)] else Decimal(n / 10) + [DigitChar(n % 10)]
  }

  /** Distinct numbers have distinct numerals. */
  lemma {:induction false} DecimalInjective(a: nat, b: nat)
    ensures Decimal(a) == Decimal(b) ==> a == b
  {
    if Decimal(a) == Decimal(b) {
      var s := Decimal(a);
      if a >= 10 {
        assert b >= 10;
        assert s[..|s| - 1] == Decimal(a / 10) && s[..|s| - 1] == Decimal(b / 10);
        DecimalInjective(a / 10, b / 10);
        assert s[|s| - 1] == DigitChar(a % 10) == DigitChar(b % 10);
      }
    }
  }

  /** The n-th object URL minted. */
  function Token(n: nat): (url: string)
    ensures url != ""
    ensures |url| > |Scheme| && url[..|Scheme|] == Scheme
  {
    Scheme + Decimal(n)
  }

  /** Two mints never yield the same URL. */
  lemma {:induction false} TokenInjective(a: nat, b: nat)
    ensures Token(a) == Token(b) ==> a == b
  {
    if Token(a) == Token(b) {
      assert Token(a)[|Scheme|..] == Decimal(a);
      assert Token(b)[|Scheme|..] == Decimal(b);
      DecimalInjective(a, b);
    }
  }
}
