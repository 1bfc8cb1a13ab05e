/** The names the topology generates: `<domain>.retry.<delay>`.  They must tell domains and delays apart. */
module RetryNaming {

  function Digit(d: nat): char
    requires d < 10
  {
    "0123456789"[d]
  }

  predicate IsDigit(c: char) {
    '0' <= c <= '9'
  }

  /** A number as JavaScript prints it inside a template literal. */
  function Decimal(n: nat): (text: string)
    ensures text != []
    ensures forall i :: 0 <= i < |text| ==> IsDigit(text[i])
  {
    if n < 10 then [Digit(n)] else Decimal(n / 10) + [Digit(n % 10)]
  }

  function RetryName(domain: string, delayMs: nat): string {
    domain + ".retry." + Decimal(delayMs)
  }

  lemma {:induction false} DecimalInjective(a: nat, b: nat)
    requires Decimal(a) == Decimal(b)
    ensures a == b
  {
    var text := Decimal(a);
    assert text[|text| - 1] == Digit(a % 10) == Digit(b % 10);
    if a >= 10 && b >= 10 {
      assert Decimal(a / 10) == text[..|text| - 1] == Decimal(b / 10);
      DecimalInjective(a / 10, b / 10);
    }
  }

  /** The delay is what follows the last dot, so two generated names agree only on equal domains and delays. */
  lemma RetryNameInjective(domain: string, delayMs: nat, otherDomain: string, otherDelayMs: nat)
    requires RetryName(domain, delayMs) == RetryName(otherDomain, otherDelayMs)
    ensures domain == otherDomain && delayMs == otherDelayMs
  {
    var name := RetryName(domain, delayMs);
    var digits, otherDigits := Decimal(delayMs), Decimal(otherDelayMs);
    assert name[|name| - |digits| - 1] == '.';
    assert name[|name| - |otherDigits| - 1] == '.';
    assert |digits| == |otherDigits|;
    assert digits == name[|name| - |digits|..] == otherDigits;
    DecimalInjective(delayMs, otherDelayMs);
    assert domain == name[..|name| - |digits| - 7] == otherDomain;
  }

  lemma RetryNameEndsInDigit(domain: string, delayMs: nat)
    ensures var name := RetryName(domain, delayMs); name != [] && IsDigit(name[|name| - 1])
  {
    var name, digits := RetryName(domain, delayMs), Decimal(delayMs);
    assert name[|name| - 1] == digits[|digits| - 1];
  }
}
