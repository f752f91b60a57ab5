/** Text as Python writes it: whole numbers in decimal, and lists joined with a separator. */
module Text {

  function Digit(d: nat): char
    requires d < 10
  {
    "0123456789"[d]
  }

  function Digits(n: nat): (s: string) {
    if n < 10 then [Digit(n)] else Digits(n / 10) + [Digit(n % 10)]
  }

  /** `str(n)` of a whole number. */
  function Decimal(n: int): string {
    if n < 0 then "-" + Digits(-n) else Digits(n)
  }

  function ValueOf(s: string): int {
    if s == "" then 0 else 10 * ValueOf(s[..|s| - 1]) + (s[|s| - 1] as int - '0' as int)
  }

  predicate IsDigit(c: char) {
    '0' <= c <= '9'
  }

  lemma {:induction false} DigitsReadBack(n: nat)
    ensures Digits(n) != "" && (forall c | c in Digits(n) :: IsDigit(c))
    ensures ValueOf(Digits(n)) == n
  {
    if n < 10 {
      assert Digits(n)[..0] == "";
    } else {
      DigitsReadBack(n / 10);
      var head := Digits(n / 10);
      assert Digits(n)[..|head|] == head;
    }
  }

  lemma MinusMeansNegative(n: int)
    ensures Decimal(n) != "" && (Decimal(n)[0] == '-' <==> n < 0)
  {
    DigitsReadBack(if n < 0 then -n else n);
    assert n >= 0 ==> Decimal(n)[0] in Digits(n);
  }

  /** Two whole numbers print alike only when they are the same number. */
  lemma DecimalInjective(a: int, b: int)
    requires Decimal(a) == Decimal(b)
    ensures a == b
  {
    DigitsReadBack(if a < 0 then -a else a);
    DigitsReadBack(if b < 0 then -b else b);
    MinusMeansNegative(a);
    MinusMeansNegative(b);
    if a < 0 {
      assert Decimal(a)[1..] == Digits(-a) && Decimal(b)[1..] == Digits(-b);
    }
  }

  lemma DecimalChars(n: int)
    ensures Decimal(n) != "" && forall c | c in Decimal(n) :: c == '-' || IsDigit(c)
  {
    DigitsReadBack(if n < 0 then -n else n);
  }

  // Joining with a separator no part contains.

  function Join(sep: char, parts: seq<string>): string {
    if parts == [] then ""
    else if |parts| == 1 then parts[0]
    else parts[0] + [sep] + Join(sep, parts[1..])
  }

  ghost predicate Free(sep: char, parts: seq<string>) {
    forall i | 0 <= i < |parts| :: sep !in parts[i]
  }

  /** The part before the first separator, and what follows it. */
  lemma {:induction false} FirstPart(sep: char, a: string, b: string, x: string, y: string)
    requires sep !in a && sep !in b
    requires a + [sep] + x == b + [sep] + y
    ensures a == b && x == y
  {
    var s, t := a + [sep] + x, b + [sep] + y;
    assert s[|a|] == sep && t[|b|] == sep;
    assert forall i | 0 <= i < |a| :: s[i] == a[i];
    assert forall i | 0 <= i < |b| :: t[i] == b[i];
    assert |a| == |b|;
    assert a == s[..|a|] && b == t[..|a|];
    assert x == s[|a| + 1..] && y == t[|a| + 1..];
  }

  lemma JoinHasSeparator(sep: char, parts: seq<string>)
    requires Free(sep, parts) && parts != []
    ensures sep in Join(sep, parts) <==> |parts| > 1
  {
    if |parts| > 1 {
      assert Join(sep, parts)[|parts[0]|] == sep;
    }
  }

  lemma {:induction false} JoinInjective(sep: char, a: seq<string>, b: seq<string>)
    requires Free(sep, a) && Free(sep, b)
    requires a != [] && b != []
    requires Join(sep, a) == Join(sep, b)
    ensures a == b
  {
    JoinHasSeparator(sep, a);
    JoinHasSeparator(sep, b);
    if |a| > 1 {
      FirstPart(sep, a[0], b[0], Join(sep, a[1..]), Join(sep, b[1..]));
      JoinInjective(sep, a[1..], b[1..]);
      assert a == [a[0]] + a[1..] && b == [b[0]] + b[1..];
    }
  }
}
