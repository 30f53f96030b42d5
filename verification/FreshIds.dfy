/** Native identifiers for controls and paragraphs added in the editor: probing always ends, and never repeats one. */
module FreshIds {
  import opened Common

  const MODULUS: nat := 2147483647

  function Digit(n: nat): char
    requires n < 16
  {
    "0123456789ABCDEF"[n]
  }

  /** The number in the given base, most significant digit first. */
  function Numeral(n: nat, base: nat): string
    requires 2 <= base <= 16
  {
    if n < base then [Digit(n)] else Numeral(n / base, base) + [Digit(n % base)]
  }

  /** Padded with zeros to eight places. */
  function Padded(s: string): string
    decreases 8 - |s|
  {
    if |s| >= 8 then s else Padded("0" + s)
  }

  /** How the two kinds of identifiers are written. */
  datatype Kind = ControlId | ParagraphId

  function Name(kind: Kind, n: nat): string {
    match kind
    case ControlId => Numeral(n, 10)
    case ParagraphId => Padded(Numeral(n, 16))
  }

  /** One more digit. */
  function Extend(n: nat, base: nat, digit: nat): nat {
    n * base + digit
  }

  /** What a string of digits stands for. */
  function ValueOf(s: string, base: nat): nat {
    if s == [] then 0 else Extend(ValueOf(s[..|s| - 1], base), base, DigitValue(s[|s| - 1]))
  }

  function DigitValue(c: char): nat {
    if '0' <= c <= '9' then c as nat - '0' as nat
    else if 'A' <= c <= 'F' then c as nat - 'A' as nat + 10
    else if 'a' <= c <= 'f' then c as nat - 'a' as nat + 10 else 0
  }

  function LowerDigit(n: nat): char
    requires n < 16
  {
    "0123456789abcdef"[n]
  }

  lemma DigitIs(n: nat)
    requires n < 16
    ensures DigitValue(Digit(n)) == n && DigitValue(LowerDigit(n)) == n
  {
  }

  lemma ValueAppend(s: string, c: char, base: nat)
    ensures ValueOf(s + [c], base) == Extend(ValueOf(s, base), base, DigitValue(c))
  {
    assert (s + [c])[..|s|] == s;
  }

  lemma Division(n: nat, base: nat)
    requires base > 0
    ensures Extend(n / base, base, n % base) == n
    ensures n < base ==> Extend(0, base, n) == n
  {
  }

  lemma NoDigits(base: nat)
    ensures ValueOf([], base) == 0
  {
  }

  lemma {:induction false} NumeralValue(n: nat, base: nat)
    requires 2 <= base <= 16
    ensures ValueOf(Numeral(n, base), base) == n
  {
    hide Digit, DigitValue, ValueOf, Extend;
    NoDigits(base);
    Division(n, base);
    if n < base {
      DigitIs(n);
      ValueAppend([], Digit(n), base);
      assert [] + [Digit(n)] == [Digit(n)];
    } else {
      var rest, last := n / base, n % base;
      NumeralValue(rest, base);
      DigitIs(last);
      ValueAppend(Numeral(rest, base), Digit(last), base);
    }
  }

  lemma {:induction false} ZeroValue(s: string, base: nat)
    ensures ValueOf("0" + s, base) == ValueOf(s, base)
  {
    if s == [] {
      assert ValueOf([], base) == 0;
      assert ("0" + s)[..0] == [];
    } else {
      ZeroValue(s[..|s| - 1], base);
      assert ("0" + s)[..|s|] == "0" + s[..|s| - 1];
    }
  }

  lemma {:induction false} PaddedValue(s: string, base: nat)
    ensures ValueOf(Padded(s), base) == ValueOf(s, base)
    decreases 8 - |s|
  {
    if |s| < 8 {
      PaddedValue("0" + s, base);
      ZeroValue(s, base);
    }
  }

  predicate UpperDigit(c: char) {
    '0' <= c <= '9' || 'A' <= c <= 'F'
  }

  lemma {:induction false} NumeralDigits(n: nat, base: nat)
    requires 2 <= base <= 16
    ensures forall c | c in Numeral(n, base) :: UpperDigit(c)
  {
    DigitUpper(n % base);
    if n < base {
      DigitUpper(n);
    } else {
      NumeralDigits(n / base, base);
    }
  }

  lemma DigitUpper(n: nat)
    ensures n < 16 ==> UpperDigit(Digit(n))
  {
  }

  lemma {:induction false} PaddedDigits(s: string)
    requires forall c | c in s :: UpperDigit(c)
    ensures |Padded(s)| >= 8 && forall c | c in Padded(s) :: UpperDigit(c)
    decreases 8 - |s|
  {
    if |s| < 8 {
      PaddedDigits("0" + s);
    }
  }

  /** A control's number is written in decimal, a paragraph's in at least eight upper-case hexadecimal digits. */
  lemma NameReads(kind: Kind, n: nat)
    ensures ValueOf(Name(kind, n), match kind case ControlId => 10 case ParagraphId => 16) == n
    ensures kind == ParagraphId ==> |Name(kind, n)| >= 8 && forall c | c in Name(kind, n) :: UpperDigit(c)
  {
    hide ValueOf, Numeral, Padded;
    NumeralValue(n, 10);
    NumeralValue(n, 16);
    PaddedValue(Numeral(n, 16), 16);
    NumeralDigits(n, 16);
    PaddedDigits(Numeral(n, 16));
  }

  /** Different numbers are written differently. */
  lemma NameInjective(kind: Kind, n: nat, m: nat)
    requires Name(kind, n) == Name(kind, m)
    ensures n == m
  {
    var base := if kind == ControlId then 10 else 16;
    NumeralValue(n, base);
    NumeralValue(m, base);
    PaddedValue(Numeral(n, base), base);
    PaddedValue(Numeral(m, base), base);
  }

  /** The `k`th number tried from `start`. */
  function Tried(start: nat, k: nat): nat {
    (start + k) % MODULUS
  }

  lemma TriedDistinct(start: nat, i: nat, k: nat)
    requires i < k < MODULUS
    ensures Tried(start, i) != Tried(start, k)
  {
    var a, b := start + i, start + k;
    assert a == MODULUS * (a / MODULUS) + a % MODULUS && b == MODULUS * (b / MODULUS) + b % MODULUS;
    assert k - i == MODULUS * (b / MODULUS - a / MODULUS) + (b % MODULUS - a % MODULUS);
  }

  lemma TriedNext(start: nat, k: nat)
    ensures (Tried(start, k) + 1) % MODULUS == Tried(start, k + 1)
  {
    var a := start + k;
    assert a == MODULUS * (a / MODULUS) + a % MODULUS;
    if a % MODULUS + 1 == MODULUS {
      assert a + 1 == MODULUS * (a / MODULUS + 1);
      Multiple(a / MODULUS + 1);
    } else {
      assert a + 1 == MODULUS * (a / MODULUS) + (a % MODULUS + 1);
      Remainder(a / MODULUS, a % MODULUS + 1);
    }
  }

  lemma Multiple(q: nat)
    ensures MODULUS * q % MODULUS == 0
  {
  }

  lemma Remainder(q: nat, r: nat)
    requires r < MODULUS
    ensures (MODULUS * q + r) % MODULUS == r
  {
  }

  /** The names of the first `k` numbers tried. */
  function TriedNames(kind: Kind, start: nat, k: nat): set<string> {
    if k == 0 then {} else TriedNames(kind, start, k - 1) + {Name(kind, Tried(start, k - 1))}
  }

  lemma {:induction false} TriedCount(kind: Kind, start: nat, k: nat)
    requires k <= MODULUS
    ensures |TriedNames(kind, start, k)| == k
    ensures forall s | s in TriedNames(kind, start, k) :: exists i :: 0 <= i < k && s == Name(kind, Tried(start, i))
  {
    hide Name, Tried;
    if k > 0 {
      TriedCount(kind, start, k - 1);
      if Name(kind, Tried(start, k - 1)) in TriedNames(kind, start, k - 1) {
        var i :| 0 <= i < k - 1 && Name(kind, Tried(start, k - 1)) == Name(kind, Tried(start, i));
        NameInjective(kind, Tried(start, k - 1), Tried(start, i));
        TriedDistinct(start, i, k - 1);
      }
    }
  }

  lemma TriedFirst(kind: Kind, start: nat)
    ensures TriedNames(kind, start, 0) == {} && start % MODULUS == Tried(start, 0) < MODULUS
  {
  }

  lemma TriedBelow(start: nat, k: nat)
    ensures Tried(start, k) < MODULUS
  {
  }

  lemma TriedMore(kind: Kind, start: nat, k: nat)
    ensures TriedNames(kind, start, k + 1) == TriedNames(kind, start, k) + {Name(kind, Tried(start, k))}
  {
  }

  /** Probing from a hash: at most one step for every identifier in use, then a number nobody has. */
  method Probe(kind: Kind, hash: nat, used: set<string>) returns (native: nat)
    requires |used| < MODULUS
    ensures native < MODULUS && Name(kind, native) !in used
    ensures exists k :: 0 <= k <= |used| && native == Tried(hash, k)
  {
    hide Name, TriedNames, Tried;
    native := hash % MODULUS;
    TriedFirst(kind, hash);
    ghost var k := 0;
    while Name(kind, native) in used
      invariant 0 <= k <= |used| && native == Tried(hash, k) < MODULUS
      invariant TriedNames(kind, hash, k) <= used
      decreases |used| - k
    {
      TriedCount(kind, hash, k + 1);
      TriedMore(kind, hash, k);
      SubsetCard(TriedNames(kind, hash, k + 1), used);
      TriedNext(hash, k);
      TriedBelow(hash, k + 1);
      native := (native + 1) % MODULUS;
      k := k + 1;
    }
  }
}
