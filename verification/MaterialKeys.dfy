// How a contribution is assigned to a stock row: the row key is a "|"-joined string.
module MaterialKeys {
  const SEPARATOR := '|'

  predicate Plain(s: string) {
    SEPARATOR !in s
  }

  // A user id is a UUID, so it never holds the separator.
  type UserId = s: string | Plain(s) witness ""

  function LowerChar(c: char): char {
    if 'A' <= c <= 'Z' then (c as int + 32) as char else c
  }

  function Lower(s: string): string {
    if |s| == 0 then "" else [LowerChar(s[0])] + Lower(s[1..])
  }

  lemma LowerPlain(s: string)
    requires Plain(s)
    ensures Plain(Lower(s))
  {
  }

  lemma LowerLength(s: string)
    ensures |Lower(s)| == |s|
  {
  }

  lemma LowerFixed(s: string)
    requires forall i :: 0 <= i < |s| ==> !('A' <= s[i] <= 'Z')
    ensures Lower(s) == s
  {
  }

  lemma {:induction false} LowerConcat(s: string, t: string)
    ensures Lower(s + t) == Lower(s) + Lower(t)
  {
    if |s| == 0 {
      assert s + t == t;
    } else {
      assert (s + t)[1..] == s[1..] + t;
      LowerConcat(s[1..], t);
    }
  }

  // The same letter, in either case.
  predicate SameLetter(a: char, b: char) {
    || a == b
    || ('A' <= a <= 'Z' && b as int == a as int + 32)
    || ('A' <= b <= 'Z' && a as int == b as int + 32)
  }

  predicate SameText(s: string, t: string) {
    |s| == |t| && forall i :: 0 <= i < |s| ==> SameLetter(s[i], t[i])
  }

  lemma {:induction false} LowerAt(s: string, i: nat)
    requires i < |s|
    ensures |Lower(s)| == |s| && Lower(s)[i] == LowerChar(s[i])
  {
    LowerLength(s);
    if i > 0 {
      LowerAt(s[1..], i - 1);
    }
  }

  // Names fold together exactly when they differ in case only.
  lemma LowerIff(s: string, t: string)
    ensures Lower(s) == Lower(t) <==> SameText(s, t)
  {
    LowerLength(s);
    LowerLength(t);
    if |s| == |t| {
      forall i | 0 <= i < |s|
        ensures Lower(s)[i] == LowerChar(s[i]) && Lower(t)[i] == LowerChar(t[i])
        ensures LowerChar(s[i]) == LowerChar(t[i]) <==> SameLetter(s[i], t[i])
      {
        LowerAt(s, i);
        LowerAt(t, i);
      }
    }
  }

  function Digit(d: nat): (c: char)
    requires d < 10
    ensures '0' <= c <= '9' && c as int == '0' as int + d
  {
    ('0' as int + d) as char
  }

  function Digits(n: nat): (s: string)
    ensures |s| > 0
    ensures forall i :: 0 <= i < |s| ==> '0' <= s[i] <= '9'
  {
    if n < 10 then [Digit(n)] else Digits(n / 10) + [Digit(n % 10)]
  }

  function Numeral(n: int): (s: string)
    ensures forall i :: 0 <= i < |s| ==> s[i] == '-' || '0' <= s[i] <= '9'
  {
    if n < 0 then "-" + Digits(-n) else Digits(n)
  }

  // What identifies a stock position. The material is already in lower case.
  datatype Slot = Slot(user: UserId, material: string, band: int, quality: int, location: string)

  function KeyOf(s: Slot): string {
    s.user + "|" + (s.material + "|" + (Numeral(s.band) + "|" + (Numeral(s.quality) + "|" + s.location)))
  }

  lemma SplitAtSeparator(a: string, x: string, b: string, y: string)
    requires Plain(a) && Plain(b)
    requires a + "|" + x == b + "|" + y
    ensures a == b && x == y
  {
    var k := a + "|" + x;
    assert k[|a|] == SEPARATOR && k[|b|] == SEPARATOR;
    assert forall i :: 0 <= i < |a| ==> k[i] == a[i];
    assert forall i :: 0 <= i < |b| ==> k[i] == b[i];
    assert a == k[..|a|] && b == k[..|b|];
    assert x == k[|a| + 1..] && y == k[|b| + 1..];
  }

  lemma {:induction false} DigitsInjective(m: nat, n: nat)
    requires Digits(m) == Digits(n)
    ensures m == n
  {
    var s, t := Digits(m), Digits(n);
    assert s[|s| - 1] == t[|t| - 1];
    if m >= 10 && n >= 10 {
      assert Digits(m / 10) == s[..|s| - 1] == t[..|t| - 1] == Digits(n / 10);
      DigitsInjective(m / 10, n / 10);
    }
  }

  lemma NumeralInjective(m: int, n: int)
    requires Numeral(m) == Numeral(n)
    ensures m == n
  {
    var s := Numeral(m);
    assert s[0] == '-' <==> m < 0;
    assert s[0] == '-' <==> n < 0;
    if m < 0 && n < 0 {
      assert s[1..] == Digits(-m) == Digits(-n);
      DigitsInjective(-m, -n);
    } else if m >= 0 && n >= 0 {
      DigitsInjective(m, n);
    }
  }

  /** Joining is injective as long as no material name holds the separator;
      the location may hold it, because it comes last. */
  lemma KeyInjective(s: Slot, t: Slot)
    requires Plain(s.material) && Plain(t.material)
    ensures KeyOf(s) == KeyOf(t) <==> s == t
  {
    if KeyOf(s) == KeyOf(t) {
      var s3, t3 := Numeral(s.quality) + "|" + s.location, Numeral(t.quality) + "|" + t.location;
      var s2, t2 := Numeral(s.band) + "|" + s3, Numeral(t.band) + "|" + t3;
      SplitAtSeparator(s.user, s.material + "|" + s2, t.user, t.material + "|" + t2);
      SplitAtSeparator(s.material, s2, t.material, t2);
      SplitAtSeparator(Numeral(s.band), s3, Numeral(t.band), t3);
      SplitAtSeparator(Numeral(s.quality), s.location, Numeral(t.quality), t.location);
      NumeralInjective(s.band, t.band);
      NumeralInjective(s.quality, t.quality);
    }
  }
}
