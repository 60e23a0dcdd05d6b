// Pairing codes: ten random bytes as sixteen base-32 characters, shown in groups of four and
// read back with any separators and in either case.
module PairingCode {
  import opened Options

  type Byte = x: int | 0 <= x < 256

  const ALPHABET := "0123456789ABCDEFGHJKMNPQRSTVWXYZ"

  function Power(b: nat, n: nat): (p: nat)
    ensures b > 0 ==> p > 0
  {
    if n == 0 then 1 else b * Power(b, n - 1)
  }

  // ---- Numbers written in the alphabet and in bytes ----

  // The digits 0-9, then the letters without I, L, O and U.
  function CharOf(d: nat): (c: char)
    requires d < 32
  {
    var code := if d < 10 then d + 48 else if d < 18 then d + 55 else if d < 20 then d + 56
                else if d < 22 then d + 57 else if d < 27 then d + 58 else d + 59;
    code as char
  }

  lemma CharOfIsAlphabet(d: nat)
    requires d < 32
    ensures |ALPHABET| == 32 && CharOf(d) == ALPHABET[d]
  {
  }

  predicate InAlphabet(c: char) {
    || ('0' <= c <= '9') || ('A' <= c <= 'H') || c == 'J' || c == 'K' || c == 'M' || c == 'N'
    || ('P' <= c <= 'T') || ('V' <= c <= 'Z')
  }

  function DigitOf(c: char): (d: nat)
    requires InAlphabet(c)
    ensures d < 32
  {
    if c <= '9' then c as int - 48
    else if c <= 'H' then c as int - 55
    else if c <= 'K' then c as int - 56
    else if c <= 'N' then c as int - 57
    else if c <= 'T' then c as int - 58
    else c as int - 59
  }

  lemma AlphabetIsDense(d: nat)
    requires d < 32
    ensures InAlphabet(CharOf(d)) && DigitOf(CharOf(d)) == d
  {
  }

  lemma DigitIsDense(c: char)
    requires InAlphabet(c)
    ensures CharOf(DigitOf(c)) == c
  {
  }

  predicate Letters(s: string) {
    forall i :: 0 <= i < |s| ==> InAlphabet(s[i])
  }

  predicate Canonical(s: string) {
    |s| == 16 && Letters(s)
  }

  function Base32(s: string): nat
    requires Letters(s)
  {
    if s == "" then 0 else Base32(s[..|s| - 1]) * 32 + DigitOf(s[|s| - 1])
  }

  function Base256(bytes: seq<Byte>): nat {
    if bytes == [] then 0 else Base256(bytes[..|bytes| - 1]) * 256 + bytes[|bytes| - 1]
  }

  function ToBase32(v: nat, n: nat): (s: string)
    ensures |s| == n
  {
    if n == 0 then "" else ToBase32(v / 32, n - 1) + [CharOf(v % 32)]
  }

  function ToBase256(v: nat, n: nat): (bytes: seq<Byte>)
    ensures |bytes| == n
  {
    if n == 0 then [] else ToBase256(v / 256, n - 1) + [v % 256]
  }

  lemma {:induction false} ToBase32Letters(v: nat, n: nat)
    ensures Letters(ToBase32(v, n))
  {
    if n > 0 {
      ToBase32Letters(v / 32, n - 1);
      AlphabetIsDense(v % 32);
    }
  }

  lemma {:induction false} Base32OfToBase32(v: nat, n: nat)
    requires v < Power(32, n)
    ensures Letters(ToBase32(v, n)) && Base32(ToBase32(v, n)) == v
  {
    ToBase32Letters(v, n);
    if n > 0 {
      Base32OfToBase32(v / 32, n - 1);
      AlphabetIsDense(v % 32);
      assert ToBase32(v, n)[..n - 1] == ToBase32(v / 32, n - 1);
    }
  }

  lemma LastDigit(v: nat, d: nat)
    requires d < 32
    ensures (v * 32 + d) / 32 == v && (v * 32 + d) % 32 == d
  {
  }

  lemma {:induction false} ToBase32OfBase32(s: string)
    requires Letters(s)
    ensures Base32(s) < Power(32, |s|) && ToBase32(Base32(s), |s|) == s
  {
    if s != "" {
      var front, last := s[..|s| - 1], s[|s| - 1];
      ToBase32OfBase32(front);
      DigitIsDense(last);
      LastDigit(Base32(front), DigitOf(last));
      assert s == front + [last];
    }
  }

  lemma {:induction false} Base256OfToBase256(v: nat, n: nat)
    requires v < Power(256, n)
    ensures Base256(ToBase256(v, n)) == v
  {
    if n > 0 {
      Base256OfToBase256(v / 256, n - 1);
      assert ToBase256(v, n)[..n - 1] == ToBase256(v / 256, n - 1);
    }
  }

  lemma {:induction false} ToBase256OfBase256(bytes: seq<Byte>)
    ensures Base256(bytes) < Power(256, |bytes|) && ToBase256(Base256(bytes), |bytes|) == bytes
  {
    if bytes != [] {
      ToBase256OfBase256(bytes[..|bytes| - 1]);
      assert bytes == bytes[..|bytes| - 1] + [bytes[|bytes| - 1]];
    }
  }

  // ---- Packing ----

  // The sixteen characters of the number the ten bytes spell.
  function Encoded(bytes: seq<Byte>): string {
    ToBase32(Base256(bytes), 16)
  }

  function Decoded(code: string): seq<Byte>
    requires Letters(code)
  {
    ToBase256(Base32(code), 10)
  }

  lemma {:induction false} PowerStep(n: nat)
    requires n >= 5
    ensures Power(2, n) == 32 * Power(2, n - 5)
  {
    assert Power(2, n) == 2 * Power(2, n - 1);
    assert Power(2, n - 1) == 2 * Power(2, n - 2);
    assert Power(2, n - 2) == 2 * Power(2, n - 3);
    assert Power(2, n - 3) == 2 * Power(2, n - 4);
  }

  lemma PowerOfEight(n: nat)
    ensures Power(2, n + 8) == 256 * Power(2, n)
  {
    PowerStep(n + 8);
    assert Power(2, n + 3) == 2 * Power(2, n + 2);
    assert Power(2, n + 2) == 2 * Power(2, n + 1);
  }

  lemma PushByte(value: nat, bits: nat, buffer: nat, byte: Byte)
    requires buffer < Power(2, bits)
    ensures value * Power(2, bits + 8) + (buffer * 256 + byte) == (value * Power(2, bits) + buffer) * 256 + byte
    ensures buffer * 256 + byte < Power(2, bits + 8)
  {
    PowerOfEight(bits);
    var p := Power(2, bits);
    assert value * (256 * p) == value * p * 256;
  }

  lemma Ordered(a: nat, b: nat, p: nat)
    requires p > 0
    ensures a <= b ==> a * p <= b * p
  {
  }

  lemma SplitAt(buffer: nat, p: nat)
    requires p > 0 && buffer < 32 * p
    ensures buffer / p < 32 && (buffer / p) * p + buffer % p == buffer && buffer % p < p
  {
    var q := buffer / p;
    assert buffer == q * p + buffer % p;
    Ordered(32, q, p);
  }

  lemma Shifted(value: nat, q: nat, r: nat, p: nat)
    ensures (value * 32 + q) * p + r == value * (32 * p) + (q * p + r)
  {
    assert (value * 32 + q) * p == value * 32 * p + q * p;
  }

  // Taking the top five bits as a digit keeps the number.
  lemma PopDigit(value: nat, bits: nat, buffer: nat)
    requires bits >= 5 && buffer < Power(2, bits)
    ensures var p := Power(2, bits - 5);
            && buffer % p < p
            && (value * 32 + buffer / p % 32) * p + buffer % p == value * Power(2, bits) + buffer
  {
    PowerStep(bits);
    var p := Power(2, bits - 5);
    SplitAt(buffer, p);
    var q, r := buffer / p, buffer % p;
    assert q % 32 == q;
    Shifted(value, q, r, p);
  }

  lemma Base32Append(s: string, d: nat)
    requires Letters(s) && d < 32
    ensures Letters(s + [CharOf(d)]) && Base32(s + [CharOf(d)]) == Base32(s) * 32 + d
  {
    AlphabetIsDense(d);
    assert (s + [CharOf(d)])[..|s|] == s;
  }

  // The characters written and the bits still buffered spell the bytes read.
  ghost predicate Packed(encoded: string, bits: nat, buffer: nat, read: seq<Byte>) {
    && Letters(encoded) && buffer < Power(2, bits) && 5 * |encoded| + bits == 8 * |read|
    && Base32(encoded) * Power(2, bits) + buffer == Base256(read)
  }

  lemma PackByte(encoded: string, bits: nat, buffer: nat, read: seq<Byte>, byte: Byte)
    requires Packed(encoded, bits, buffer, read)
    ensures Packed(encoded, bits + 8, buffer * 256 + byte, read + [byte])
  {
    PushByte(Base32(encoded), bits, buffer, byte);
    assert (read + [byte])[..|read|] == read;
  }

  lemma PackDigit(encoded: string, bits: nat, buffer: nat, read: seq<Byte>)
    requires Packed(encoded, bits, buffer, read) && bits >= 5
    ensures var p := Power(2, bits - 5);
            Packed(encoded + [CharOf(buffer / p % 32)], bits - 5, buffer % p, read)
  {
    PopDigit(Base32(encoded), bits, buffer);
    Base32Append(encoded, buffer / Power(2, bits - 5) % 32);
  }

  lemma PackedAll(encoded: string, bits: nat, buffer: nat, read: seq<Byte>)
    requires Packed(encoded, bits, buffer, read) && bits < 5 && |read| == 10
    ensures encoded == Encoded(read)
  {
    assert Power(2, 0) == 1;
    ToBase32OfBase32(encoded);
  }

  /** The bit buffer never holds more than twelve bits, so shifts and masks are plain arithmetic.
      Anything but ten bytes is refused. */
  method EncodePairingCode(bytes: seq<Byte>) returns (code: Option<string>)
    ensures code == if |bytes| == 10 then Some(Encoded(bytes)) else None
  {
    if |bytes| != 10 {
      return None;
    }
    var buffer: nat, bits: nat, encoded := 0, 0, "";
    for k := 0 to |bytes|
      invariant bits < 5 && Packed(encoded, bits, buffer, bytes[..k])
    {
      PackByte(encoded, bits, buffer, bytes[..k], bytes[k]);
      assert bytes[..k] + [bytes[k]] == bytes[..k + 1];
      buffer := buffer * 256 + bytes[k];
      bits := bits + 8;
      while bits >= 5
        invariant Packed(encoded, bits, buffer, bytes[..k + 1])
      {
        PackDigit(encoded, bits, buffer, bytes[..k + 1]);
        bits := bits - 5;
        var p := Power(2, bits);
        encoded := encoded + [CharOf(buffer / p % 32)];
        buffer := buffer % p;
      }
    }
    assert bytes[..|bytes|] == bytes;
    PackedAll(encoded, bits, buffer, bytes);
    return Some(encoded);
  }

  lemma SameRange()
    ensures Power(256, 10) == Power(32, 16)
  {
    assert Power(256, 5) == 0x100_0000_0000 == Power(32, 8);
    assert Power(256, 10) == 256 * 256 * 256 * 256 * 256 * Power(256, 5);
    assert Power(32, 16) == 32 * 32 * 32 * 32 * 32 * 32 * 32 * 32 * Power(32, 8);
  }

  // Ten bytes come back from their code, so no two share one.
  lemma DecodeUndoesEncode(bytes: seq<Byte>)
    requires |bytes| == 10
    ensures Canonical(Encoded(bytes)) && Decoded(Encoded(bytes)) == bytes
  {
    ToBase256OfBase256(bytes);
    SameRange();
    Base32OfToBase32(Base256(bytes), 16);
  }

  // Every canonical code is the code of some ten bytes.
  lemma EncodeUndoesDecode(code: string)
    requires Canonical(code)
    ensures |Decoded(code)| == 10 && Encoded(Decoded(code)) == code
  {
    ToBase32OfBase32(code);
    SameRange();
    Base256OfToBase256(Base32(code), 10);
  }

  // ---- Showing and reading ----

  function FormatPairingCode(code: string): (shown: Option<string>)
    ensures shown.Some? <==> Canonical(code)
    ensures shown.Some? ==> |shown.value| == 19
    ensures shown.Some? ==> forall i :: 0 <= i < 19 ==>
              shown.value[i] == if i % 5 == 4 then '-' else code[i / 5 * 4 + i % 5]
  {
    if Canonical(code)
    then Some(code[0..4] + "-" + code[4..8] + "-" + code[8..12] + "-" + code[12..16])
    else None
  }

  predicate Separator(c: char) {
    c == ' ' || c == '\t' || c == '\r' || c == '\n' || c == '-'
  }

  function Stripped(value: string): string {
    if value == "" then ""
    else if Separator(value[0]) then Stripped(value[1..])
    else [value[0]] + Stripped(value[1..])
  }

  function Upper(c: char): char {
    if 'a' <= c <= 'z' then (c as int - 32) as char else c
  }

  function Uppered(value: string): (r: string)
    ensures |r| == |value|
  {
    if value == "" then "" else [Upper(value[0])] + Uppered(value[1..])
  }

  function NormalizePairingCode(value: string): Option<string> {
    var canonical := Uppered(Stripped(value));
    if Canonical(canonical) then Some(canonical) else None
  }

  // value spells code: the same characters in order, in either case, among separators.
  predicate Spells(value: string, code: string) {
    if value == "" then code == ""
    else if value[0] in {' ', '\t', '\r', '\n', '-'} then Spells(value[1..], code)
    else code != "" && (value[0] == code[0] || IsLowerOf(value[0], code[0])) && Spells(value[1..], code[1..])
  }

  predicate IsLowerOf(low: char, up: char) {
    'A' <= up <= 'Z' && low as int == up as int + 32
  }

  lemma {:induction false} UpperedSpells(value: string)
    ensures Spells(value, Uppered(Stripped(value)))
  {
    if value != "" {
      UpperedSpells(value[1..]);
      if !Separator(value[0]) {
        assert Stripped(value)[1..] == Stripped(value[1..]);
        assert Uppered(Stripped(value))[1..] == Uppered(Stripped(value[1..]));
      }
    }
  }

  lemma LettersTail(code: string)
    requires Letters(code) && code != ""
    ensures InAlphabet(code[0]) && Letters(code[1..])
  {
    forall i | 0 <= i < |code[1..]| ensures InAlphabet(code[1..][i]) {
      assert code[1..][i] == code[i + 1];
    }
  }

  lemma UpperSpelling(a: char, b: char)
    requires InAlphabet(b) && (a == b || IsLowerOf(a, b))
    ensures Upper(a) == b && !Separator(a)
  {
  }

  lemma {:induction false} SpellingIsUnique(value: string, code: string)
    requires Letters(code) && Spells(value, code)
    ensures Uppered(Stripped(value)) == code
  {
    if value == "" {
      return;
    }
    var more := value[1..];
    if Separator(value[0]) {
      SpellingIsUnique(more, code);
    } else {
      LettersTail(code);
      SpellingIsUnique(more, code[1..]);
      UpperSpelling(value[0], code[0]);
      assert Stripped(value)[1..] == Stripped(more);
      assert code == [code[0]] + code[1..];
    }
  }

  /** Reading a code succeeds on exactly the spellings of canonical codes: separators anywhere
      and either case, and nothing else. */
  lemma NormalizeIffSpells(value: string, code: string)
    ensures NormalizePairingCode(value) == Some(code) <==> Canonical(code) && Spells(value, code)
  {
    UpperedSpells(value);
    if Canonical(code) && Spells(value, code) {
      SpellingIsUnique(value, code);
    }
  }

  lemma {:induction false} SpellsGroup(group: string, value: string, code: string)
    requires Letters(group)
    ensures Spells(value, code) ==> Spells(group + value, group + code)
  {
    if group == "" {
      assert group + value == value && group + code == code;
    } else {
      var rest := group[1..];
      LettersTail(group);
      SpellsGroup(rest, value, code);
      assert (group + value)[1..] == rest + value && (group + code)[1..] == rest + code;
    }
  }

  lemma DashedGroup(group: string, value: string, code: string)
    requires Letters(group) && Spells(value, code)
    ensures Spells(group + ("-" + value), group + code)
  {
    assert ("-" + value)[1..] == value;
    SpellsGroup(group, "-" + value, code);
  }

  lemma LettersPart(code: string, i: nat, j: nat)
    requires Letters(code) && i <= j <= |code|
    ensures Letters(code[i..j])
  {
  }

  lemma FourGroups(a: string, b: string, c: string, d: string)
    requires Letters(a) && Letters(b) && Letters(c) && Letters(d)
    ensures Spells(a + ("-" + (b + ("-" + (c + ("-" + d))))), a + (b + (c + d)))
  {
    SpellsGroup(d, "", "");
    assert d + "" == d;
    DashedGroup(c, d, d);
    DashedGroup(b, c + ("-" + d), c + d);
    DashedGroup(a, b + ("-" + (c + ("-" + d))), b + (c + d));
  }

  lemma FormatSpells(code: string)
    requires Canonical(code)
    ensures Spells(FormatPairingCode(code).value, code)
  {
    var a, b, c, d := code[0..4], code[4..8], code[8..12], code[12..16];
    LettersPart(code, 0, 4);
    LettersPart(code, 4, 8);
    LettersPart(code, 8, 12);
    LettersPart(code, 12, 16);
    FourGroups(a, b, c, d);
    assert a + (b + (c + d)) == code;
    assert a + ("-" + (b + ("-" + (c + ("-" + d))))) == a + "-" + b + "-" + c + "-" + d;
  }

  // Whatever spells the shown code, in any case and with any separators, leads back to the ten
  // bytes it was made from.
  lemma ShownCodeReadsBack(bytes: seq<Byte>)
    requires |bytes| == 10
    ensures FormatPairingCode(Encoded(bytes)).Some?
    ensures var read := NormalizePairingCode(FormatPairingCode(Encoded(bytes)).value);
            read == Some(Encoded(bytes)) && Letters(read.value) && Decoded(read.value) == bytes
  {
    DecodeUndoesEncode(bytes);
    FormatSpells(Encoded(bytes));
    NormalizeIffSpells(FormatPairingCode(Encoded(bytes)).value, Encoded(bytes));
  }
}
