/** Base62 numerals, most significant digit first. */
module Base62 {

  datatype Result<+T> = Ok(value: T) | NegativeNumber | InvalidCharacter(c: char)

  /** The digit for `i`: 0-9, then a-z, then A-Z. */
  function Letter(i: nat): (c: char)
    requires i < 62
  {
    if i < 10 then '0' + i as char else if i < 36 then 'a' + (i - 10) as char else 'A' + (i - 36) as char
  }

  /** What a character counts for, -1 if it is no digit. */
  function DigitOf(c: char): (i: int)
    ensures -1 <= i < 62 && (i >= 0 ==> Letter(i) == c)
    ensures forall j :: 0 <= j < 62 && Letter(j) == c ==> i == j
  {
    if '0' <= c <= '9' then c as int - '0' as int
    else if 'a' <= c <= 'z' then 10 + c as int - 'a' as int
    else if 'A' <= c <= 'Z' then 36 + c as int - 'A' as int
    else -1
  }

  /** The digits of a number without leading zeros: none at all for 0. */
  function Digits(n: nat): string {
    if n == 0 then "" else Digits(n / 62) + [Letter(n % 62)]
  }

  function Numeral(n: nat): string { if n == 0 then "0" else Digits(n) }

  function Value(s: string): Result<nat> {
    if s == "" then Ok(0)
    else
      match Value(s[..|s| - 1])
      case Ok(v) => if DigitOf(s[|s| - 1]) < 0 then InvalidCharacter(s[|s| - 1]) else Ok(v * 62 + DigitOf(s[|s| - 1]))
      case e => e
  }

  predicate IsDigit(c: char) { DigitOf(c) >= 0 }

  /** What `encode` can answer: digits only, at least one, no leading zero but in "0". */
  predicate Canonical(s: string) {
    s != "" && (forall k :: 0 <= k < |s| ==> IsDigit(s[k])) && (s[0] == '0' ==> |s| == 1)
  }

  // --- Round trips ------------------------------------------------------------------------------

  lemma ValueAppend(s: string, i: nat)
    requires Value(s).Ok? && i < 62
    ensures Value(s + [Letter(i)]) == Ok(Value(s).value * 62 + i)
  {
    assert (s + [Letter(i)])[..|s|] == s;
  }

  lemma {:induction false} DecodeEncode(n: nat)
    ensures Value(Numeral(n)) == Ok(n) && Value(Digits(n)) == Ok(n)
  {
    if n > 0 {
      DecodeEncode(n / 62);
      ValueAppend(Digits(n / 62), n % 62);
    } else {
      assert "0" == "" + [Letter(0)];
      ValueAppend("", 0);
    }
  }

  lemma EncodeInjective(m: nat, n: nat)
    requires Numeral(m) == Numeral(n)
    ensures m == n
  {
    DecodeEncode(m);
    DecodeEncode(n);
  }

  lemma {:induction false} DigitsCanonical(n: nat)
    requires n > 0
    ensures Canonical(Digits(n)) && Digits(n)[0] != '0'
  {
    if n >= 62 {
      DigitsCanonical(n / 62);
    } else {
      assert Digits(n) == [Letter(n)];
    }
  }

  /** The first character that is not a digit, at `k`. */
  predicate FirstInvalid(s: string, k: nat) {
    k < |s| && !IsDigit(s[k]) && forall j :: 0 <= j < k ==> IsDigit(s[j])
  }

  /** Decoding fails at the first character that is not a digit, and only there. */
  lemma {:induction false} DecodesIff(s: string)
    ensures Value(s).Ok? <==> forall k :: 0 <= k < |s| ==> IsDigit(s[k])
    ensures !Value(s).Ok? ==> exists k: nat :: FirstInvalid(s, k) && Value(s) == InvalidCharacter(s[k])
  {
    if s != "" {
      var t := s[..|s| - 1];
      DecodesIff(t);
      if Value(t).Ok? {
        assert !IsDigit(s[|s| - 1]) ==> FirstInvalid(s, |s| - 1);
      } else {
        var k: nat :| FirstInvalid(t, k) && Value(t) == InvalidCharacter(t[k]);
        assert FirstInvalid(s, k);
      }
    }
  }

  lemma {:induction false} EncodeDecodeDigits(s: string)
    requires Canonical(s) && s[0] != '0'
    ensures Value(s).Ok? && Value(s).value > 0 && Digits(Value(s).value) == s
  {
    var t, c := s[..|s| - 1], s[|s| - 1];
    if t != "" {
      EncodeDecodeDigits(t);
    }
    assert IsDigit(c);
    var v := Value(t).value;
    DigitsAppend(v, DigitOf(c));
    assert s == t + [c];
  }

  lemma DigitsAppend(v: nat, i: nat)
    requires i < 62 && (v > 0 || i > 0)
    ensures Digits(v * 62 + i) == Digits(v) + [Letter(i)]
  {
    assert (v * 62 + i) / 62 == v && (v * 62 + i) % 62 == i;
  }

  /** Exactly the canonical strings survive decoding and encoding again. */
  lemma EncodeDecodeIff(s: string)
    ensures (Value(s).Ok? && Numeral(Value(s).value) == s) <==> Canonical(s)
  {
    if Canonical(s) {
      if s[0] == '0' {
        assert s == "0";
        DecodeEncode(0);
      } else {
        EncodeDecodeDigits(s);
      }
    } else if Value(s).Ok? && Value(s).value > 0 {
      DigitsCanonical(Value(s).value);
    }
  }

  /** What a single character decodes to. */
  lemma DigitValues(c: char)
    ensures Value([c]) == if '0' <= c <= '9' then Ok(c as int - '0' as int)
                          else if 'a' <= c <= 'z' then Ok(10 + (c as int - 'a' as int))
                          else if 'A' <= c <= 'Z' then Ok(36 + (c as int - 'A' as int))
                          else InvalidCharacter(c)
  {
    assert [c][..0] == "";
  }

  /** Each further digit counts once, and those before it 62 times what they counted. */
  lemma OneMoreDigit(s: string, c: char)
    requires Value(s).Ok? && Value([c]).Ok?
    ensures Value(s + [c]) == Ok(62 * Value(s).value + Value([c]).value)
  {
    assert (s + [c])[..|s|] == s && [c][..0] == "";
  }

  function Power62(k: nat): (p: nat)
    ensures p >= 1
  {
    if k == 0 then 1 else 62 * Power62(k - 1)
  }

  /** A number below 62 to the `k` has at most `k` digits, and no other number has. */
  lemma {:induction false} LengthIff(n: nat, k: nat)
    ensures |Digits(n)| <= k <==> n < Power62(k)
  {
    if n > 0 && k > 0 { LengthIff(n / 62, k - 1); }
  }

  /** Any 63-bit number fits 11 characters. */
  lemma ElevenCharacters(n: nat)
    requires n < 0x8000_0000_0000_0000
    ensures 1 <= |Numeral(n)| <= 11
  {
    LengthIff(n, 11);
  }

  // --- The loops --------------------------------------------------------------------------------

  const ALPHABET: string := "0123456789" + "abcdefghijklmnopqrstuvwxyz" + "ABCDEFGHIJKLMNOPQRSTUVWXYZ"

  lemma AlphabetLetters(i: nat)
    requires i < 62
    ensures |ALPHABET| == 62 && ALPHABET[i] == Letter(i)
  {
    if i < 10 {
      assert "0123456789"[i] == '0' + i as char;
    } else if i < 36 {
      assert "abcdefghijklmnopqrstuvwxyz"[i - 10] == 'a' + (i - 10) as char;
    } else {
      assert "ABCDEFGHIJKLMNOPQRSTUVWXYZ"[i - 36] == 'A' + (i - 36) as char;
    }
  }

  /** Where `c` first occurs in the alphabet, -1 if nowhere. */
  method Index(c: char) returns (index: int)
    ensures index == DigitOf(c)
  {
    for i := 0 to |ALPHABET|
      invariant forall j :: 0 <= j < i ==> Letter(j) != c
    {
      AlphabetLetters(i);
      if ALPHABET[i] == c { return i; }
    }
    AlphabetLetters(0);
    return -1;
  }

  function Reversed(s: string): (r: string)
    ensures |r| == |s| && forall k :: 0 <= k < |s| ==> r[k] == s[|s| - 1 - k]
  {
    seq(|s|, k requires 0 <= k < |s| => s[|s| - 1 - k])
  }

  method Encode(number: int) returns (r: Result<string>)
    ensures number < 0 ==> r == NegativeNumber
    ensures number >= 0 ==> r == Ok(Numeral(number))
  {
    if number < 0 { return NegativeNumber; }
    AlphabetLetters(0);
    if number == 0 { return Ok([ALPHABET[0]]); }
    var encoded: string, value: nat := [], number;
    while value != 0
      invariant Digits(number) == Digits(value) + Reversed(encoded)
    {
      var remainder := value % 62;
      AlphabetLetters(remainder);
      assert Reversed(encoded + [ALPHABET[remainder]]) == [ALPHABET[remainder]] + Reversed(encoded);
      value, encoded := value / 62, encoded + [ALPHABET[remainder]];
    }
    assert Digits(number) == Reversed(encoded);
    return Ok(Reversed(encoded));
  }

  method Decode(encoded: string) returns (r: Result<nat>)
    ensures r == Value(encoded)
  {
    var value: nat := 0;
    for k := 0 to |encoded|
      invariant Value(encoded[..k]) == Ok(value)
    {
      var index := Index(encoded[k]);
      assert encoded[..k + 1][..k] == encoded[..k];
      if index < 0 {
        ErrorStays(encoded, k + 1);
        return InvalidCharacter(encoded[k]);
      }
      value := value * 62 + index;
    }
    assert encoded == encoded[..|encoded|];
    return Ok(value);
  }

  lemma {:induction false} ErrorStays(s: string, k: nat)
    requires k <= |s| && !Value(s[..k]).Ok?
    ensures Value(s) == Value(s[..k])
  {
    if k < |s| {
      assert s[..|s| - 1][..k] == s[..k];
      ErrorStays(s[..|s| - 1], k);
    } else {
      assert s[..k] == s;
    }
  }
}
