// BlurHash's base-83 numerals.
module Base83 {
  import opened Options

  const DIGITS := "0123456789"
  const UPPER := "ABCDEFGHIJKLMNOPQRSTUVWXYZ"
  const LOWER := "abcdefghijklmnopqrstuvwxyz"
  const PUNCTUATION := "#$%*+,-.:;=?@[]^_{|}~"
  const CHARACTERS := DIGITS + UPPER + LOWER + PUNCTUATION

  function Power83(k: nat): (p: nat)
    ensures p > 0
  {
    if k == 0 then 1 else 83 * Power83(k - 1)
  }

  // pow(83, exponent)
  method Pow(exponent: nat) returns (p: nat)
    ensures p == Power83(exponent)
  {
    p := 1;
    for i := 0 to exponent
      invariant p == Power83(i)
    {
      p := p * 83;
    }
  }

  // The numeral of a character, by code ranges.
  function DigitOf(c: char): Option<nat> {
    if '0' <= c <= '9' then Some(c as int - '0' as int)
    else if 'A' <= c <= 'Z' then Some(c as int - 'A' as int + 10)
    else if 'a' <= c <= 'z' then Some(c as int - 'a' as int + 36)
    else match c
      case '#' => Some(62) case '$' => Some(63) case '%' => Some(64) case '*' => Some(65) case '+' => Some(66)
      case ',' => Some(67) case '-' => Some(68) case '.' => Some(69) case ':' => Some(70) case ';' => Some(71)
      case '=' => Some(72) case '?' => Some(73) case '@' => Some(74) case '[' => Some(75) case ']' => Some(76)
      case '^' => Some(77) case '_' => Some(78) case '{' => Some(79) case '|' => Some(80) case '}' => Some(81)
      case '~' => Some(82)
      case _ => None
  }

  lemma InDigits(d: nat)
    requires d < 10
    ensures DIGITS[d] as int == '0' as int + d
  {
  }

  lemma InUpper(d: nat)
    requires d < 26
    ensures UPPER[d] as int == 'A' as int + d
  {
  }

  lemma InLower(d: nat)
    requires d < 26
    ensures LOWER[d] as int == 'a' as int + d
  {
  }

  lemma InPunctuation(d: nat)
    requires d < 21
    ensures DigitOf(PUNCTUATION[d]) == Some(62 + d)
  {
  }

  lemma Sizes()
    ensures |DIGITS| == 10 && |UPPER| == 26 && |LOWER| == 26 && |PUNCTUATION| == 21 && |CHARACTERS| == 83
  {
  }

  // The 83 characters are distinct: each numeral's character denotes that numeral.
  lemma CharacterDenotes(d: nat)
    requires d < 83
    ensures |CHARACTERS| == 83 && DigitOf(CHARACTERS[d]) == Some(d)
  {
    Sizes();
    hide DIGITS, UPPER, LOWER, PUNCTUATION;
    if d < 10 {
      InDigits(d);
    } else if d < 36 {
      InUpper(d - 10);
    } else if d < 62 {
      InLower(d - 36);
    } else {
      InPunctuation(d - 62);
    }
  }

  // No other character denotes a numeral.
  lemma DigitIsCharacter(c: char)
    ensures var d := DigitOf(c); d.Some? ==> d.value < 83 && |CHARACTERS| == 83 && CHARACTERS[d.value] == c
  {
    hide CHARACTERS;
    var d := DigitOf(c);
    if d.Some? {
      CharacterDenotes(d.value);
      DigitOfInjective(c, CHARACTERS[d.value]);
    }
  }

  lemma DigitOfInjective(c: char, d: char)
    requires DigitOf(c).Some? && DigitOf(c) == DigitOf(d)
    ensures c == d
  {
  }

  function Symbol(d: nat): char
    requires d < 83
  {
    Sizes();
    CHARACTERS[d]
  }

  // decodeCharacters: the dictionary filled from the alphabet.
  method DecodeCharacters() returns (dict: map<char, nat>)
    ensures forall c :: c in dict <==> DigitOf(c).Some?
    ensures forall c :: c in dict ==> Some(dict[c]) == DigitOf(c)
  {
    hide CHARACTERS, DigitOf;
    Sizes();
    dict := map[];
    for index := 0 to |CHARACTERS|
      invariant forall c :: c in dict <==> DigitOf(c).Some? && DigitOf(c).value < index
      invariant forall c :: c in dict ==> Some(dict[c]) == DigitOf(c)
    {
      CharacterDenotes(index);
      forall c | DigitOf(c) == Some(index)
        ensures c == CHARACTERS[index]
      {
        DigitIsCharacter(c);
      }
      dict := dict[CHARACTERS[index] := index];
    }
    forall c | DigitOf(c).Some?
      ensures DigitOf(c).value < 83
    {
      DigitIsCharacter(c);
    }
  }

  // ---- Numerals ----

  // The last `length` base-83 digits of a number, by repeated division.
  function Encode83(n: nat, length: nat): (s: string)
    ensures |s| == length
  {
    if length == 0 then "" else Encode83(n / 83, length - 1) + [Symbol(n % 83)]
  }

  // The value of the numerals in a string; other characters are passed over.
  function Decode83(s: string): nat {
    if |s| == 0 then 0
    else
      var value, digit := Decode83(s[..|s| - 1]), DigitOf(s[|s| - 1]);
      if digit.Some? then value * 83 + digit.value else value
  }

  predicate Numeral(s: string) {
    forall i :: 0 <= i < |s| ==> DigitOf(s[i]).Some?
  }

  lemma Multiple(x: int, d: int)
    requires d >= 0
    ensures (x >= 1 ==> x * d >= d) && (x <= -1 ==> x * d <= -d)
  {
  }

  lemma QuotientIs(n: nat, d: nat, q: nat, r: nat)
    requires d > 0 && n == q * d + r && r < d
    ensures n / d == q && n % d == r
  {
    var x := n / d - q;
    assert x * d == n / d * d - q * d;
    Multiple(x, d);
  }

  function Quotient(n: nat, d: nat): nat
    requires d > 0
  {
    n / d
  }

  lemma DivideTwice(n: nat, p: nat)
    requires p > 0
    ensures Quotient(n, p) / 83 == Quotient(n, 83 * p)
  {
    var q, r := n / p, n % p;
    SplitQuotient(n, p, q, r, q / 83, q % 83);
    QuotientIs(n, 83 * p, q / 83, q % 83 * p + r);
  }

  lemma SplitQuotient(n: nat, p: nat, q: nat, r: nat, a: nat, b: nat)
    requires n == q * p + r && r < p && q == a * 83 + b && b < 83
    ensures n == a * (83 * p) + (b * p + r) && b * p + r < 83 * p
  {
    assert q * p == a * 83 * p + b * p;
    assert b * p <= 82 * p;
  }

  lemma EncodeStep(n: nat, p: nat, i: nat)
    requires p > 0
    ensures Encode83(Quotient(n, p), i + 1) == Encode83(Quotient(n, 83 * p), i) + [Symbol(Quotient(n, p) % 83)]
  {
    hide Symbol, Quotient;
    DivideTwice(n, p);
  }

  // encode83(length:), most significant digit first, each one by a division of its own.
  method EncodeBase83(n: nat, length: nat) returns (result: string)
    requires length >= 1
    ensures result == Encode83(n, length)
  {
    hide Symbol, Encode83, Quotient;
    result := "";
    EncodeNothing(Quotient(n, Power83(length)));
    for i := 1 to length + 1
      invariant result == Encode83(Quotient(n, Power83(length + 1 - i)), i - 1)
    {
      var p := Pow(length - i);
      var digit := Quotient(n, p) % 83;
      EncodeStep(n, p, i - 1);
      result := result + [Symbol(digit)];
    }
    QuotientOfOne(n);
  }

  lemma QuotientOfOne(n: nat)
    ensures Quotient(n, Power83(0)) == n
  {
  }

  lemma EncodeNothing(n: nat)
    ensures Encode83(n, 0) == ""
  {
  }

  method DecodeBase83(s: string) returns (value: nat)
    ensures value == Decode83(s)
  {
    hide DigitOf;
    var dict := DecodeCharacters();
    value := 0;
    for i := 0 to |s|
      invariant value == Decode83(s[..i])
    {
      assert s[..i + 1][..i] == s[..i];
      if s[i] in dict {
        value := value * 83 + dict[s[i]];
      }
    }
    assert s[..|s|] == s;
  }

  lemma LowDigits(n: nat, p: nat)
    requires p > 0
    ensures n / 83 % p * 83 + n % 83 == n % (83 * p)
  {
    var q := n / 83;
    var a, b := q / p, q % p;
    assert n == q * 83 + n % 83 && q == a * p + b;
    assert n == a * (83 * p) + (b * 83 + n % 83);
    QuotientIs(n, 83 * p, a, b * 83 + n % 83);
  }

  // Decoding what was encoded gives the number modulo 83^length.
  lemma {:induction false} DecodeEncode(n: nat, length: nat)
    ensures Decode83(Encode83(n, length)) == n % Power83(length)
  {
    hide DigitOf;
    if length > 0 {
      var s := Encode83(n, length);
      assert s[..length - 1] == Encode83(n / 83, length - 1);
      CharacterDenotes(n % 83);
      DecodeEncode(n / 83, length - 1);
      LowDigits(n, Power83(length - 1));
    } else {
      assert n % 1 == 0;
    }
  }

  lemma {:induction false} EncodedIsNumeral(n: nat, length: nat)
    ensures Numeral(Encode83(n, length))
  {
    hide DigitOf, Symbol;
    if length > 0 {
      EncodedIsNumeral(n / 83, length - 1);
      SymbolIsDigit(n % 83);
    }
  }

  lemma SymbolIsDigit(d: nat)
    requires d < 83
    ensures DigitOf(Symbol(d)) == Some(d)
  {
    CharacterDenotes(d);
  }

  lemma {:induction false} DecodeBound(s: string)
    ensures Decode83(s) < Power83(|s|)
  {
    if |s| > 0 {
      DecodeBound(s[..|s| - 1]);
      DigitIsCharacter(s[|s| - 1]);
      hide DigitOf;
    }
  }

  // Encoding what was decoded gives the string back exactly if every character of it is one
  // of the 83.
  lemma {:induction false} EncodeDecode(s: string)
    ensures Encode83(Decode83(s), |s|) == s <==> Numeral(s)
  {
    EncodedIsNumeral(Decode83(s), |s|);
    if Numeral(s) {
      EncodeDecodeNumeral(s);
    }
  }

  lemma {:induction false} EncodeDecodeNumeral(s: string)
    requires Numeral(s)
    ensures Encode83(Decode83(s), |s|) == s
  {
    hide DigitOf;
    if |s| > 0 {
      var front := s[..|s| - 1];
      DigitIsCharacter(s[|s| - 1]);
      EncodeDecodeNumeral(front);
      var d := DigitOf(s[|s| - 1]).value;
      QuotientIs(Decode83(s), 83, Decode83(front), d);
      assert s == front + [s[|s| - 1]];
    }
  }

  function Numerals(s: string): string {
    if |s| == 0 then "" else
    var front, last := Numerals(s[..|s| - 1]), s[|s| - 1];
    if DigitOf(last).Some? then front + [last] else front
  }

  // Characters outside the alphabet do not count.
  lemma {:induction false} OtherCharactersAreSkipped(s: string)
    ensures Decode83(s) == Decode83(Numerals(s)) && Numeral(Numerals(s))
  {
    hide DigitOf;
    if |s| > 0 {
      OtherCharactersAreSkipped(s[..|s| - 1]);
      var front, last := Numerals(s[..|s| - 1]), s[|s| - 1];
      assert (front + [last])[..|front|] == front;
    }
  }
}
