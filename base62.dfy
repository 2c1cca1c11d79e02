/** `encodeHexToBase62`: read a hex string as a number, write it in base 62
    most significant digit first, and keep a prefix of the digits. The
    alphabet constant lives outside the modelled files, so it is a parameter:
    any 62 distinct characters, digit d written as `alphabet[d]`. */
module Base62 {
  import opened Text

  /** The default length of a short code. */
  const DefaultCodeLength: nat := 8

  predicate IsAlphabet(alphabet: seq<char>) {
    |alphabet| == 62 && forall i, j :: 0 <= i < j < |alphabet| ==> alphabet[i] != alphabet[j]
  }

  function Pow(b: nat, e: nat): (p: nat)
    ensures b >= 1 ==> p >= 1
  {
    if e == 0 then 1 else b * Pow(b, e - 1)
  }

  // ---------------------------------------------------------------------
  // Numbers and their digit strings

  /** `BigInt('0x' + hex)`: the value of a hex string, most significant digit first. */
  function HexValue(hex: string): (v: nat)
    requires IsHexString(hex)
    ensures v < Pow(16, |hex|)
  {
    if hex == [] then 0
    else HexValue(hex[..|hex| - 1]) * 16 + HexDigitValue(hex[|hex| - 1])
  }

  /** The base-62 digits of `n`, most significant first, with no leading zero
      digit (zero itself is the single digit `alphabet[0]`). */
  function Digits(alphabet: seq<char>, n: nat): (r: string)
    requires |alphabet| == 62
    ensures r != []
    decreases n
  {
    if n < 62 then [alphabet[n]]
    else Digits(alphabet, n / 62) + [alphabet[n % 62]]
  }

  /** The position of a character in the alphabet. */
  function IndexOf(alphabet: seq<char>, c: char): (d: nat)
    requires c in alphabet
    ensures d < |alphabet| && alphabet[d] == c
  {
    if alphabet[0] == c then 0 else 1 + IndexOf(alphabet[1..], c)
  }

  predicate InAlphabet(alphabet: seq<char>, s: string) {
    forall i :: 0 <= i < |s| ==> s[i] in alphabet
  }

  /** A base-62 digit string read back as a number. */
  function Decode(alphabet: seq<char>, s: string): nat
    requires InAlphabet(alphabet, s)
  {
    if s == [] then 0
    else Decode(alphabet, s[..|s| - 1]) * 62 + IndexOf(alphabet, s[|s| - 1])
  }

  lemma IndexOfDigit(alphabet: seq<char>, d: nat)
    requires IsAlphabet(alphabet) && d < 62
    ensures IndexOf(alphabet, alphabet[d]) == d
  {
  }

  /** Every digit is a character of the alphabet, and reading the digits back
      gives the number. */
  lemma {:induction false} DigitsDecode(alphabet: seq<char>, n: nat)
    requires IsAlphabet(alphabet)
    ensures InAlphabet(alphabet, Digits(alphabet, n))
    ensures Decode(alphabet, Digits(alphabet, n)) == n
    decreases n
  {
    var d := Digits(alphabet, n);
    if n < 62 {
      IndexOfDigit(alphabet, n);
      assert d[..0] == [];
    } else {
      DigitsDecode(alphabet, n / 62);
      IndexOfDigit(alphabet, n % 62);
      assert d[..|d| - 1] == Digits(alphabet, n / 62);
    }
  }

  /** A non-zero number's digits never start with the zero digit. */
  lemma {:induction false} DigitsNoLeadingZero(alphabet: seq<char>, n: nat)
    requires IsAlphabet(alphabet) && n > 0
    ensures Digits(alphabet, n)[0] != alphabet[0]
    decreases n
  {
    if n >= 62 {
      DigitsNoLeadingZero(alphabet, n / 62);
    }
  }

  /** `Digits` is one-to-one: distinct numbers have distinct digit strings. */
  lemma DigitsInjective(alphabet: seq<char>, m: nat, n: nat)
    requires IsAlphabet(alphabet)
    ensures Digits(alphabet, m) == Digits(alphabet, n) <==> m == n
  {
    DigitsDecode(alphabet, m);
    DigitsDecode(alphabet, n);
  }

  /** The number of digits is the least k with n < 62^k (and at least one). */
  lemma {:induction false} DigitsLength(alphabet: seq<char>, n: nat)
    requires |alphabet| == 62
    ensures n < Pow(62, |Digits(alphabet, n)|)
    ensures n >= 62 ==> Pow(62, |Digits(alphabet, n)| - 1) <= n
    decreases n
  {
    if n >= 62 {
      DigitsLength(alphabet, n / 62);
      var k := |Digits(alphabet, n / 62)|;
      assert |Digits(alphabet, n)| == k + 1;
      assert n / 62 < Pow(62, k);
      assert n < 62 * Pow(62, k);
      if n / 62 >= 62 {
        assert Pow(62, k - 1) <= n / 62;
        assert 62 * Pow(62, k - 1) <= n;
      } else {
        assert k == 1;
      }
    }
  }

  /** A value below 62^k has at most k digits. */
  lemma DigitsAtMost(alphabet: seq<char>, n: nat, k: nat)
    requires |alphabet| == 62 && k >= 1 && n < Pow(62, k)
    ensures |Digits(alphabet, n)| <= k
  {
    DigitsLength(alphabet, n);
    var len := |Digits(alphabet, n)|;
    if len > 1 {
      PowMonotone(len - 1, k);
    }
  }

  lemma {:induction false} PowMonotone(i: nat, j: nat)
    requires i <= j
    ensures Pow(62, i) <= Pow(62, j)
    decreases j
  {
    if i < j {
      PowMonotone(i, j - 1);
    }
  }

  /** p is n divided by 62^k, rounded down. */
  predicate DividedDown(p: nat, n: nat, k: nat) {
    p * Pow(62, k) <= n < (p + 1) * Pow(62, k)
  }

  /** Dropping the last j digits leaves the number divided by 62^j, rounded
      down: a prefix of the digits is the most significant part of the number. */
  lemma {:induction false} DigitsPrefixValue(alphabet: seq<char>, n: nat, j: nat)
    requires IsAlphabet(alphabet) && j <= |Digits(alphabet, n)|
    ensures InAlphabet(alphabet, Digits(alphabet, n)[..|Digits(alphabet, n)| - j])
    ensures DividedDown(Decode(alphabet, Digits(alphabet, n)[..|Digits(alphabet, n)| - j]), n, j)
    decreases n
  {
    var d := Digits(alphabet, n);
    DigitsDecode(alphabet, n);
    if j == 0 {
      assert d[..|d|] == d;
    } else if n < 62 {
      assert d[..|d| - j] == [];
      assert Pow(62, j) == 62;
    } else {
      var d' := Digits(alphabet, n / 62);
      assert d[..|d| - j] == d'[..|d'| - (j - 1)];
      DigitsPrefixValue(alphabet, n / 62, j - 1);
      ScaleBounds(n, Decode(alphabet, d'[..|d'| - (j - 1)]), Pow(62, j - 1));
    }
  }

  /** If p·b ≤ ⌊n/62⌋ < (p+1)·b then p·62b ≤ n < (p+1)·62b. */
  lemma ScaleBounds(n: nat, p: nat, b: nat)
    requires p * b <= n / 62 < (p + 1) * b
    ensures p * (62 * b) <= n < (p + 1) * (62 * b)
  {
    assert p * (62 * b) == 62 * (p * b);
    assert (p + 1) * (62 * b) == 62 * ((p + 1) * b);
  }

  // ---------------------------------------------------------------------
  // The encoder

  /** What `encodeHexToBase62(hex, length)` returns: the zero digit for a zero
      value, otherwise the first `length` base-62 digits of the value. */
  function EncodeHex(alphabet: seq<char>, hex: string, length: nat): string
    requires IsAlphabet(alphabet) && IsHexString(hex) && hex != []
  {
    var value := HexValue(hex);
    if value == 0 then [alphabet[0]]
    else
      var digits := Digits(alphabet, value);
      digits[..Min(length, |digits|)]
  }

  /** A zero value encodes as the zero digit alone, whatever the length. */
  lemma EncodeHexZero(alphabet: seq<char>, hex: string, length: nat)
    requires IsAlphabet(alphabet) && IsHexString(hex) && hex != [] && HexValue(hex) == 0
    ensures EncodeHex(alphabet, hex, length) == [alphabet[0]]
  {
  }

  /** Every character of a code is in the alphabet. */
  lemma EncodeHexInAlphabet(alphabet: seq<char>, hex: string, length: nat)
    requires IsAlphabet(alphabet) && IsHexString(hex) && hex != []
    ensures InAlphabet(alphabet, EncodeHex(alphabet, hex, length))
  {
    var value := HexValue(hex);
    if value > 0 {
      DigitsDecode(alphabet, value);
    }
  }

  /** For a non-zero value the code is the first `length` digits of the value
      (all of them when there are fewer), and its first digit is not zero. */
  lemma EncodeHexPrefix(alphabet: seq<char>, hex: string, length: nat)
    requires IsAlphabet(alphabet) && IsHexString(hex) && hex != [] && HexValue(hex) > 0
    ensures var code, digits := EncodeHex(alphabet, hex, length), Digits(alphabet, HexValue(hex));
      && |code| == Min(length, |digits|)
      && code <= digits
      && (length > 0 ==> code[0] != alphabet[0])
  {
    DigitsNoLeadingZero(alphabet, HexValue(hex));
  }

  /** For a non-zero value the code, read back in base 62, is the value with
      the dropped low digits divided away. */
  lemma EncodeHexValue(alphabet: seq<char>, hex: string, length: nat)
    requires IsAlphabet(alphabet) && IsHexString(hex) && hex != [] && HexValue(hex) > 0
    ensures var code, digits := EncodeHex(alphabet, hex, length), Digits(alphabet, HexValue(hex));
      && InAlphabet(alphabet, code)
      && DividedDown(Decode(alphabet, code), HexValue(hex), |digits| - |code|)
  {
    var value := HexValue(hex);
    var digits := Digits(alphabet, value);
    var code := EncodeHex(alphabet, hex, length);
    var dropped := |digits| - Min(length, |digits|);
    assert code == digits[..|digits| - dropped];
    assert |digits| - |code| == dropped;
    DigitsPrefixValue(alphabet, value, dropped);
  }

  /** A 16-digit hex value, the default hash length, has at most 11 base-62
      digits, so the default code of 8 characters drops at most 3 of them. */
  lemma SixteenHexDigits(alphabet: seq<char>, hex: string)
    requires IsAlphabet(alphabet) && IsHexString(hex) && |hex| == 16
    ensures |Digits(alphabet, HexValue(hex))| <= 11
  {
    assert Pow(16, 8) == 4294967296;
    assert Pow(16, 16) == 18446744073709551616;
    assert Pow(62, 5) == 916132832;
    assert Pow(62, 11) == 52036560683837093888;
    DigitsAtMost(alphabet, HexValue(hex), 11);
  }

  /** `encodeHexToBase62`: divide by 62 until nothing is left, prepending the
      digit for each remainder, then cut the result to `length` characters. */
  method EncodeHexToBase62(alphabet: seq<char>, hex: string, length: nat) returns (code: string)
    requires IsAlphabet(alphabet) && IsHexString(hex) && hex != []
    ensures code == EncodeHex(alphabet, hex, length)
  {
    var value: nat := HexValue(hex);
    if value == 0 {
      return [alphabet[0]];
    }
    ghost var v0 := value;
    var result := "";
    while value > 0
      invariant value > 0 ==> Digits(alphabet, value) + result == Digits(alphabet, v0)
      invariant value == 0 ==> result == Digits(alphabet, v0)
      decreases value
    {
      var remainder := value % 62;
      result := [alphabet[remainder]] + result;
      value := value / 62;
    }
    code := result[..Min(length, |result|)];
  }
}
