/**
 * `generate_short_code` (url_shortener/models.py): a code of a given length whose
 * characters are drawn from the 62 ASCII letters and digits.
 *
 * The cryptographic random source is an oracle: `stream(i)` is the i-th draw of
 * `secrets.choice`, an index into the alphabet.
 */
module ShortCodes {

  /** `string.ascii_lowercase`, `string.ascii_uppercase` and `string.digits`, in order. */
  function AsciiLowercase(): string {
    seq(26, i requires 0 <= i < 26 => ('a' as int + i) as char)
  }

  function AsciiUppercase(): string {
    seq(26, i requires 0 <= i < 26 => ('A' as int + i) as char)
  }

  function Digits(): string {
    seq(10, i requires 0 <= i < 10 => ('0' as int + i) as char)
  }

  /** `string.ascii_letters + string.digits` */
  function Alphabet(): string {
    AsciiLowercase() + AsciiUppercase() + Digits()
  }

  lemma LowercaseSpelledOut()
    ensures AsciiLowercase() == "abcdefghijklmnopqrstuvwxyz"
  {
  }

  lemma UppercaseSpelledOut()
    ensures AsciiUppercase() == "ABCDEFGHIJKLMNOPQRSTUVWXYZ"
  {
  }

  lemma DigitsSpelledOut()
    ensures Digits() == "0123456789"
  {
  }

  /** The alphabet spelled out, as Python's `string` module defines it. */
  lemma AlphabetSpelledOut()
    ensures Alphabet() == "abcdefghijklmnopqrstuvwxyzABCDEFGHIJKLMNOPQRSTUVWXYZ0123456789"
  {
    LowercaseSpelledOut();
    UppercaseSpelledOut();
    DigitsSpelledOut();
  }

  const DefaultLength: nat := 6

  /** What one draw of `secrets.choice(characters)` selects. */
  type AlphabetIndex = i: nat | i < 62

  /** The random source: the i-th draw. */
  type RandomStream = nat -> AlphabetIndex

  predicate IsAlphanumeric(c: char) {
    'a' <= c <= 'z' || 'A' <= c <= 'Z' || '0' <= c <= '9'
  }

  predicate AllAlphanumeric(s: string) {
    forall i :: 0 <= i < |s| ==> IsAlphanumeric(s[i])
  }

  /** The position of an alphanumeric character in `Alphabet`. */
  function IndexInAlphabet(c: char): (k: AlphabetIndex)
    requires IsAlphanumeric(c)
    ensures |Alphabet()| == 62 && Alphabet()[k] == c
  {
    if 'a' <= c <= 'z' then
      var k := c as int - 'a' as int;
      assert Alphabet()[k] == AsciiLowercase()[k];
      k
    else if 'A' <= c <= 'Z' then
      var k := c as int - 'A' as int;
      assert Alphabet()[26 + k] == AsciiUppercase()[k];
      26 + k
    else
      var k := c as int - '0' as int;
      assert Alphabet()[52 + k] == Digits()[k];
      52 + k
  }

  /** The alphabet holds exactly the 62 ASCII letters and digits. */
  lemma AlphabetIsAlphanumerics()
    ensures |Alphabet()| == 62
    ensures forall k :: 0 <= k < 62 ==> IsAlphanumeric(Alphabet()[k])
    ensures forall c :: c in Alphabet() <==> IsAlphanumeric(c)
  {
    forall k | 0 <= k < 62
      ensures IsAlphanumeric(Alphabet()[k])
    {
      if k < 26 {
        assert Alphabet()[k] == AsciiLowercase()[k];
      } else if k < 52 {
        assert Alphabet()[k] == AsciiUppercase()[k - 26];
      } else {
        assert Alphabet()[k] == Digits()[k - 52];
      }
    }
    forall c | IsAlphanumeric(c)
      ensures c in Alphabet()
    {
      var k := IndexInAlphabet(c);
    }
  }

  /** `generate_short_code(length)`, drawing from `stream` at positions `from`, `from + 1`, ... */
  function GenerateShortCode(length: nat, stream: RandomStream, from: nat): (code: string)
    ensures |code| == length
    ensures forall i :: 0 <= i < length ==> code[i] == Alphabet()[stream(from + i)]
    ensures AllAlphanumeric(code)
  {
    AlphabetIsAlphanumerics();
    seq(length, i requires 0 <= i < length => Alphabet()[stream(from + i)])
  }

  /** The oracle rules out no code: every alphanumeric string is what some stream generates. */
  lemma EveryCodeCanBeDrawn(code: string)
    requires AllAlphanumeric(code)
    ensures exists stream: RandomStream :: GenerateShortCode(|code|, stream, 0) == code
  {
    var stream: RandomStream := (i: nat) => if i < |code| && IsAlphanumeric(code[i]) then IndexInAlphabet(code[i]) else 0;
    var g := GenerateShortCode(|code|, stream, 0);
    assert forall i :: 0 <= i < |code| ==> g[i] == code[i];
    assert g == code;
  }
}
