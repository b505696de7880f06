/** The invitation-token generator: each random byte picks one character of
    a 62-letter alphabet. The random source is a parameter (the bytes). */
module TokenGenerator {

  newtype byte = x: int | 0 <= x < 256

  const Upper: string := "ABCDEFGHIJKLMNOPQRSTUVWXYZ"
  const Lower: string := "abcdefghijklmnopqrstuvwxyz"
  const Digits: string := "0123456789"

  /** The alphabet, in the source's order: A-Z, a-z, 0-9. */
  const Characters: string := Upper + Lower + Digits

  /** A token character is an ASCII letter or digit. */
  predicate Alphanumeric(c: char) {
    'A' <= c <= 'Z' || 'a' <= c <= 'z' || '0' <= c <= '9'
  }

  /** `Math.floor((byte / 256) * 62)`. In binary floating point `byte / 256`
      is exact and so is its product with 62, so the floor is the integer
      quotient below. */
  function CharIndex(b: byte): (k: nat)
    ensures k < |Characters|
    ensures k * 256 <= b as int * 62 < (k + 1) * 256
  {
    assert |Characters| == 62;
    (b as int * |Characters|) / 256
  }

  /** One character per byte, joined. */
  function GenerateToken(randomBytes: seq<byte>): (token: string)
    ensures |token| == |randomBytes|
    ensures forall i :: 0 <= i < |token| ==> token[i] == Characters[CharIndex(randomBytes[i])]
    ensures forall i :: 0 <= i < |token| ==> token[i] in Characters
  {
    seq(|randomBytes|, i requires 0 <= i < |randomBytes| => Characters[CharIndex(randomBytes[i])])
  }

  /** The alphabet holds only letters and digits, 62 of them. */
  lemma AlphabetIsAlphanumeric()
    ensures |Characters| == 62
    ensures forall c :: c in Characters ==> Alphanumeric(c)
  {
    UpperAreLetters();
    LowerAreLetters();
    DigitsAreDigits();
    forall c | c in Characters ensures Alphanumeric(c) {
      assert c in Upper || c in Lower || c in Digits;
    }
  }

  lemma UpperAreLetters()
    ensures forall c :: c in Upper ==> 'A' <= c <= 'Z'
  {
  }

  lemma LowerAreLetters()
    ensures forall c :: c in Lower ==> 'a' <= c <= 'z'
  {
  }

  lemma DigitsAreDigits()
    ensures forall c :: c in Digits ==> '0' <= c <= '9'
  {
  }

  /** A larger byte never picks an earlier character. */
  lemma CharIndexMonotone(b1: byte, b2: byte)
    requires b1 <= b2
    ensures CharIndex(b1) <= CharIndex(b2)
  {
    var k1, k2 := CharIndex(b1), CharIndex(b2);
    assert k1 * 256 <= b1 as int * 62 <= b2 as int * 62 < (k2 + 1) * 256;
  }

  /** The two ends of the byte range land on the two ends of the alphabet. */
  lemma CharIndexEnds()
    ensures Characters[CharIndex(0)] == 'A'
    ensures Characters[CharIndex(255)] == '9'
  {
    assert CharIndex(0) == 0 && Upper[0] == 'A';
    assert CharIndex(255) == 61 && Characters[61] == '9';
  }

  /** Every character of the alphabet can occur: the least byte that picks
      index `k` is the ceiling of `k * 256 / 62`. */
  lemma EveryCharacterReachable(k: nat)
    requires k < |Characters|
    ensures 0 <= (k * 256 + 61) / 62 < 256
    ensures CharIndex(((k * 256 + 61) / 62) as byte) == k
  {
    assert |Characters| == 62;
    var b := (k * 256 + 61) / 62;
    assert b * 62 <= k * 256 + 61 < b * 62 + 62;
    assert b < 256;
    var j := CharIndex(b as byte);
    assert j * 256 <= b * 62 < (j + 1) * 256;
    assert k * 256 <= b * 62;
    assert b * 62 < k * 256 + 256;
  }

  /** The mapping is not uniform: 256 bytes over 62 characters gives 'A'
      five byte values (0..4) and 'B' four (5..8). */
  lemma CharIndexBias()
    ensures forall b: byte :: 0 <= b <= 4 ==> CharIndex(b) == 0
    ensures forall b: byte :: 5 <= b <= 8 ==> CharIndex(b) == 1
    ensures CharIndex(9) == 2
  {
  }

  /** Tokens are built position by position: concatenated bytes give the
      concatenated tokens. */
  lemma {:induction false} GenerateTokenConcat(a: seq<byte>, b: seq<byte>)
    ensures GenerateToken(a + b) == GenerateToken(a) + GenerateToken(b)
  {
    var l, r := GenerateToken(a + b), GenerateToken(a) + GenerateToken(b);
    assert |l| == |r|;
    forall i | 0 <= i < |l| ensures l[i] == r[i] {
      if i < |a| {
        assert (a + b)[i] == a[i];
      } else {
        assert (a + b)[i] == b[i - |a|];
      }
    }
  }
}
