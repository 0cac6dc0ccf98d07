/** Bytes and the big-endian 32-bit words the archive format is written in. */
module Bytes {

  type Byte = n: int | 0 <= n < 0x100

  /** One more than the largest `uint32`. */
  const WORD: nat := 0x1_0000_0000

  function Be32(n: nat): (b: seq<Byte>)
    requires n < WORD
    ensures |b| == 4
  {
    [n / 0x100_0000, n / 0x1_0000 % 0x100, n / 0x100 % 0x100, n % 0x100]
  }

  function FromBe32(b: seq<Byte>): (n: nat)
    requires |b| == 4
    ensures n < WORD
  {
    var b0: int, b1: int, b2: int, b3: int := b[0], b[1], b[2], b[3];
    b0 * 0x100_0000 + b1 * 0x1_0000 + b2 * 0x100 + b3
  }

  lemma Be32RoundTrip(n: nat)
    requires n < WORD
    ensures FromBe32(Be32(n)) == n
  {
    var hi := n / 0x1_0000;
    assert hi / 0x100 == n / 0x100_0000;
    assert n / 0x100 == hi * 0x100 + n % 0x1_0000 / 0x100;
  }

  lemma FromBe32RoundTrip(b: seq<Byte>)
    requires |b| == 4
    ensures Be32(FromBe32(b)) == b
  {
    var n := FromBe32(b);
    var b0: int, b1: int, b2: int := b[0], b[1], b[2];
    assert n / 0x100_0000 == b0;
    assert n / 0x1_0000 == b0 * 0x100 + b1;
    assert n / 0x100 == b0 * 0x1_0000 + b1 * 0x100 + b2;
  }

  lemma Be32Injective(m: nat, n: nat)
    requires m < WORD && n < WORD && Be32(m) == Be32(n)
    ensures m == n
  {
    Be32RoundTrip(m);
    Be32RoundTrip(n);
  }

  /** Counting modulo a word is counting, then reducing. */
  lemma NextWord(k: nat)
    ensures (k % WORD + 1) % WORD == (k + 1) % WORD
  {
    assert k == k / WORD * WORD + k % WORD;
    if k % WORD + 1 == WORD {
      assert k + 1 == (k / WORD + 1) * WORD;
    } else {
      assert k + 1 == k / WORD * WORD + (k % WORD + 1);
    }
  }

  lemma SmallWord(k: nat)
    requires k < WORD
    ensures k % WORD == k
  {
  }

  lemma ConcatAssoc(a: seq<Byte>, b: seq<Byte>, c: seq<Byte>)
    ensures a + b + c == a + (b + c)
  {
  }

  lemma ConcatCancels(a: seq<Byte>, b: seq<Byte>, c: seq<Byte>)
    ensures a + b == a + c <==> b == c
    ensures b <= c ==> a + b <= a + c
  {
    assert (a + b)[|a|..] == b && (a + c)[|a|..] == c;
  }
}
