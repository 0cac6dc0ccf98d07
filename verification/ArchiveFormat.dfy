/**
 The encrypted archive as a value: how a plaintext is cut into chunks, what each
 chunk is sealed under, and the bytes the chunks become.

 The AEAD is a pair of functions together with the set of triples that have been
 sealed under its key. `Ideal` says it opens exactly those triples.
 */
module ArchiveFormat {
  import opened Bytes
  import opened Wrappers

  /** Plaintext bytes in every chunk but the last. */
  const CHUNK_SIZE: nat := 0x10_0000
  /** What sealing adds to a chunk. */
  const OVERHEAD: nat := 16
  /** The largest sealed chunk an archive may carry. */
  const MAX_CHUNK: nat := CHUNK_SIZE + OVERHEAD
  /** The part of a nonce that is fixed for one archive. */
  const NONCE_PREFIX: nat := 8

  type Prefix = s: seq<Byte> | |s| >= NONCE_PREFIX witness [0, 0, 0, 0, 0, 0, 0, 0]

  /** What ties a chunk to its archive: the nonce prefix and the hash of the header. */
  datatype ArchiveId = ArchiveId(prefix: Prefix, headerHash: seq<Byte>)

  datatype Aead = Aead(
    seal: (seq<Byte>, seq<Byte>, seq<Byte>) -> seq<Byte>,
    open: (seq<Byte>, seq<Byte>, seq<Byte>) -> Option<seq<Byte>>)

  /** An archive's identity and the cipher its chunks go through. */
  datatype Channel = Channel(aead: Aead, id: ArchiveId)

  /** One use of a key: a plaintext sealed under a nonce and additional data. */
  datatype Sealing = Sealing(nonce: seq<Byte>, plain: seq<Byte>, aad: seq<Byte>)

  function Nonce(id: ArchiveId, index: nat): (n: seq<Byte>)
    requires index < WORD
    ensures |n| == 12
  {
    id.prefix[..NONCE_PREFIX] + Be32(index)
  }

  function Aad(id: ArchiveId, index: nat, final: bool): (a: seq<Byte>)
    requires index < WORD
    ensures |a| == |id.headerHash| + 5
  {
    id.headerHash + Be32(index) + [if final then 1 else 0]
  }

  lemma NonceInjective(id: ArchiveId, i: nat, j: nat)
    requires i < WORD && j < WORD && Nonce(id, i) == Nonce(id, j)
    ensures i == j
  {
    assert Be32(i) == Nonce(id, i)[NONCE_PREFIX..] == Be32(j);
    Be32Injective(i, j);
  }

  lemma AadInjective(id: ArchiveId, i: nat, f: bool, j: nat, g: bool)
    requires i < WORD && j < WORD && Aad(id, i, f) == Aad(id, j, g)
    ensures i == j && f == g
  {
    var h := |id.headerHash|;
    assert Be32(i) == Aad(id, i, f)[h..h + 4] == Be32(j);
    assert Aad(id, i, f)[h + 4] == Aad(id, j, g)[h + 4];
    Be32Injective(i, j);
  }

  /** The archive's additional data starts with its own header hash. */
  lemma AadNamesItsHeader(id: ArchiveId, index: nat, final: bool)
    requires index < WORD
    ensures id.headerHash <= Aad(id, index, final)
  {
  }

  // ---- Chunks -------------------------------------------------------------

  /** The index of the last chunk; there is always one, possibly empty. */
  function Last(p: seq<Byte>): (k: nat)
    ensures k * CHUNK_SIZE <= |p| < (k + 1) * CHUNK_SIZE
  {
    |p| / CHUNK_SIZE
  }

  /** How many plaintext bytes the first `k` chunks hold. */
  function UpTo(p: seq<Byte>, k: nat): (n: nat)
    ensures n <= |p|
  {
    if k * CHUNK_SIZE <= |p| then k * CHUNK_SIZE else |p|
  }

  function Chunk(p: seq<Byte>, k: nat): (chunk: seq<Byte>)
    ensures |chunk| <= CHUNK_SIZE
  {
    p[UpTo(p, k)..UpTo(p, k + 1)]
  }

  function SealingOf(id: ArchiveId, p: seq<Byte>, k: nat): Sealing {
    Sealing(Nonce(id, k % WORD), Chunk(p, k), Aad(id, k % WORD, k == Last(p)))
  }

  /** Every use of the key that writing the archive of `p` makes. */
  ghost function ArchiveLog(id: ArchiveId, p: seq<Byte>): set<Sealing> {
    set k | 0 <= k <= Last(p) :: SealingOf(id, p, k)
  }

  // ---- Frames -------------------------------------------------------------

  function Seal(aead: Aead, t: Sealing): seq<Byte> {
    aead.seal(t.nonce, t.plain, t.aad)
  }

  /** `x` is accepted as the sealed form of `t`. */
  predicate OpensTo(aead: Aead, x: seq<Byte>, t: Sealing) {
    aead.open(t.nonce, x, t.aad) == Some(t.plain)
  }

  /** A sealed chunk on the wire: its length as a `uint32`, then its bytes. */
  function Frame(c: Channel, t: Sealing): seq<Byte> {
    Be32(|Seal(c.aead, t)| % WORD) + Seal(c.aead, t)
  }

  /** What the reader makes of the next bytes of its input. */
  datatype Peeled = Peeled(sealed: seq<Byte>, rest: seq<Byte>) | CutShort | Oversized(rest: seq<Byte>)

  function Peel(input: seq<Byte>): (r: Peeled)
    ensures r.Peeled? ==> |r.rest| < |input|
  {
    if |input| < 4 then CutShort else
    var size, body := FromBe32(input[..4]), input[4..];
    if size > MAX_CHUNK then Oversized(body)
    else if |body| < size then CutShort
    else Peeled(body[..size], body[size..])
  }

  lemma PeelFrame(c: Channel, t: Sealing, tail: seq<Byte>)
    requires |Seal(c.aead, t)| <= MAX_CHUNK
    ensures Peel(Frame(c, t) + tail) == Peeled(Seal(c.aead, t), tail)
  {
    var x, input := Seal(c.aead, t), Frame(c, t) + tail;
    SmallWord(|x|);
    Be32RoundTrip(|x|);
    assert input[..4] == Be32(|x|);
    assert input[4..][..|x|] == x && input[4..][|x|..] == tail;
  }

  lemma PeeledIsFrame(c: Channel, t: Sealing, input: seq<Byte>)
    requires Peel(input).Peeled? && Peel(input).sealed == Seal(c.aead, t)
    ensures input == Frame(c, t) + Peel(input).rest
  {
    var x := Seal(c.aead, t);
    SmallWord(|x|);
    FromBe32RoundTrip(input[..4]);
    assert input == input[..4] + (x + Peel(input).rest);
  }

  /** The frames of the first `k` full chunks of `p`, none of them final. */
  ghost function Committed(c: Channel, p: seq<Byte>, k: nat): seq<Byte>
    requires k * CHUNK_SIZE <= |p|
  {
    if k == 0 then [] else
      Committed(c, p, k - 1)
      + Frame(c, Sealing(Nonce(c.id, (k - 1) % WORD), Chunk(p, k - 1), Aad(c.id, (k - 1) % WORD, false)))
  }

  /** The whole archive body of `p`. */
  ghost function Sealed(c: Channel, p: seq<Byte>): seq<Byte> {
    Committed(c, p, Last(p)) + Frame(c, SealingOf(c.id, p, Last(p)))
  }

  /** The frames from chunk `k` to the end. */
  ghost function FramesFrom(c: Channel, p: seq<Byte>, k: nat): seq<Byte>
    requires k <= Last(p) + 1
    decreases Last(p) + 1 - k
  {
    if k == Last(p) + 1 then [] else Frame(c, SealingOf(c.id, p, k)) + FramesFrom(c, p, k + 1)
  }

  lemma ChunkStable(p: seq<Byte>, q: seq<Byte>, k: nat)
    requires (k + 1) * CHUNK_SIZE <= |p| && p <= q
    ensures Chunk(p, k) == Chunk(q, k)
  {
  }

  /** Frames already written do not depend on what is written after them. */
  lemma CommittedStable(c: Channel, p: seq<Byte>, q: seq<Byte>, k: nat)
    requires k * CHUNK_SIZE <= |p| && p <= q
    ensures Committed(c, p, k) == Committed(c, q, k)
  {
    if k > 0 {
      ChunkStable(p, q, k - 1);
      CommittedStable(c, p, q, k - 1);
    }
  }

  lemma {:induction false} SealedSplits(c: Channel, p: seq<Byte>, k: nat)
    requires k <= Last(p)
    ensures Sealed(c, p) == Committed(c, p, k) + FramesFrom(c, p, k)
    decreases Last(p) - k
  {
    FramesNext(c, p, k);
    if k == Last(p) {
      assert Frame(c, SealingOf(c.id, p, k)) + [] == Frame(c, SealingOf(c.id, p, k));
    } else {
      SealedSplits(c, p, k + 1);
      CommittedNext(c, p, k);
      ConcatAssoc(Committed(c, p, k), Frame(c, SealingOf(c.id, p, k)), FramesFrom(c, p, k + 1));
    }
  }

  lemma FramesNext(c: Channel, p: seq<Byte>, k: nat)
    requires k <= Last(p)
    ensures FramesFrom(c, p, k) == Frame(c, SealingOf(c.id, p, k)) + FramesFrom(c, p, k + 1)
    ensures k == Last(p) ==> FramesFrom(c, p, k + 1) == []
  {
  }

  lemma CommittedNext(c: Channel, p: seq<Byte>, k: nat)
    requires k < Last(p)
    ensures Committed(c, p, k + 1) == Committed(c, p, k) + Frame(c, SealingOf(c.id, p, k))
  {
  }

  lemma SealedIsAllFrames(c: Channel, p: seq<Byte>)
    ensures Sealed(c, p) == FramesFrom(c, p, 0)
  {
    SealedSplits(c, p, 0);
    assert Committed(c, p, 0) == [];
  }

  /**
   The shape of the archive: `n / CHUNK_SIZE + 1` chunks that concatenate to the
   plaintext, all but the last full, the last one of length `n % CHUNK_SIZE`.
   */
  lemma ChunkShape(p: seq<Byte>, k: nat)
    requires k <= Last(p)
    ensures |Chunk(p, k)| == if k < Last(p) then CHUNK_SIZE else |p| % CHUNK_SIZE
    ensures p[..UpTo(p, k + 1)] == p[..UpTo(p, k)] + Chunk(p, k)
    ensures Chunk(p, k) + p[UpTo(p, k + 1)..] == p[UpTo(p, k)..]
    ensures UpTo(p, Last(p) + 1) == |p| && Last(p) == |p| / 0x10_0000 && CHUNK_SIZE == 0x10_0000
  {
  }

  // ---- Nonces -------------------------------------------------------------

  /** The chunk counter does not wrap before the last chunk. */
  predicate CounterFits(p: seq<Byte>) {
    Last(p) < WORD
  }

  lemma CounterFitsExactly(p: seq<Byte>)
    ensures CounterFits(p) <==> |p| < WORD * CHUNK_SIZE
  {
  }

  ghost predicate NoncesDistinct(id: ArchiveId, p: seq<Byte>) {
    forall j, k | 0 <= j < k <= Last(p) :: SealingOf(id, p, j).nonce != SealingOf(id, p, k).nonce
  }

  /**
   No nonce repeats in one archive exactly when the 32-bit counter does not wrap
   before the final chunk.
   */
  lemma NoncesDistinctExactly(id: ArchiveId, p: seq<Byte>)
    ensures NoncesDistinct(id, p) <==> |p| < WORD * CHUNK_SIZE
  {
    CounterFitsExactly(p);
    if CounterFits(p) {
      forall j, k | 0 <= j < k <= Last(p)
        ensures SealingOf(id, p, j).nonce != SealingOf(id, p, k).nonce
      {
        if Nonce(id, j % WORD) == Nonce(id, k % WORD) {
          NonceInjective(id, j % WORD, k % WORD);
        }
      }
    } else {
      assert SealingOf(id, p, 0).nonce == SealingOf(id, p, WORD).nonce;
    }
  }

  // ---- The ideal cipher ---------------------------------------------------

  /**
   The cipher opens exactly what has been sealed: bytes open to a triple when the
   triple is in `log` and the bytes are its sealed form, and otherwise not. One
   ciphertext under one nonce stands for one triple.
   */
  ghost predicate Ideal(aead: Aead, log: set<Sealing>) {
    && (forall t {:trigger Seal(aead, t)} :: |Seal(aead, t)| == |t.plain| + OVERHEAD)
    && (forall t, x {:trigger OpensTo(aead, x, t)} :: OpensTo(aead, x, t) <==> t in log && x == Seal(aead, t))
    && (forall t, u {:trigger Seal(aead, t), Seal(aead, u)} |
          t in log && u in log && t.nonce == u.nonce && Seal(aead, t) == Seal(aead, u) :: t == u)
  }

  /**
   What the key has sealed, seen from one archive: all of that archive's chunks,
   and nothing else that names the archive's header. Chunks of other archives may
   be in the log too.
   */
  ghost predicate LogOf(id: ArchiveId, p: seq<Byte>, log: set<Sealing>) {
    && ArchiveLog(id, p) <= log
    && (forall t | t in log && id.headerHash <= t.aad :: t in ArchiveLog(id, p))
  }

  /** While the counter fits, a logged triple that names chunk `k` is chunk `k`. */
  lemma LoggedIsChunk(id: ArchiveId, p: seq<Byte>, log: set<Sealing>, t: Sealing, k: nat, final: bool)
    requires LogOf(id, p, log) && CounterFits(p) && k < WORD
    requires t in log && t.aad == Aad(id, k, final)
    ensures k <= Last(p) && t == SealingOf(id, p, k) && final == (k == Last(p))
  {
    AadNamesItsHeader(id, k, final);
    assert t in ArchiveLog(id, p);
    var j :| 0 <= j <= Last(p) && t == SealingOf(id, p, j);
    SmallWord(j);
    AadInjective(id, k, final, j, j == Last(p));
  }

  /** A tag that repeats the last five bytes of the additional data. */
  function WitnessTag(a: seq<Byte>): (tag: seq<Byte>)
    ensures |tag| == OVERHEAD
  {
    (if |a| >= 5 then a[|a| - 5..] else [0, 0, 0, 0, 0]) + [0, 0, 0, 0, 0, 0, 0, 0, 0, 0, 0]
  }

  ghost function WitnessAead(log: set<Sealing>): Aead {
    Aead(
      (n: seq<Byte>, p: seq<Byte>, a: seq<Byte>) => p + WitnessTag(a),
      (n: seq<Byte>, x: seq<Byte>, a: seq<Byte>) =>
        if |x| >= OVERHEAD && Sealing(n, x[..|x| - OVERHEAD], a) in log && x[|x| - OVERHEAD..] == WitnessTag(a)
        then Some(x[..|x| - OVERHEAD]) else None)
  }

  /** For every archive there is a cipher that is ideal for it. */
  lemma IdealExists(id: ArchiveId, p: seq<Byte>)
    ensures exists aead :: Ideal(aead, ArchiveLog(id, p)) && LogOf(id, p, ArchiveLog(id, p))
  {
    var log := ArchiveLog(id, p);
    var w := WitnessAead(log);
    forall t, x ensures OpensTo(w, x, t) <==> t in log && x == Seal(w, t) {
      if OpensTo(w, x, t) {
        assert x == x[..|x| - OVERHEAD] + x[|x| - OVERHEAD..];
      }
      if t in log && x == Seal(w, t) {
        assert x[..|x| - OVERHEAD] == t.plain && x[|x| - OVERHEAD..] == WitnessTag(t.aad);
      }
    }
    forall t, u | t in log && u in log && t.nonce == u.nonce && Seal(w, t) == Seal(w, u) ensures t == u {
      WitnessCommits(id, p, t, u);
    }
    assert Ideal(w, log);
  }

  lemma WitnessCommits(id: ArchiveId, p: seq<Byte>, t: Sealing, u: Sealing)
    requires t in ArchiveLog(id, p) && u in ArchiveLog(id, p) && t.nonce == u.nonce
    requires t.plain + WitnessTag(t.aad) == u.plain + WitnessTag(u.aad)
    ensures t == u
  {
    var x := t.plain + WitnessTag(t.aad);
    assert |t.plain| == |u.plain|;
    assert t.plain == x[..|t.plain|] == u.plain;
    assert WitnessTag(t.aad) == x[|t.plain|..] == WitnessTag(u.aad);
    var h := |id.headerHash|;
    assert t.aad[h..] == WitnessTag(t.aad)[..5] == WitnessTag(u.aad)[..5] == u.aad[h..];
    assert t.aad == id.headerHash + t.aad[h..] && u.aad == id.headerHash + u.aad[h..];
  }
}
