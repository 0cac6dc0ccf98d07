/** The writing half: a stream of plaintext buffered into sealed frames. */
module ArchiveSealer {
  import opened Bytes
  import opened Wrappers
  import opened ArchiveFormat

  /**
   The writer underneath. It takes bytes until `limit` is reached, and then a
   write keeps what fits and reports failure; without a limit it never fails.
   */
  class Sink {
    var bytes: seq<Byte>
    const limit: Option<nat>

    ghost predicate Valid()
      reads this
    {
      limit.Some? ==> |bytes| <= limit.value
    }

    /** A writer that has failed takes nothing more. */
    ghost predicate Full()
      reads this
    {
      limit.Some? && |bytes| == limit.value
    }

    constructor (limit: Option<nat>)
      ensures Valid() && bytes == [] && this.limit == limit
    {
      this.limit := limit;
      bytes := [];
    }

    method Write(p: seq<Byte>) returns (ok: bool)
      requires Valid()
      modifies this
      ensures Valid()
      ensures ok <==> (limit.Some? ==> |old(bytes)| + |p| <= limit.value)
      ensures bytes == if ok then old(bytes) + p else (old(bytes) + p)[..limit.value]
      ensures !ok ==> Full()
      ensures old(Full()) && p != [] ==> !ok && bytes == old(bytes)
    {
      ok := limit.None? || |bytes| + |p| <= limit.value;
      bytes := if ok then bytes + p else (bytes + p)[..limit.value];
    }
  }

  class Sealer {
    const w: Sink
    const c: Channel
    var index: nat
    var buf: seq<Byte>
    /** Everything accepted so far, and what the writer held before it. */
    ghost var plain: seq<Byte>
    ghost const before: seq<Byte>

    /** No write has failed, and the writer holds exactly the full chunks. */
    ghost predicate Valid()
      reads this, w
    {
      && w.Valid()
      && index == Last(plain) % WORD
      && buf == plain[Last(plain) * CHUNK_SIZE..]
      && w.bytes == before + Committed(c, plain, Last(plain))
    }

    /** A write has failed: the chunk it could not write is still here, and the writer takes nothing more. */
    ghost predicate Stuck()
      reads this, w
    {
      w.Valid() && w.Full() && |buf| == CHUNK_SIZE && index < WORD
    }

    constructor (w: Sink, c: Channel)
      requires w.Valid()
      ensures Valid() && plain == [] && this.w == w && this.c == c && before == w.bytes
    {
      this.w, this.c := w, c;
      index, buf, plain, before := 0, [], [], w.bytes;
    }

    /** Seals the buffer as one chunk. On failure the buffer and the index stay. */
    method Flush(final: bool) returns (ok: bool)
      requires w.Valid() && index < WORD
      modifies this`buf, this`index, w
      ensures w.Valid()
      ensures w.limit.None? ==> ok
      ensures var due := old(w.bytes)
                         + Frame(c, Sealing(Nonce(c.id, old(index)), old(buf), Aad(c.id, old(index), final)));
              if ok then w.bytes == due && buf == [] && index == (old(index) + 1) % WORD
              else w.bytes <= due && buf == old(buf) && index == old(index) && w.Full()
      ensures old(w.Full()) ==> !ok && w.bytes == old(w.bytes)
    {
      var sealed := Seal(c.aead, Sealing(Nonce(c.id, index), buf, Aad(c.id, index, final)));
      var length := Be32(|sealed| % WORD);
      ghost var start := w.bytes;
      assert start + length + sealed == start + (length + sealed);
      ok := w.Write(length);
      if !ok {
        assert w.bytes == (start + length)[..|w.bytes|] == (start + (length + sealed))[..|w.bytes|];
        return;
      }
      ok := w.Write(sealed);
      if !ok {
        return;
      }
      buf := [];
      index := (index + 1) % WORD;
    }

    /** Buffers a piece that fits, and seals the chunk if that fills it. */
    method Take(piece: seq<Byte>) returns (ok: bool)
      requires (Valid() || Stuck()) && |buf| + |piece| <= CHUNK_SIZE
      modifies this, w
      ensures w.limit.None? ==> ok
      ensures ok ==> Valid() && plain == old(plain) + piece
      ensures !ok ==> Stuck()
      ensures old(Valid()) && !ok ==>
                w.bytes <= before + Committed(c, old(plain) + piece, Last(old(plain) + piece))
      ensures old(Stuck()) ==> !ok && w.bytes == old(w.bytes)
    {
      ghost var fine, k := Valid(), Last(plain);
      if fine { AbsorbTail(c, plain, piece); }
      buf := buf + piece;
      plain := plain + piece;
      ok := true;
      if |buf| == CHUNK_SIZE {
        ok := FlushFull(fine, k);
      }
    }

    /** The buffer holds the last chunk of the plaintext, full and not yet written. */
    ghost predicate Brimming(k: nat)
      reads this, w
    {
      && w.Valid() && |plain| == (k + 1) * CHUNK_SIZE && index == k % WORD
      && buf == plain[k * CHUNK_SIZE..] && w.bytes == before + Committed(c, plain, k)
    }

    /** Seals a full buffer. */
    method FlushFull(ghost fine: bool, ghost k: nat) returns (ok: bool)
      requires if fine then Brimming(k) else Stuck()
      modifies this`buf, this`index, w
      ensures w.limit.None? ==> ok
      ensures ok ==> Valid()
      ensures !ok ==> Stuck()
      ensures fine && !ok ==> w.bytes <= before + Committed(c, plain, Last(plain))
      ensures !fine ==> !ok && w.bytes == old(w.bytes)
    {
      if fine {
        NextWord(k);
        LastFullChunk(plain, k);
        FullChunk(c, before, plain, k);
      }
      ok := Flush(false);
    }

    /** Takes as much of `p` from `i` on as the buffer has room for. */
    method TakeFrom(p: seq<Byte>, i: nat, ghost start: seq<Byte>) returns (take: nat, ok: bool)
      requires i < |p| && (Stuck() || (Valid() && plain == start + p[..i]))
      modifies this, w
      ensures w.limit.None? ==> ok
      ensures ok ==> 0 < take <= |p| - i && Valid() && plain == start + p[..i + take]
      ensures !ok ==> Stuck()
      ensures old(Valid()) && !ok ==> w.bytes <= before + Committed(c, start + p, Last(start + p))
      ensures old(Stuck()) ==> !ok && w.bytes == old(w.bytes)
    {
      var space := CHUNK_SIZE - |buf|;
      take := if space < |p| - i then space else |p| - i;
      ghost var fine, held := Valid(), plain;
      ok := Take(p[i..i + take]);
      if fine {
        assert start + p[..i + take] == held + p[i..i + take];
        if !ok { PrefixGrows(c, before, w.bytes, start + p[..i + take], start + p); }
      }
    }

    /**
     Accepts `p`. Whatever the split into calls, the writer holds the frames of
     the full chunks of everything accepted; on failure it holds a prefix of them, and
     every later write of anything fails and adds nothing.
     */
    method Write(p: seq<Byte>) returns (written: nat, ok: bool)
      requires Valid() || Stuck()
      modifies this, w
      ensures w.limit.None? ==> ok
      ensures old(Valid()) && ok ==> Valid() && plain == old(plain) + p && written == |p|
      ensures old(Valid()) && !ok ==>
                Stuck() && written == 0 && w.bytes <= before + Committed(c, old(plain) + p, Last(old(plain) + p))
      ensures old(Stuck()) ==> Stuck() && w.bytes == old(w.bytes) && (ok <==> p == [])
    {
      ghost var start, fine := plain, Valid();
      var i := 0;
      while i < |p|
        invariant 0 <= i <= |p|
        invariant if fine then Valid() && plain == start + p[..i] else Stuck() && i == 0 && w.bytes == old(w.bytes)
      {
        var take: nat;
        take, ok := TakeFrom(p, i, start);
        if !ok { return 0, false; }
        i := i + take;
      }
      assert p[..i] == p;
      return |p|, true;
    }

    /** Seals what is left as the final chunk, which is written even when empty. */
    method Close() returns (ok: bool)
      requires Valid() || Stuck()
      modifies this, w
      ensures w.limit.None? ==> ok
      ensures old(Valid()) && ok ==> w.bytes == before + Sealed(c, old(plain))
      ensures old(Valid()) && !ok ==> w.bytes <= before + Sealed(c, old(plain))
      ensures old(Stuck()) ==> !ok && w.bytes == old(w.bytes)
    {
      assert Valid() ==> buf == Chunk(plain, Last(plain));
      ok := Flush(true);
    }
  }

  /** What the buffer holds after a piece that fits is the tail of the plaintext, and what was committed stays. */
  lemma AbsorbTail(c: Channel, p: seq<Byte>, piece: seq<Byte>)
    requires |p| - Last(p) * CHUNK_SIZE + |piece| <= CHUNK_SIZE
    ensures var k, q := Last(p), p + piece;
            var buf := p[k * CHUNK_SIZE..] + piece;
            && buf == q[k * CHUNK_SIZE..] && Committed(c, q, k) == Committed(c, p, k)
            && (if |buf| < CHUNK_SIZE then Last(q) == k else |q| == (k + 1) * CHUNK_SIZE)
  {
    CommittedStable(c, p, p + piece, Last(p));
  }

  /** A plaintext that ends with a full chunk: that chunk is its tail, and its frame is committed. */
  lemma FullChunk(c: Channel, before: seq<Byte>, q: seq<Byte>, k: nat)
    requires |q| == (k + 1) * CHUNK_SIZE
    ensures before + Committed(c, q, k + 1) == before + Committed(c, q, k)
            + Frame(c, Sealing(Nonce(c.id, k % WORD), q[k * CHUNK_SIZE..], Aad(c.id, k % WORD, false)))
  {
    LastFullChunk(q, k);
    ConcatAssoc(before, Committed(c, q, k),
                Frame(c, Sealing(Nonce(c.id, k % WORD), q[k * CHUNK_SIZE..], Aad(c.id, k % WORD, false))));
  }

  lemma LastFullChunk(q: seq<Byte>, k: nat)
    requires |q| == (k + 1) * CHUNK_SIZE
    ensures UpTo(q, k) == k * CHUNK_SIZE && UpTo(q, k + 1) == |q| && Last(q) == k + 1
    ensures Chunk(q, k) == q[k * CHUNK_SIZE..]
  {
  }

  lemma {:induction false} CommittedGrows(c: Channel, p: seq<Byte>, q: seq<Byte>)
    requires p <= q
    ensures Committed(c, p, Last(p)) <= Committed(c, q, Last(q))
    decreases |q| - |p|
  {
    if Last(p) == Last(q) {
      CommittedStable(c, p, q, Last(p));
    } else {
      var mid := q[..(Last(p) + 1) * CHUNK_SIZE];
      assert Last(mid) == Last(p) + 1 && p <= mid <= q;
      CommittedStable(c, p, mid, Last(p));
      CommittedGrows(c, mid, q);
    }
  }

  lemma PrefixGrows(c: Channel, before: seq<Byte>, bytes: seq<Byte>, p: seq<Byte>, q: seq<Byte>)
    requires p <= q && bytes <= before + Committed(c, p, Last(p))
    ensures bytes <= before + Committed(c, q, Last(q))
  {
    CommittedGrows(c, p, q);
    assert before + Committed(c, p, Last(p)) <= before + Committed(c, q, Last(q));
  }

  function Concat(parts: seq<seq<Byte>>): seq<Byte> {
    if parts == [] then [] else Concat(parts[..|parts| - 1]) + parts[|parts| - 1]
  }

  lemma {:induction false} ConcatGrows(parts: seq<seq<Byte>>, n: nat)
    requires n <= |parts|
    ensures Concat(parts[..n]) <= Concat(parts)
  {
    if n == |parts| {
      assert parts[..n] == parts;
    } else {
      var before := parts[..|parts| - 1];
      ConcatGrows(before, n);
      assert before[..n] == parts[..n];
    }
  }

  /** What a failed write leaves is a prefix of the whole body. */
  lemma FailedIsPrefix(c: Channel, before: seq<Byte>, bytes: seq<Byte>, parts: seq<seq<Byte>>, i: nat)
    requires i < |parts|
    requires var q := Concat(parts[..i]) + parts[i]; bytes <= before + Committed(c, q, Last(q))
    ensures bytes <= before + Sealed(c, Concat(parts))
  {
    var p := Concat(parts);
    assert parts[..i + 1][..i] == parts[..i];
    ConcatGrows(parts, i + 1);
    PrefixGrows(c, before, bytes, Concat(parts[..i + 1]), p);
    ConcatAssoc(before, Committed(c, p, Last(p)), Frame(c, SealingOf(c.id, p, Last(p))));
  }

  /**
   A whole archive body: any sequence of writes, then a close. With a writer that
   does not fail, what lands depends on the concatenation alone; with one that does, a
   prefix of that lands.
   */
  method SealAll(w: Sink, c: Channel, parts: seq<seq<Byte>>) returns (ok: bool)
    requires w.Valid()
    modifies w
    ensures ok ==> w.bytes == old(w.bytes) + Sealed(c, Concat(parts))
    ensures !ok ==> w.bytes <= old(w.bytes) + Sealed(c, Concat(parts))
    ensures w.limit.None? ==> ok
  {
    var s := new Sealer(w, c);
    for i := 0 to |parts|
      invariant s.Valid() && s.w == w && s.c == c && s.before == old(w.bytes)
      invariant s.plain == Concat(parts[..i])
      invariant fresh(s)
    {
      var _, taken := s.Write(parts[i]);
      if !taken {
        FailedIsPrefix(c, s.before, w.bytes, parts, i);
        return false;
      }
      assert parts[..i + 1][..i] == parts[..i];
    }
    assert parts[..|parts|] == parts;
    ok := s.Close();
  }
}
