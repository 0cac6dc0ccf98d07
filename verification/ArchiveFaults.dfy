/** How an archive's bytes are laid out, and which fault a reader reports. */
module ArchiveFaults {
  import opened Bytes
  import opened Wrappers
  import opened ArchiveFormat
  import opened ArchiveOpener

  // ---- The layout ---------------------------------------------------------

  /** A big-endian word: the most significant byte first. */
  lemma WordLayout(n: nat)
    requires n < 0x1_0000_0000
    ensures var b := Be32(n);
            var b0: int, b1: int, b2: int, b3: int := b[0], b[1], b[2], b[3];
            b0 * 0x100_0000 + b1 * 0x1_0000 + b2 * 0x100 + b3 == n
  {
    Be32RoundTrip(n);
  }

  /** A nonce is eight bytes of the archive's prefix and the index as a word. */
  lemma NonceLayout(id: ArchiveId, index: nat)
    requires index < 0x1_0000_0000
    ensures var n := Nonce(id, index);
            var b0: int, b1: int, b2: int, b3: int := n[8], n[9], n[10], n[11];
            && |n| == 12 && n[..8] == id.prefix[..8]
            && b0 * 0x100_0000 + b1 * 0x1_0000 + b2 * 0x100 + b3 == index
  {
    WordLayout(index);
  }

  /** The additional data is the header's hash, the index as a word, and one byte that is 1 for the final chunk. */
  lemma AadLayout(id: ArchiveId, index: nat, final: bool)
    requires index < 0x1_0000_0000
    ensures var a, h := Aad(id, index, final), |id.headerHash|;
            && |a| == h + 5 && a[..h] == id.headerHash && a[h + 4] == (if final then 1 else 0)
            && var b0: int, b1: int, b2: int, b3: int := a[h], a[h + 1], a[h + 2], a[h + 3];
               b0 * 0x100_0000 + b1 * 0x1_0000 + b2 * 0x100 + b3 == index
  {
    WordLayout(index);
    assert Aad(id, index, final)[|id.headerHash|..|id.headerHash| + 4] == Be32(index);
  }

  /** A frame is the length of its sealed bytes as a word, and those bytes. */
  lemma FrameLayout(c: Channel, t: Sealing)
    requires |Seal(c.aead, t)| < 0x1_0000_0000
    ensures var f, x := Frame(c, t), c.aead.seal(t.nonce, t.plain, t.aad);
            var b0: int, b1: int, b2: int, b3: int := f[0], f[1], f[2], f[3];
            f[4..] == x && b0 * 0x100_0000 + b1 * 0x1_0000 + b2 * 0x100 + b3 == |x|
  {
    SmallWord(|Seal(c.aead, t)|);
    WordLayout(|Seal(c.aead, t)|);
  }

  // ---- One fault ----------------------------------------------------------

  /** The length the next four bytes declare. */
  function Declared(input: seq<Byte>): int
    requires |input| >= 4
  {
    var b0: int, b1: int, b2: int, b3: int := input[0], input[1], input[2], input[3];
    b0 * 0x100_0000 + b1 * 0x1_0000 + b2 * 0x100 + b3
  }

  /** The four length bytes are there and declare more than 1 MiB and a tag. */
  predicate DeclaresTooMuch(input: seq<Byte>) {
    |input| >= 4 && Declared(input) > 0x10_0010
  }

  /** The length in range, the chunk there, and neither flag opens it. */
  predicate OpensUnderNeither(c: Channel, s: Stream)
    requires s.index < WORD
  {
    && |s.input| >= 4 && 4 + Declared(s.input) <= |s.input| && Declared(s.input) >= 0
    && var n, x := Nonce(c.id, s.index), s.input[4..4 + Declared(s.input)];
       c.aead.open(n, x, Aad(c.id, s.index, false)).None? && c.aead.open(n, x, Aad(c.id, s.index, true)).None?
  }

  /** The bytes end inside a length or inside a chunk. */
  predicate EndsEarly(input: seq<Byte>) {
    |input| < 4 || |input| < 4 + Declared(input)
  }

  /** What makes one chunk a fault, and which. */
  lemma NextFaultExactly(c: Channel, s: Stream)
    requires s.index < WORD
    ensures Next(c, s).Refused? && Next(c, s).why == ChunkTooLarge <==> DeclaresTooMuch(s.input)
    ensures Next(c, s).Refused? && Next(c, s).why == BadPassphrase
            <==> !DeclaresTooMuch(s.input) && (EndsEarly(s.input) || OpensUnderNeither(c, s))
    ensures Next(c, s).Refused? ==>
              Next(c, s).after
              == s.(input := if DeclaresTooMuch(s.input) then s.input[4..]
                             else if EndsEarly(s.input) then [] else s.input[4 + Declared(s.input)..])
  {
    if |s.input| >= 4 {
      assert FromBe32(s.input[..4]) == Declared(s.input);
      if 4 + Declared(s.input) <= |s.input| {
        assert s.input[4..][..Declared(s.input)] == s.input[4..4 + Declared(s.input)];
        assert s.input[4..][Declared(s.input)..] == s.input[4 + Declared(s.input)..];
      }
    }
  }

  // ---- Faults over whole runs ---------------------------------------------

  /** From `s`, opening chunks that hold nothing and do not end the archive leads to `t`. */
  ghost predicate LeadsTo(c: Channel, s: Stream, t: Stream)
    requires s.index < WORD
    decreases |s.input|
  {
    s == t || (s.pending == [] && !s.done && Next(c, s).Opened? && LeadsTo(c, Next(c, s).after, t))
  }

  /** A read comes to a chunk it has to open, at `t`. */
  ghost predicate ComesTo(c: Channel, s: Stream, t: Stream)
    requires s.index < WORD
  {
    t.index < WORD && t.pending == [] && !t.done && LeadsTo(c, s, t)
  }

  /** A read comes to `t` and is refused there. */
  ghost predicate RefusedAt(c: Channel, s: Stream, t: Stream, why: Fault)
    requires s.index < WORD
  {
    ComesTo(c, s, t) && Next(c, t).Refused? && Next(c, t).why == why
  }

  /** A read comes to length bytes that declare too much. */
  ghost predicate TooLargeAt(c: Channel, s: Stream, t: Stream)
    requires s.index < WORD
  {
    ComesTo(c, s, t) && DeclaresTooMuch(t.input)
  }

  /** A read comes to bytes that end early, or that open under neither flag. */
  ghost predicate UnreadableAt(c: Channel, s: Stream, t: Stream)
    requires s.index < WORD
  {
    ComesTo(c, s, t) && !DeclaresTooMuch(t.input) && (EndsEarly(t.input) || OpensUnderNeither(c, t))
  }

  /** A chunk that opens is not where a read is refused. */
  lemma RefusedLater(c: Channel, s: Stream, t: Stream, why: Fault)
    requires s.index < WORD && s.pending == [] && !s.done && Next(c, s).Opened?
    ensures RefusedAt(c, s, t, why) <==> RefusedAt(c, Next(c, s).after, t, why)
  {
    assert RefusedAt(c, s, t, why) ==> t != s;
    assert t != s ==> (LeadsTo(c, s, t) <==> LeadsTo(c, Next(c, s).after, t));
  }

  /** A read fails exactly where the chunk it comes to is refused, and says so. */
  lemma {:induction false} ReadFaultExactly(c: Channel, s: Stream, n: nat, why: Fault)
    requires s.index < WORD
    ensures ReadStep(c, s, n).1 == Failed(why)
            <==> exists t :: RefusedAt(c, s, t, why)
    decreases |s.input|
  {
    if |s.pending| > 0 || s.done {
      assert forall t :: !ComesTo(c, s, t);
    } else if Next(c, s).Refused? {
      RefusedHere(c, s, why);
    } else {
      var after := Next(c, s).after;
      ReadFaultExactly(c, after, n, why);
      forall t ensures RefusedAt(c, s, t, why) <==> RefusedAt(c, after, t, why) { RefusedLater(c, s, t, why); }
    }
  }

  lemma RefusedHere(c: Channel, s: Stream, why: Fault)
    requires s.index < WORD && s.pending == [] && !s.done && Next(c, s).Refused?
    ensures (exists t :: RefusedAt(c, s, t, why)) <==> Next(c, s).why == why
  {
    assert forall t | ComesTo(c, s, t) :: t == s;
    if Next(c, s).why == why { assert RefusedAt(c, s, s, why); }
  }

  /** The stream before read `j`. */
  function StateAt(c: Channel, s: Stream, sizes: seq<nat>, j: nat): (t: Stream)
    requires s.index < WORD && j <= |sizes|
    ensures t.index < WORD
    decreases j
  {
    if j == 0 then s else ReadStep(c, StateAt(c, s, sizes, j - 1), sizes[j - 1]).0
  }

  lemma {:induction false} RunAt(c: Channel, s: Stream, sizes: seq<nat>, j: nat)
    requires s.index < WORD && j < |sizes|
    ensures Run(c, s, sizes)[j] == ReadStep(c, StateAt(c, s, sizes, j), sizes[j]).1
    decreases j
  {
    if j == 0 {
    } else {
      var after := ReadStep(c, s, sizes[0]).0;
      RunAt(c, after, sizes[1..], j - 1);
      StateShift(c, s, sizes, j);
    }
  }

  lemma {:induction false} StateShift(c: Channel, s: Stream, sizes: seq<nat>, j: nat)
    requires s.index < WORD && 0 < j <= |sizes|
    ensures StateAt(c, s, sizes, j) == StateAt(c, ReadStep(c, s, sizes[0]).0, sizes[1..], j - 1)
    decreases j
  {
    if j == 1 {
    } else {
      StateShift(c, s, sizes, j - 1);
    }
  }

  /**
   Whatever is read, in whatever sizes: a read reports a chunk too large exactly when
   the four length bytes it comes to declare more than the format allows, and the wrong
   passphrase exactly when they do not and the bytes end early or open under neither
   flag.
   */
  lemma FaultExactly(c: Channel, input: seq<Byte>, sizes: seq<nat>, j: nat)
    requires j < |sizes|
    ensures var s, read := StateAt(c, Start(input), sizes, j), Run(c, Start(input), sizes)[j];
            && (read == Failed(ChunkTooLarge) <==> exists t :: TooLargeAt(c, s, t))
            && (read == Failed(BadPassphrase) <==> exists t :: UnreadableAt(c, s, t))
  {
    var s := StateAt(c, Start(input), sizes, j);
    RunAt(c, Start(input), sizes, j);
    ReadFaultExactly(c, s, sizes[j], ChunkTooLarge);
    ReadFaultExactly(c, s, sizes[j], BadPassphrase);
    forall t
      ensures RefusedAt(c, s, t, ChunkTooLarge) <==> TooLargeAt(c, s, t)
      ensures RefusedAt(c, s, t, BadPassphrase) <==> UnreadableAt(c, s, t)
    {
      if ComesTo(c, s, t) { NextFaultExactly(c, t); }
    }
  }

  /** With a key that opens nothing, every file whose first length is in range is refused at once as a passphrase. */
  lemma WrongPassphrase(c: Channel, input: seq<Byte>, sizes: seq<nat>)
    requires forall n, x, a :: c.aead.open(n, x, a).None?
    requires sizes != [] && !DeclaresTooMuch(input)
    ensures Run(c, Start(input), sizes)[0] == Failed(BadPassphrase)
  {
    NextFaultExactly(c, Start(input));
  }
}
