/** What a reader can learn from an archive, whatever bytes it is given. */
module ArchiveTheorems {
  import opened Bytes
  import opened Wrappers
  import opened ArchiveFormat
  import opened ArchiveSealer
  import opened ArchiveOpener

  // ---- Reading an archive back --------------------------------------------

  /** The stream after the first `k` chunks of a genuine archive have been opened. */
  ghost function Genuine(c: Channel, p: seq<Byte>, k: nat, pending: seq<Byte>, tail: seq<Byte>): Stream
    requires k <= Last(p) + 1
  {
    Stream(FramesFrom(c, p, k) + tail, k % WORD, pending, k == Last(p) + 1)
  }

  /** A frame at the head of the input opens as the chunk it was made from. */
  lemma FrameOpens(c: Channel, p: seq<Byte>, k: nat, log: set<Sealing>, s: Stream, tail: seq<Byte>)
    requires Ideal(c.aead, log) && ArchiveLog(c.id, p) <= log && k <= Last(p)
    requires s.index == k % WORD && !s.done && s.input == Frame(c, SealingOf(c.id, p, k)) + tail
    ensures Next(c, s) == Opened(Stream(tail, (k + 1) % WORD, Chunk(p, k), k == Last(p)))
  {
    var t := SealingOf(c.id, p, k);
    assert t in ArchiveLog(c.id, p);
    var x := Seal(c.aead, t);
    assert OpensTo(c.aead, x, t);
    PeelFrame(c, t, tail);
    NextWord(k);
    if k == Last(p) {
      var wrong := c.aead.open(t.nonce, x, Aad(c.id, k % WORD, false));
      if wrong.Some? {
        var u := Sealing(t.nonce, wrong.value, Aad(c.id, k % WORD, false));
        assert OpensTo(c.aead, x, u);
        assert Seal(c.aead, u) == Seal(c.aead, t);
        AadInjective(c.id, k % WORD, false, k % WORD, true);
      }
    }
  }

  lemma DrainStep(c: Channel, s: Stream, after: Stream, rest: seq<Byte>)
    requires s.index < WORD && !s.done && Next(c, s) == Opened(after) && Drain(c, after) == Some(rest)
    ensures Drain(c, s) == Some(s.pending + rest)
  {
  }

  lemma FramesSplit(c: Channel, p: seq<Byte>, k: nat, tail: seq<Byte>)
    requires k <= Last(p)
    ensures FramesFrom(c, p, k) + tail == Frame(c, SealingOf(c.id, p, k)) + (FramesFrom(c, p, k + 1) + tail)
  {
    var f := Frame(c, SealingOf(c.id, p, k));
    assert FramesFrom(c, p, k) == f + FramesFrom(c, p, k + 1);
    ConcatAssoc(f, FramesFrom(c, p, k + 1), tail);
  }

  lemma GenuineStep(c: Channel, p: seq<Byte>, k: nat, log: set<Sealing>, pending: seq<Byte>, tail: seq<Byte>)
    requires Ideal(c.aead, log) && ArchiveLog(c.id, p) <= log && k <= Last(p)
    ensures Next(c, Genuine(c, p, k, pending, tail)) == Opened(Genuine(c, p, k + 1, Chunk(p, k), tail))
  {
    FramesSplit(c, p, k, tail);
    FrameOpens(c, p, k, log, Genuine(c, p, k, pending, tail), FramesFrom(c, p, k + 1) + tail);
  }

  lemma {:induction false} GenuineDrains(c: Channel, p: seq<Byte>, k: nat, log: set<Sealing>,
                                         pending: seq<Byte>, tail: seq<Byte>)
    requires Ideal(c.aead, log) && ArchiveLog(c.id, p) <= log && k <= Last(p) + 1
    ensures Drain(c, Genuine(c, p, k, pending, tail)) == Some(pending + p[UpTo(p, k)..])
    decreases Last(p) + 1 - k
  {
    if k == Last(p) + 1 {
      assert pending + p[UpTo(p, k)..] == pending;
    } else {
      GenuineStep(c, p, k, log, pending, tail);
      GenuineDrains(c, p, k + 1, log, Chunk(p, k), tail);
      ChunkShape(p, k);
      DrainStep(c, Genuine(c, p, k, pending, tail), Genuine(c, p, k + 1, Chunk(p, k), tail), p[UpTo(p, k)..]);
    }
  }

  /** An archive reads back to its plaintext, and bytes after its last frame are ignored. */
  lemma ArchiveDrains(c: Channel, p: seq<Byte>, log: set<Sealing>, tail: seq<Byte>)
    requires Ideal(c.aead, log) && ArchiveLog(c.id, p) <= log
    ensures Drain(c, Start(Sealed(c, p) + tail)) == Some(p)
  {
    SealedIsAllFrames(c, p);
    GenuineDrains(c, p, 0, log, [], tail);
    assert Genuine(c, p, 0, [], tail) == Start(Sealed(c, p) + tail);
    assert [] + p[0..] == p;
  }

  // ---- Read sizes do not matter -------------------------------------------

  /** Handing out pending bytes leaves the rest to drain. */
  lemma PendingDrains(c: Channel, s: Stream, m: nat)
    requires s.index < WORD && m <= |s.pending|
    ensures var after := s.(pending := s.pending[m..]);
            match Drain(c, s)
            case None => Drain(c, after) == None
            case Some(q) => s.pending <= q && Drain(c, after) == Some(q[m..])
  {
    var after := s.(pending := s.pending[m..]);
    if !s.done && Next(c, s).Opened? {
      assert Next(c, after) == Next(c, s);
      var next := Next(c, s).after;
      if Drain(c, next).Some? {
        assert (s.pending + Drain(c, next).value)[m..] == s.pending[m..] + Drain(c, next).value;
      }
    }
  }

  /** One read of a stream that drains to `q`. */
  lemma {:induction false} ReadStepDrains(c: Channel, s: Stream, n: nat, q: seq<Byte>)
    requires s.index < WORD && n > 0 && Drain(c, s) == Some(q)
    ensures var (after, read) := ReadStep(c, s, n);
            && !read.Failed?
            && (read == Eof <==> q == [])
            && (read.Data? ==> |Got(read)| > 0)
            && Got(read) <= q && Drain(c, after) == Some(q[|Got(read)|..])
    decreases |s.input|
  {
    if |s.pending| > 0 {
      PendingDrains(c, s, if n < |s.pending| then n else |s.pending|);
    } else if !s.done {
      var next := Next(c, s).after;
      assert s.pending + Drain(c, next).value == Drain(c, next).value;
      ReadStepDrains(c, next, n, q);
    }
  }

  /** One read of a stream that does not drain. */
  lemma {:induction false} ReadStepFaults(c: Channel, s: Stream, n: nat)
    requires s.index < WORD && n > 0 && Drain(c, s) == None
    ensures var (after, read) := ReadStep(c, s, n);
            read.Failed? || (read.Data? && Drain(c, after) == None)
    decreases |s.input|
  {
    if |s.pending| > 0 {
      PendingDrains(c, s, if n < |s.pending| then n else |s.pending|);
    } else if Next(c, s).Opened? {
      ReadStepFaults(c, Next(c, s).after, n);
    }
  }

  /** The first read and the rest of a run. */
  lemma RunSplits(c: Channel, s: Stream, sizes: seq<nat>, j: nat)
    requires s.index < WORD && 0 < j <= |sizes|
    ensures var (after, read) := ReadStep(c, s, sizes[0]);
            var rest := Run(c, after, sizes[1..]);
            && Run(c, s, sizes) == [read] + rest
            && Delivered(Run(c, s, sizes)[..j])
               == Got(read) + Delivered(rest[..j - 1])
  {
    var (after, read) := ReadStep(c, s, sizes[0]);
    var rest := Run(c, after, sizes[1..]);
    assert Run(c, s, sizes)[..j] == [read] + rest[..j - 1];
    assert ([read] + rest[..j - 1])[1..] == rest[..j - 1];
  }

  /** Reads that carry `q` in nonempty pieces and then report the end. */
  ghost predicate Carries(rs: seq<Read>, q: seq<Byte>) {
    rs == [] ||
    match rs[0]
    case Failed(_) => false
    case Eof => q == [] && Carries(rs[1..], q)
    case Data(b) => |b| > 0 && b <= q && Carries(rs[1..], q[|b|..])
  }

  /** With any positive buffer sizes, a stream that drains to `q` carries `q`. */
  lemma {:induction false} RunCarries(c: Channel, s: Stream, sizes: seq<nat>, q: seq<Byte>)
    requires s.index < WORD && forall i | 0 <= i < |sizes| :: sizes[i] > 0
    requires Drain(c, s) == Some(q)
    ensures Carries(Run(c, s, sizes), q)
    decreases |sizes|
  {
    if sizes == [] {
    } else {
      var (after, read) := ReadStep(c, s, sizes[0]);
      ReadStepDrains(c, s, sizes[0], q);
      RunCarries(c, after, sizes[1..], q[|Got(read)|..]);
      RunSplits(c, s, sizes, 1);
      assert Run(c, s, sizes)[1..] == Run(c, after, sizes[1..]);
    }
  }

  /**
   What reads that carry `q` look like: never a fault, always a prefix of `q`,
   the end exactly when all of `q` is out, and that after at most `|q|` reads.
   */
  lemma {:induction false} CarriesMeans(rs: seq<Read>, q: seq<Byte>, j: nat)
    requires Carries(rs, q) && j < |rs|
    ensures !rs[j].Failed?
    ensures Delivered(rs[..j]) <= q
    ensures rs[j] == Eof <==> Delivered(rs[..j]) == q
    ensures j >= |q| ==> rs[j] == Eof
    decreases j
  {
    if j > 0 {
      var got := Got(rs[0]);
      CarriesMeans(rs[1..], q[|got|..], j - 1);
      assert rs[..j][1..] == rs[1..][..j - 1];
      ConcatCancels(got, Delivered(rs[1..][..j - 1]), q[|got|..]);
    }
  }

  /** A stream that does not drain reports the end only after it has faulted. */
  lemma {:induction false} RunFaults(c: Channel, s: Stream, sizes: seq<nat>, j: nat)
    requires s.index < WORD && j < |sizes| && forall i | 0 <= i < |sizes| :: sizes[i] > 0
    requires Drain(c, s) == None && Run(c, s, sizes)[j] == Eof
    ensures exists i :: 0 <= i < j && Run(c, s, sizes)[i].Failed?
    decreases j
  {
    ReadStepFaults(c, s, sizes[0]);
    var (after, read) := ReadStep(c, s, sizes[0]);
    RunSplits(c, s, sizes, 1);
    if read.Data? {
      RunFaults(c, after, sizes[1..], j - 1);
      var i :| 0 <= i < j - 1 && Run(c, after, sizes[1..])[i].Failed?;
      assert Run(c, s, sizes)[i + 1].Failed?;
    } else {
      assert Run(c, s, sizes)[0].Failed?;
    }
  }

  /**
   Round trip. Whatever follows the archive in the file, and whatever positive
   buffer sizes it is read with, the reads carry exactly the plaintext and then
   the end of the stream.
   */
  lemma RoundTrip(c: Channel, p: seq<Byte>, log: set<Sealing>, tail: seq<Byte>, sizes: seq<nat>, j: nat)
    requires Ideal(c.aead, log) && ArchiveLog(c.id, p) <= log
    requires j < |sizes| && forall i | 0 <= i < |sizes| :: sizes[i] > 0
    ensures var rs := Run(c, Start(Sealed(c, p) + tail), sizes);
            && !rs[j].Failed?
            && Delivered(rs[..j]) <= p
            && (rs[j] == Eof <==> Delivered(rs[..j]) == p)
            && (j >= |p| ==> rs[j] == Eof)
  {
    ArchiveDrains(c, p, log, tail);
    RunCarries(c, Start(Sealed(c, p) + tail), sizes, p);
    CarriesMeans(Run(c, Start(Sealed(c, p) + tail), sizes), p, j);
  }

  /** The results of reads that carry `p` and then end. */
  predicate ReadsBack(p: seq<Byte>, rs: seq<Read>) {
    forall j | 0 <= j < |rs| ::
      && !rs[j].Failed? && Delivered(rs[..j]) <= p && (rs[j] == Eof <==> Delivered(rs[..j]) == p)
      && (j >= |p| ==> rs[j] == Eof)
  }

  lemma RunReadsBack(c: Channel, p: seq<Byte>, log: set<Sealing>, sizes: seq<nat>)
    requires Ideal(c.aead, log) && ArchiveLog(c.id, p) <= log && forall i | 0 <= i < |sizes| :: sizes[i] > 0
    ensures ReadsBack(p, Run(c, Start(Sealed(c, p)), sizes))
  {
    assert Sealed(c, p) + [] == Sealed(c, p);
    forall j | 0 <= j < |sizes|
      ensures var rs := Run(c, Start(Sealed(c, p)), sizes);
              && !rs[j].Failed? && Delivered(rs[..j]) <= p && (rs[j] == Eof <==> Delivered(rs[..j]) == p)
              && (j >= |p| ==> rs[j] == Eof)
    {
      RoundTrip(c, p, log, [], sizes, j);
    }
  }

  /**
   The same through the sealer and the opener themselves: any split into writes, any
   positive read sizes.
   */
  method SealThenRead(c: Channel, parts: seq<seq<Byte>>, sizes: seq<nat>, ghost log: set<Sealing>)
    returns (got: seq<Read>)
    requires Ideal(c.aead, log) && ArchiveLog(c.id, Concat(parts)) <= log
    requires forall i | 0 <= i < |sizes| :: sizes[i] > 0
    ensures |got| == |sizes| && ReadsBack(Concat(parts), got)
  {
    var w := new Sink(None);
    var _ := SealAll(w, c, parts);
    got := ReadAll(c, w.bytes, sizes);
    assert w.bytes == Sealed(c, Concat(parts));
    RunReadsBack(c, Concat(parts), log, sizes);
  }

  // ---- Input that nobody vouches for --------------------------------------

  /** A chunk that opened did so under the nonce and data of its position. */
  lemma OpenedMeans(c: Channel, s: Stream) returns (t: Sealing, final: bool)
    requires s.index < WORD && !s.done && Next(c, s).Opened?
    ensures t.nonce == Nonce(c.id, s.index) && t.aad == Aad(c.id, s.index, final)
    ensures Peel(s.input).Peeled? && OpensTo(c.aead, Peel(s.input).sealed, t)
    ensures Next(c, s).after == Stream(Peel(s.input).rest, (s.index + 1) % WORD, t.plain, final)
  {
    final := c.aead.open(Nonce(c.id, s.index), Peel(s.input).sealed, Aad(c.id, s.index, false)).None?;
    t := Sealing(Nonce(c.id, s.index), Next(c, s).after.pending, Aad(c.id, s.index, final));
  }

  /** `k` chunks of `p` have been opened, and the next index is theirs. */
  ghost predicate AtChunk(p: seq<Byte>, s: Stream, k: nat) {
    k <= Last(p) + 1 && s.index < WORD && s.done == (k == Last(p) + 1) && (k <= Last(p) ==> s.index == k)
  }

  /** While the counter fits, the only thing that opens at `k` is frame `k`. */
  lemma OpensOnlyGenuine(c: Channel, p: seq<Byte>, log: set<Sealing>, s: Stream, k: nat)
    requires Ideal(c.aead, log) && LogOf(c.id, p, log) && CounterFits(p)
    requires AtChunk(p, s, k) && !s.done && Next(c, s).Opened?
    ensures var after := Next(c, s).after;
            && s.input == Frame(c, SealingOf(c.id, p, k)) + after.input
            && after.pending == Chunk(p, k)
            && AtChunk(p, after, k + 1)
  {
    var t, final := OpenedMeans(c, s);
    LoggedIsChunk(c.id, p, log, t, k, final);
    PeeledIsFrame(c, t, s.input);
    if k < Last(p) {
      SmallWord(k + 1);
    }
  }

  /** If anything opens at position `k`, it is the archive's own frame `k`. */
  ghost predicate GenuineAt(c: Channel, p: seq<Byte>, s: Stream, k: nat) {
    AtChunk(p, s, k) && !s.done && Next(c, s).Opened? ==>
      && s.input == Frame(c, SealingOf(c.id, p, k)) + Next(c, s).after.input
      && Next(c, s).after.pending == Chunk(p, k)
      && AtChunk(p, Next(c, s).after, k + 1)
  }

  ghost predicate OnlyGenuine(c: Channel, p: seq<Byte>) {
    forall s, k: nat {:trigger GenuineAt(c, p, s, k)} :: GenuineAt(c, p, s, k)
  }

  lemma IdealIsOnlyGenuine(c: Channel, p: seq<Byte>, log: set<Sealing>)
    requires Ideal(c.aead, log) && LogOf(c.id, p, log) && CounterFits(p)
    ensures OnlyGenuine(c, p)
  {
    forall s, k: nat ensures GenuineAt(c, p, s, k) {
      if AtChunk(p, s, k) && !s.done && Next(c, s).Opened? {
        OpensOnlyGenuine(c, p, log, s, k);
      }
    }
  }

  /** `k` chunks of `p` have been opened, and all but `s.pending` of them handed out. */
  ghost predicate Tracks(p: seq<Byte>, s: Stream, out: seq<Byte>, k: nat) {
    AtChunk(p, s, k) && out + s.pending == p[..UpTo(p, k)]
  }

  lemma {:induction false} ReadTracks(c: Channel, p: seq<Byte>, s: Stream, out: seq<Byte>, k: nat, n: nat)
    returns (k': nat)
    requires OnlyGenuine(c, p) && Tracks(p, s, out, k)
    ensures var (after, read) := ReadStep(c, s, n);
            && Tracks(p, after, out + Got(read), k')
            && (read == Eof ==> out == p)
    decreases |s.input|
  {
    if |s.pending| > 0 || s.done {
      k' := k;
      if |s.pending| > 0 {
        var m := if n < |s.pending| then n else |s.pending|;
        assert out + s.pending == (out + s.pending[..m]) + s.pending[m..];
      } else {
        assert out + [] == out;
      }
    } else {
      assert GenuineAt(c, p, s, k);
      match Next(c, s) {
        case Refused(after, _) => k' := k; assert out + [] == out;
        case Opened(after) =>
          assert out == out + s.pending;
          ChunkShape(p, k);
          k' := ReadTracks(c, p, after, out, k + 1, n);
      }
    }
  }

  lemma {:induction false} RunTracks(c: Channel, p: seq<Byte>, s: Stream, out: seq<Byte>, k: nat,
                                     sizes: seq<nat>, j: nat)
    requires OnlyGenuine(c, p) && Tracks(p, s, out, k) && j <= |sizes|
    ensures var rs := Run(c, s, sizes);
            && out + Delivered(rs[..j]) <= p
            && (j < |sizes| && rs[j] == Eof ==> out + Delivered(rs[..j]) == p)
    decreases j
  {
    if sizes == [] {
    } else {
      var (after, read) := ReadStep(c, s, sizes[0]);
      var k' := ReadTracks(c, p, s, out, k, sizes[0]);
      if j > 0 {
        var got := Got(read);
        var rest := Run(c, after, sizes[1..]);
        RunTracks(c, p, after, out + got, k', sizes[1..], j - 1);
        RunSplits(c, s, sizes, j);
        ConcatAssoc(out, got, Delivered(rest[..j - 1]));
      }
    }
  }

  /**
   Whatever bytes the reader is given, whatever sizes it reads in, and even if it
   keeps reading after a fault: what it hands out is a prefix of what was sealed,
   and it reports the end only when all of it is out.
   */
  lemma OnlyWhatWasSealed(c: Channel, p: seq<Byte>, log: set<Sealing>, input: seq<Byte>, sizes: seq<nat>, j: nat)
    requires Ideal(c.aead, log) && LogOf(c.id, p, log) && CounterFits(p)
    requires j <= |sizes|
    ensures var rs := Run(c, Start(input), sizes);
            && Delivered(rs[..j]) <= p
            && (j < |sizes| && rs[j] == Eof ==> Delivered(rs[..j]) == p)
  {
    IdealIsOnlyGenuine(c, p, log);
    RunTracks(c, p, Start(input), [], 0, sizes, j);
    var rs := Run(c, Start(input), sizes);
    assert [] + Delivered(rs[..j]) == Delivered(rs[..j]);
  }

  lemma {:induction false} DrainsOnlyGenuine(c: Channel, p: seq<Byte>, s: Stream, k: nat)
    requires OnlyGenuine(c, p) && AtChunk(p, s, k) && Drain(c, s).Some?
    ensures FramesFrom(c, p, k) <= s.input
    decreases |s.input|
  {
    if k == Last(p) + 1 {
      assert FramesFrom(c, p, k) == [];
    } else {
      var after := DrainsPast(c, p, s, k);
      DrainsOnlyGenuine(c, p, after, k + 1);
      PrefixStep(c, p, k, s.input, after.input);
    }
  }

  /** A stream that drains holds its next frame, and drains after it too. */
  lemma DrainsPast(c: Channel, p: seq<Byte>, s: Stream, k: nat) returns (after: Stream)
    requires OnlyGenuine(c, p) && AtChunk(p, s, k) && Drain(c, s).Some? && k <= Last(p)
    ensures s.input == Frame(c, SealingOf(c.id, p, k)) + after.input && |after.input| < |s.input|
    ensures AtChunk(p, after, k + 1) && Drain(c, after).Some?
  {
    assert GenuineAt(c, p, s, k);
    after := Next(c, s).after;
  }

  lemma PrefixStep(c: Channel, p: seq<Byte>, k: nat, input: seq<Byte>, after: seq<Byte>)
    requires k <= Last(p) && input == Frame(c, SealingOf(c.id, p, k)) + after && FramesFrom(c, p, k + 1) <= after
    ensures FramesFrom(c, p, k) <= input
  {
    ConcatCancels(Frame(c, SealingOf(c.id, p, k)), FramesFrom(c, p, k + 1), after);
  }

  /** Reading with these sizes, read `j` reports the end and none before it failed. */
  ghost predicate EndsCleanly(c: Channel, input: seq<Byte>, sizes: seq<nat>, j: nat) {
    && j < |sizes| && (forall i | 0 <= i < |sizes| :: sizes[i] > 0)
    && Run(c, Start(input), sizes)[j] == Eof
    && forall i | 0 <= i < j :: !Run(c, Start(input), sizes)[i].Failed?
  }

  /** Some way of reading the file gets to its end without a fault. */
  ghost predicate ReadsToEnd(c: Channel, input: seq<Byte>) {
    exists sizes, j: nat :: EndsCleanly(c, input, sizes, j)
  }

  /** What can be read to its end drains. */
  lemma EndedDrains(c: Channel, input: seq<Byte>, sizes: seq<nat>, j: nat)
    requires EndsCleanly(c, input, sizes, j)
    ensures Drain(c, Start(input)).Some?
  {
    if Drain(c, Start(input)) == None { RunFaults(c, Start(input), sizes, j); }
  }

  /** What drains can be read to its end. */
  lemma DrainedEnds(c: Channel, input: seq<Byte>)
    requires Drain(c, Start(input)).Some?
    ensures ReadsToEnd(c, input)
  {
    var p := Drain(c, Start(input)).value;
    var sizes := seq(|p| + 1, _ => 1);
    var rs := Run(c, Start(input), sizes);
    RunCarries(c, Start(input), sizes, p);
    forall i: nat | i < |rs| ensures !rs[i].Failed? && (i == |p| ==> rs[i] == Eof) { CarriesMeans(rs, p, i); }
    assert EndsCleanly(c, input, sizes, |p|);
  }

  /**
   A file can be read to its end without a fault exactly when it starts with the whole
   archive, and then what was read is the plaintext. A truncated, reordered or spliced
   file cannot, with any read sizes.
   */
  lemma CompleteIffWhole(c: Channel, p: seq<Byte>, log: set<Sealing>, input: seq<Byte>)
    requires Ideal(c.aead, log) && LogOf(c.id, p, log) && CounterFits(p)
    ensures ReadsToEnd(c, input) <==> Sealed(c, p) <= input
    ensures forall sizes, j: nat | EndsCleanly(c, input, sizes, j) :: Delivered(Run(c, Start(input), sizes)[..j]) == p
  {
    forall sizes, j: nat | EndsCleanly(c, input, sizes, j)
      ensures Sealed(c, p) <= input && Delivered(Run(c, Start(input), sizes)[..j]) == p
    {
      EndedDrains(c, input, sizes, j);
      DrainedIsWhole(c, p, log, input);
      OnlyWhatWasSealed(c, p, log, input, sizes, j);
    }
    if Sealed(c, p) <= input {
      WholeDrains(c, p, log, input);
      DrainedEnds(c, input);
    }
  }

  lemma DrainedIsWhole(c: Channel, p: seq<Byte>, log: set<Sealing>, input: seq<Byte>)
    requires Ideal(c.aead, log) && LogOf(c.id, p, log) && CounterFits(p)
    requires Drain(c, Start(input)).Some?
    ensures Sealed(c, p) <= input
  {
    SealedIsAllFrames(c, p);
    IdealIsOnlyGenuine(c, p, log);
    DrainsOnlyGenuine(c, p, Start(input), 0);
  }

  lemma WholeDrains(c: Channel, p: seq<Byte>, log: set<Sealing>, input: seq<Byte>)
    requires Ideal(c.aead, log) && ArchiveLog(c.id, p) <= log && Sealed(c, p) <= input
    ensures Drain(c, Start(input)) == Some(p)
  {
    var tail := input[|Sealed(c, p)|..];
    assert input == Sealed(c, p) + tail;
    ArchiveDrains(c, p, log, tail);
  }

  // ---- When the counter wraps ---------------------------------------------

  /** The archive of what is left once the counter has come round to zero. */
  ghost function AfterWrap(p: seq<Byte>): seq<Byte>
    requires |p| >= WORD * CHUNK_SIZE
  {
    p[WORD * CHUNK_SIZE..]
  }

  lemma SealingRepeats(id: ArchiveId, p: seq<Byte>, k: nat)
    requires |p| >= WORD * CHUNK_SIZE && k <= Last(AfterWrap(p))
    ensures SealingOf(id, AfterWrap(p), k) == SealingOf(id, p, WORD + k)
    ensures Last(p) == WORD + Last(AfterWrap(p))
  {
    var q := AfterWrap(p);
    assert Last(p) == WORD + Last(q);
    assert (WORD + k) % WORD == k % WORD;
    assert UpTo(p, WORD + k) == WORD * CHUNK_SIZE + UpTo(q, k);
    assert UpTo(p, WORD + k + 1) == WORD * CHUNK_SIZE + UpTo(q, k + 1);
    assert Chunk(q, k) == Chunk(p, WORD + k);
  }

  lemma {:induction false} FramesRepeat(c: Channel, p: seq<Byte>, k: nat)
    requires |p| >= WORD * CHUNK_SIZE && k <= Last(AfterWrap(p)) + 1
    ensures Last(p) == WORD + Last(AfterWrap(p))
    ensures FramesFrom(c, AfterWrap(p), k) == FramesFrom(c, p, WORD + k)
    decreases Last(AfterWrap(p)) + 1 - k
  {
    SealingRepeats(c.id, p, 0);
    if k <= Last(AfterWrap(p)) {
      SealingRepeats(c.id, p, k);
      FramesRepeat(c, p, k + 1);
    }
  }

  lemma LogRepeats(id: ArchiveId, p: seq<Byte>)
    requires |p| >= WORD * CHUNK_SIZE
    ensures ArchiveLog(id, AfterWrap(p)) <= ArchiveLog(id, p)
  {
    var q := AfterWrap(p);
    forall t | t in ArchiveLog(id, q) ensures t in ArchiveLog(id, p) {
      var k :| 0 <= k <= Last(q) && t == SealingOf(id, q, k);
      SealingRepeats(id, p, k);
      assert SealingOf(id, p, WORD + k) in ArchiveLog(id, p);
    }
  }

  /** The body of what is left after the wrap is the tail of the whole body. */
  lemma CutIsSealed(c: Channel, p: seq<Byte>)
    requires |p| >= WORD * CHUNK_SIZE
    ensures Sealed(c, p) == Committed(c, p, WORD) + FramesFrom(c, p, WORD)
    ensures FramesFrom(c, p, WORD) == Sealed(c, AfterWrap(p))
  {
    SealedSplits(c, p, WORD) by {
      SealingRepeats(c.id, p, 0);
    }
    FramesRepeat(c, p, 0);
    SealedIsAllFrames(c, AfterWrap(p));
  }

  /**
   An archive long enough to wrap the counter is not protected: with its first 2^32
   frames cut off, what remains still reads to its end, with any read sizes and without
   a fault, as what was sealed after the wrap.
   */
  lemma WrappedArchiveCanBeCut(c: Channel, p: seq<Byte>, log: set<Sealing>, sizes: seq<nat>)
    requires Ideal(c.aead, log) && ArchiveLog(c.id, p) <= log && |p| >= WORD * CHUNK_SIZE
    requires forall i | 0 <= i < |sizes| :: sizes[i] > 0
    ensures var cut := FramesFrom(c, p, WORD);
            && Sealed(c, p) == Committed(c, p, WORD) + cut && |cut| < |Sealed(c, p)|
            && ReadsBack(AfterWrap(p), Run(c, Start(cut), sizes))
            && ReadsToEnd(c, cut)
  {
    CutIsSealed(c, p);
    LogRepeats(c.id, p);
    RunReadsBack(c, AfterWrap(p), log, sizes);
    WholeDrains(c, AfterWrap(p), log, FramesFrom(c, p, WORD));
    DrainedEnds(c, FramesFrom(c, p, WORD));
  }

  /** Only the whole archive, possibly with bytes after it, can be read to the end. */
  ghost predicate CutsAreDetected(c: Channel, p: seq<Byte>) {
    forall input :: ReadsToEnd(c, input) ==> Sealed(c, p) <= input
  }

  /** The final flag protects exactly the archives whose counter does not wrap. */
  lemma CutsAreDetectedExactly(c: Channel, p: seq<Byte>, log: set<Sealing>)
    requires Ideal(c.aead, log) && LogOf(c.id, p, log)
    ensures CutsAreDetected(c, p) <==> |p| < WORD * CHUNK_SIZE
  {
    CounterFitsExactly(p);
    if CounterFits(p) {
      forall input | ReadsToEnd(c, input) ensures Sealed(c, p) <= input {
        CompleteIffWhole(c, p, log, input);
      }
    } else {
      WrappedArchiveCanBeCut(c, p, log, []);
      assert ReadsToEnd(c, FramesFrom(c, p, WORD));
    }
  }
}
