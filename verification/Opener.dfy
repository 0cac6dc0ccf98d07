/** The reading half: frames opened one at a time, handed out in any read size. */
module ArchiveOpener {
  import opened Bytes
  import opened Wrappers
  import opened ArchiveFormat

  /** Everything a reader of an archive holds. `input` is what the source still has. */
  datatype Stream = Stream(input: seq<Byte>, index: nat, pending: seq<Byte>, done: bool)

  datatype Fault = BadPassphrase | ChunkTooLarge

  /** Either one more chunk was opened, or the archive is refused; both use up input. */
  datatype Step = Opened(after: Stream) | Refused(after: Stream, why: Fault)

  datatype Read = Data(bytes: seq<Byte>) | Eof | Failed(why: Fault)

  function Start(input: seq<Byte>): Stream {
    Stream(input, 0, [], false)
  }

  /** What one chunk's worth of input does to the stream. */
  function Next(c: Channel, s: Stream): (r: Step)
    requires s.index < WORD
    ensures r.after.index < WORD
    ensures r.Opened? ==> |r.after.input| < |s.input|
  {
    match Peel(s.input)
    case CutShort => Refused(s.(input := []), BadPassphrase)
    case Oversized(rest) => Refused(s.(input := rest), ChunkTooLarge)
    case Peeled(sealed, rest) =>
      var nonce := Nonce(c.id, s.index);
      match c.aead.open(nonce, sealed, Aad(c.id, s.index, false))
      case Some(p) => Opened(Stream(rest, (s.index + 1) % WORD, p, s.done))
      case None =>
        match c.aead.open(nonce, sealed, Aad(c.id, s.index, true))
        case Some(p) => Opened(Stream(rest, (s.index + 1) % WORD, p, true))
        case None => Refused(s.(input := rest), BadPassphrase)
  }

  /** What a read into a buffer of `n` bytes returns, and what it leaves. */
  function ReadStep(c: Channel, s: Stream, n: nat): (r: (Stream, Read))
    requires s.index < WORD
    ensures r.0.index < WORD
    decreases |s.input|
  {
    if |s.pending| > 0 then
      var m := if n < |s.pending| then n else |s.pending|;
      (s.(pending := s.pending[m..]), Data(s.pending[..m]))
    else if s.done then (s, Eof)
    else match Next(c, s)
      case Refused(after, why) => (after, Failed(why))
      case Opened(after) => ReadStep(c, after, n)
  }

  /** The results of reading with the given buffer sizes, one after another. */
  function Run(c: Channel, s: Stream, sizes: seq<nat>): (r: seq<Read>)
    requires s.index < WORD
    ensures |r| == |sizes|
    decreases |sizes|
  {
    if sizes == [] then [] else
      var (after, read) := ReadStep(c, s, sizes[0]);
      [read] + Run(c, after, sizes[1..])
  }

  function Got(read: Read): seq<Byte> {
    if read.Data? then read.bytes else []
  }

  function Delivered(rs: seq<Read>): seq<Byte> {
    if rs == [] then [] else
      Got(rs[0]) + Delivered(rs[1..])
  }

  /** The plaintext of a stream that reads to the end without a fault. */
  function Drain(c: Channel, s: Stream): (r: Option<seq<Byte>>)
    requires s.index < WORD
    decreases |s.input|
  {
    if s.done then Some(s.pending) else
      match Next(c, s)
      case Refused(_, _) => None
      case Opened(after) =>
        match Drain(c, after)
        case None => None
        case Some(rest) => Some(s.pending + rest)
  }

  class Opener {
    const c: Channel
    /** The bytes the underlying reader has not handed over yet. */
    var input: seq<Byte>
    var index: nat
    var pending: seq<Byte>
    var done: bool

    ghost predicate Valid()
      reads this
    {
      index < WORD
    }

    ghost function State(): Stream
      reads this
    {
      Stream(input, index, pending, done)
    }

    constructor (c: Channel, input: seq<Byte>)
      ensures Valid() && this.c == c && State() == Start(input)
    {
      this.c, this.input := c, input;
      index, pending, done := 0, [], false;
    }

    /** Fills a buffer of `n` bytes from the reader, or reports that it ended first. */
    method ReadFull(n: nat) returns (r: Option<seq<Byte>>)
      modifies this`input
      ensures if n <= |old(input)|
              then r == Some(old(input)[..n]) && input == old(input)[n..]
              else r == None && input == []
    {
      if n <= |input| {
        r := Some(input[..n]);
        input := input[n..];
      } else {
        r := None;
        input := [];
      }
    }

    method NextChunk() returns (fault: Option<Fault>)
      requires Valid()
      modifies this
      ensures Valid()
      ensures State() == Next(c, old(State())).after
      ensures fault == match Next(c, old(State())) case Opened(_) => None case Refused(_, why) => Some(why)
    {
      var length := ReadFull(4);
      if length.None? { return Some(BadPassphrase); }
      var size := FromBe32(length.value);
      if size > MAX_CHUNK { return Some(ChunkTooLarge); }
      var sealed := ReadFull(size);
      if sealed.None? { return Some(BadPassphrase); }
      var nonce := Nonce(c.id, index);
      var plain := c.aead.open(nonce, sealed.value, Aad(c.id, index, false));
      if plain.None? {
        plain := c.aead.open(nonce, sealed.value, Aad(c.id, index, true));
        if plain.None? { return Some(BadPassphrase); }
        done := true;
      }
      pending := plain.value;
      index := (index + 1) % WORD;
      return None;
    }

    method Read(n: nat) returns (r: Read)
      requires Valid()
      modifies this
      ensures Valid()
      ensures (State(), r) == ReadStep(c, old(State()), n)
    {
      while |pending| == 0
        invariant Valid()
        invariant ReadStep(c, State(), n) == ReadStep(c, old(State()), n)
        decreases |input|
      {
        if done { return Eof; }
        var fault := NextChunk();
        if fault.Some? { return Failed(fault.value); }
      }
      var m := if n < |pending| then n else |pending|;
      r := Data(pending[..m]);
      pending := pending[m..];
    }
  }

  lemma RunNext(c: Channel, s: Stream, sizes: seq<nat>, i: nat)
    requires s.index < WORD && i < |sizes|
    ensures var (after, read) := ReadStep(c, s, sizes[i]);
            Run(c, s, sizes[i..]) == [read] + Run(c, after, sizes[i + 1..])
  {
    assert sizes[i..][1..] == sizes[i + 1..];
  }

  /** Reads an archive with the given buffer sizes, one after another. */
  method ReadAll(c: Channel, input: seq<Byte>, sizes: seq<nat>) returns (got: seq<Read>)
    ensures got == Run(c, Start(input), sizes)
  {
    var o := new Opener(c, input);
    got := [];
    for i := 0 to |sizes|
      invariant o.Valid() && o.c == c
      invariant got + Run(c, o.State(), sizes[i..]) == Run(c, Start(input), sizes)
    {
      RunNext(c, o.State(), sizes, i);
      var r := o.Read(sizes[i]);
      got := got + [r];
    }
    assert got + [] == got;
  }
}
