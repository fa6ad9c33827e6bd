/**
 Re-chunking and delimiter framing on a WebRTC data channel
 (`packages/core/src/webrtc/webrtc.rs`). The channel carries text and binary
 messages in order and without loss.
 */
module Chunking {

  newtype Byte = x: int | 0 <= x < 256

  type Bytes = seq<Byte>

  /** A data channel message; `T` is what the text messages say. */
  datatype Message<T> = Text(text: T) | Binary(data: Bytes)

  const CHUNK_SIZE: nat := 16 * 1024

  function Concat(pieces: seq<Bytes>): Bytes {
    if pieces == [] then [] else Concat(pieces[..|pieces| - 1]) + pieces[|pieces| - 1]
  }

  /** `data` cut into chunks of `CHUNK_SIZE`, the last one shorter. */
  function Chunks(data: Bytes): seq<Bytes> {
    if data == [] then []
    else if |data| < CHUNK_SIZE then [data]
    else [data[..CHUNK_SIZE]] + Chunks(data[CHUNK_SIZE..])
  }

  predicate AllFull(chunks: seq<Bytes>) {
    forall i :: 0 <= i < |chunks| ==> |chunks[i]| == CHUNK_SIZE
  }

  lemma {:induction false} ConcatAppend(a: seq<Bytes>, b: seq<Bytes>)
    ensures Concat(a + b) == Concat(a) + Concat(b)
  {
    if b == [] {
      assert a + b == a;
    } else {
      assert (a + b)[..|a + b| - 1] == a + b[..|b| - 1];
      ConcatAppend(a, b[..|b| - 1]);
    }
  }

  lemma ConcatOne(piece: Bytes)
    ensures Concat([piece]) == piece
  {
    assert [piece][..0] == [];
  }

  lemma {:induction false} ConcatChunks(data: Bytes)
    ensures Concat(Chunks(data)) == data
  {
    if data == [] {
    } else if |data| < CHUNK_SIZE {
      ConcatOne(data);
    } else {
      ConcatChunks(data[CHUNK_SIZE..]);
      ConcatAppend([data[..CHUNK_SIZE]], Chunks(data[CHUNK_SIZE..]));
      ConcatOne(data[..CHUNK_SIZE]);
    }
  }

  /** All chunks but the last are full, and none is empty. */
  lemma {:induction false} ChunkSizes(data: Bytes)
    ensures forall i :: 0 <= i < |Chunks(data)| ==> 0 < |Chunks(data)[i]| <= CHUNK_SIZE
    ensures forall i :: 0 <= i < |Chunks(data)| - 1 ==> |Chunks(data)[i]| == CHUNK_SIZE
  {
    if |data| >= CHUNK_SIZE {
      ChunkSizes(data[CHUNK_SIZE..]);
    }
  }

  /** Full chunks can be cut off as soon as they are complete. */
  lemma {:induction false} ChunksOfFull(full: seq<Bytes>, rest: Bytes)
    requires AllFull(full)
    ensures Chunks(Concat(full) + rest) == full + Chunks(rest)
  {
    if full == [] {
      assert Concat(full) + rest == rest;
    } else {
      var init, last := full[..|full| - 1], full[|full| - 1];
      assert Concat(full) + rest == Concat(init) + (last + rest);
      ChunksOfFull(init, last + rest);
      assert (last + rest)[..CHUNK_SIZE] == last && (last + rest)[CHUNK_SIZE..] == rest;
      assert full + Chunks(rest) == init + ([last] + Chunks(rest));
    }
  }

  /** The split of the input into pieces does not matter: only its bytes do. */
  method ProcessInChunks(pieces: seq<Bytes>) returns (chunks: seq<Bytes>)
    ensures chunks == Chunks(Concat(pieces))
    ensures Concat(chunks) == Concat(pieces)
    ensures forall i :: 0 <= i < |chunks| ==> 0 < |chunks[i]| <= 16 * 1024
    ensures forall i :: 0 <= i < |chunks| - 1 ==> |chunks[i]| == 16 * 1024
  {
    var buffer: Bytes := [];
    chunks := [];
    for i := 0 to |pieces|
      invariant AllFull(chunks) && |buffer| < CHUNK_SIZE
      invariant Concat(chunks) + buffer == Concat(pieces[..i])
    {
      buffer := buffer + pieces[i];
      assert pieces[..i + 1][..i] == pieces[..i];
      while |buffer| >= CHUNK_SIZE
        invariant AllFull(chunks)
        invariant Concat(chunks) + buffer == Concat(pieces[..i + 1])
      {
        ghost var before := chunks;
        chunks := chunks + [buffer[..CHUNK_SIZE]];
        assert chunks[..|chunks| - 1] == before;
        assert buffer[..CHUNK_SIZE] + buffer[CHUNK_SIZE..] == buffer;
        buffer := buffer[CHUNK_SIZE..];
      }
    }
    assert pieces[..|pieces|] == pieces;
    ChunksOfFull(chunks, buffer);
    if buffer != [] {
      chunks := chunks + [buffer];
    }
    ConcatChunks(Concat(pieces));
    ChunkSizes(Concat(pieces));
  }

  // ---------------------------------------------------------------------------
  // Delimiter framing
  // ---------------------------------------------------------------------------

  function Binaries<T>(chunks: seq<Bytes>): seq<Message<T>> {
    seq(|chunks|, i requires 0 <= i < |chunks| => Binary(chunks[i]))
  }

  /** `send_string_in_chunks` followed by `send_delimiter`. */
  function Frame<T>(payload: Bytes, delimiter: T): seq<Message<T>> {
    Binaries(Chunks(payload)) + [Text(delimiter)]
  }

  /** `receive_string_from_chunks`: the bytes up to the next text message, and what follows it. */
  function ReadFrame<T>(queue: seq<Message<T>>): (Bytes, seq<Message<T>>) {
    if queue == [] then ([], [])
    else if queue[0].Text? then ([], queue[1..])
    else
      var (data, rest) := ReadFrame(queue[1..]);
      (queue[0].data + data, rest)
  }

  method ReceiveStringFromChunks<T>(queue: seq<Message<T>>) returns (buffer: Bytes, rest: seq<Message<T>>)
    ensures buffer == ReadFrame(queue).0 && rest == ReadFrame(queue).1
  {
    buffer, rest := [], queue;
    while rest != []
      invariant ReadFrame(queue).0 == buffer + ReadFrame(rest).0
      invariant ReadFrame(queue).1 == ReadFrame(rest).1
      decreases |rest|
    {
      var msg := rest[0];
      ghost var later := ReadFrame(rest[1..]).0;
      if msg.Text? {
        rest := rest[1..];
        return;
      }
      assert buffer + (msg.data + later) == (buffer + msg.data) + later;
      buffer := buffer + msg.data;
      rest := rest[1..];
    }
  }

  lemma {:induction false} ReadChunks<T>(chunks: seq<Bytes>, delimiter: T, rest: seq<Message<T>>)
    ensures ReadFrame(Binaries(chunks) + [Text(delimiter)] + rest) == (Concat(chunks), rest)
  {
    var queue := Binaries(chunks) + [Text(delimiter)] + rest;
    if chunks != [] {
      assert queue[1..] == Binaries(chunks[1..]) + [Text(delimiter)] + rest;
      ReadChunks(chunks[1..], delimiter, rest);
      ConcatAppend([chunks[0]], chunks[1..]);
      ConcatOne(chunks[0]);
      assert [chunks[0]] + chunks[1..] == chunks;
    }
  }

  /** What is sent in chunks and delimited is read back, and nothing behind it is touched. */
  lemma FrameRoundTrip<T>(payload: Bytes, delimiter: T, rest: seq<Message<T>>)
    ensures ReadFrame(Frame(payload, delimiter) + rest) == (payload, rest)
  {
    ReadChunks(Chunks(payload), delimiter, rest);
    ConcatChunks(payload);
  }
}
