/**
 * The two java.io streams the backend touches: the request's content stream,
 * which it drains, and the growing in-memory buffer it drains it into.
 */
module Streams {

  /** A Java byte (signed, 8 bits). */
  newtype byte = b: int | -128 <= b < 128

  /** In-order concatenation of the chunks that were read. */
  function Concat(chunks: seq<seq<byte>>): (r: seq<byte>)
    decreases |chunks|
  {
    if chunks == [] then [] else Concat(chunks[..|chunks| - 1]) + chunks[|chunks| - 1]
  }

  lemma ConcatAppend(chunks: seq<seq<byte>>, c: seq<byte>)
    ensures Concat(chunks + [c]) == Concat(chunks) + c
  {
    assert (chunks + [c])[..|chunks|] == chunks;
  }

  /**
   * An input stream, seen through what it has left to deliver.  How many
   * bytes one read hands back is up to the stream: any amount between one and
   * the buffer's length.
   */
  class InputStream {
    var remaining: seq<byte>

    constructor (contents: seq<byte>)
      ensures remaining == contents
    {
      remaining := contents;
    }

    /**
     * InputStream.read(byte[]): 0 for an empty buffer, -1 at the end of the
     * stream, otherwise the number of bytes placed at the front of the buffer.
     */
    method Read(b: array<byte>) returns (r: int)
      modifies this, b
      ensures b.Length == 0 ==> r == 0 && remaining == old(remaining)
      ensures b.Length > 0 && old(remaining) == [] ==> r == -1 && remaining == []
      ensures b.Length > 0 && old(remaining) != [] ==>
                1 <= r <= b.Length && r <= |old(remaining)|
      ensures r >= 0 ==> r <= |old(remaining)| && b[..r] == old(remaining)[..r] && remaining == old(remaining)[r..]
      ensures r >= 0 ==> forall i :: r <= i < b.Length ==> b[i] == old(b[i])
      ensures r == -1 ==> b[..] == old(b[..])
    {
      if b.Length == 0 {
        return 0;
      }
      if remaining == [] {
        return -1;
      }
      var n :| 1 <= n <= b.Length && n <= |remaining|;
      forall i | 0 <= i < n {
        b[i] := remaining[i];
      }
      remaining := remaining[n..];
      r := n;
    }
  }

  /** ByteArrayOutputStream: a buffer that grows by every write. */
  class ByteArrayOutputStream {
    var bytes: seq<byte>

    /** The initial capacity is only a sizing hint. */
    constructor (initialCapacity: nat)
      ensures bytes == []
    {
      bytes := [];
    }

    method Write(b: array<byte>, off: nat, len: nat)
      requires off + len <= b.Length
      modifies this
      ensures bytes == old(bytes) + b[off..off + len]
    {
      bytes := bytes + b[off..off + len];
    }

    method ToByteArray() returns (a: seq<byte>)
      ensures a == bytes
    {
      a := bytes;
    }
  }
}
