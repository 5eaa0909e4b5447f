/** Reading a response body of untrusted length into memory, up to a hard limit. */
module BoundedDownload {
  import opened ByteStrings

  const MAX_DOWNLOAD_BYTES: nat := 0x200_0000

  datatype ReadResult = Body(data: Bytes) | TooLargeDeclared | TooLargeActual | Broken

  function Flatten(chunks: seq<Bytes>): Bytes {
    if chunks == [] then [] else chunks[0] + Flatten(chunks[1..])
  }

  /** A body that arrives in chunks of any sizes, empty ones included, and then ends or breaks off. */
  class Reader {
    var chunks: seq<Bytes>
    const broken: bool
    ghost var taken: Bytes

    ghost function Remaining(): Bytes
      reads this
    {
      Flatten(chunks)
    }

    constructor (chunks: seq<Bytes>, broken: bool)
      ensures this.chunks == chunks && this.broken == broken && taken == []
    {
      this.chunks, this.broken, taken := chunks, broken, [];
    }

    /** Delivers at most max bytes of what comes next; at the end it reports end or failure instead. */
    method Read(max: nat) returns (data: Bytes, atEnd: bool)
      requires max > 0
      modifies this
      ensures old(Remaining()) == data + Remaining() && |data| <= max
      ensures taken == old(taken) + data
      ensures atEnd <==> old(chunks) == []
      ensures atEnd ==> data == [] && chunks == []
      ensures !atEnd ==> |chunks| < |old(chunks)| || (|chunks| == |old(chunks)| && |Remaining()| < |old(Remaining())|)
    {
      if chunks == [] {
        return [], true;
      }
      atEnd := false;
      var head := chunks[0];
      assert chunks == [head] + chunks[1..];
      if |head| <= max {
        data, chunks := head, chunks[1..];
      } else {
        data := head[..max];
        assert head == data + head[max..];
        chunks := [head[max..]] + chunks[1..];
      }
      taken := taken + data;
    }
  }

  /** Drains the reader through a window of limit + 1 bytes, so that reaching the limit and passing it differ. */
  method ReadBoundedTo(limit: nat, declared: int, body: Reader) returns (r: ReadResult)
    modifies body
    // it succeeds exactly when both lengths fit and the body did not break off, and then returns all of it
    ensures r.Body? <==> declared <= limit && |old(body.Remaining())| <= limit && !body.broken
    ensures r.Body? ==> r.data == old(body.Remaining())
    ensures r.TooLargeDeclared? <==> declared > limit
    ensures r.TooLargeActual? <==> declared <= limit && |old(body.Remaining())| > limit
    // it never takes more than one byte past the limit, and nothing at all from a body declared too large
    ensures |old(body.taken)| <= |body.taken| <= |old(body.taken)| + limit + 1
    ensures old(body.Remaining()) == body.taken[|old(body.taken)|..] + body.Remaining()
    ensures declared > limit ==> body.taken == old(body.taken) && body.chunks == old(body.chunks)
  {
    if declared > limit {
      assert body.taken[|body.taken|..] == [];
      return TooLargeDeclared;
    }
    var data: Bytes := [];
    var atEnd := false;
    while !atEnd && |data| < limit + 1
      invariant |data| <= limit + 1
      invariant old(body.Remaining()) == data + body.Remaining()
      invariant body.taken == old(body.taken) + data
      invariant atEnd ==> body.chunks == []
      decreases !atEnd, |body.chunks|, |body.Remaining()|
    {
      var chunk;
      chunk, atEnd := body.Read(limit + 1 - |data|);
      data := data + chunk;
    }
    assert body.taken[|old(body.taken)|..] == data;
    if |data| <= limit {
      return if body.broken then Broken else Body(data);
    }
    r := TooLargeActual;
  }
}
