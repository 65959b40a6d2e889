/** A stand-in for `compress/gzip`. The real DEFLATE coding is not modelled: a
    compressed stream is the two gzip magic bytes followed by the data, which is
    enough to state the reader's header errors and the round trip. */
module Gzip {
  import opened Errors
  import opened FileSystem

  const Magic: Bytes := [0x1f, 0x8b]

  /** A reader positioned after a valid header. */
  datatype Reader = Reader(rest: Bytes)

  /** Writing `c` through `gzip.NewWriter` into a buffer and closing it. */
  function Compress(c: Bytes): (z: Bytes)
    ensures |z| == |c| + |Magic| && z[..|Magic|] == Magic
  {
    Magic + c
  }

  /** `gzip.NewReader`: reads the header. An empty stream gives `io.EOF`, a
      truncated header `io.ErrUnexpectedEOF`, a wrong one `gzip.ErrHeader`. */
  function NewReader(z: Bytes): (r: Result<Reader>)
    ensures z == [] ==> r == Err(EOF)
    ensures r.Ok? <==> |z| >= |Magic| && z[..|Magic|] == Magic
  {
    if |z| == 0 then Err(EOF)
    else if |z| < |Magic| then Err(UnexpectedEOF)
    else if z[..|Magic|] != Magic then Err(ErrHeader)
    else Ok(Reader(z[|Magic|..]))
  }

  /** `ioutil.ReadAll` on a gzip reader: the stand-in never fails once the header
      is accepted, and reads exactly what followed the header. */
  function ReadAll(rd: Reader): (r: Result<Bytes>)
    ensures r.Ok? && r.value == rd.rest
  {
    Ok(rd.rest)
  }

  /** What is written can be read back: the header is accepted and the body is `c`. */
  lemma CompressRoundTrip(c: Bytes)
    ensures NewReader(Compress(c)).Ok?
    ensures ReadAll(NewReader(Compress(c)).value) == Ok(c)
  {
    assert Compress(c)[..|Magic|] == Magic;
    assert Compress(c)[|Magic|..] == c;
  }
}
