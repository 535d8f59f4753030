/** What Tcl_ReadRaw delivers to the file loops and to the stacked channels. */
module RawReads {
  import opened TlsTypes

  /** One read of the channel below: bytes, nothing (end of file for a stacked channel), an error. */
  datatype RawRead = Bytes(data: seq<byte>) | Zero | Failed(error: Errno)

  function Brought(r: RawRead): seq<byte> {
    if r.Bytes? then r.data else []
  }

  function Source(raws: seq<RawRead>): seq<byte> {
    if raws == [] then [] else Brought(raws[0]) + Source(raws[1..])
  }

  /** The source is the joined data of all reads that brought some. */
  lemma {:induction false} SourceJoins(a: seq<RawRead>, b: seq<RawRead>)
    ensures Source(a + b) == Source(a) + Source(b)
    decreases |a|
  {
    if a == [] {
      assert a + b == b;
    } else {
      SourceJoins(a[1..], b);
      assert (a + b)[0] == a[0] && (a + b)[1..] == a[1..] + b;
    }
  }

  lemma SourceThen(raws: seq<RawRead>, r: RawRead)
    ensures Source(raws + [r]) == Source(raws) + (if r.Bytes? then r.data else [])
  {
    SourceJoins(raws, [r]);
    assert Source([r][1..]) == [];
  }
}
