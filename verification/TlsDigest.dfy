/** Message digests of generic/tlsDigest.c: one call on a block of data, a file loop and a stacked
    channel, with binary or hexadecimal results. */
module TlsDigest {
  import opened TlsTypes
  import opened RawReads

  const EVP_MAX_MD_SIZE := 64
  const BUFFER_SIZE := 65536

  /** A hash function or message authentication code: it takes in bytes one after the other; only an
      extendable-output hash can also squeeze out any number of bytes. */
  datatype Hash<!H> = Hash(initial: H, absorb: (H, byte) -> H, finish: H -> seq<byte>,
                           squeeze: (H, nat) -> seq<byte>, extendable: bool)

  ghost predicate Sound<H(!new)>(hash: Hash<H>) {
    && (forall h :: |hash.finish(h)| <= EVP_MAX_MD_SIZE)
    && (forall h, n :: |hash.squeeze(h, n)| == n)
  }

  /** The requested result: hexadecimal or binary, and the length for extendable output (0: default). */
  datatype Format = Format(binary: bool, length: nat)

  function Absorb<H>(hash: Hash<H>, h: H, data: seq<byte>): H {
    if data == [] then h else Absorb(hash, hash.absorb(h, data[0]), data[1..])
  }

  lemma {:induction false} AbsorbJoin<H>(hash: Hash<H>, h: H, a: seq<byte>, b: seq<byte>)
    ensures Absorb(hash, h, a + b) == Absorb(hash, Absorb(hash, h, a), b)
    decreases |a|
  {
    if a == [] {
      assert a + b == b;
    } else {
      AbsorbJoin(hash, hash.absorb(h, a[0]), a[1..], b);
      assert (a + b)[0] == a[0] && (a + b)[1..] == a[1..] + b;
    }
  }

  /** The states a hash goes through, one byte after the other. */
  predicate Steps<H(==)>(hash: Hash<H>, hs: seq<H>, data: seq<byte>) {
    |hs| == |data| + 1 && forall i | 0 <= i < |data| :: hs[i + 1] == hash.absorb(hs[i], data[i])
  }

  /** Every byte of the data has been taken in, in order, from the first state to the second. */
  ghost predicate Absorbs<H(!new)>(hash: Hash<H>, h: H, data: seq<byte>, h': H) {
    exists hs :: Steps(hash, hs, data) && hs[0] == h && hs[|data|] == h'
  }

  lemma {:induction false} AbsorbSteps<H(!new)>(hash: Hash<H>, h: H, data: seq<byte>) returns (hs: seq<H>)
    ensures Steps(hash, hs, data) && hs[0] == h && hs[|data|] == Absorb(hash, h, data)
    decreases |data|
  {
    if data == [] {
      hs := [h];
    } else {
      var rest := AbsorbSteps(hash, hash.absorb(h, data[0]), data[1..]);
      hs := [h] + rest;
      forall i | 0 <= i < |data| ensures hs[i + 1] == hash.absorb(hs[i], data[i]) {
        assert i > 0 ==> hs[i] == rest[i - 1] && data[i] == data[1..][i - 1];
      }
    }
  }

  lemma {:induction false} StepsAbsorb<H(!new)>(hash: Hash<H>, hs: seq<H>, data: seq<byte>)
    requires Steps(hash, hs, data)
    ensures hs[|data|] == Absorb(hash, hs[0], data)
    decreases |data|
  {
    if data == [] {
    } else {
      forall i | 0 <= i < |data| - 1 ensures hs[1..][i + 1] == hash.absorb(hs[1..][i], data[1..][i]) {
        assert hs[i + 2] == hash.absorb(hs[i + 1], data[i + 1]);
      }
      StepsAbsorb(hash, hs[1..], data[1..]);
    }
  }

  lemma AbsorbIs<H(!new)>(hash: Hash<H>, h: H, data: seq<byte>, h': H)
    ensures Absorbs(hash, h, data, h') <==> h' == Absorb(hash, h, data)
  {
    var hs := AbsorbSteps(hash, h, data);
    if Absorbs(hash, h, data, h') {
      var gs :| Steps(hash, gs, data) && gs[0] == h && gs[|data|] == h';
      StepsAbsorb(hash, gs, data);
    }
  }

  function Min(a: nat, b: nat): nat {
    if a < b then a else b
  }

  function Digest<H>(hash: Hash<H>, f: Format, h: H): seq<byte> {
    if hash.extendable && f.length != 0 then hash.squeeze(h, Min(f.length, EVP_MAX_MD_SIZE)) else hash.finish(h)
  }

  // ----- hexadecimal form

  function HexDigit(n: nat): byte
    requires n < 16
  {
    if n < 10 then 48 + n else 87 + n  // '0'.. and 'a'..
  }

  function HexValue(c: byte): Option<nat> {
    if 48 <= c < 58 then Some(c - 48) else if 97 <= c < 103 then Some(c - 87) else None
  }

  function Hex(md: seq<byte>): seq<byte> {
    if md == [] then [] else [HexDigit(md[0] / 16), HexDigit(md[0] % 16)] + Hex(md[1..])
  }

  function Unhex(s: seq<byte>): Option<seq<byte>> {
    if s == [] then Some([])
    else if |s| == 1 then None
    else
      match (HexValue(s[0]), HexValue(s[1]), Unhex(s[2..]))
      case (Some(high), Some(low), Some(rest)) =>
        if high * 16 + low < 256 then Some([high * 16 + low] + rest) else None
      case _ => None
  }

  /** The hexadecimal form is twice as long and decodes to the binary form. */
  lemma {:induction false} HexRoundTrip(md: seq<byte>)
    ensures |Hex(md)| == 2 * |md|
    ensures Unhex(Hex(md)) == Some(md)
  {
    if md == [] {
    } else {
      HexRoundTrip(md[1..]);
      assert Hex(md)[2..] == Hex(md[1..]);
      assert [md[0]] + md[1..] == md;
    }
  }

  lemma {:induction false} HexPrefix(md: seq<byte>, i: nat)
    requires i < |md|
    ensures Hex(md[..i + 1]) == Hex(md[..i]) + [HexDigit(md[i] / 16), HexDigit(md[i] % 16)]
    decreases i
  {
    if i == 0 {
      assert md[..1][1..] == [];
    } else {
      HexPrefix(md[1..], i - 1);
      assert md[..i + 1][1..] == md[1..][..i] && md[..i][1..] == md[1..][..i - 1];
    }
  }

  function Result<H>(hash: Hash<H>, f: Format, h: H): seq<byte> {
    if f.binary then Digest(hash, f, h) else Hex(Digest(hash, f, h))
  }

  const HEX_DIGITS := "0123456789abcdef"

  /** The result of a hash in a final state: squeezed output of the requested length, at most 64 bytes, for
      an extendable hash, and its digest otherwise; as it is, or two digits for each byte. */
  predicate Presents<H>(hash: Hash<H>, f: Format, h: H, result: seq<byte>) {
    var md := if hash.extendable && f.length > 0 then hash.squeeze(h, if f.length < 64 then f.length else 64)
              else hash.finish(h);
    if f.binary then result == md
    else
      && |result| == 2 * |md|
      && forall i | 0 <= i < |md| ::
           && result[2 * i] as int == HEX_DIGITS[md[i] / 16] as int
           && result[2 * i + 1] as int == HEX_DIGITS[md[i] % 16] as int
  }

  lemma {:induction false} HexAt(md: seq<byte>, i: nat)
    requires i < |md|
    requires |Hex(md)| == 2 * |md|
    ensures Hex(md)[2 * i] as int == HEX_DIGITS[md[i] / 16] as int
    ensures Hex(md)[2 * i + 1] as int == HEX_DIGITS[md[i] % 16] as int
    decreases i
  {
    if i == 0 {
      HexDigitIs(md[0] / 16);
      HexDigitIs(md[0] % 16);
    } else {
      assert |Hex(md[1..])| == |Hex(md)| - 2;
      HexAt(md[1..], i - 1);
      assert md[1..][i - 1] == md[i] && Hex(md)[2..] == Hex(md[1..]);
      assert Hex(md)[2..][2 * (i - 1)] == Hex(md)[2 * i] && Hex(md)[2..][2 * (i - 1) + 1] == Hex(md)[2 * i + 1];
    }
  }

  lemma HexDigitIs(n: nat)
    requires n < 16
    ensures HexDigit(n) as int == HEX_DIGITS[n] as int
  {}

  lemma ResultIs<H>(hash: Hash<H>, f: Format, h: H)
    ensures Presents(hash, f, h, Result(hash, f, h))
  {
    var md := Digest(hash, f, h);
    HexRoundTrip(md);
    forall i | 0 <= i < |md|
      ensures Hex(md)[2 * i] as int == HEX_DIGITS[md[i] / 16] as int
      ensures Hex(md)[2 * i + 1] as int == HEX_DIGITS[md[i] % 16] as int
    {
      HexAt(md, i);
    }
  }

  /** Every result fits the 2 * EVP_MAX_MD_SIZE bytes a stacked channel makes room for. */
  lemma ResultFits<H(!new)>(hash: Hash<H>, f: Format, h: H)
    requires Sound(hash)
    ensures |Digest(hash, f, h)| <= EVP_MAX_MD_SIZE
    ensures |Result(hash, f, h)| == (if f.binary then 1 else 2) * |Digest(hash, f, h)|
  {
    HexRoundTrip(Digest(hash, f, h));
  }

  // ----- the stacked channel on values

  datatype Channel<!H> = Channel(state: H, eof: bool, emitted: seq<seq<byte>>)

  /** A read of the application answered by one Tcl_ReadRaw of the parent, or a write. */
  datatype Operation = Input(raw: RawRead) | Output(data: seq<byte>)

  function Emit<H>(hash: Hash<H>, f: Format, ch: Channel<H>): Channel<H> {
    ch.(eof := true, emitted := ch.emitted + [Result(hash, f, ch.state)])
  }

  function StepChannel<H>(hash: Hash<H>, f: Format, ch: Channel<H>, op: Operation): Channel<H> {
    match op
    case Input(Bytes(data)) => ch.(state := Absorb(hash, ch.state, data))
    case Input(Failed(_)) => ch
    case Input(Zero) => if ch.eof then ch else Emit(hash, f, ch)
    case Output(data) => ch.(state := Absorb(hash, ch.state, data))
  }

  function CloseChannel<H>(hash: Hash<H>, f: Format, ch: Channel<H>): Channel<H> {
    if ch.eof then ch else Emit(hash, f, ch)
  }

  function RunChannel<H>(hash: Hash<H>, f: Format, ch: Channel<H>, ops: seq<Operation>): Channel<H>
    decreases |ops|
  {
    if ops == [] then ch else RunChannel(hash, f, StepChannel(hash, f, ch, ops[0]), ops[1..])
  }

  function Carried(op: Operation): seq<byte> {
    match op
    case Input(Bytes(data)) => data
    case Output(data) => data
    case _ => []
  }

  /** Everything that passed the channel in either direction before the parent's end of file. */
  function Passed(ops: seq<Operation>): seq<byte> {
    if ops == [] || ops[0] == Input(Zero) then []
    else Carried(ops[0]) + Passed(ops[1..])
  }

  lemma {:induction false} EofEmitsNoMore<H>(hash: Hash<H>, f: Format, ch: Channel<H>, ops: seq<Operation>)
    requires ch.eof
    ensures RunChannel(hash, f, ch, ops).eof && RunChannel(hash, f, ch, ops).emitted == ch.emitted
    decreases |ops|
  {
    if ops == [] {
    } else {
      EofEmitsNoMore(hash, f, StepChannel(hash, f, ch, ops[0]), ops[1..]);
    }
  }

  lemma {:induction false} EmitsResult<H>(hash: Hash<H>, f: Format, ch: Channel<H>, ops: seq<Operation>)
    requires !ch.eof
    ensures CloseChannel(hash, f, RunChannel(hash, f, ch, ops)).emitted
      == ch.emitted + [Result(hash, f, Absorb(hash, ch.state, Passed(ops)))]
    decreases |ops|
  {
    if ops == [] {
    } else if ops[0] == Input(Zero) {
      EofEmitsNoMore(hash, f, Emit(hash, f, ch), ops[1..]);
    } else {
      var ch' := StepChannel(hash, f, ch, ops[0]);
      EmitsResult(hash, f, ch', ops[1..]);
      match ops[0]
      case Input(Bytes(data)) => AbsorbJoin(hash, ch.state, data, Passed(ops[1..]));
      case Output(data) => AbsorbJoin(hash, ch.state, data, Passed(ops[1..]));
      case Input(Failed(_)) => assert [] + Passed(ops[1..]) == Passed(ops[1..]);
      case Input(Zero) =>
    }
  }

  /** A stacked digest channel that is used in any way and then closed emits exactly one result: the
      digest of all that passed it, byte by byte, before the end of file or before the close. */
  lemma EmitsOnce<H(!new)>(hash: Hash<H>, f: Format, ops: seq<Operation>)
    ensures exists h, result ::
      && CloseChannel(hash, f, RunChannel(hash, f, Channel(hash.initial, false, []), ops)).emitted == [result]
      && Absorbs(hash, hash.initial, Passed(ops), h) && Presents(hash, f, h, result)
  {
    var h := Absorb(hash, hash.initial, Passed(ops));
    EmitsResult(hash, f, Channel(hash.initial, false, []), ops);
    AbsorbIs(hash, hash.initial, Passed(ops), h);
    ResultIs(hash, f, h);
    assert [] + [Result(hash, f, h)] == [Result(hash, f, h)];
  }

  lemma PassedOnce(op: Operation)
    ensures Passed([op]) == if op.Output? then op.data else if op.raw.Bytes? then op.raw.data else []
  {
    assert Passed([op][1..]) == [] && Carried(op) + [] == Carried(op);
  }

  /** What passes a channel is all the data of its reads and writes. */
  lemma {:induction false} PassedJoins(a: seq<Operation>, b: seq<Operation>)
    requires Input(Zero) !in a
    ensures Passed(a + b) == Passed(a) + Passed(b)
    decreases |a|
  {
    if a == [] {
      assert a + b == b;
    } else {
      PassedJoins(a[1..], b);
      assert (a + b)[0] == a[0] && (a + b)[1..] == a[1..] + b;
    }
  }

  // ----- the imperative forms

  /** `passed` is all the hash has taken in. */
  class DigestState<!H(!new)> {
    const hash: Hash<H>
    const format: Format
    var ctx: H
    var chanEof: bool
    ghost var emitted: seq<seq<byte>>
    ghost var passed: seq<byte>

    ghost function View(): Channel<H>
      reads this
    {
      Channel(ctx, chanEof, emitted)
    }

    ghost predicate Valid()
      reads this
    {
      Absorbs(hash, hash.initial, passed, ctx)
    }

    constructor (hash: Hash<H>, format: Format)
      ensures this.hash == hash && this.format == format && View() == Channel(hash.initial, false, [])
      ensures Valid() && passed == []
    {
      this.hash, this.format, ctx, chanEof, emitted, passed := hash, format, hash.initial, false, [], [];
      assert Steps(hash, [hash.initial], []);
    }

    method DigestUpdate(buf: seq<byte>)
      requires Valid()
      modifies `ctx, `passed
      ensures ctx == Absorb(hash, old(ctx), buf)
      ensures Valid() && passed == old(passed) + buf
    {
      var i := 0;
      while i < |buf|
        invariant 0 <= i <= |buf| && passed == old(passed)
        invariant Absorb(hash, ctx, buf[i..]) == Absorb(hash, old(ctx), buf)
      {
        assert buf[i..][1..] == buf[i + 1..];
        ctx := hash.absorb(ctx, buf[i]);
        i := i + 1;
      }
      AbsorbIs(hash, hash.initial, old(passed), old(ctx));
      AbsorbJoin(hash, hash.initial, old(passed), buf);
      AbsorbIs(hash, hash.initial, old(passed) + buf, ctx);
      passed := passed + buf;
    }

    /** The hexadecimal form is written pair by pair into a buffer of twice the digest's length. */
    method DigestFinalize() returns (result: seq<byte>)
      ensures result == Result(hash, format, ctx) && Presents(hash, format, ctx, result)
    {
      ResultIs(hash, format, ctx);
      var mdBuf := Digest(hash, format, ctx);
      if format.binary {
        return mdBuf;
      }
      var ptr, at := new byte[|mdBuf| * 2], 0;
      for i := 0 to |mdBuf|
        invariant at == 2 * i && ptr[..at] == Hex(mdBuf[..i])
      {
        HexPrefix(mdBuf, i);
        ptr[at] := HexDigit((mdBuf[i] / 16) % 16);
        at := at + 1;
        ptr[at] := HexDigit(mdBuf[i] % 16);
        at := at + 1;
      }
      assert mdBuf[..|mdBuf|] == mdBuf;
      return ptr[..];
    }

    method DigestInputProc(toRead: int, raw: RawRead) returns (read: int, errorCode: Errno, buf: seq<byte>)
      requires Valid()
      modifies this
      ensures View() == if toRead <= 0 then old(View()) else StepChannel(hash, format, old(View()), Input(raw))
      ensures Valid() && passed == old(passed) + (if toRead > 0 && raw.Bytes? then raw.data else [])
      ensures toRead <= 0 ==> (read, errorCode, buf) == (0, NoErrno, [])
      ensures toRead > 0 && raw.Bytes? ==> (read, errorCode, buf) == (-1, EAGAIN, [])
      ensures toRead > 0 && raw.Failed? ==> (read, errorCode, buf) == (-1, raw.error, [])
      ensures toRead > 0 && raw.Zero? && old(chanEof) ==> (read, errorCode, buf) == (0, NoErrno, [])
      ensures toRead > 0 && raw.Zero? && !old(chanEof) ==>
        && read == |buf| && errorCode == NoErrno && Presents(hash, format, ctx, buf)
        && chanEof && emitted == old(emitted) + [buf]
      ensures Sound(hash) ==> |buf| <= 2 * EVP_MAX_MD_SIZE
    {
      read, errorCode, buf := 0, NoErrno, [];
      assert passed + [] == passed;
      if toRead <= 0 {
        return;
      }
      match raw
      case Bytes(data) =>
        DigestUpdate(data);
        read, errorCode := -1, EAGAIN;
      case Failed(error) =>
        read, errorCode := -1, error;
      case Zero =>
        if !chanEof {
          buf := DigestFinalize();
          if Sound(hash) {
            ResultFits(hash, format, ctx);
          }
          read := |buf|;
          emitted := emitted + [buf];
          chanEof := true;
        }
    }

    method DigestOutputProc(buf: seq<byte>) returns (written: int)
      requires Valid()
      modifies this
      ensures View() == StepChannel(hash, format, old(View()), Output(buf)) && written == |buf|
      ensures Valid() && passed == old(passed) + buf
    {
      if |buf| <= 0 {
        assert passed + [] == passed;
        return 0;
      }
      DigestUpdate(buf);
      return |buf|;
    }

    method DigestCloseProc() returns (toParent: seq<byte>)
      requires Valid()
      modifies `chanEof, `emitted
      ensures View() == CloseChannel(hash, format, old(View())) && Valid()
      ensures !old(chanEof) ==> emitted == old(emitted) + [toParent] && Presents(hash, format, ctx, toParent)
      ensures old(chanEof) ==> emitted == old(emitted) && toParent == []
    {
      toParent := [];
      if !chanEof {
        toParent := DigestFinalize();
        emitted := emitted + [toParent];
        chanEof := true;
      }
    }
  }

  /** The digest of the data, byte by byte. */
  method DigestDataHandler<H(!new)>(hash: Hash<H>, format: Format, data: seq<byte>) returns (result: seq<byte>)
    ensures result == Result(hash, format, Absorb(hash, hash.initial, data))
    ensures exists h :: Absorbs(hash, hash.initial, data, h) && Presents(hash, format, h, result)
  {
    var state := new DigestState(hash, format);
    state.DigestUpdate(data);
    assert [] + data == data;
    result := state.DigestFinalize();
  }

  /** The file loop agrees with the one-shot form on everything that was read; a failed read is
      skipped, not reported. */
  method DigestFileHandler<H(!new)>(hash: Hash<H>, format: Format, raws: seq<RawRead>) returns (result: seq<byte>)
    requires forall i | 0 <= i < |raws| :: raws[i].Bytes? ==> 1 <= |raws[i].data| <= BUFFER_SIZE
    ensures result == Result(hash, format, Absorb(hash, hash.initial, Source(raws)))
    ensures exists h :: Absorbs(hash, hash.initial, Source(raws), h) && Presents(hash, format, h, result)
  {
    var state := new DigestState(hash, format);
    var i := 0;
    while i < |raws|
      invariant 0 <= i <= |raws| && fresh(state) && state.hash == hash && state.format == format
      invariant state.Valid() && state.passed == Source(raws[..i])
    {
      SourceThen(raws[..i], raws[i]);
      assert raws[..i + 1] == raws[..i] + [raws[i]];
      if raws[i].Bytes? {
        state.DigestUpdate(raws[i].data);
      } else {
        assert Source(raws[..i]) + [] == Source(raws[..i]);
      }
      i := i + 1;
    }
    assert raws[..i] == raws;
    AbsorbIs(hash, hash.initial, Source(raws), state.ctx);
    result := state.DigestFinalize();
  }
}
