/** The forms in which generic/tlsEncrypt.c offers encryption and decryption: one call on a block of
    data, a file loop, an instance command and a stacked channel. */
module TlsEncrypt {
  import opened TlsTypes
  import opened EvpCipher
  import opened RawReads

  const BUFFER_SIZE := 32768

  /** The EVP context that EncryptUpdate and EncryptFinalize drive. */
  class CipherContext {
    var ctx: Ctx

    constructor (c: Ctx)
      ensures ctx == c
    {
      ctx := c;
    }

    /** The caller's buffer must have room for every byte OpenSSL writes. */
    method EncryptUpdate(out: array<byte>, offset: nat, data: seq<byte>) returns (outLen: nat)
      requires ValidCtx(ctx) && offset + Extent(ctx, data) <= out.Length
      modifies this, out
      ensures ValidCtx(ctx) && outLen == |Update(old(ctx), data).1| && offset + outLen <= out.Length
      ensures (ctx, out[offset..offset + outLen]) == Update(old(ctx), data)
      ensures out[..offset] == old(out[..offset])
    {
      UpdateFits(ctx, data);
      UpdateKeepsValid(ctx, data);
      var (c', result) := Update(ctx, data);
      ctx := c';
      outLen := |result|;
      forall i | 0 <= i < outLen {
        out[offset + i] := result[i];
      }
      assert out[offset..offset + outLen] == result;
    }

    method EncryptFinalize(out: array<byte>, offset: nat) returns (outLen: Option<nat>)
      requires ValidCtx(ctx) && offset + ctx.cipher.block <= out.Length
      modifies out
      ensures outLen.Some? == Final(ctx).Some?
      ensures outLen.Some? ==>
        offset + outLen.value <= out.Length && out[offset..offset + outLen.value] == Final(ctx).value
      ensures out[..offset] == old(out[..offset])
    {
      FinalFits(ctx);
      match Final(ctx)
      case None => outLen := None;
      case Some(result) =>
        outLen := Some(|result|);
        forall i | 0 <= i < |result| {
          out[offset + i] := result[i];
        }
    }
  }

  lemma SlicesJoin(buf: seq<byte>, n: nat, m: nat)
    requires n + m <= |buf|
    ensures buf[..n + m] == buf[..n] + buf[n..n + m]
  {}

  /** EncryptDataHandler: a buffer of the data's size and one maximal block is always enough. */
  method EncryptDataHandler(c: Ctx, data: seq<byte>) returns (result: Option<seq<byte>>)
    requires Invertible(c.cipher) && c == Init(c.cipher, c.encrypt, c.padding, c.chain)
    ensures result == OneShot(c, data)
    ensures forall out ::
      result == Some(out) <==> Transformed(c.cipher, c.encrypt, c.padding, c.chain, data, out)
  {
    forall out ensures OneShot(c, data) == Some(out)
        <==> Transformed(c.cipher, c.encrypt, c.padding, c.chain, data, out) {
      OneShotMeans(c.cipher, c.encrypt, c.padding, c.chain, data, out);
    }
    var outBuf := new byte[|data| + EVP_MAX_BLOCK_LENGTH];
    var evp := new CipherContext(c);
    OneShotFits(c.cipher, c.encrypt, c.padding, c.chain, data);
    UpdateKeepsValid(c, data);
    var outLen := evp.EncryptUpdate(outBuf, 0, data);
    var len := evp.EncryptFinalize(outBuf, outLen);
    if len.None? {
      return None;
    }
    SlicesJoin(outBuf[..], outLen, len.value);
    return Some(outBuf[..outLen + len.value]);
  }

  /** Tcl_WriteRaw took everything it was given. */
  ghost predicate WritesAll(writes: (nat, nat) -> int) {
    forall i: nat, n: nat :: writes(i, n) == n
  }

  /** At most that many bytes reached the file, and if so many, then these. */
  predicate Complete(file: seq<byte>, out: seq<byte>) {
    |file| <= |out| && (|file| == |out| ==> file == out)
  }

  lemma CompleteGrows(file: seq<byte>, out: seq<byte>, piece: seq<byte>, more: seq<byte>)
    requires Complete(file, out) && piece <= more
    ensures Complete(file + piece, out + more)
  {}

  predicate NoFailure(raws: seq<RawRead>) {
    forall i | 0 <= i < |raws| :: !raws[i].Failed?
  }

  /** One turn of the loop of EncryptFileHandler on data: an update and, when it yields something, a
      write, whose result is `len`. `out` is what the cipher has released since c, having taken `src`. */
  method TransformChunk(evp: CipherContext, outBuf: array<byte>, data: seq<byte>, writes: (nat, nat) -> int, k: nat,
                        ghost c: Ctx, ghost src: seq<byte>, ghost out: seq<byte>)
    returns (len: int, piece: seq<byte>, k': nat, ghost more: seq<byte>)
    requires ValidCtx(c) && ValidCtx(evp.ctx) && (evp.ctx, out) == Update(c, src)
    requires outBuf.Length == BUFFER_SIZE + EVP_MAX_BLOCK_LENGTH
    requires |data| <= BUFFER_SIZE && (forall i: nat, n: nat :: writes(i, n) <= n)
    modifies evp, outBuf
    ensures ValidCtx(evp.ctx) && (evp.ctx, out + more) == Update(c, src + data)
    ensures len >= 0 ==> len == |piece| && piece <= more
    ensures WritesAll(writes) ==> len >= 0 && piece == more
  {
    UpdateTwice(c, src, data);
    UpdateFits(evp.ctx, data);
    more := Update(evp.ctx, data).1;
    len, piece, k' := 0, [], k;
    var outLen := evp.EncryptUpdate(outBuf, 0, data);
    if outLen > 0 {
      len := writes(k, outLen);
      k' := k + 1;
      if len >= 0 {
        piece := outBuf[..len];
      }
    }
  }

  lemma SourceNext(raws: seq<RawRead>, i: nat)
    requires i < |raws|
    ensures Source(raws[..i + 1]) == Source(raws[..i]) + (if raws[i].Bytes? then raws[i].data else [])
  {
    SourceThen(raws[..i], raws[i]);
    assert raws[..i + 1] == raws[..i] + [raws[i]];
  }

  /** The loop of EncryptFileHandler until Tcl_Eof, over reads of at most BUFFER_SIZE bytes. `writes`
      gives the result of the i-th Tcl_WriteRaw of n bytes; `file` is what reached the output file, `out`
      what the cipher released. */
  method TransformFile(evp: CipherContext, outBuf: array<byte>, raws: seq<RawRead>, writes: (nat, nat) -> int)
    returns (ok: bool, total: nat, file: seq<byte>, k: nat, ghost out: seq<byte>)
    requires ValidCtx(evp.ctx) && outBuf.Length == BUFFER_SIZE + EVP_MAX_BLOCK_LENGTH
    requires forall i | 0 <= i < |raws| :: raws[i].Bytes? ==> 1 <= |raws[i].data| <= BUFFER_SIZE
    requires forall i: nat, n: nat :: writes(i, n) <= n
    modifies evp, outBuf
    ensures total == |file|
    ensures ok ==> NoFailure(raws) && ValidCtx(evp.ctx) && (evp.ctx, out) == Update(old(evp.ctx), Source(raws))
    ensures ok ==> Complete(file, out)
    ensures WritesAll(writes) ==> ok == NoFailure(raws) && (ok ==> file == out)
  {
    ghost var c, src, all := evp.ctx, [], WritesAll(writes);
    var i := 0;
    total, file, k, out := 0, [], 0, [];
    while i < |raws|
      invariant 0 <= i <= |raws| && forall j | 0 <= j < i :: !raws[j].Failed?
      invariant src == Source(raws[..i])
      invariant ValidCtx(evp.ctx) && (evp.ctx, out) == Update(c, src)
      invariant total == |file| && Complete(file, out) && (all ==> total == |out|)
      decreases |raws| - i
    {
      SourceNext(raws, i);
      if raws[i].Bytes? {
        var len, piece;
        ghost var more;
        len, piece, k, more := TransformChunk(evp, outBuf, raws[i].data, writes, k, c, src, out);
        if len < 0 {
          return false, total, file, k, out;
        }
        CompleteGrows(file, out, piece, more);
        src, out := src + raws[i].data, out + more;
        total := total + len;
        file := file + piece;
      } else if raws[i].Failed? {
        return false, total, file, k, out;
      }
      i := i + 1;
    }
    assert raws[..i] == raws;
    return true, total, file, k, out;
  }

  /** EncryptFileHandler: the reported size is the size of the output file. A short write loses bytes
      although the command succeeds: the file holds the one-shot transform of everything read exactly
      when the reported size is the transform's, as it is when all writes are complete. */
  method EncryptFileHandler(c: Ctx, raws: seq<RawRead>, writes: (nat, nat) -> int)
    returns (result: Option<nat>, file: seq<byte>)
    requires ValidCtx(c)
    requires forall i | 0 <= i < |raws| :: raws[i].Bytes? ==> 1 <= |raws[i].data| <= BUFFER_SIZE
    requires forall i: nat, n: nat :: writes(i, n) <= n
    ensures result.Some? ==> result.value == |file| && NoFailure(raws) && OneShot(c, Source(raws)).Some?
    ensures WritesAll(writes) ==> (result.Some? <==> NoFailure(raws) && OneShot(c, Source(raws)).Some?)
    ensures WritesAll(writes) && result.Some? ==> file == OneShot(c, Source(raws)).value
    ensures result.Some? ==>
      && result.value <= |OneShot(c, Source(raws)).value|
      && (file == OneShot(c, Source(raws)).value <==> result.value == |OneShot(c, Source(raws)).value|)
  {
    var outBuf := new byte[BUFFER_SIZE + EVP_MAX_BLOCK_LENGTH];
    var evp := new CipherContext(c);
    var ok, total, k;
    ghost var out;
    ok, total, file, k, out := TransformFile(evp, outBuf, raws, writes);
    if !ok {
      return None, file;
    }
    ghost var before := file;
    var outLen := evp.EncryptFinalize(outBuf, 0);
    if outLen.None? {
      return None, file;
    }
    if outLen.value > 0 {
      var len := writes(k, outLen.value);
      if len < 0 {
        return None, file;
      }
      total := total + len;
      file := file + outBuf[..len];
      assert outBuf[..len] <= Final(evp.ctx).value;
      CompleteGrows(before, out, outBuf[..len], Final(evp.ctx).value);
    } else {
      CompleteGrows(before, out, [], Final(evp.ctx).value);
    }
    return Some(total), file;
  }

  /** A command created by EncryptCommandHandler; finalize deletes it. */
  class EncryptInstance {
    var ctx: Ctx
    var deleted: bool
    ghost const start: Ctx
    ghost var input: seq<byte>
    ghost var output: seq<byte>

    ghost predicate Valid()
      reads this
    {
      ValidCtx(start) && ValidCtx(ctx) && (ctx, output) == Update(start, input)
    }

    constructor (c: Ctx)
      requires ValidCtx(c)
      ensures Valid() && !deleted && start == c && input == [] && output == []
    {
      ctx, deleted, start, input, output := c, false, c, [], [];
    }

    method UpdateCommand(data: seq<byte>) returns (result: seq<byte>)
      requires Valid() && !deleted
      modifies this
      ensures Valid() && !deleted
      ensures input == old(input) + data && output == old(output) + result
    {
      UpdateKeepsValid(ctx, data);
      UpdateTwice(start, input, data);
      var (c', out) := Update(ctx, data);
      ctx, input, output, result := c', input + data, output + out, out;
    }

    /** The results of all updates and of finalize are together the one-shot result. */
    method FinalizeCommand() returns (result: Option<seq<byte>>)
      requires Valid() && !deleted
      modifies this`deleted
      ensures deleted == result.Some?
      ensures OneShot(start, input) == match result case None => None case Some(rest) => Some(output + rest)
    {
      result := Final(ctx);
      deleted := result.Some?;
    }
  }

  // ----- the stacked channel

  /** `finals` counts the calls of EncryptFinalize. */
  datatype Channel = Channel(ctx: Ctx, eof: bool, finals: nat)

  datatype InputResult = InputResult(n: int, error: Errno, data: seq<byte>)

  function InputStep(ch: Channel, read: RawRead): (Channel, InputResult)
    requires ValidCtx(ch.ctx)
  {
    match read
    case Bytes(data) =>
      var (c', out) := Update(ch.ctx, data);
      (ch.(ctx := c'), if out != [] then InputResult(|out|, NoErrno, out) else InputResult(-1, EAGAIN, []))
    case Failed(error) => (ch, InputResult(-1, error, []))
    case Zero =>
      if ch.eof then (ch, InputResult(0, NoErrno, []))
      else
        (ch.(eof := true, finals := ch.finals + 1),
         match Final(ch.ctx)
         case Some(rest) => InputResult(|rest|, NoErrno, rest)
         case None => InputResult(0, EINVAL, []))
  }

  lemma InputKeepsValid(ch: Channel, read: RawRead)
    requires ValidCtx(ch.ctx)
    ensures ValidCtx(InputStep(ch, read).0.ctx)
  {
    if read.Bytes? { UpdateKeepsValid(ch.ctx, read.data); }
  }

  /** The results of one call of EncryptInputProc per read of the parent. */
  function Inputs(ch: Channel, raws: seq<RawRead>): (Channel, seq<InputResult>)
    requires ValidCtx(ch.ctx)
    decreases |raws|
  {
    if raws == [] then (ch, [])
    else
      InputKeepsValid(ch, raws[0]);
      var (ch1, r) := InputStep(ch, raws[0]);
      var (ch2, rs) := Inputs(ch1, raws[1..]);
      (ch2, [r] + rs)
  }

  /** What the application has read when the channel first returns 0. */
  function UntilZero(rs: seq<InputResult>): seq<byte> {
    if rs == [] || rs[0].n == 0 then []
    else (if 0 < rs[0].n <= |rs[0].data| then rs[0].data[..rs[0].n] else []) + UntilZero(rs[1..])
  }

  lemma {:induction false} OneShotSplits(c: Ctx, a: seq<byte>, b: seq<byte>)
    requires ValidCtx(c)
    ensures ValidCtx(Update(c, a).0)
    ensures OneShot(c, a + b) == match OneShot(Update(c, a).0, b)
                                 case None => None
                                 case Some(rest) => Some(Update(c, a).1 + rest)
    ensures Update(c, a + b).1 == Update(c, a).1 + Update(Update(c, a).0, b).1
  {
    UpdateTwice(c, a, b);
    UpdateKeepsValid(c, a + b);
    var (c1, x) := Update(c, a);
    var (c2, y) := Update(c1, b);
    if Final(c2).Some? {
      assert (x + y) + Final(c2).value == x + (y + Final(c2).value);
    }
  }

  /** Reading a stacked channel: however the parent splits its data and however often it fails or
      blocks in between, what the application reads up to the first 0 is the one-shot transform of
      the source; if the source does not end properly it is all that could be transformed. */
  lemma {:induction false} StackedReadIsOneShot(ch: Channel, raws: seq<RawRead>, later: seq<RawRead>)
    requires ValidCtx(ch.ctx) && !ch.eof
    requires forall i | 0 <= i < |raws| :: !raws[i].Zero?
    ensures UntilZero(Inputs(ch, raws + [Zero, Zero] + later).1)
      == match OneShot(ch.ctx, Source(raws))
         case Some(all) => all
         case None => Update(ch.ctx, Source(raws)).1
    decreases |raws|
  {
    var all := raws + [Zero, Zero] + later;
    InputKeepsValid(ch, all[0]);
    var (ch1, r) := InputStep(ch, all[0]);
    assert UntilZero([r] + Inputs(ch1, all[1..]).1) == if r.n == 0 then [] else
        (if 0 < r.n <= |r.data| then r.data[..r.n] else []) + UntilZero(Inputs(ch1, all[1..]).1);
    assert r.n > 0 ==> r.data[..r.n] == r.data;
    if raws == [] {
      assert Update(ch.ctx, []).1 == [];
      assert all[1] == Zero && all[1..][0] == Zero;
    } else {
      assert all[1..] == raws[1..] + [Zero, Zero] + later;
      StackedReadIsOneShot(ch1, raws[1..], later);
      if raws[0].Bytes? {
        OneShotSplits(ch.ctx, raws[0].data, Source(raws[1..]));
      } else {
        assert Source(raws) == Source(raws[1..]);
      }
    }
  }

  // ----- the caller's buffer

  /** The bytes one call of EncryptInputProc writes to the caller's buffer. */
  function Written(ch: Channel, read: RawRead): nat
    requires ValidCtx(ch.ctx)
  {
    match read
    case Bytes(data) => Extent(ch.ctx, data)
    case Failed(_) => 0
    case Zero => if !ch.eof && Final(ch.ctx).Some? then |Final(ch.ctx).value| else 0
  }

  /** What the parent may return when asked for `toRead` bytes. */
  predicate Asked(read: RawRead, toRead: nat) {
    read.Bytes? ==> 1 <= |read.data| <= toRead
  }

  /** No decrypted block is withheld, the held bytes complete no block more than the room takes, and
      the padding still to come is at most a block that fits. */
  predicate HasRoom(ch: Channel, toRead: nat)
    requires ch.ctx.cipher.block > 0
  {
    var c := ch.ctx;
    && c.final.None?
    && Whole(c.cipher.block, |c.held| + toRead) <= toRead
    && (ch.eof || !c.encrypt || !c.padding || c.cipher.block == 1 || c.cipher.block <= toRead)
  }

  /** The final bytes are a whole block of padding or, with no block withheld, none. */
  lemma FinalRoom(ch: Channel, toRead: nat)
    requires ValidCtx(ch.ctx) && ch.ctx.final.None?
    ensures var c := ch.ctx;
      Written(ch, Zero) <= toRead <==>
        ch.eof || !c.encrypt || !c.padding || c.cipher.block == 1 || c.cipher.block <= toRead
  {
    var c := ch.ctx;
    if !ch.eof && c.encrypt && c.padding && c.cipher.block > 1 {
      assert |c.held + PadBytes(c.cipher.block, |c.held|)| == c.cipher.block;
    }
  }

  lemma RoomFits(ch: Channel, toRead: nat, read: RawRead)
    requires ValidCtx(ch.ctx) && HasRoom(ch, toRead) && Asked(read, toRead)
    ensures Written(ch, read) <= toRead
  {
    match read
    case Bytes(data) =>
      DataExtent(ch.ctx, data);
      WholeGrows(ch.ctx.cipher.block, |ch.ctx.held| + |data|, |ch.ctx.held| + toRead);
    case Zero => FinalRoom(ch, toRead);
    case Failed(_) =>
  }

  lemma FullReadNeeds(ch: Channel, toRead: nat) returns (read: RawRead)
    requires ValidCtx(ch.ctx) && toRead > 0
    ensures Asked(read, toRead)
    ensures Written(ch, read) <= toRead && Written(ch, Zero) <= toRead ==> HasRoom(ch, toRead)
  {
    var data := seq(toRead, _ => 0);
    read := Bytes(data);
    DataExtent(ch.ctx, data);
    if ch.ctx.final.None? {
      FinalRoom(ch, toRead);
    }
  }

  /** The caller offers room for the bytes it asks of the parent. That is enough, whatever the parent
      returns, exactly when HasRoom holds. */
  lemma ReadFits(ch: Channel, toRead: nat)
    requires ValidCtx(ch.ctx) && toRead > 0
    ensures (forall read | Asked(read, toRead) :: Written(ch, read) <= toRead) <==> HasRoom(ch, toRead)
  {
    if HasRoom(ch, toRead) {
      forall read | Asked(read, toRead) ensures Written(ch, read) <= toRead {
        RoomFits(ch, toRead, read);
      }
    } else {
      var read := FullReadNeeds(ch, toRead);
      assert Asked(Zero, toRead);
    }
  }

  /** In particular, room for whole blocks is enough unless a block is withheld. */
  lemma AlignedReadFits(ch: Channel, toRead: nat, read: RawRead)
    requires ValidCtx(ch.ctx) && ch.ctx.final.None?
    requires toRead > 0 && Aligned(ch.ctx.cipher.block, toRead) && Asked(read, toRead)
    ensures Written(ch, read) <= toRead
  {
    WholeShifts(ch.ctx.cipher.block, toRead, |ch.ctx.held|);
    RoomFits(ch, toRead, read);
  }

  /** Room is lacking on a reachable channel: a padded decryption with 16-byte blocks has read one
      block, which it withholds, and writes 32 bytes for the next 16 it asks for. */
  lemma SecondBlockDoesNotFit(cipher: Cipher, iv: Chain, first: seq<byte>, second: seq<byte>)
    requires Invertible(cipher) && cipher.block == 16 && |first| == |second| == 16
    ensures var ch := Channel(Init(cipher, false, true, iv), false, 0);
      var ch' := InputStep(ch, Bytes(first)).0;
      && ValidCtx(ch'.ctx) && Asked(Bytes(second), 16)
      && Written(ch, Bytes(first)) == 16 && Written(ch', Bytes(second)) == 32
  {
    var ch := Channel(Init(cipher, false, true, iv), false, 0);
    var ch' := InputStep(ch, Bytes(first)).0;
    InputKeepsValid(ch, Bytes(first));
    PlainLength(ch.ctx, first);
    assert Whole(16, 16) == 16;
    DataExtent(ch.ctx, first);
    DataExtent(ch'.ctx, second);
  }

  lemma {:induction false} DataExtent(c: Ctx, data: seq<byte>)
    requires ValidCtx(c) && data != []
    ensures Extent(c, data) == |Last(c)| + Whole(c.cipher.block, |c.held| + |data|)
    ensures c.final.Some? ==> Extent(c, data) > |data|
  {
    PlainLength(c, data);
  }

  lemma {:induction false} WholeGrows(n: nat, a: nat, b: nat)
    requires n > 0 && a <= b
    ensures Whole(n, a) <= Whole(n, b)
    decreases a
  {
    if a < n {
    } else {
      WholeGrows(n, a - n, b - n);
    }
  }

  // ----- writing to a stacked channel

  /** EncryptOutputProc: what the parent is given and what the application is told. */
  function OutputStep(ch: Channel, data: seq<byte>): (Channel, seq<byte>, int)
    requires ValidCtx(ch.ctx)
  {
    var (c', out) := Update(ch.ctx, data);
    (ch.(ctx := c'), out, if data == [] then 0 else if out != [] then |data| else -1)
  }

  /** The data completes a block that may be released. */
  predicate Releases(c: Ctx, data: seq<byte>) {
    if Withholds(c) then c.final.Some? || |c.held| + |data| > c.cipher.block
    else |c.held| + |data| >= c.cipher.block
  }

  /** The cipher takes the data of every write; the application is told so exactly when the data
      completes a block that may be released. Otherwise it is told to write the same data again, and
      the cipher then has it twice. */
  lemma WriteIsReported(ch: Channel, data: seq<byte>)
    requires ValidCtx(ch.ctx) && data != []
    ensures OutputStep(ch, data).2 == |data| <==> Releases(ch.ctx, data)
    ensures OutputStep(ch, data).2 == -1 <==> !Releases(ch.ctx, data)
    ensures ValidCtx(OutputStep(ch, data).0.ctx)
    ensures !Releases(ch.ctx, data) ==>
      OutputStep(OutputStep(ch, data).0, data).0.ctx == Update(ch.ctx, data + data).0
  {
    var c, n := ch.ctx, ch.ctx.cipher.block;
    PlainLength(c, data);
    UpdateKeepsValid(c, data);
    UpdateTwice(c, data, data);
    WholeOfOneBlock(n, |c.held| + |data|);
  }

  /** A series of writes: the channel afterwards and everything the parent was given. */
  function Writes(ch: Channel, datas: seq<seq<byte>>): (Channel, seq<byte>)
    requires ValidCtx(ch.ctx)
    decreases |datas|
  {
    if datas == [] then (ch, [])
    else
      UpdateKeepsValid(ch.ctx, datas[0]);
      var (ch1, given, _) := OutputStep(ch, datas[0]);
      var (ch2, rest) := Writes(ch1, datas[1..]);
      (ch2, given + rest)
  }

  /** The parent is given what the cipher makes of the joined data, whatever the application is told. */
  lemma {:induction false} WritesAreUpdate(ch: Channel, datas: seq<seq<byte>>)
    requires ValidCtx(ch.ctx)
    ensures var (ch', given) := Writes(ch, datas);
      (ch'.ctx, given) == Update(ch.ctx, Flatten(datas)) && ch'.eof == ch.eof && ch'.finals == ch.finals
    decreases |datas|
  {
    if datas == [] {
    } else {
      UpdateKeepsValid(ch.ctx, datas[0]);
      WritesAreUpdate(OutputStep(ch, datas[0]).0, datas[1..]);
      UpdateTwice(ch.ctx, datas[0], Flatten(datas[1..]));
    }
  }

  /** With the final bytes of the close it is the transform of all the cipher took, block by block; the
      close has none exactly when there is no such transform. */
  lemma WritesAreTransformed(c: Ctx, datas: seq<seq<byte>>, out: seq<byte>)
    requires Invertible(c.cipher) && c == Init(c.cipher, c.encrypt, c.padding, c.chain)
    ensures ValidCtx(Writes(Channel(c, false, 0), datas).0.ctx)
    ensures var (ch', given) := Writes(Channel(c, false, 0), datas);
      (Final(ch'.ctx).Some? && out == given + Final(ch'.ctx).value)
        <==> Transformed(c.cipher, c.encrypt, c.padding, c.chain, Flatten(datas), out)
  {
    WritesAreUpdate(Channel(c, false, 0), datas);
    UpdateKeepsValid(c, Flatten(datas));
    OneShotMeans(c.cipher, c.encrypt, c.padding, c.chain, Flatten(datas), out);
  }

  /** One byte written to a fresh encryption with 16-byte blocks: refused, yet taken, and taken again
      when the caller repeats it. */
  lemma ShortWriteIsTakenTwice(cipher: Cipher, iv: Chain)
    requires Invertible(cipher) && cipher.block == 16
    ensures var ch := Channel(Init(cipher, true, true, iv), false, 0);
      && OutputStep(ch, [7]).2 == -1
      && ValidCtx(OutputStep(ch, [7]).0.ctx)
      && OutputStep(OutputStep(ch, [7]).0, [7]).0.ctx.held == [7, 7]
  {
    WriteIsReported(Channel(Init(cipher, true, true, iv), false, 0), [7]);
    assert [7] + [7] == [7, 7] && [] + [7, 7] == [7, 7];
  }

  lemma WholeOfOneBlock(n: nat, size: nat)
    requires n > 0
    ensures Whole(n, size) > 0 <==> size >= n
    ensures Aligned(n, size) && size > n ==> Whole(n, size) > n
  {}

  // ----- closing

  /** EncryptCloseProc finalizes only if reading has not. */
  function CloseFinals(ch: Channel): nat {
    if ch.eof then ch.finals else ch.finals + 1
  }

  /** One call of the driver: a read, with what the parent returned, or a write. */
  datatype StackedCall = ReadCall(raw: RawRead) | WriteCall(data: seq<byte>)

  function AfterCalls(ch: Channel, calls: seq<StackedCall>): (ch': Channel)
    requires ValidCtx(ch.ctx)
    ensures ValidCtx(ch'.ctx)
    decreases |calls|
  {
    if calls == [] then ch
    else
      match calls[0]
      case ReadCall(raw) =>
        InputKeepsValid(ch, raw);
        AfterCalls(InputStep(ch, raw).0, calls[1..])
      case WriteCall(data) =>
        UpdateKeepsValid(ch.ctx, data);
        AfterCalls(OutputStep(ch, data).0, calls[1..])
  }

  predicate ReadsZero(call: StackedCall) {
    call.ReadCall? && call.raw.Zero?
  }

  /** However reads and writes are interleaved, the final step runs exactly once per closed channel: at
      the first read that finds the end of file or, when there was none, at the close. */
  lemma {:induction false} FinalizedOnce(ch: Channel, calls: seq<StackedCall>)
    requires ValidCtx(ch.ctx) && ch.finals == (if ch.eof then 1 else 0)
    ensures var ch' := AfterCalls(ch, calls);
      && (ch'.eof <==> ch.eof || exists i :: 0 <= i < |calls| && ReadsZero(calls[i]))
      && ch'.finals == (if ch'.eof then 1 else 0)
      && CloseFinals(ch') == 1
    decreases |calls|
  {
    if calls == [] {
    } else {
      var rest := calls[1..];
      match calls[0] {
        case ReadCall(raw) => InputKeepsValid(ch, raw); FinalizedOnce(InputStep(ch, raw).0, rest);
        case WriteCall(data) => UpdateKeepsValid(ch.ctx, data); FinalizedOnce(OutputStep(ch, data).0, rest);
      }
      assert forall i | 0 <= i < |rest| :: rest[i] == calls[i + 1];
      assert (exists i :: 0 <= i < |calls| && ReadsZero(calls[i])) <==>
             ReadsZero(calls[0]) || exists i :: 0 <= i < |rest| && ReadsZero(rest[i]) by {
        if i :| 0 <= i < |calls| && ReadsZero(calls[i]) {
          assert i > 0 ==> ReadsZero(rest[i - 1]);
        }
        if i :| 0 <= i < |rest| && ReadsZero(rest[i]) {
          assert ReadsZero(calls[i + 1]);
        }
      }
    }
  }

  /** The driver of a stacked channel. `taken` is all the cipher was given since `start`, `produced` all it
      released before its final step. */
  class EncryptChannel {
    var ctx: Ctx
    var chanEof: bool
    ghost var finals: nat
    ghost const start: Ctx
    ghost var taken: seq<byte>
    ghost var produced: seq<byte>

    ghost function View(): Channel
      reads this
    {
      Channel(ctx, chanEof, finals)
    }

    ghost predicate Valid()
      reads this
    {
      ValidCtx(start) && ValidCtx(ctx) && (ctx, produced) == Update(start, taken)
    }

    constructor (c: Ctx)
      requires ValidCtx(c)
      ensures Valid() && View() == Channel(c, false, 0) && start == c && taken == [] && produced == []
    {
      ctx, chanEof, finals, start, taken, produced := c, false, 0, c, [], [];
    }

    /** EncryptUpdate within the two procedures. */
    method Take(data: seq<byte>) returns (out: seq<byte>)
      requires Valid()
      modifies `ctx, `taken, `produced
      ensures Valid() && (ctx, out) == Update(old(ctx), data)
      ensures taken == old(taken) + data && produced == old(produced) + out
    {
      UpdateKeepsValid(ctx, data);
      UpdateTwice(start, taken, data);
      var (c', result) := Update(ctx, data);
      ctx, out, taken, produced := c', result, taken + data, produced + result;
    }

    /** The final bytes complete the transform of everything taken. */
    lemma FinalCompletes()
      requires Valid()
      ensures OneShot(start, taken) == match Final(ctx) case None => None case Some(rest) => Some(produced + rest)
    {}

    /** `raw` is the result of Tcl_ReadRaw on the parent; `used` is the room the call takes in the
        caller's buffer. */
    method EncryptInputProc(toRead: int, raw: RawRead)
      returns (read: int, errorCode: Errno, buf: seq<byte>, ghost used: nat)
      requires Valid()
      modifies this
      ensures if toRead <= 0 then View() == old(View()) && read == 0 && errorCode == NoErrno && used == 0
              else (View(), InputResult(read, errorCode, buf)) == InputStep(old(View()), raw)
                   && used == Written(old(View()), raw)
      ensures Valid() && |buf| <= used
      ensures toRead > 0 && raw.Bytes? ==>
        && taken == old(taken) + raw.data && produced == old(produced) + buf
        && read == (if buf == [] then -1 else |buf|) && errorCode == (if buf == [] then EAGAIN else NoErrno)
      ensures !(toRead > 0 && raw.Bytes?) ==> taken == old(taken) && produced == old(produced)
      ensures toRead > 0 && raw.Failed? ==> read == -1 && errorCode == raw.error && buf == []
      ensures toRead > 0 && raw.Zero? ==>
        && chanEof
        && (!old(chanEof) && OneShot(start, taken).Some? ==>
              read == |buf| && errorCode == NoErrno && OneShot(start, taken) == Some(produced + buf))
        && (old(chanEof) || OneShot(start, taken).None? ==>
              read == 0 && buf == [] && errorCode == if old(chanEof) then NoErrno else EINVAL)
    {
      read, errorCode, buf, used := 0, NoErrno, [], 0;
      if toRead <= 0 {
        return;
      }
      match raw
      case Bytes(data) =>
        UpdateFits(ctx, data);
        used := Extent(ctx, data);
        buf := Take(data);
        if |buf| > 0 {
          read := |buf|;
        } else {
          read, errorCode := -1, EAGAIN;
        }
      case Failed(error) =>
        read, errorCode := -1, error;
      case Zero =>
        FinalCompletes();
        if !chanEof {
          finals := finals + 1;
          match Final(ctx) {
            case Some(rest) => read, buf, used := |rest|, rest, |rest|;
            case None => errorCode := EINVAL;
          }
          chanEof := true;
        }
    }

    /** `given` is handed to Tcl_WriteRaw on the parent, whose result is ignored. */
    method EncryptOutputProc(buf: seq<byte>) returns (write: int, errorCode: Errno, given: seq<byte>)
      requires Valid()
      modifies this
      ensures (View(), given, write) == OutputStep(old(View()), buf)
      ensures errorCode == (if write == -1 then EAGAIN else NoErrno)
      ensures Valid() && taken == old(taken) + buf && produced == old(produced) + given
      ensures write == if buf == [] then 0 else if given == [] then -1 else |buf|
    {
      write, errorCode, given := 0, NoErrno, [];
      if |buf| <= 0 {
        assert taken + [] == taken && produced + [] == produced;
        return;
      }
      given := Take(buf);
      if |given| > 0 {
        write := |buf|;
      } else {
        errorCode := EAGAIN;
        write := -1;
      }
    }

    /** `written` is the result of Tcl_WriteRaw on the parent; `emitted` is what it was given: what is
        missing from the transform of all the cipher took. */
    method EncryptCloseProc(written: int, writeError: Errno) returns (error: Errno, emitted: seq<byte>)
      requires Valid()
      modifies `chanEof, `finals
      ensures Valid() && finals == CloseFinals(old(View()))
      ensures emitted == (if !old(chanEof) && Final(ctx).Some? then Final(ctx).value else [])
      ensures !old(chanEof) && OneShot(start, taken).Some? ==> OneShot(start, taken) == Some(produced + emitted)
      ensures old(chanEof) || OneShot(start, taken).None? ==> emitted == []
      ensures error == if emitted != [] && written < 0 then writeError else NoErrno
    {
      error, emitted := NoErrno, [];
      FinalCompletes();
      if !chanEof {
        finals := finals + 1;
        match Final(ctx) {
          case Some(rest) =>
            emitted := rest;
            if |rest| > 0 {
              if written < 0 {
                return writeError, emitted;
              }
            }
          case None =>
        }
        chanEof := true;
      }
    }
  }
}
