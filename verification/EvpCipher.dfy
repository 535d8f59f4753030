/** The cipher context that generic/tlsEncrypt.c drives: a block transformation with a chaining
    value, a partial block held back between updates, and the padding of section 6.3 of RFC 5652. */
module EvpCipher {
  import opened TlsTypes

  /** Key, mode and chaining value between two blocks. */
  type Chain = seq<byte>

  type Transform = (Chain, seq<byte>) -> (Chain, seq<byte>)

  const EVP_MAX_BLOCK_LENGTH := 32

  /** Any cipher: it turns one block into another and moves its chaining value on. */
  datatype Cipher = Cipher(block: nat, seal: Transform, unseal: Transform)

  ghost predicate KeepsLength(n: nat, f: Transform) {
    forall iv: Chain, b: seq<byte> :: |b| == n ==> |f(iv, b).1| == n
  }

  /** g undoes f, block by block, and moves the chaining value on alike. */
  ghost predicate Undoes(n: nat, f: Transform, g: Transform) {
    forall iv: Chain, b: seq<byte> :: |b| == n ==> g(iv, f(iv, b).1) == (f(iv, b).0, b)
  }

  /** A permutation of blocks for each chaining value, of a block size OpenSSL admits. */
  ghost predicate Invertible(c: Cipher) {
    && 1 <= c.block <= EVP_MAX_BLOCK_LENGTH
    && KeepsLength(c.block, c.seal) && KeepsLength(c.block, c.unseal)
    && Undoes(c.block, c.seal, c.unseal) && Undoes(c.block, c.unseal, c.seal)
  }

  // ----- joining pieces

  function Flatten(chunks: seq<seq<byte>>): seq<byte> {
    if chunks == [] then [] else chunks[0] + Flatten(chunks[1..])
  }

  lemma {:induction false} FlattenJoin(a: seq<seq<byte>>, b: seq<seq<byte>>)
    ensures Flatten(a + b) == Flatten(a) + Flatten(b)
    ensures |a| == 1 ==> Flatten(a) == a[0]
    decreases |a|
  {
    if a == [] {
      assert a + b == b;
    } else {
      FlattenJoin(a[1..], b);
      assert (a + b)[0] == a[0] && (a + b)[1..] == a[1..] + b;
    }
  }

  // ----- runs of whole blocks

  function Blocks(n: nat, f: Transform, iv: Chain, s: seq<byte>): (Chain, seq<byte>)
    requires n > 0
    decreases |s|
  {
    if |s| < n then (iv, [])
    else
      var (iv1, first) := f(iv, s[..n]);
      var (iv2, rest) := Blocks(n, f, iv1, s[n..]);
      (iv2, first + rest)
  }

  /** The size of all whole blocks in `size` bytes: the largest multiple of n not above it. */
  function Whole(n: nat, size: nat): (m: nat)
    requires n > 0
    ensures m <= size < m + n
    decreases size
  {
    if size < n then 0 else n + Whole(n, size - n)
  }

  predicate Aligned(n: nat, size: nat)
    requires n > 0
  {
    Whole(n, size) == size
  }

  lemma WholeIsAligned(n: nat, size: nat)
    requires n > 0
    ensures Aligned(n, Whole(n, size))
    decreases size
  {
    if size < n {
    } else {
      WholeIsAligned(n, size - n);
    }
  }

  lemma WholeShifts(n: nat, m: nat, size: nat)
    requires n > 0 && Aligned(n, m)
    ensures Whole(n, m + size) == m + Whole(n, size)
    decreases m
  {
    if m < n {
    } else {
      WholeShifts(n, m - n, size);
    }
  }

  lemma {:induction false} BlocksLength(n: nat, f: Transform, iv: Chain, s: seq<byte>)
    requires n > 0 && KeepsLength(n, f) && Aligned(n, |s|)
    ensures |Blocks(n, f, iv, s).1| == |s|
    decreases |s|
  {
    if |s| < n {
    } else {
      BlocksLength(n, f, f(iv, s[..n]).0, s[n..]);
    }
  }

  lemma {:induction false} BlocksJoin(n: nat, f: Transform, iv: Chain, a: seq<byte>, b: seq<byte>)
    requires n > 0 && Aligned(n, |a|)
    ensures var (iv1, x) := Blocks(n, f, iv, a); var (iv2, y) := Blocks(n, f, iv1, b);
      Blocks(n, f, iv, a + b) == (iv2, x + y)
    decreases |a|
  {
    if |a| < n {
      assert a == [] && a + b == b;
      assert [] + Blocks(n, f, iv, b).1 == Blocks(n, f, iv, b).1;
    } else {
      var (iv1, first) := f(iv, a[..n]);
      BlocksJoin(n, f, iv1, a[n..], b);
      assert (a + b)[..n] == a[..n] && (a + b)[n..] == a[n..] + b;
      var (iv2, x) := Blocks(n, f, iv1, a[n..]);
      var (_, y) := Blocks(n, f, iv2, b);
      assert first + (x + y) == (first + x) + y;
    }
  }

  lemma {:induction false} BlocksUndone(n: nat, f: Transform, g: Transform, iv: Chain, s: seq<byte>)
    requires n > 0 && KeepsLength(n, f) && Undoes(n, f, g) && Aligned(n, |s|)
    ensures Blocks(n, g, iv, Blocks(n, f, iv, s).1) == (Blocks(n, f, iv, s).0, s)
    decreases |s|
  {
    if |s| < n {
      assert s == [];
    } else {
      var (iv1, first) := f(iv, s[..n]);
      var (iv2, rest) := Blocks(n, f, iv1, s[n..]);
      BlocksUndone(n, f, g, iv1, s[n..]);
      assert (first + rest)[..n] == first && (first + rest)[n..] == rest;
      assert s[..n] + s[n..] == s;
    }
  }

  /** The whole blocks at the front of s, transformed, and the rest. */
  function Cut(n: nat, f: Transform, iv: Chain, s: seq<byte>): (Chain, seq<byte>, seq<byte>)
    requires n > 0
  {
    var m := Whole(n, |s|);
    var (iv1, out) := Blocks(n, f, iv, s[..m]);
    (iv1, out, s[m..])
  }

  /** What a first cut leaves over goes in front of the next. */
  lemma {:induction false} CutTwice(n: nat, f: Transform, iv: Chain, s: seq<byte>, b: seq<byte>)
    requires n > 0
    ensures var (iv1, x, rest) := Cut(n, f, iv, s);
      var (iv2, y, rest2) := Cut(n, f, iv1, rest + b);
      Cut(n, f, iv, s + b) == (iv2, x + y, rest2)
  {
    var m := Whole(n, |s|);
    var t := s[m..] + b;
    var k := Whole(n, |t|);
    WholeIsAligned(n, |s|);
    WholeShifts(n, m, |t|);
    assert s + b == s[..m] + t;
    assert (s + b)[..m + k] == s[..m] + t[..k] && (s + b)[m + k..] == t[k..];
    BlocksJoin(n, f, iv, s[..m], t[..k]);
  }

  lemma CutLength(n: nat, f: Transform, iv: Chain, s: seq<byte>)
    requires n > 0 && KeepsLength(n, f)
    ensures var (_, out, rest) := Cut(n, f, iv, s); |out| == Whole(n, |s|) && |rest| == |s| - Whole(n, |s|)
  {
    WholeIsAligned(n, |s|);
    BlocksLength(n, f, iv, s[..Whole(n, |s|)]);
  }

  // ----- the context

  /** `held` is the partial block of input; `final` is the decrypted block that EVP_DecryptUpdate
      withholds while it may turn out to be padding. */
  datatype Ctx = Ctx(cipher: Cipher, encrypt: bool, padding: bool, chain: Chain, held: seq<byte>,
                     final: Option<seq<byte>>)

  function Init(cipher: Cipher, encrypt: bool, padding: bool, iv: Chain): Ctx {
    Ctx(cipher, encrypt, padding, iv, [], None)
  }

  function Direction(c: Ctx): Transform {
    if c.encrypt then c.cipher.seal else c.cipher.unseal
  }

  /** Decryption withholds a block only when padding is on and blocks are longer than a byte. */
  predicate Withholds(c: Ctx) {
    !c.encrypt && c.padding && c.cipher.block > 1
  }

  ghost predicate ValidCtx(c: Ctx) {
    && Invertible(c.cipher)
    && |c.held| < c.cipher.block
    && (c.final.Some? ==> Withholds(c) && c.held == [] && |c.final.value| == c.cipher.block)
  }

  /** All complete blocks of the held bytes and the data; the rest is held. */
  function Plain(c: Ctx, data: seq<byte>): (Ctx, seq<byte>)
    requires c.cipher.block > 0
  {
    var (chain, out, rest) := Cut(c.cipher.block, Direction(c), c.chain, c.held + data);
    (c.(chain := chain, held := rest), out)
  }

  function Last(c: Ctx): seq<byte> {
    if c.final.Some? then c.final.value else []
  }

  /** What decryption releases after the block withheld before: all but the last block when the
      input ended with a whole block. */
  function Withhold(n: nat, before: seq<byte>, out: seq<byte>, whole: bool): (Option<seq<byte>>, seq<byte>)
    requires whole ==> n <= |out|
  {
    if whole then (Some(out[|out| - n..]), before + out[..|out| - n]) else (None, before + out)
  }

  lemma WithholdTwice(n: nat, before: seq<byte>, u: seq<byte>, v: seq<byte>, wholeU: bool, wholeV: bool)
    requires (wholeU ==> n <= |u|) && (wholeV ==> n <= |v|)
    ensures var (f1, x) := Withhold(n, before, u, wholeU);
      var (f2, y) := Withhold(n, if f1.Some? then f1.value else [], v, wholeV);
      Withhold(n, before, u + v, wholeV) == (f2, x + y)
  {
    var (f1, x) := Withhold(n, before, u, wholeU);
    var kept := if f1.Some? then f1.value else [];
    assert x + kept == before + u;
    if wholeV {
      assert (u + v)[..|u + v| - n] == u + v[..|v| - n] && (u + v)[|u + v| - n..] == v[|v| - n..];
      assert x + (kept + v[..|v| - n]) == (x + kept) + v[..|v| - n];
      assert before + (u + v[..|v| - n]) == (before + u) + v[..|v| - n];
    } else {
      assert x + (kept + v) == (x + kept) + v && before + (u + v) == (before + u) + v;
    }
  }

  /** EVP_EncryptUpdate and EVP_DecryptUpdate. */
  function Update(c: Ctx, data: seq<byte>): (Ctx, seq<byte>)
    requires ValidCtx(c)
  {
    if data == [] then (c, [])
    else
      var (c', out) := Plain(c, data);
      if !Withholds(c) then (c', out)
      else
        PlainLength(c, data);
        var (final, released) := Withhold(c.cipher.block, Last(c), out, c'.held == []);
        (c'.(final := final), released)
  }

  lemma {:induction false} PlainLength(c: Ctx, data: seq<byte>)
    requires ValidCtx(c)
    ensures var (c', out) := Plain(c, data);
      && |out| == Whole(c.cipher.block, |c.held| + |data|) == |c.held| + |data| - |c'.held|
      && |c'.held| < c.cipher.block
      && (data != [] && c'.held == [] ==> |out| >= c.cipher.block)
  {
    var s := c.held + data;
    assert |s| == |c.held| + |data|;
    CutLength(c.cipher.block, Direction(c), c.chain, s);
  }

  lemma UpdateKeepsValid(c: Ctx, data: seq<byte>)
    requires ValidCtx(c)
    ensures ValidCtx(Update(c, data).0)
    ensures Update(c, data).0 == c.(chain := Update(c, data).0.chain, held := Update(c, data).0.held,
                                    final := Update(c, data).0.final)
  {
    PlainLength(c, data);
  }

  /** The padding of a message: 1 to n bytes, each holding their number. */
  function PadBytes(n: nat, held: nat): seq<byte>
    requires held < n <= EVP_MAX_BLOCK_LENGTH
  {
    seq(n - held, _ => n - held)
  }

  predicate PadsWith(s: seq<byte>, k: nat) {
    1 <= k <= |s| && forall i | |s| - k <= i < |s| :: s[i] as int == k
  }

  /** EVP_EncryptFinal_ex and EVP_DecryptFinal_ex: None is failure. */
  function Final(c: Ctx): Option<seq<byte>>
    requires ValidCtx(c)
  {
    var n := c.cipher.block;
    if !c.padding then if c.held == [] then Some([]) else None
    else if n == 1 then Some([])
    else if c.encrypt then Some(c.cipher.seal(c.chain, c.held + PadBytes(n, |c.held|)).1)
    else if c.held != [] || c.final.None? then None
    else
      var k := c.final.value[n - 1];
      if PadsWith(c.final.value, k) then Some(c.final.value[..n - k]) else None
  }

  /** Initialise, one update, finalize: what EncryptDataHandler computes. */
  function OneShot(c: Ctx, data: seq<byte>): Option<seq<byte>>
    requires ValidCtx(c)
  {
    UpdateKeepsValid(c, data);
    var (c', out) := Update(c, data);
    match Final(c')
    case None => None
    case Some(rest) => Some(out + rest)
  }

  // ----- chunking

  /** A series of updates and everything they return. */
  function Feed(c: Ctx, chunks: seq<seq<byte>>): (Ctx, seq<byte>)
    requires ValidCtx(c)
    decreases |chunks|
  {
    if chunks == [] then (c, [])
    else
      UpdateKeepsValid(c, chunks[0]);
      var (c1, out) := Update(c, chunks[0]);
      var (c2, rest) := Feed(c1, chunks[1..]);
      (c2, out + rest)
  }

  lemma PlainTwice(c: Ctx, a: seq<byte>, b: seq<byte>)
    requires ValidCtx(c)
    ensures var (c1, x) := Plain(c, a); var (c2, y) := Plain(c1, b); Plain(c, a + b) == (c2, x + y)
  {
    assert c.held + (a + b) == (c.held + a) + b;
    CutTwice(c.cipher.block, Direction(c), c.chain, c.held + a, b);
  }

  /** Two updates in a row are one update with both pieces. */
  lemma UpdateTwice(c: Ctx, a: seq<byte>, b: seq<byte>)
    requires ValidCtx(c)
    ensures ValidCtx(Update(c, a).0)
    ensures var (c1, x) := Update(c, a); var (c2, y) := Update(c1, b); Update(c, a + b) == (c2, x + y)
  {
    UpdateKeepsValid(c, a);
    var (c1, x) := Update(c, a);
    var (c2, y) := Update(c1, b);
    if a == [] {
      assert a + b == b && x + y == y;
    } else if b == [] {
      assert a + b == a && x + y == x;
    } else {
      PlainTwice(c, a, b);
      var (p1, u) := Plain(c, a);
      var (p2, v) := Plain(p1, b);
      assert Plain(c1, b) == (p2.(final := c1.final), v);
      if Withholds(c) {
        PlainLength(c, a);
        PlainLength(c1, b);
        WithholdTwice(c.cipher.block, Last(c), u, v, p1.held == [], p2.held == []);
      }
    }
  }

  /** Any series of updates returns what one update with the joined data returns, and leaves the
      context in the same state. */
  lemma {:induction false} FeedIsUpdate(c: Ctx, chunks: seq<seq<byte>>)
    requires ValidCtx(c)
    ensures Feed(c, chunks) == Update(c, Flatten(chunks))
    decreases |chunks|
  {
    if chunks == [] {
    } else {
      UpdateKeepsValid(c, chunks[0]);
      FeedIsUpdate(Update(c, chunks[0]).0, chunks[1..]);
      UpdateTwice(c, chunks[0], Flatten(chunks[1..]));
    }
  }

  /** All updates, then finalize. */
  function FeedAll(c: Ctx, chunks: seq<seq<byte>>): Option<seq<byte>>
    requires ValidCtx(c)
  {
    FeedIsUpdate(c, chunks);
    UpdateKeepsValid(c, Flatten(chunks));
    var (c', out) := Feed(c, chunks);
    match Final(c')
    case None => None
    case Some(rest) => Some(out + rest)
  }

  /** Chunk invariance, for encryption and decryption, with and without padding: results and
      failures are those of the one-shot form on the joined data. */
  lemma ChunkingIsInvisible(c: Ctx, chunks: seq<seq<byte>>)
    requires ValidCtx(c)
    ensures FeedAll(c, chunks) == OneShot(c, Flatten(chunks))
  {
    FeedIsUpdate(c, chunks);
  }

  // ----- encryption and decryption undo each other

  function Padded(n: nat, padding: bool, m: seq<byte>): seq<byte>
    requires 1 <= n <= EVP_MAX_BLOCK_LENGTH
  {
    if padding && n > 1 then m + PadBytes(n, |m| - Whole(n, |m|)) else m
  }

  lemma SplitBlocks(n: nat, f: Transform, iv: Chain, s: seq<byte>, last: seq<byte>)
    requires n > 0 && KeepsLength(n, f) && Aligned(n, |s|) && |last| == n
    ensures Aligned(n, |s + last|)
    ensures var (iv1, x) := Blocks(n, f, iv, s); Blocks(n, f, iv, s + last).1 == x + f(iv1, last).1
  {
    BlocksJoin(n, f, iv, s, last);
    WholeShifts(n, |s|, n);
    assert last[..n] == last;
  }

  /** The update of a fresh encryption seals the whole blocks and holds the rest. */
  lemma EncryptionUpdates(cipher: Cipher, padding: bool, iv: Chain, m: seq<byte>)
    requires Invertible(cipher)
    ensures var c := Init(cipher, true, padding, iv); var w := Whole(cipher.block, |m|);
      var (chain, out) := Blocks(cipher.block, cipher.seal, iv, m[..w]);
      Update(c, m) == (c.(chain := chain, held := m[w..]), out)
  {
    assert [] + m == m;
  }

  /** What encryption computes: the sealed blocks of the padded message. Without padding it fails
      exactly on a message that is not a whole number of blocks. */
  lemma EncryptionIs(cipher: Cipher, padding: bool, iv: Chain, m: seq<byte>)
    requires Invertible(cipher)
    ensures var n := cipher.block; var p := Padded(n, padding, m);
      && (padding ==> Aligned(n, |p|))
      && OneShot(Init(cipher, true, padding, iv), m)
         == if Aligned(n, |p|) then Some(Blocks(n, cipher.seal, iv, p).1) else None
  {
    var n := cipher.block;
    var w := Whole(n, |m|);
    EncryptionUpdates(cipher, padding, iv, m);
    assert m[..w] + m[w..] == m;
    if padding && n > 1 {
      WholeIsAligned(n, |m|);
      PaddingIsSealed(n, cipher.seal, iv, m);
    } else if w == |m| {
      var out := Blocks(n, cipher.seal, iv, m).1;
      assert m[..w] == m && out + [] == out;
    }
  }

  /** The last block of a padded message is the held rest and its padding. */
  lemma PaddingIsSealed(n: nat, f: Transform, iv: Chain, m: seq<byte>)
    requires 1 < n <= EVP_MAX_BLOCK_LENGTH && KeepsLength(n, f)
    ensures var w, p := Whole(n, |m|), Padded(n, true, m); var (iv1, x) := Blocks(n, f, iv, m[..w]);
      Aligned(n, |p|) && Blocks(n, f, iv, p).1 == x + f(iv1, m[w..] + PadBytes(n, |m| - w)).1
  {
    var w := Whole(n, |m|);
    WholeIsAligned(n, |m|);
    var last := m[w..] + PadBytes(n, |m| - w);
    SplitBlocks(n, f, iv, m[..w], last);
    assert Padded(n, true, m) == m[..w] + last;
  }

  /** What decryption computes: the unsealed blocks, with valid padding removed. */
  function Unpadded(n: nat, padding: bool, p: seq<byte>): Option<seq<byte>>
    requires n > 0
  {
    if !padding || n == 1 then Some(p)
    else if |p| < n then None
    else
      var k := p[|p| - 1];
      if PadsWith(p[|p| - n..], k) then Some(p[..|p| - k]) else None
  }

  lemma DecryptionIs(cipher: Cipher, padding: bool, iv: Chain, s: seq<byte>)
    requires Invertible(cipher)
    ensures var n := cipher.block;
      OneShot(Init(cipher, false, padding, iv), s)
      == if Aligned(n, |s|) then Unpadded(n, padding, Blocks(n, cipher.unseal, iv, s).1) else None
  {
    if s == [] {
      assert Blocks(cipher.block, cipher.unseal, iv, s).1 == [];
    } else if Aligned(cipher.block, |s|) {
      assert [] + s == s && s[..|s|] == s && s[|s|..] == [];
      DecryptionOfBlocks(cipher, padding, iv, s);
    } else {
      IncompleteBlockFails(cipher, padding, iv, s);
    }
  }

  lemma IncompleteBlockFails(cipher: Cipher, padding: bool, iv: Chain, s: seq<byte>)
    requires Invertible(cipher) && !Aligned(cipher.block, |s|)
    ensures OneShot(Init(cipher, false, padding, iv), s) == None
  {
    var c := Init(cipher, false, padding, iv);
    UpdateKeepsValid(c, s);
    assert [] + s == s;
    assert |Update(c, s).0.held| == |s| - Whole(cipher.block, |s|);
  }

  lemma DecryptionOfBlocks(cipher: Cipher, padding: bool, iv: Chain, s: seq<byte>)
    requires Invertible(cipher) && s != [] && Aligned(cipher.block, |s|)
    requires Plain(Init(cipher, false, padding, iv), s).1 == Blocks(cipher.block, cipher.unseal, iv, s).1
    requires Plain(Init(cipher, false, padding, iv), s).0.held == []
    ensures OneShot(Init(cipher, false, padding, iv), s)
      == Unpadded(cipher.block, padding, Blocks(cipher.block, cipher.unseal, iv, s).1)
  {
    var n, c := cipher.block, Init(cipher, false, padding, iv);
    var (c', out) := Update(c, s);
    PlainLength(c, s);
    var raw := Blocks(n, cipher.unseal, iv, s).1;
    if Withholds(c) {
      assert (c'.final, out) == Withhold(n, [], raw, true);
      assert out == raw[..|raw| - n];
      FinalUnpads(c', raw);
    } else {
      assert out + [] == raw;
    }
  }

  /** The last block comes out without its padding. */
  lemma FinalUnpads(c: Ctx, raw: seq<byte>)
    requires ValidCtx(c) && Withholds(c) && c.held == [] && c.cipher.block <= |raw|
    requires c.final == Some(raw[|raw| - c.cipher.block..])
    ensures Unpadded(c.cipher.block, true, raw)
      == match Final(c) case None => None case Some(rest) => Some(raw[..|raw| - c.cipher.block] + rest)
  {
    var n, k := c.cipher.block, raw[|raw| - 1];
    if PadsWith(raw[|raw| - n..], k) {
      assert raw[..|raw| - n] + raw[|raw| - n..][..n - k] == raw[..|raw| - k];
    }
  }

  lemma PadThenUnpad(n: nat, padding: bool, m: seq<byte>)
    requires 1 <= n <= EVP_MAX_BLOCK_LENGTH
    ensures Unpadded(n, padding, Padded(n, padding, m)) == Some(m)
  {
    if padding && n > 1 {
      var p, k := Padded(n, padding, m), n - (|m| - Whole(n, |m|));
      WholeIsAligned(n, |m|);
      assert p[|p| - 1] as int == k && p[..|p| - k] == m;
      var last := p[|p| - n..];
      forall i | n - k <= i < n ensures last[i] as int == k {
        assert last[i] == p[|p| - n + i];
      }
    }
  }

  lemma UnpadThenPad(n: nat, padding: bool, p: seq<byte>)
    requires 1 <= n <= EVP_MAX_BLOCK_LENGTH && Aligned(n, |p|) && Unpadded(n, padding, p).Some?
    ensures Padded(n, padding, Unpadded(n, padding, p).value) == p
  {
    if padding && n > 1 {
      var k: int := p[|p| - 1];
      var m := p[..|p| - k];
      WholeShifts(n, |p| - n, n - k);
      assert Whole(n, |m|) == |p| - n;
      forall j | |p| - k <= j < |p| ensures p[j] as int == k {
        assert p[j] == p[|p| - n..][j - (|p| - n)];
      }
      assert p == m + PadBytes(n, n - k);
    }
  }

  /** Decryption and encryption are inverse to each other, failures included: a ciphertext decrypts
      to a message exactly when the message encrypts to that ciphertext. */
  lemma DecryptIffEncrypt(cipher: Cipher, padding: bool, iv: Chain, m: seq<byte>, s: seq<byte>)
    requires Invertible(cipher)
    ensures OneShot(Init(cipher, false, padding, iv), s) == Some(m)
      <==> OneShot(Init(cipher, true, padding, iv), m) == Some(s)
  {
    var n := cipher.block;
    EncryptionIs(cipher, padding, iv, m);
    DecryptionIs(cipher, padding, iv, s);
    var p := Padded(n, padding, m);
    if OneShot(Init(cipher, true, padding, iv), m) == Some(s) {
      BlocksLength(n, cipher.seal, iv, p);
      BlocksUndone(n, cipher.seal, cipher.unseal, iv, p);
      PadThenUnpad(n, padding, m);
    }
    if OneShot(Init(cipher, false, padding, iv), s) == Some(m) {
      BlocksLength(n, cipher.unseal, iv, s);
      BlocksUndone(n, cipher.unseal, cipher.seal, iv, s);
      UnpadThenPad(n, padding, Blocks(n, cipher.unseal, iv, s).1);
    }
  }

  /** Decrypting, under any chunking, what was encrypted under any chunking returns the message. */
  lemma RoundTrip(cipher: Cipher, padding: bool, iv: Chain, plain: seq<seq<byte>>, sealed: seq<seq<byte>>)
    requires Invertible(cipher)
    requires FeedAll(Init(cipher, true, padding, iv), plain) == Some(Flatten(sealed))
    ensures FeedAll(Init(cipher, false, padding, iv), sealed) == Some(Flatten(plain))
  {
    ChunkingIsInvisible(Init(cipher, true, padding, iv), plain);
    ChunkingIsInvisible(Init(cipher, false, padding, iv), sealed);
    DecryptIffEncrypt(cipher, padding, iv, Flatten(plain), Flatten(sealed));
  }

  // ----- what a mode of operation is, block by block

  /** Each block is transformed under the chaining value its predecessor left. */
  predicate Chained(n: nat, f: Transform, iv: Chain, bs: seq<seq<byte>>, cs: seq<seq<byte>>, ivs: seq<Chain>) {
    && |cs| == |bs| && |ivs| == |bs| + 1 && ivs[0] == iv
    && forall i | 0 <= i < |bs| :: |bs[i]| == n && f(ivs[i], bs[i]) == (ivs[i + 1], cs[i])
  }

  /** `out` is `p` cut into blocks of n bytes and transformed one after the other, starting from iv. */
  ghost predicate Sealed(n: nat, f: Transform, iv: Chain, p: seq<byte>, out: seq<byte>) {
    exists bs, cs, ivs :: Chained(n, f, iv, bs, cs, ivs) && p == Flatten(bs) && out == Flatten(cs)
  }

  lemma {:induction false} ChainOfBlocks(n: nat, f: Transform, iv: Chain, p: seq<byte>)
    returns (bs: seq<seq<byte>>, cs: seq<seq<byte>>, ivs: seq<Chain>)
    requires n > 0 && Aligned(n, |p|)
    ensures Chained(n, f, iv, bs, cs, ivs) && p == Flatten(bs) && Blocks(n, f, iv, p).1 == Flatten(cs)
    decreases |p|
  {
    if |p| < n {
      bs, cs, ivs := [], [], [iv];
    } else {
      var (iv1, first) := f(iv, p[..n]);
      var bs1, cs1, ivs1 := ChainOfBlocks(n, f, iv1, p[n..]);
      bs, cs, ivs := [p[..n]] + bs1, [first] + cs1, [iv] + ivs1;
      assert bs[1..] == bs1 && cs[1..] == cs1 && p == p[..n] + p[n..];
    }
  }

  lemma {:induction false} BlocksOfChain(n: nat, f: Transform, iv: Chain, bs: seq<seq<byte>>, cs: seq<seq<byte>>,
                                         ivs: seq<Chain>)
    requires n > 0 && Chained(n, f, iv, bs, cs, ivs)
    ensures Aligned(n, |Flatten(bs)|) && Blocks(n, f, iv, Flatten(bs)).1 == Flatten(cs)
    decreases |bs|
  {
    if bs == [] {
    } else {
      var p := Flatten(bs);
      assert f(ivs[0], bs[0]) == (ivs[1], cs[0]);
      BlocksOfChain(n, f, ivs[1], bs[1..], cs[1..], ivs[1..]);
      assert p[..n] == bs[0] && p[n..] == Flatten(bs[1..]);
    }
  }

  lemma BlocksAreSealed(n: nat, f: Transform, iv: Chain, p: seq<byte>, out: seq<byte>)
    requires n > 0
    ensures Sealed(n, f, iv, p, out) <==> Aligned(n, |p|) && Blocks(n, f, iv, p).1 == out
  {
    if Aligned(n, |p|) && Blocks(n, f, iv, p).1 == out {
      var bs, cs, ivs := ChainOfBlocks(n, f, iv, p);
    }
    if Sealed(n, f, iv, p, out) {
      var bs, cs, ivs :| Chained(n, f, iv, bs, cs, ivs) && p == Flatten(bs) && out == Flatten(cs);
      BlocksOfChain(n, f, iv, bs, cs, ivs);
    }
  }

  /** The padding of section 6.3 of RFC 5652. */
  predicate IsPadding(n: nat, pad: seq<byte>) {
    1 <= |pad| <= n && forall i | 0 <= i < |pad| :: pad[i] == |pad|
  }

  /** What encryption or decryption of `data` into `out` means: the blocks one after the other, and with
      padding, which a block size of 1 does not have, bytes that are added before or removed after. */
  ghost predicate Transformed(cipher: Cipher, encrypt: bool, padding: bool, iv: Chain, data: seq<byte>,
                              out: seq<byte>)
  {
    if !padding || cipher.block == 1 then
      Sealed(cipher.block, if encrypt then cipher.seal else cipher.unseal, iv, data, out)
    else if encrypt then
      exists pad :: IsPadding(cipher.block, pad) && Sealed(cipher.block, cipher.seal, iv, data + pad, out)
    else
      exists pad :: IsPadding(cipher.block, pad) && Sealed(cipher.block, cipher.unseal, iv, data, out + pad)
  }

  /** Only one padding completes the last block. */
  lemma PaddingIsDetermined(n: nat, m: seq<byte>, pad: seq<byte>)
    requires 1 < n <= EVP_MAX_BLOCK_LENGTH && IsPadding(n, pad)
    ensures Aligned(n, |m + pad|) <==> m + pad == Padded(n, true, m)
  {
    var w := Whole(n, |m|);
    var r := |m| - w;
    WholeIsAligned(n, |m|);
    WholeShifts(n, w, r + |pad|);
    assert |m + pad| == w + (r + |pad|);
    assert Whole(n, r + |pad|) == r + |pad| <==> r + |pad| == n;
    if r + |pad| == n {
      assert pad == PadBytes(n, r);
    }
  }

  lemma PaddedIsPadding(n: nat, m: seq<byte>)
    requires 1 < n <= EVP_MAX_BLOCK_LENGTH
    ensures IsPadding(n, PadBytes(n, |m| - Whole(n, |m|)))
    ensures Aligned(n, |Padded(n, true, m)|)
  {
    PaddingIsDetermined(n, m, PadBytes(n, |m| - Whole(n, |m|)));
  }

  lemma EncryptedMeans(cipher: Cipher, padding: bool, iv: Chain, m: seq<byte>, out: seq<byte>)
    requires Invertible(cipher)
    ensures OneShot(Init(cipher, true, padding, iv), m) == Some(out) <==> Transformed(cipher, true, padding, iv, m, out)
  {
    var n := cipher.block;
    EncryptionIs(cipher, padding, iv, m);
    if !padding || n == 1 {
      BlocksAreSealed(n, cipher.seal, iv, m, out);
    } else {
      var p := Padded(n, true, m);
      PaddedIsPadding(n, m);
      BlocksAreSealed(n, cipher.seal, iv, p, out);
      forall pad | IsPadding(n, pad) && Sealed(n, cipher.seal, iv, m + pad, out) ensures m + pad == p {
        BlocksAreSealed(n, cipher.seal, iv, m + pad, out);
        PaddingIsDetermined(n, m, pad);
      }
    }
  }

  /** Unpadding undoes a padding, and only a padding. */
  lemma UnpaddedIs(n: nat, p: seq<byte>, m: seq<byte>)
    requires 1 < n <= EVP_MAX_BLOCK_LENGTH && Aligned(n, |p|)
    ensures Unpadded(n, true, p) == Some(m) <==> exists pad :: IsPadding(n, pad) && p == m + pad
  {
    if Unpadded(n, true, p) == Some(m) {
      var k: int := p[|p| - 1];
      var pad := p[|p| - k..];
      forall i | 0 <= i < k ensures pad[i] == k {
        assert pad[i] == p[|p| - n..][n - k + i];
      }
      assert IsPadding(n, pad) && p == m + pad;
    }
    if pad :| IsPadding(n, pad) && p == m + pad {
      var k := |pad|;
      assert p[|p| - 1] == pad[k - 1] == k && |p| >= n;
      var last := p[|p| - n..];
      forall i | n - k <= i < n ensures last[i] as int == k {
        assert last[i] == pad[i - (n - k)];
      }
      assert p[..|p| - k] == m;
    }
  }

  lemma DecryptedMeans(cipher: Cipher, padding: bool, iv: Chain, s: seq<byte>, out: seq<byte>)
    requires Invertible(cipher)
    ensures OneShot(Init(cipher, false, padding, iv), s) == Some(out)
      <==> Transformed(cipher, false, padding, iv, s, out)
  {
    var n := cipher.block;
    DecryptionIs(cipher, padding, iv, s);
    if !padding || n == 1 {
      BlocksAreSealed(n, cipher.unseal, iv, s, out);
    } else {
      var raw := Blocks(n, cipher.unseal, iv, s).1;
      if Aligned(n, |s|) {
        BlocksLength(n, cipher.unseal, iv, s);
        UnpaddedIs(n, raw, out);
      }
      forall pad | IsPadding(n, pad)
        ensures Sealed(n, cipher.unseal, iv, s, out + pad) <==> Aligned(n, |s|) && raw == out + pad
      {
        BlocksAreSealed(n, cipher.unseal, iv, s, out + pad);
      }
    }
  }

  /** Encryption and decryption compute exactly what their mode means, and fail when nothing is meant. */
  lemma OneShotMeans(cipher: Cipher, encrypt: bool, padding: bool, iv: Chain, data: seq<byte>, out: seq<byte>)
    requires Invertible(cipher)
    ensures OneShot(Init(cipher, encrypt, padding, iv), data) == Some(out)
      <==> Transformed(cipher, encrypt, padding, iv, data, out)
  {
    if encrypt {
      EncryptedMeans(cipher, padding, iv, data, out);
    } else {
      DecryptedMeans(cipher, padding, iv, data, out);
    }
  }

  // ----- how much room the results need

  /** The bytes EVP_EncryptUpdate or EVP_DecryptUpdate writes to its output buffer, the withheld
      block included. */
  function Extent(c: Ctx, data: seq<byte>): nat
    requires ValidCtx(c)
  {
    if data == [] then 0 else |Last(c)| + |Plain(c, data).1|
  }

  /** One update never needs more than its data and one block, whatever came before. */
  lemma UpdateFits(c: Ctx, data: seq<byte>)
    requires ValidCtx(c)
    ensures |Update(c, data).1| <= Extent(c, data) <= |data| + c.cipher.block
  {
    PlainLength(c, data);
  }

  lemma FinalFits(c: Ctx)
    requires ValidCtx(c)
    ensures Final(c).Some? ==> |Final(c).value| <= c.cipher.block
  {}

  /** Update and finalize together need no more than the data and one block. */
  lemma OneShotFits(cipher: Cipher, encrypt: bool, padding: bool, iv: Chain, data: seq<byte>)
    requires Invertible(cipher)
    ensures var c := Init(cipher, encrypt, padding, iv);
      && |Update(c, data).1| <= Extent(c, data) <= |data|
      && (OneShot(c, data).Some? ==> |OneShot(c, data).value| <= |data| + cipher.block)
  {
    var c := Init(cipher, encrypt, padding, iv);
    UpdateFits(c, data);
    PlainLength(c, data);
    UpdateKeepsValid(c, data);
    FinalFits(Update(c, data).0);
  }
}
