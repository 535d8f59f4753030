/** Two wire formats of generic/tls.c: the server name extension read by HelloCallback and the
    protocol list built by ImportObjCmd. */
module TlsHello {
  import opened TlsTypes

  function Word(high: int, low: int): int {
    high * 256 + low
  }

  /** A 16-bit length, most significant byte first. */
  function U16(n: nat): (r: seq<byte>)
    requires n < 0x1_0000
    ensures |r| == 2 && r[0] as int * 256 + r[1] as int == n
  {
    [n / 256, n % 256]
  }

  // ----- server name indication, section 3 of RFC 6066

  const HOST_NAME: byte := 0

  datatype ServerName = ServerName(nameType: byte, name: seq<byte>)

  function SerializeEntry(e: ServerName): seq<byte>
    requires |e.name| < 0x1_0000
  {
    [e.nameType] + U16(|e.name|) + e.name
  }

  function SerializeEntries(es: seq<ServerName>): seq<byte>
    requires forall e :: e in es ==> |e.name| < 0x1_0000
  {
    if es == [] then [] else SerializeEntry(es[0]) + SerializeEntries(es[1..])
  }

  /** The ServerNameList of the standard. */
  predicate Serializable(es: seq<ServerName>) {
    && (forall e :: e in es ==> 1 <= |e.name| < 0x1_0000)
    && 1 <= |SerializeEntries(es)| < 0x1_0000
  }

  function SerializeList(es: seq<ServerName>): seq<byte>
    requires Serializable(es)
  {
    U16(|SerializeEntries(es)|) + SerializeEntries(es)
  }

  datatype SniResult = Host(name: seq<byte>) | IllegalParameter | InternalError

  /** The extension is a list whose first entry has the name type 0 of a host; at least one byte follows the
      length of the name, so an empty name is taken only when something comes after it. */
  ghost predicate Names(ext: seq<byte>, name: seq<byte>, rest: seq<byte>) {
    && 1 <= |name| + |rest| < 0x1_0000 - 3
    && ext == U16(3 + |name| + |rest|) + [0] + U16(|name|) + name + rest
  }

  /** The parser of HelloCallback: a pointer walk over exactly the bytes of the extension. */
  method ParseServerName(ext: seq<byte>) returns (r: SniResult)
    ensures r.Host? <==> exists name, rest :: Names(ext, name, rest)
    ensures r.Host? ==> exists rest :: Names(ext, r.name, rest)
    ensures r.IllegalParameter? <==> |ext| <= 2 || ext[0] as int * 256 + ext[1] as int + 2 != |ext|
  {
    NotNamed(ext);
    var p, remaining := 0, |ext|;
    if remaining <= 2 {
      return IllegalParameter;
    }
    var len := ext[p] as int * 256;
    p := p + 1;
    len := len + ext[p];
    p := p + 1;
    if len + 2 != remaining {
      return IllegalParameter;
    }
    remaining := len;
    var nameType := ext[p];
    p := p + 1;
    if remaining == 0 || nameType != HOST_NAME {
      return InternalError;
    }
    remaining := remaining - 1;
    if remaining <= 2 {
      return InternalError;
    }
    len := ext[p] as int * 256;
    p := p + 1;
    len := len + ext[p];
    p := p + 1;
    if len + 2 > remaining {
      return InternalError;
    }
    remaining := len;
    NamedByFields(ext, len);
    return Host(ext[p..p + len]);
  }

  /** The conditions under which the parser gives up all exclude a name. */
  lemma NotNamed(ext: seq<byte>)
    ensures |ext| <= 5 || Word(ext[0], ext[1]) + 2 != |ext| || ext[2] != HOST_NAME
            || 5 + Word(ext[3], ext[4]) > |ext|
            ==> !exists name, rest :: Names(ext, name, rest)
  {
    forall name, rest | Names(ext, name, rest)
      ensures |ext| > 5 && Word(ext[0], ext[1]) + 2 == |ext| && ext[2] == HOST_NAME
      ensures 5 + Word(ext[3], ext[4]) <= |ext|
    {
      NamesFields(ext, name, rest);
    }
  }

  /** What the parser has checked by the time it succeeds. */
  lemma NamedByFields(ext: seq<byte>, n: nat)
    requires |ext| > 5 && Word(ext[0], ext[1]) + 2 == |ext| && ext[2] == HOST_NAME
    requires n == Word(ext[3], ext[4]) && 5 + n <= |ext|
    ensures Names(ext, ext[5..5 + n], ext[5 + n..])
  {
    assert U16(|ext| - 2) == ext[..2] && U16(n) == ext[3..5];
    assert ext == ext[..2] + [ext[2]] + ext[3..5] + ext[5..5 + n] + ext[5 + n..];
  }

  lemma NamesFields(ext: seq<byte>, name: seq<byte>, rest: seq<byte>)
    requires Names(ext, name, rest)
    ensures |ext| == 5 + |name| + |rest| && |ext| > 5
    ensures Word(ext[0], ext[1]) == 3 + |name| + |rest| && ext[2] == HOST_NAME
    ensures Word(ext[3], ext[4]) == |name|
    ensures ext[5..5 + |name|] == name && ext[5 + |name|..] == rest
  {
    var total, n := U16(3 + |name| + |rest|), U16(|name|);
    assert ext == total + ([HOST_NAME] + (n + (name + rest)));
    assert ext[0] == total[0] && ext[1] == total[1];
    assert ext[3] == n[0] && ext[4] == n[1];
    assert ext[5..] == name + rest;
    assert ext[5..5 + |name|] == ext[5..][..|name|];
  }

  /** At most one name can be read from an extension, so the parser's answer is determined. */
  lemma NamesAreUnique(ext: seq<byte>, n1: seq<byte>, r1: seq<byte>, n2: seq<byte>, r2: seq<byte>)
    requires Names(ext, n1, r1) && Names(ext, n2, r2)
    ensures n1 == n2 && r1 == r2
  {
    NamesFields(ext, n1, r1);
    NamesFields(ext, n2, r2);
  }

  /** The parser inverts the standard's serializer: from a list whose first entry is a host name it
      takes exactly that name, whatever entries follow. */
  lemma FirstNameIsFound(es: seq<ServerName>)
    requires Serializable(es) && es != [] && es[0].nameType == 0
    ensures Names(SerializeList(es), es[0].name, SerializeEntries(es[1..]))
    ensures forall name, rest :: Names(SerializeList(es), name, rest) ==> name == es[0].name
  {
    var name, rest := es[0].name, SerializeEntries(es[1..]);
    assert |SerializeEntries(es)| == 3 + |name| + |rest|;
    assert SerializeList(es) == U16(3 + |name| + |rest|) + [HOST_NAME] + U16(|name|) + name + rest;
    forall n, r | Names(SerializeList(es), n, r) ensures n == name {
      NamesAreUnique(SerializeList(es), n, r, name, rest);
    }
  }

  /** A list that starts with another type of name is refused. */
  lemma OtherTypesAreRefused(es: seq<ServerName>, name: seq<byte>, rest: seq<byte>)
    requires Serializable(es) && es != [] && es[0].nameType != 0
    ensures !Names(SerializeList(es), name, rest)
  {
    assert SerializeList(es)[2] == SerializeEntries(es)[0] == es[0].nameType;
    if Names(SerializeList(es), name, rest) {
      NamesFields(SerializeList(es), name, rest);
    }
  }

  // ----- application layer protocol negotiation, section 3.1 of RFC 7301

  predicate Short(names: seq<seq<byte>>) {
    forall i | 0 <= i < |names| :: |names[i]| <= 255
  }

  function Encode(names: seq<seq<byte>>): seq<byte>
    requires Short(names)
  {
    if names == [] then [] else [|names[0]|] + names[0] + Encode(names[1..])
  }

  /** Reads 8-bit length-prefixed strings to the end of the input. */
  function Decode(s: seq<byte>): Option<seq<seq<byte>>> {
    if s == [] then Some([])
    else if 1 + s[0] > |s| then None
    else
      match Decode(s[1 + s[0]..])
      case None => None
      case Some(names) => Some([s[1..1 + s[0]]] + names)
  }

  /** The standard's ProtocolNameList: no empty name, and 2 to 65535 bytes in all. */
  function DecodeStrictly(s: seq<byte>): Option<seq<seq<byte>>> {
    match Decode(s)
    case None => None
    case Some(names) =>
      if 2 <= |s| < 0x1_0000 && forall i | 0 <= i < |names| :: names[i] != [] then Some(names) else None
  }

  lemma {:induction false} DecodeEncode(names: seq<seq<byte>>)
    requires Short(names)
    ensures Decode(Encode(names)) == Some(names)
  {
    if names == [] {
    } else {
      var s := Encode(names);
      DecodeEncode(names[1..]);
      assert s[1 + |names[0]|..] == Encode(names[1..]);
      assert s[1..1 + |names[0]|] == names[0];
      assert [names[0]] + names[1..] == names;
    }
  }

  /** Different lists have different encodings. */
  lemma EncodeIsInjective(a: seq<seq<byte>>, b: seq<seq<byte>>)
    requires Short(a) && Short(b) && Encode(a) == Encode(b)
    ensures a == b
  {
    DecodeEncode(a);
    DecodeEncode(b);
  }

  /** A decoder of the standard returns the list exactly when the list itself conforms: the encoder
      checks only that no name is longer than 255 bytes. */
  lemma StrictDecodeEncode(names: seq<seq<byte>>)
    requires Short(names)
    ensures DecodeStrictly(Encode(names)) == Some(names)
      <==> names != [] && |Encode(names)| < 0x1_0000 && forall i | 0 <= i < |names| :: names[i] != []
    ensures DecodeStrictly(Encode(names)) in {Some(names), None}
  {
    DecodeEncode(names);
    if names != [] && names[0] != [] {
      assert |Encode(names)| >= 2;
    }
  }

  /** Every name is preceded by its length in one byte; nothing else is written. */
  lemma {:induction false} EncodeIs(before: seq<seq<byte>>, name: seq<byte>, after: seq<seq<byte>>)
    requires Short(before) && |name| <= 255 && Short(after)
    ensures Short(before + [name] + after)
    ensures Encode(before + [name] + after) == Encode(before) + [|name|] + name + Encode(after)
    ensures Encode([]) == []
    decreases |before|
  {
    var names := before + [name] + after;
    if before == [] {
      assert names[0] == name && names[1..] == after;
    } else {
      EncodeIs(before[1..], name, after);
      assert names[0] == before[0] && names[1..] == before[1..] + [name] + after;
      var first := [|before[0]|] + before[0];
      assert Encode(names) == first + Encode(names[1..]) && Encode(before) == first + Encode(before[1..]);
    }
  }

  lemma {:induction false} EncodeAppend(names: seq<seq<byte>>, name: seq<byte>)
    requires Short(names) && |name| <= 255
    ensures Encode(names + [name]) == Encode(names) + ([|name|] + name)
  {
    if names == [] {
      assert ([] + [name])[1..] == [];
    } else {
      EncodeAppend(names[1..], name);
      assert (names + [name])[1..] == names[1..] + [name];
    }
  }

  lemma EncodePrefix(names: seq<seq<byte>>, i: nat)
    requires Short(names) && i < |names|
    ensures Encode(names[..i + 1]) == Encode(names[..i]) + ([|names[i]|] + names[i])
  {
    assert names[..i + 1] == names[..i] + [names[i]];
    EncodeAppend(names[..i], names[i]);
  }

  lemma {:induction false} PrefixIsShorter(names: seq<seq<byte>>, i: nat)
    requires Short(names) && i <= |names|
    ensures |Encode(names[..i])| <= |Encode(names)|
    decreases |names| - i
  {
    if i == |names| {
      assert names[..i] == names;
    } else {
      EncodePrefix(names, i);
      PrefixIsShorter(names, i + 1);
    }
  }

  /** The two loops of ImportObjCmd for -alpn: the list to store in the State, or None for a Tcl
      error. `setFails` is the result of SSL_set_alpn_protos. The second loop writes every byte of
      the buffer sized by the first, and nothing outside it. */
  method BuildProtocolList(names: seq<seq<byte>>, setFails: bool) returns (stored: Option<seq<byte>>)
    ensures stored.Some? <==> Short(names) && !setFails
    ensures stored.Some? ==> stored.value == Encode(names) && Decode(stored.value) == Some(names)
  {
    var protosLen := 0;
    for i := 0 to |names|
      invariant Short(names[..i]) && protosLen == |Encode(names[..i])|
    {
      var len := |names[i]|;
      if len > 255 {
        return None;
      }
      assert names[..i + 1] == names[..i] + [names[i]];
      EncodeAppend(names[..i], names[i]);
      protosLen := protosLen + 1 + len;
    }
    assert names[..|names|] == names;

    var protos, p := new byte[protosLen], 0;
    for i := 0 to |names|
      invariant p == |Encode(names[..i])| <= protosLen == protos.Length
      invariant protos[..p] == Encode(names[..i])
    {
      var str, len := names[i], |names[i]|;
      EncodePrefix(names, i);
      PrefixIsShorter(names, i + 1);
      protos[p] := len % 256;
      p := p + 1;
      forall k | 0 <= k < len {
        protos[p + k] := str[k];
      }
      assert protos[..p + len] == Encode(names[..i]) + ([len] + str);
      p := p + len;
    }
    DecodeEncode(names);
    if setFails {
      return None;
    }
    return Some(protos[..]);
  }
}
