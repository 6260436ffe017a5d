/** Addresses (CIP-19): header, payload, pointer and text forms of `wallet/address*.go`. What the CBOR, CRC32 and base58
    libraries answer for Byron addresses is arbitrary. */
module Address {
  import opened Wrappers
  import V = Varint
  import B = Bech32

  const KEY_HASH_SIZE: nat := 28

  type KeyHash = h: seq<bv8> | |h| == 28 witness seq(28, i => 0)

  datatype Kind = Unsupported | Byron | Base | Pointer | Enterprise | Reward

  datatype Payload = Payload(payload: KeyHash, isScript: bool)

  datatype StakePointer = StakePointer(slot: V.Word, txIndex: V.Word, certIndex: V.Word)

  datatype Info = Info(kind: Kind, network: bv8, payment: Option<Payload>, stake: Option<Payload>,
                       pointer: Option<StakePointer>, extra: seq<bv8>)

  datatype Error = InvalidData | BadBech32(e: B.Error)

  /** What library code says of Byron addresses: whether tag and checksum are in order, the network (test or not) and
      the hash if the inner part decodes, and the base58 form. */
  datatype Library = Library(byronValid: seq<bv8> -> bool, byronInner: seq<bv8> -> Option<(bool, KeyHash)>,
                             base58Decode: B.Text -> seq<bv8>, base58Encode: seq<bv8> -> B.Text)

  /** `GetAddressTypeFromHeader`. */
  function KindOf(header: bv8): Kind
  {
    var t := (header & 0xF0) >> 4;
    if t == 8 then Byron
    else if t == 0 || t == 1 || t == 2 || t == 3 then Base
    else if t == 4 || t == 5 then Pointer
    else if t == 6 || t == 7 then Enterprise
    else if t == 14 || t == 15 then Reward
    else Unsupported
  }

  predicate Shelley(kind: Kind) { kind.Base? || kind.Pointer? || kind.Enterprise? || kind.Reward? }

  function NetworkOf(header: bv8): bv8 { header & 0x0F }

  /** Bit 0 of the type nibble: the payment part, or the stake part of a reward address, is a script. */
  predicate Script1(header: bv8) { ((header & 0xF0) >> 4) & 1 > 0 }

  /** Bit 1 of the type nibble: the stake part of a base address is a script. */
  predicate Script2(header: bv8) { ((header & 0xF0) >> 4) & 2 > 0 }

  function ToByte(b: bool): bv8 { if b then 1 else 0 }

  function Header(kind: Kind, script1: bool, script2: bool, network: bv8): bv8
  {
    match kind
    case Base => (ToByte(script1) << 4) | (ToByte(script2) << 5) | (network & 0xF)
    case Pointer => 0x40 | (ToByte(script1) << 4) | (network & 0xF)
    case Enterprise => 0x60 | (ToByte(script1) << 4) | (network & 0xF)
    case Reward => 0xE0 | (ToByte(script1) << 4) | (network & 0xF)
    case _ => 0
  }

  lemma HeaderFields(kind: Kind, s1: bool, s2: bool, network: bv8)
    requires Shelley(kind) && network < 16 && (s2 ==> kind.Base?)
    ensures var h := Header(kind, s1, s2, network);
            KindOf(h) == kind && NetworkOf(h) == network && Script1(h) == s1 && (kind.Base? ==> Script2(h) == s2)
    // the type numbers of CIP-19
    ensures var h := Header(kind, s1, s2, network); var script: bv8 := if s1 then 1 else 0;
            && h & 15 == network
            && h >> 4 == match kind
                         case Base => script + if s2 then 2 else 0
                         case Pointer => 4 + script
                         case Enterprise => 6 + script
                         case _ => 14 + script
  {}

  /** Type 8 is Byron's, and 9 to 13 are nobody's. */
  lemma OtherHeaders(h: bv8)
    ensures KindOf(h).Byron? <==> 0x80 <= h <= 0x8F
    ensures KindOf(h).Unsupported? <==> 0x90 <= h <= 0xDF
  {}

  lemma ShelleyHeaders(h: bv8)
    ensures KindOf(h).Base? <==> h < 0x40
    ensures KindOf(h).Pointer? <==> 0x40 <= h < 0x60
    ensures KindOf(h).Enterprise? <==> 0x60 <= h < 0x80
    ensures KindOf(h).Reward? <==> h >= 0xE0
    ensures NetworkOf(h) == h & 15 && (Script1(h) <==> h & 16 == 16) && (Script2(h) <==> h & 32 == 32)
  {}

  lemma HeaderRebuilt(h: bv8)
    requires Shelley(KindOf(h))
    ensures Header(KindOf(h), Script1(h), KindOf(h).Base? && Script2(h), NetworkOf(h)) == h
    ensures NetworkOf(h) < 16
  {}

  // ---------- pointers ----------

  /** `getStakePointer`: three integers that use up all bytes. */
  function ReadPointer(raw: seq<bv8>): Option<StakePointer>
  {
    match V.Read(raw, 0)
    case None => None
    case Some((slot, n1)) =>
      ReadBound(raw);
      match V.Read(raw[n1..], 0)
      case None => None
      case Some((txIndex, n2)) =>
        ReadBound(raw[n1..]);
        match V.Read(raw[n1 + n2..], 0)
        case None => None
        case Some((certIndex, n3)) =>
          if n1 + n2 + n3 != |raw| then None else Some(StakePointer(slot, txIndex, certIndex))
  }

  lemma ReadBound(raw: seq<bv8>)
    requires V.Read(raw, 0).Some?
    ensures 1 <= V.Read(raw, 0).value.1 <= |raw|
  {
    V.EncodeOfRead(raw);
  }

  function WritePointer(p: StakePointer): seq<bv8>
  {
    V.Encode(p.slot) + V.Encode(p.txIndex) + V.Encode(p.certIndex)
  }

  /** Every triple comes back, with all its bits. */
  lemma ReadOfWritten(p: StakePointer)
    ensures ReadPointer(WritePointer(p)) == Some(p)
  {
    hide V.Read, V.Encode;
    var e1, e2, e3 := V.Encode(p.slot), V.Encode(p.txIndex), V.Encode(p.certIndex);
    var raw := WritePointer(p);
    V.ReadOfEncoded(p.slot, e2 + e3);
    V.ReadOfEncoded(p.txIndex, e3);
    V.ReadOfEncoded(p.certIndex, []);
    assert raw == e1 + (e2 + e3) && raw[|e1|..] == e2 + e3 && raw[|e1| + |e2|..] == e3 == e3 + [];
  }

  /** The three integers are minimally encoded. */
  predicate MinimalPointer(raw: seq<bv8>)
    requires ReadPointer(raw).Some?
  {
    var n1 := V.Read(raw, 0).value.1;
    ReadBound(raw);
    var n2 := V.Read(raw[n1..], 0).value.1;
    ReadBound(raw[n1..]);
    V.Minimal(raw[..n1]) && V.Minimal(raw[n1..n1 + n2]) && V.Minimal(raw[n1 + n2..])
  }

  lemma PartsAgree(e1: seq<bv8>, e2: seq<bv8>, e3: seq<bv8>, raw: seq<bv8>, n1: nat, n2: nat)
    requires n1 + n2 <= |raw| && |e1| == n1 && |e2| == n2
    ensures e1 + e2 + e3 == raw <==> e1 == raw[..n1] && e2 == raw[n1..n1 + n2] && e3 == raw[n1 + n2..]
  {
    assert raw == raw[..n1] + raw[n1..n1 + n2] + raw[n1 + n2..];
    var all := e1 + e2 + e3;
    assert all[..n1] == e1 && all[n1..n1 + n2] == e2 && all[n1 + n2..] == e3;
  }

  /** A pointer is three integers that follow one another. */
  lemma PointerParts(raw: seq<bv8>) returns (n1: nat, n2: nat)
    requires ReadPointer(raw).Some?
    ensures n1 + n2 <= |raw| && raw[n1..][n2..] == raw[n1 + n2..]
    ensures var p := ReadPointer(raw).value;
            && V.Read(raw, 0) == Some((p.slot, n1)) && V.Read(raw[n1..], 0) == Some((p.txIndex, n2))
            && V.Read(raw[n1 + n2..], 0) == Some((p.certIndex, |raw| - n1 - n2))
    ensures MinimalPointer(raw) <==>
            V.Minimal(raw[..n1]) && V.Minimal(raw[n1..n1 + n2]) && V.Minimal(raw[n1 + n2..])
  {
    hide V.Read, V.Minimal;
    ReadBound(raw);
    n1 := V.Read(raw, 0).value.1;
    ReadBound(raw[n1..]);
    n2 := V.Read(raw[n1..], 0).value.1;
  }

  /** Each integer is minimal exactly when it is written back as it stood. */
  lemma MinimalSegments(raw: seq<bv8>)
    requires ReadPointer(raw).Some?
    ensures V.Read(raw, 0).Some? &&
            var p := ReadPointer(raw).value; var n1 := V.Read(raw, 0).value.1;
            n1 <= |raw| && V.Read(raw[n1..], 0).Some? &&
            var n2 := V.Read(raw[n1..], 0).value.1;
            n1 + n2 <= |raw| &&
            (MinimalPointer(raw) <==>
              V.Encode(p.slot) == raw[..n1] && V.Encode(p.txIndex) == raw[n1..n1 + n2]
                && V.Encode(p.certIndex) == raw[n1 + n2..])
  {
    hide V.Read, V.Encode, V.Minimal, ReadPointer, MinimalPointer;
    var n1, n2 := PointerParts(raw);
    V.EncodeOfRead(raw);
    V.EncodeOfRead(raw[n1..]);
    V.EncodeOfRead(raw[n1 + n2..]);
    assert raw[n1..][..n2] == raw[n1..n1 + n2];
    assert raw[n1 + n2..][..|raw| - n1 - n2] == raw[n1 + n2..];
  }

  /** What was read is written back exactly when all three integers are minimal. */
  lemma WrittenOfRead(raw: seq<bv8>)
    requires ReadPointer(raw).Some?
    ensures WritePointer(ReadPointer(raw).value) == raw <==> MinimalPointer(raw)
  {
    hide V.Read, V.Encode, ReadPointer, MinimalPointer;
    MinimalSegments(raw);
    var p := ReadPointer(raw).value;
    var e1, e2, e3 := V.Encode(p.slot), V.Encode(p.txIndex), V.Encode(p.certIndex);
    var n1 := V.Read(raw, 0).value.1;
    var n2 := V.Read(raw[n1..], 0).value.1;
    if e1 + e2 + e3 == raw {
      V.ReadOfEncoded(p.slot, e2 + e3);
      assert e1 + (e2 + e3) == raw && raw[|e1|..] == e2 + e3;
      V.ReadOfEncoded(p.txIndex, e3);
    }
    if |e1| == n1 && |e2| == n2 {
      PartsAgree(e1, e2, e3, raw, n1, n2);
    }
  }

  /** Three zeros, the first with a padding group in front. */
  const PADDED: seq<bv8> := [0x80, 0, 0, 0]

  lemma PaddedPointer()
    ensures ReadPointer(PADDED) == Some(StakePointer(0, 0, 0)) && WritePointer(StakePointer(0, 0, 0)) == [0, 0, 0]
    ensures !MinimalPointer(PADDED)
  {
    V.PaddedZero([0, 0]);
    V.PlainZero([0]);
    V.PlainZero([]);
    assert PADDED == [0x80, 0] + [0, 0] && PADDED[2..] == [0] + [0] && PADDED[3..] == [0] + [];
    assert V.Encode(0) == [0] by { V.PlainZero([]); }
    WrittenOfRead(PADDED);
  }

  // ---------- bytes and info ----------

  /** The `IsValid` of the parser for the address type. */
  predicate Valid(bytes: seq<bv8>)
  {
    bytes != [] &&
    match KindOf(bytes[0])
    case Base => |bytes| >= 1 + KEY_HASH_SIZE * 2
    case Pointer => |bytes| >= 1 + KEY_HASH_SIZE + 3 && ReadPointer(bytes[1 + KEY_HASH_SIZE..]).Some?
    case Enterprise => |bytes| == 1 + KEY_HASH_SIZE
    case Reward => |bytes| == 1 + KEY_HASH_SIZE
    case _ => false
  }

  /** `ToCardanoAddressInfo`. */
  function ToInfo(bytes: seq<bv8>): Info
    requires Valid(bytes)
  {
    var header, data := bytes[0], bytes[1..];
    var first := Payload(data[..KEY_HASH_SIZE], Script1(header));
    match KindOf(header)
    case Base =>
      Info(Base, NetworkOf(header), Some(first),
           Some(Payload(data[KEY_HASH_SIZE..KEY_HASH_SIZE * 2], Script2(header))), None, data[2 * KEY_HASH_SIZE..])
    case Pointer =>
      assert data[KEY_HASH_SIZE..] == bytes[1 + KEY_HASH_SIZE..];
      Info(Pointer, NetworkOf(header), Some(first), None, ReadPointer(data[KEY_HASH_SIZE..]), [])
    case Enterprise => Info(Enterprise, NetworkOf(header), Some(first), None, None, data[KEY_HASH_SIZE..])
    case Reward => Info(Reward, NetworkOf(header), None, Some(first), None, data[KEY_HASH_SIZE..])
    case _ => assert false; Info(Unsupported, 0, None, None, None, [])
  }

  /** The `IsValid` of every parser. */
  predicate Accepted(lib: Library, bytes: seq<bv8>)
  {
    Valid(bytes) || (bytes != [] && KindOf(bytes[0]).Byron? && lib.byronValid(bytes))
  }

  const NoInfo := Info(Unsupported, 0, None, None, None, [])

  /** The info of a Byron address keeps all its bytes, unless the inner part does not decode. */
  function ByronInfo(lib: Library, bytes: seq<bv8>): Info
  {
    match lib.byronInner(bytes)
    case None => NoInfo
    case Some((testnet, hash)) =>
      Info(Byron, if testnet then 0 else 1, Some(Payload(hash, false)), None, None, bytes)
  }

  function InfoOf(lib: Library, bytes: seq<bv8>): Info
    requires Accepted(lib, bytes)
  {
    if Valid(bytes) then ToInfo(bytes) else ByronInfo(lib, bytes)
  }

  /** Which bytes are accepted: the first byte tells the type, and the type how long an address is. */
  lemma AcceptedBytes(lib: Library, bytes: seq<bv8>)
    ensures bytes == [] ==> !Accepted(lib, bytes)
    ensures bytes != [] && bytes[0] < 0x40 ==> (Accepted(lib, bytes) <==> |bytes| >= 57)
    ensures bytes != [] && 0x40 <= bytes[0] < 0x60 ==>
              (Accepted(lib, bytes) <==> |bytes| >= 32 && ReadPointer(bytes[29..]).Some?)
    ensures bytes != [] && (0x60 <= bytes[0] < 0x80 || bytes[0] >= 0xE0) ==> (Accepted(lib, bytes) <==> |bytes| == 29)
    ensures bytes != [] && 0x80 <= bytes[0] < 0x90 ==> (Accepted(lib, bytes) <==> lib.byronValid(bytes))
    ensures bytes != [] && 0x90 <= bytes[0] < 0xE0 ==> !Accepted(lib, bytes)
  {
    if bytes != [] {
      ShelleyHeaders(bytes[0]);
      OtherHeaders(bytes[0]);
    }
    hide KindOf;
  }

  /** Where the parts of the info are in the bytes. */
  lemma InfoFields(bytes: seq<bv8>)
    requires Valid(bytes)
    ensures ToInfo(bytes).network == bytes[0] & 15
    ensures var info, script := ToInfo(bytes), bytes[0] & 16 == 16;
            if bytes[0] < 0x40 then
              && info.payment == Some(Payload(bytes[1..29], script))
              && info.stake == Some(Payload(bytes[29..57], bytes[0] & 32 == 32))
              && info.pointer.None? && info.extra == bytes[57..]
            else if bytes[0] < 0x60 then
              && info.payment == Some(Payload(bytes[1..29], script)) && info.stake.None?
              && info.pointer.Some? && info.pointer == ReadPointer(bytes[29..])
            else if bytes[0] < 0x80 then info.payment == Some(Payload(bytes[1..], script)) && info.stake.None?
            else info.payment.None? && info.stake == Some(Payload(bytes[1..], script))
  {
    ShelleyHeaders(bytes[0]);
    hide KindOf, ReadPointer, NetworkOf, Script1, Script2;
    var data := bytes[1..];
    assert data[..28] == bytes[1..29] && data[28..] == bytes[29..];
    if bytes[0] < 0x40 {
      assert data[28..56] == bytes[29..57] && data[56..] == bytes[57..];
    } else if bytes[0] >= 0x60 {
      assert data[..28] == data;
    }
  }

  /** The parts `FromCardanoAddressInfo` dereferences are there. */
  predicate Complete(info: Info)
  {
    match info.kind
    case Base => info.payment.Some? && info.stake.Some?
    case Pointer => info.payment.Some? && info.pointer.Some?
    case Enterprise => info.payment.Some?
    case Reward => info.stake.Some?
    case _ => false
  }

  /** `FromCardanoAddressInfo`. */
  function FromInfo(info: Info): seq<bv8>
    requires Complete(info)
  {
    match info.kind
    case Base =>
      [Header(Base, info.payment.value.isScript, info.stake.value.isScript, info.network)]
      + info.payment.value.payload + info.stake.value.payload + info.extra
    case Pointer =>
      [Header(Pointer, info.payment.value.isScript, false, info.network)]
      + info.payment.value.payload + WritePointer(info.pointer.value) + info.extra
    case Enterprise =>
      [Header(Enterprise, info.payment.value.isScript, false, info.network)] + info.payment.value.payload + info.extra
    case Reward =>
      [Header(Reward, info.stake.value.isScript, false, info.network)] + info.stake.value.payload + info.extra
    case _ => assert false; []
  }

  /** `FromCardanoAddressInfo` of every parser; Byron addresses are kept in the extra bytes. */
  function BytesOf(info: Info): seq<bv8>
    requires Shelley(info.kind) ==> Complete(info)
    requires !info.kind.Unsupported?
  {
    if info.kind.Byron? then info.extra else FromInfo(info)
  }

  /** An info with exactly the parts its type has. */
  predicate Proper(info: Info)
  {
    Complete(info) && info.network < 16 &&
    (info.payment.Some? <==> !info.kind.Reward?) &&
    (info.stake.Some? <==> info.kind.Base? || info.kind.Reward?) &&
    (info.pointer.Some? <==> info.kind.Pointer?) &&
    (!info.kind.Base? ==> info.extra == [])
  }

  lemma WrittenPointerLength(p: StakePointer)
    ensures |WritePointer(p)| >= 3
  {
    hide V.High, V.Low7, V.Down;
  }

  /** Info, bytes, info. */
  lemma InfoRoundTrip(info: Info)
    requires Proper(info)
    ensures Valid(FromInfo(info)) && ToInfo(FromInfo(info)) == info
  {
    hide KindOf, NetworkOf, Script1, Script2, Header, ReadPointer, WritePointer;
    var bytes := FromInfo(info);
    match info.kind {
      case Base =>
        HeaderFields(Base, info.payment.value.isScript, info.stake.value.isScript, info.network);
        assert bytes[1..][..28] == info.payment.value.payload;
        assert bytes[1..][28..56] == info.stake.value.payload && bytes[1..][56..] == info.extra;
      case Pointer =>
        HeaderFields(Pointer, info.payment.value.isScript, false, info.network);
        WrittenPointerLength(info.pointer.value);
        ReadOfWritten(info.pointer.value);
        assert bytes[1..][..28] == info.payment.value.payload;
        assert bytes[1..][28..] == bytes[29..] == WritePointer(info.pointer.value);
      case Enterprise =>
        HeaderFields(Enterprise, info.payment.value.isScript, false, info.network);
        assert bytes[1..][..28] == info.payment.value.payload && bytes[1..][28..] == [];
      case Reward =>
        HeaderFields(Reward, info.stake.value.isScript, false, info.network);
        assert bytes[1..][..28] == info.stake.value.payload && bytes[1..][28..] == [];
    }
  }

  lemma PointerBytes(bytes: seq<bv8>)
    requires Valid(bytes) && KindOf(bytes[0]).Pointer?
    ensures Proper(ToInfo(bytes))
    ensures FromInfo(ToInfo(bytes)) == bytes <==> MinimalPointer(bytes[1 + KEY_HASH_SIZE..])
  {
    hide KindOf, NetworkOf, Script1, Script2, Header, ReadPointer, WritePointer, MinimalPointer;
    HeaderRebuilt(bytes[0]);
    var data, raw := bytes[1..], bytes[29..];
    assert data == data[..28] + raw && data[28..] == raw && bytes == [bytes[0]] + data;
    WrittenOfRead(raw);
    var out := FromInfo(ToInfo(bytes));
    assert out == [bytes[0]] + data[..28] + WritePointer(ReadPointer(raw).value);
    assert out[29..] == WritePointer(ReadPointer(raw).value);
  }

  lemma BaseBytes(bytes: seq<bv8>)
    requires Valid(bytes) && KindOf(bytes[0]).Base?
    ensures Proper(ToInfo(bytes)) && FromInfo(ToInfo(bytes)) == bytes
  {
    hide KindOf, NetworkOf, Script1, Script2, Header;
    HeaderRebuilt(bytes[0]);
    var data := bytes[1..];
    assert bytes == [bytes[0]] + data[..28] + data[28..56] + data[56..];
  }

  lemma KeyBytes(bytes: seq<bv8>)
    requires Valid(bytes) && (KindOf(bytes[0]).Enterprise? || KindOf(bytes[0]).Reward?)
    ensures Proper(ToInfo(bytes)) && FromInfo(ToInfo(bytes)) == bytes
  {
    hide KindOf, NetworkOf, Script1, Script2, Header;
    HeaderRebuilt(bytes[0]);
    var data := bytes[1..];
    assert bytes == [bytes[0]] + data[..28] + data[28..];
  }

  /** Bytes, info, bytes: the identity, for pointer addresses exactly when the pointer is minimally encoded. */
  lemma BytesRoundTrip(bytes: seq<bv8>)
    requires Valid(bytes)
    ensures Proper(ToInfo(bytes))
    ensures FromInfo(ToInfo(bytes)) == bytes <==>
              (KindOf(bytes[0]).Pointer? ==> MinimalPointer(bytes[1 + KEY_HASH_SIZE..]))
  {
    hide ToInfo, FromInfo, MinimalPointer, KindOf, ReadPointer;
    match KindOf(bytes[0]) {
      case Base => BaseBytes(bytes);
      case Pointer => PointerBytes(bytes);
      case Enterprise => KeyBytes(bytes);
      case Reward => KeyBytes(bytes);
    }
  }

  /** A valid pointer address that is not written back as it stood. */
  lemma PaddedAddress() returns (bytes: seq<bv8>)
    ensures Valid(bytes) && KindOf(bytes[0]).Pointer? && FromInfo(ToInfo(bytes)) != bytes
  {
    hide ReadPointer, WritePointer, MinimalPointer;
    bytes := [0x40] + seq(28, i => 0) + PADDED;
    assert bytes[1 + KEY_HASH_SIZE..] == PADDED;
    PaddedPointer();
    BytesRoundTrip(bytes);
  }

  // ---------- text ----------

  /** "addr", "stake" and "_test" */
  const ADDR: B.Text := [97, 100, 100, 114]
  const STAKE: B.Text := [115, 116, 97, 107, 101]
  const TEST: B.Text := [95, 116, 101, 115, 116]

  /** `GetPrefix` and `GetStakePrefix`. */
  function PrefixOf(kind: Kind, network: bv8): B.Text
  {
    var name := if kind.Reward? then STAKE else ADDR;
    if network == 1 then name else if network == 0 then name + TEST else []
  }

  /** `IsAddressWithValidPrefix`. */
  predicate HasPrefix(s: B.Text) { ADDR <= s || STAKE <= s }

  /** `ToString` of every Shelley parser; the error of the encoder, which never comes, is dropped. */
  function ToText(bytes: seq<bv8>): B.Text
    requires Valid(bytes)
  {
    match B.EncodeFromBase256(PrefixOf(KindOf(bytes[0]), NetworkOf(bytes[0])), bytes)
    case Ok(text) => text
    case Err(_) => []
  }

  /** `ToString` of every parser. */
  function TextOf(lib: Library, bytes: seq<bv8>): B.Text
    requires Accepted(lib, bytes)
  {
    if Valid(bytes) then ToText(bytes) else lib.base58Encode(bytes)
  }

  /** The bytes behind an address string: Byron bytes in base58, or any bytes in bech32. */
  function FromText(lib: Library, s: B.Text): (r: Result<seq<bv8>, Error>)
    ensures r.Ok? ==> Accepted(lib, r.value)
  {
    if !HasPrefix(s) then
      var data := lib.base58Decode(s);
      if data == [] || !KindOf(data[0]).Byron? || !lib.byronValid(data) then Err(InvalidData) else Ok(data)
    else match B.DecodeToBase256(s)
         case Err(e) => Err(BadBech32(e))
         case Ok((_, data)) => if Accepted(lib, data) then Ok(data) else Err(InvalidData)
  }

  lemma PrefixShape(kind: Kind, network: bv8)
    requires network < 2
    ensures B.ValidHrp(PrefixOf(kind, network)) && HasPrefix(PrefixOf(kind, network))
    ensures B.ToLower(PrefixOf(kind, network)) == PrefixOf(kind, network)
  {
    var p := PrefixOf(kind, network);
    forall i | 0 <= i < |p| ensures B.Printable(p[i]) && B.LowerChar(p[i]) == p[i] {}
  }

  /** For the two known networks the text of an address leads back to its bytes exactly when it is short enough
      for the decoder. */
  lemma TextRoundTrip(lib: Library, bytes: seq<bv8>)
    requires Valid(bytes) && NetworkOf(bytes[0]) < 2
    ensures FromText(lib, ToText(bytes)) == Ok(bytes) <==> |ToText(bytes)| <= 256
  {
    assert bytes != [];
    hide Valid, KindOf, NetworkOf, B.EncodeFromBase256, B.DecodeToBase256, PrefixOf, B.ToLower, B.ValidHrp;
    var prefix := PrefixOf(KindOf(bytes[0]), NetworkOf(bytes[0]));
    PrefixShape(KindOf(bytes[0]), NetworkOf(bytes[0]));
    B.RoundTripBase256(prefix, bytes);
    TextStarts(prefix, bytes);
  }

  /** A Byron address comes back from its text when base58 does and the text does not start like a Shelley address. */
  lemma ByronRoundTrip(lib: Library, bytes: seq<bv8>)
    requires Accepted(lib, bytes) && KindOf(bytes[0]).Byron?
    ensures var text := TextOf(lib, bytes);
            lib.base58Decode(text) == bytes && !HasPrefix(text) ==> FromText(lib, text) == Ok(bytes)
    ensures var info := InfoOf(lib, bytes); !info.kind.Unsupported? ==> BytesOf(info) == bytes
    ensures lib.byronInner(bytes).None? <==> InfoOf(lib, bytes).kind.Unsupported?
    ensures lib.byronInner(bytes).Some? ==>
              var (testnet, hash) := lib.byronInner(bytes).value;
              InfoOf(lib, bytes).network == (if testnet then 0 else 1)
              && InfoOf(lib, bytes).payment == Some(Payload(hash, false))
  {
    hide HasPrefix, B.DecodeToBase256;
  }

  /** How the text of a Shelley address begins: "addr1" and "stake1" on network 1, the main network, and "addr_test1"
      and "stake_test1" on network 0. */
  lemma TextBegins(bytes: seq<bv8>)
    requires Valid(bytes) && bytes[0] & 15 < 2
    ensures var text := ToText(bytes);
            if bytes[0] >= 0xE0 then
              (if bytes[0] & 15 == 1 then [115, 116, 97, 107, 101, 49]
               else [115, 116, 97, 107, 101, 95, 116, 101, 115, 116, 49]) <= text
            else
              (if bytes[0] & 15 == 1 then [97, 100, 100, 114, 49]
               else [97, 100, 100, 114, 95, 116, 101, 115, 116, 49]) <= text
  {
    ShelleyHeaders(bytes[0]);
    hide Valid, KindOf, NetworkOf, B.EncodeFromBase256, B.ToLower, B.ValidHrp;
    var prefix := PrefixOf(KindOf(bytes[0]), NetworkOf(bytes[0]));
    PrefixShape(KindOf(bytes[0]), NetworkOf(bytes[0]));
    B.RoundTripBase256(prefix, bytes);
    SeparatorFollows(prefix, bytes);
    hide PrefixOf;
    PrefixLetters(KindOf(bytes[0]), NetworkOf(bytes[0]));
  }

  lemma PrefixLetters(kind: Kind, network: bv8)
    requires network < 2
    ensures PrefixOf(kind, network) ==
            if kind.Reward? then
              (if network == 1 then [115, 116, 97, 107, 101] else [115, 116, 97, 107, 101, 95, 116, 101, 115, 116])
            else
              (if network == 1 then [97, 100, 100, 114] else [97, 100, 100, 114, 95, 116, 101, 115, 116])
  {}

  lemma SeparatorFollows(hrp: B.Text, bytes: seq<bv8>)
    requires B.EncodeFromBase256(hrp, bytes).Ok?
    ensures B.ToLower(hrp) + [49] <= B.EncodeFromBase256(hrp, bytes).value
  {
    hide B.ToLower;
  }

  lemma TextStarts(hrp: B.Text, bytes: seq<bv8>)
    requires B.EncodeFromBase256(hrp, bytes).Ok?
    ensures B.ToLower(hrp) <= B.EncodeFromBase256(hrp, bytes).value
    ensures |B.EncodeFromBase256(hrp, bytes).value| == |hrp| + |B.EncodeFromBase256([], bytes).value|
  {
    hide B.ToLower;
  }

  /** The text form of the bytes read from a string is the lower case of that string exactly when the
      human-readable part is the one of the network in the header. */
  lemma TextIsCanonical(lib: Library, s: B.Text)
    ensures var r := FromText(lib, s);
            r.Ok? && Valid(r.value) && NetworkOf(r.value[0]) < 2 ==>
              var bytes := r.value; var hrp := B.DecodeToBase256(s).value.0;
              (ToText(bytes) == B.ToLower(s) <==> hrp == PrefixOf(KindOf(bytes[0]), NetworkOf(bytes[0])))
  {
    hide NetworkOf, B.DecodeToBase256, B.EncodeFromBase256, PrefixOf, B.ToLower, B.ValidHrp, HasPrefix;
    if FromText(lib, s).Ok? && Valid(FromText(lib, s).value) && NetworkOf(FromText(lib, s).value[0]) < 2 {
      var bytes := FromText(lib, s).value;
      assert HasPrefix(s);
      B.CanonicalBase256(s);
      var prefix := PrefixOf(KindOf(bytes[0]), NetworkOf(bytes[0]));
      PrefixShape(KindOf(bytes[0]), NetworkOf(bytes[0]));
      if ToText(bytes) == B.ToLower(s) {
        B.RoundTripBase256(prefix, bytes);
        SamePrefix(s, prefix, bytes);
      }
    }
  }

  lemma SameText(h1: B.Text, h2: B.Text, bytes: seq<bv8>)
    requires B.EncodeFromBase256(h1, bytes).Ok? && B.EncodeFromBase256(h1, bytes) == B.EncodeFromBase256(h2, bytes)
    ensures B.ToLower(h1) == B.ToLower(h2)
  {
    hide B.ToLower;
    var text := B.EncodeFromBase256(h1, bytes).value;
    TextStarts(h1, bytes);
    TextStarts(h2, bytes);
    assert |B.ToLower(h1)| == |h1| && |B.ToLower(h2)| == |h2|;
    assert |text| == |h1| + |B.EncodeFromBase256(h2, bytes).value| - |h2|;
    assert text[..|h1|] == B.ToLower(h1);
    assert text[..|h2|] == B.ToLower(h2);
  }

  lemma SamePrefix(s: B.Text, prefix: B.Text, bytes: seq<bv8>)
    requires B.DecodeToBase256(s).Ok? && B.DecodeToBase256(s).value.1 == bytes
    requires B.ValidHrp(prefix) && B.ToLower(prefix) == prefix && B.EncodeFromBase256(prefix, bytes) == Ok(B.ToLower(s))
    ensures B.DecodeToBase256(s).value.0 == prefix
  {
    var hrp := B.DecodeToBase256(s).value.0;
    hide B.ToLower, B.DecodeToBase256, B.EncodeFromBase256;
    B.CanonicalBase256(s);
    SameText(hrp, prefix, bytes);
  }

  // ---------- the address object ----------

  /** `CardanoAddress`: the raw bytes with two caches that are filled on first use. An unsupported info counts as
      none. */
  class CardanoAddress {
    const lib: Library
    const raw: seq<bv8>
    var cachedInfo: Info
    var cachedStr: B.Text

    /** The cached info is the parsed one; the cached text, if any, leads back to the bytes or is their text form. */
    ghost predicate Consistent()
      reads this
    {
      Accepted(lib, raw) &&
      (cachedInfo.kind.Unsupported? || cachedInfo == InfoOf(lib, raw)) &&
      (cachedStr != [] ==> cachedStr == TextOf(lib, raw) || FromText(lib, cachedStr) == Ok(raw))
    }

    constructor (lib: Library, bytes: seq<bv8>)
      requires Accepted(lib, bytes)
      ensures Consistent() && this.lib == lib && raw == bytes && cachedStr == []
    {
      this.lib, raw, cachedInfo, cachedStr := lib, bytes, NoInfo, [];
    }

    method GetInfo() returns (info: Info)
      requires Consistent()
      modifies this`cachedInfo
      ensures Consistent() && info == InfoOf(lib, raw)
    {
      if cachedInfo.kind.Unsupported? {
        cachedInfo := InfoOf(lib, raw);
      }
      info := cachedInfo;
    }

    /** The text given at construction is returned as it is; otherwise the text form is computed once. */
    method String() returns (s: B.Text)
      requires Consistent()
      modifies this`cachedStr
      ensures Consistent() && s == if old(cachedStr) == [] then TextOf(lib, raw) else old(cachedStr)
      ensures s == TextOf(lib, raw) || FromText(lib, s) == Ok(raw)
    {
      if cachedStr == [] {
        cachedStr := TextOf(lib, raw);
      }
      s := cachedStr;
    }
  }

  method NewCardanoAddress(lib: Library, bytes: seq<bv8>) returns (r: Result<CardanoAddress, Error>)
    ensures r.Ok? <==> Accepted(lib, bytes)
    ensures r.Err? ==> r.error == InvalidData
    ensures r.Ok? ==> fresh(r.value) && r.value.Consistent() && r.value.lib == lib && r.value.raw == bytes
                      && r.value.cachedStr == []
  {
    if !Accepted(lib, bytes) {
      return Err(InvalidData);
    }
    var address := new CardanoAddress(lib, bytes);
    return Ok(address);
  }

  lemma NotShelley(bytes: seq<bv8>)
    requires bytes != [] && KindOf(bytes[0]).Byron?
    ensures !Valid(bytes)
  {
    hide KindOf;
  }

  method NewCardanoAddressFromString(lib: Library, s: B.Text) returns (r: Result<CardanoAddress, Error>)
    ensures r.Ok? <==> FromText(lib, s).Ok?
    ensures r.Err? ==> r.error == FromText(lib, s).error
    ensures r.Ok? ==> fresh(r.value) && r.value.Consistent() && r.value.lib == lib
                      && Ok(r.value.raw) == FromText(lib, s) && r.value.cachedStr == if HasPrefix(s) then s else []
    // "addr" or "stake" in front tells bech32 from base58
    ensures r.Ok? ==> if [97, 100, 100, 114] <= s || [115, 116, 97, 107, 101] <= s
                      then r.value.cachedStr == s && B.DecodeToBase256(s).Ok?
                           && B.DecodeToBase256(s).value.1 == r.value.raw
                      else r.value.cachedStr == [] && lib.base58Decode(s) == r.value.raw && lib.byronValid(r.value.raw)
                           && 0x80 <= r.value.raw[0] < 0x90
  {
    hide Valid, B.DecodeToBase256;
    if !HasPrefix(s) {
      var data := lib.base58Decode(s);
      if |data| == 0 || !KindOf(data[0]).Byron? {
        return Err(InvalidData);
      }
      OtherHeaders(data[0]);
      assert !Valid(data) by { NotShelley(data); }
      r := NewCardanoAddress(lib, data);
      return;
    }
    var decoded := B.DecodeToBase256(s);
    if decoded.Err? {
      return Err(BadBech32(decoded.error));
    }
    r := NewCardanoAddress(lib, decoded.value.1);
    if r.Ok? {
      r.value.cachedStr := s;
    }
  }

  /** Go dereferences the parts the type of the info needs. Only unsupported infos have no parser; the extra bytes of a
      Byron info may be any address. */
  method ToCardanoAddress(lib: Library, info: Info) returns (r: Result<CardanoAddress, Error>)
    requires Shelley(info.kind) ==> Complete(info)
    ensures r.Ok? <==> !info.kind.Unsupported? && Accepted(lib, BytesOf(info))
    ensures r.Ok? ==> r.value.Consistent() && r.value.lib == lib && r.value.raw == BytesOf(info)
    ensures Proper(info) ==> r.Ok? && InfoOf(lib, r.value.raw) == info
  {
    if info.kind.Unsupported? {
      return Err(InvalidData);
    }
    r := NewCardanoAddress(lib, BytesOf(info));
    if Proper(info) {
      InfoRoundTrip(info);
    }
  }
}
