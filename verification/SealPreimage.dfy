// The byte string whose hash an AuRa validator signs (src/aura/seal.rs): the RLP list of the header
// fields without the seal. Rlp is the encoding of Appendix B of the Ethereum Yellow Paper.
module Rlp {
  import opened Primitives
  import BE = BigEndian

  // Lengths of encodable strings: what a Rust byte vector can hold.
  const MAX_LENGTH: nat := 0x8000_0000_0000_0000

  // Big-endian without leading zeros; empty for 0.
  function MinimalBytes(n: nat): seq<byte> {
    if n == 0 then [] else MinimalBytes(n / 256) + [n % 256]
  }

  lemma {:induction false} MinimalBytesLength(n: nat, k: nat)
    requires n < BE.Power256(k)
    ensures |MinimalBytes(n)| <= k
  {
    if n > 0 {
      MinimalBytesLength(n / 256, k - 1);
    }
  }

  lemma MinimalBytesNonempty(n: nat)
    ensures n > 0 ==> |MinimalBytes(n)| > 0
  {
  }

  lemma {:induction false} NoLeadingZero(n: nat)
    ensures n > 0 ==> MinimalBytes(n) != [] && MinimalBytes(n)[0] != 0
    ensures n == 0 ==> MinimalBytes(n) == []
  {
    if n >= 256 {
      NoLeadingZero(n / 256);
    }
  }

  lemma {:induction false} ValueOfMinimalBytes(n: nat)
    ensures BE.Value(MinimalBytes(n)) == n
  {
    if n > 0 {
      ValueOfMinimalBytes(n / 256);
      assert MinimalBytes(n)[..|MinimalBytes(n)| - 1] == MinimalBytes(n / 256);
    }
  }

  lemma LengthBytesFit(n: nat)
    requires n < U64_BOUND
    ensures |MinimalBytes(n)| <= 8
  {
    BE.Power256Values();
    MinimalBytesLength(n, 8);
  }

  // The prefix of a string (offset 0x80) or list (offset 0xc0) of `n` payload bytes.
  function LengthPrefix(offset: nat, n: nat): seq<byte>
    requires offset <= 0xc0 && n < U64_BOUND
  {
    if n < 56 then [offset + n]
    else
      LengthBytesFit(n);
      [offset + 55 + |MinimalBytes(n)|] + MinimalBytes(n)
  }

  predicate IsSingle(b: seq<byte>) {
    |b| == 1 && b[0] < 0x80
  }

  function EncodeString(b: seq<byte>): (s: seq<byte>)
    requires |b| < MAX_LENGTH
    ensures |s| > 0
  {
    if IsSingle(b) then b else LengthPrefix(0x80, |b|) + b
  }

  // The encoding in bytes: a small single byte stands for itself; a short string follows 0x80 plus its
  // length; a long one follows 0xb7 plus the number of length bytes, and its length without leading zeros.
  lemma EncodeStringExact(b: seq<byte>)
    requires |b| < MAX_LENGTH
    ensures |b| == 1 && b[0] < 0x80 ==> EncodeString(b) == b
    ensures (|b| < 56 && !(|b| == 1 && b[0] < 0x80)) ==> EncodeString(b) == [0x80 + |b|] + b
    ensures |b| >= 56 ==>
              var s := EncodeString(b);
              var k := |s| - 1 - |b|;
              && 1 <= k <= 8 && s[0] == 0xb7 + k && s[1 + k..] == b
              && BE.Value(s[1..1 + k]) == |b| && s[1] != 0
  {
    if |b| >= 56 {
      LongFrame(0x80, b);
    }
  }

  lemma LongFrame(offset: nat, b: seq<byte>)
    requires offset <= 0xc0 && 56 <= |b| < U64_BOUND
    ensures var s := LengthPrefix(offset, |b|) + b;
            var k := |s| - 1 - |b|;
            && 1 <= k <= 8 && s[0] == offset + 55 + k && s[1 + k..] == b
            && BE.Value(s[1..1 + k]) == |b| && s[1] != 0
  {
    var lb := MinimalBytes(|b|);
    LengthBytesFit(|b|);
    NoLeadingZero(|b|);
    ValueOfMinimalBytes(|b|);
    var s := LengthPrefix(offset, |b|) + b;
    assert s == [offset + 55 + |lb|] + lb + b;
    assert s[1..1 + |lb|] == lb && s[1 + |lb|..] == b;
  }

  // The separately computed lengths.
  function LengthOfLength(n: nat): nat {
    if n < 56 then 1 else 1 + |MinimalBytes(n)|
  }

  function StringLength(b: seq<byte>): nat {
    if IsSingle(b) then 1 else LengthOfLength(|b|) + |b|
  }

  function IntLength(n: nat): nat {
    if n < 0x80 then 1 else 1 + |MinimalBytes(n)|
  }

  lemma StringLengthExact(b: seq<byte>)
    requires |b| < MAX_LENGTH
    ensures StringLength(b) == |EncodeString(b)|
  {
  }

  lemma IntLengthExact(n: nat)
    requires |MinimalBytes(n)| < 56
    ensures IntLength(n) == |EncodeString(MinimalBytes(n))|
  {
  }

  /*** Decoding ***/

  // One string off the front, and what follows it; None for a list or a truncated input.
  function DecodeString(s: seq<byte>): Option<(seq<byte>, seq<byte>)> {
    if s == [] then None
    else if s[0] < 0x80 then Some((s[..1], s[1..]))
    else if s[0] < 0xb8 then SplitAt(s[1..], s[0] - 0x80)
    else if s[0] < 0xc0 then
      var k := s[0] - 0xb7;
      if k > |s| - 1 then None else SplitAt(s[1 + k..], BE.Value(s[1..1 + k]))
    else None
  }

  function SplitAt(s: seq<byte>, n: nat): Option<(seq<byte>, seq<byte>)> {
    if n > |s| then None else Some((s[..n], s[n..]))
  }

  lemma SplitOfConcat(b: seq<byte>, rest: seq<byte>)
    ensures SplitAt(b + rest, |b|) == Some((b, rest))
  {
  }

  // A long string: the `k` bytes after the first are its length.
  lemma DecodeLong(s: seq<byte>, k: nat, b: seq<byte>, rest: seq<byte>)
    requires 0 < k <= 8 && |s| >= 1 + k && s[0] == 0xb7 + k
    requires BE.Value(s[1..1 + k]) == |b|
    requires s[1 + k..] == b + rest
    ensures DecodeString(s) == Some((b, rest))
  {
    SplitOfConcat(b, rest);
  }

  lemma SlicesOfLong<T>(first: seq<T>, lb: seq<T>, b: seq<T>, rest: seq<T>)
    requires |first| == 1
    ensures var s := first + lb + b + rest;
            s[0] == first[0] && s[1..1 + |lb|] == lb && s[1 + |lb|..] == b + rest
  {
  }

  // Decoding an encoded string returns the string, whatever follows it.
  lemma DecodeEncodeString(b: seq<byte>, rest: seq<byte>)
    requires |b| < MAX_LENGTH
    ensures DecodeString(EncodeString(b) + rest) == Some((b, rest))
  {
    var s := EncodeString(b) + rest;
    if IsSingle(b) {
      assert s[..1] == b && s[1..] == rest;
    } else if |b| < 56 {
      SplitOfConcat(b, rest);
      assert s[1..] == b + rest;
    } else {
      LengthBytesFit(|b|);
      ValueOfMinimalBytes(|b|);
      MinimalBytesNonempty(|b|);
      var lb := MinimalBytes(|b|);
      SlicesOfLong([0xb7 + |lb|], lb, b, rest);
      DecodeLong(s, |lb|, b, rest);
    }
  }

  /*** Lists of strings ***/

  predicate Encodable(items: seq<seq<byte>>) {
    forall i :: 0 <= i < |items| ==> |items[i]| < MAX_LENGTH
  }

  function EncodeItems(items: seq<seq<byte>>): seq<byte>
    requires Encodable(items)
  {
    if items == [] then [] else EncodeString(items[0]) + EncodeItems(items[1..])
  }

  lemma EncodeOne(b: seq<byte>)
    requires |b| < MAX_LENGTH
    ensures EncodeItems([b]) == EncodeString(b)
  {
    assert EncodeItems([b]) == EncodeString(b) + EncodeItems([]);
  }

  lemma Associative<T>(a: seq<T>, b: seq<T>, c: seq<T>)
    ensures a + (b + c) == a + b + c
  {
  }

  lemma {:induction false} EncodeItemsSnoc(items: seq<seq<byte>>, b: seq<byte>)
    requires Encodable(items) && |b| < MAX_LENGTH
    ensures Encodable(items + [b])
    ensures EncodeItems(items + [b]) == EncodeItems(items) + EncodeString(b)
  {
    if items == [] {
      assert items + [b] == [b];
      EncodeOne(b);
    } else {
      var all, first, rest := items + [b], items[0], items[1..];
      EncodeItemsSnoc(rest, b);
      assert all[0] == first && all[1..] == rest + [b];
      Associative(EncodeString(first), EncodeItems(rest), EncodeString(b));
    }
  }

  // The items of a payload are determined by its bytes, their number included.
  lemma {:induction false} EncodeItemsInjective(a: seq<seq<byte>>, b: seq<seq<byte>>)
    requires Encodable(a) && Encodable(b)
    requires EncodeItems(a) == EncodeItems(b)
    ensures a == b
    decreases |a|
  {
    if a != [] && b != [] {
      DecodeEncodeString(a[0], EncodeItems(a[1..]));
      DecodeEncodeString(b[0], EncodeItems(b[1..]));
      EncodeItemsInjective(a[1..], b[1..]);
      assert a == [a[0]] + a[1..] && b == [b[0]] + b[1..];
    }
  }

  function EncodeList(items: seq<seq<byte>>): seq<byte>
    requires Encodable(items) && |EncodeItems(items)| < U64_BOUND
  {
    LengthPrefix(0xc0, |EncodeItems(items)|) + EncodeItems(items)
  }

  // The framing in bytes, as for strings with 0xc0 and 0xf7.
  lemma EncodeListExact(items: seq<seq<byte>>)
    requires Encodable(items) && |EncodeItems(items)| < U64_BOUND
    ensures var p, s := EncodeItems(items), EncodeList(items);
            if |p| < 56 then s == [0xc0 + |p|] + p
            else
              var k := |s| - 1 - |p|;
              && 1 <= k <= 8 && s[0] == 0xf7 + k && s[1 + k..] == p
              && BE.Value(s[1..1 + k]) == |p| && s[1] != 0
  {
    if |EncodeItems(items)| >= 56 {
      LongFrame(0xc0, EncodeItems(items));
    }
  }

  // All strings of a payload, decoded one after the other.
  function DecodeItems(s: seq<byte>): Option<seq<seq<byte>>> {
    if s == [] then Some([])
    else
      match DecodeString(s)
      case None => None
      case Some((b, rest)) =>
        match DecodeItems(rest)
        case None => None
        case Some(items) => Some([b] + items)
  }

  lemma DecodeItemsStep(s: seq<byte>, b: seq<byte>, rest: seq<byte>)
    requires s != [] && DecodeString(s) == Some((b, rest)) && DecodeItems(rest).Some?
    ensures DecodeItems(s) == Some([b] + DecodeItems(rest).value)
  {
  }

  // Decoding a payload returns its items, and leaves nothing over.
  lemma {:induction false} DecodeEncodeItems(items: seq<seq<byte>>)
    requires Encodable(items)
    ensures DecodeItems(EncodeItems(items)) == Some(items)
  {
    if items != [] {
      var first, rest := items[0], items[1..];
      DecodeEncodeItems(rest);
      DecodeEncodeString(first, EncodeItems(rest));
      DecodeItemsStep(EncodeString(first) + EncodeItems(rest), first, EncodeItems(rest));
      assert items == [first] + rest;
    }
  }

  // The payload of a list, from its framing.
  function ListPayload(s: seq<byte>): Option<seq<byte>> {
    if s == [] || s[0] < 0xc0 then None
    else if s[0] < 0xf8 then Some(s[1..])
    else if 1 + (s[0] - 0xf7) > |s| then None
    else Some(s[1 + (s[0] - 0xf7)..])
  }

  lemma PayloadOfList(items: seq<seq<byte>>)
    requires Encodable(items) && |EncodeItems(items)| < U64_BOUND
    ensures ListPayload(EncodeList(items)) == Some(EncodeItems(items))
  {
    var p := EncodeItems(items);
    if |p| < 56 {
      assert EncodeList(items)[1..] == p;
    } else {
      var lb := MinimalBytes(|p|);
      LengthBytesFit(|p|);
      MinimalBytesNonempty(|p|);
      assert EncodeList(items) == [0xf7 + |lb|] + lb + p;
      assert EncodeList(items)[1 + |lb|..] == p;
    }
  }

  lemma EncodeListInjective(a: seq<seq<byte>>, b: seq<seq<byte>>)
    requires Encodable(a) && |EncodeItems(a)| < U64_BOUND
    requires Encodable(b) && |EncodeItems(b)| < U64_BOUND
    ensures EncodeList(a) == EncodeList(b) <==> a == b
  {
    if EncodeList(a) == EncodeList(b) {
      PayloadOfList(a);
      PayloadOfList(b);
      EncodeItemsInjective(a, b);
    }
  }
}

module SealPreimage {
  import opened Primitives
  import opened Rlp
  import BE = BigEndian

  type Bytes32 = s: seq<byte> | |s| == 32 witness seq(32, _ => 0)
  type Bloom = s: seq<byte> | |s| == 256 witness seq(256, _ => 0)
  type Bytes = s: seq<byte> | |s| < MAX_LENGTH witness []
  type u256 = x: int | 0 <= x < 0x1_0000_0000_0000_0000_0000_0000_0000_0000_0000_0000_0000_0000_0000_0000_0000_0000

  // The header fields of a pre-merge block; the last two are the seal.
  datatype Header = Header(
    parentHash: Bytes32,
    ommersHash: Bytes32,
    beneficiary: Address,
    stateRoot: Bytes32,
    transactionsRoot: Bytes32,
    receiptsRoot: Bytes32,
    logsBloom: Bloom,
    difficulty: u256,
    number: u64,
    gasLimit: u64,
    gasUsed: u64,
    timestamp: u64,
    extraData: Bytes,
    baseFee: Option<u64>,
    auraStep: Option<u256>,
    auraSeal: Option<seq<byte>>)

  // The strings of the seal pre-image, in order.
  function FixedItems(h: Header): seq<seq<byte>> {
    [] + [h.parentHash] + [h.ommersHash] + [BE.Bytes(h.beneficiary, 20)] + [h.stateRoot] + [h.transactionsRoot]
    + [h.receiptsRoot] + [h.logsBloom] + [MinimalBytes(h.difficulty)] + [MinimalBytes(h.number)]
    + [MinimalBytes(h.gasLimit)] + [MinimalBytes(h.gasUsed)] + [MinimalBytes(h.timestamp)] + [h.extraData]
  }

  function Items(h: Header): seq<seq<byte>> {
    match h.baseFee
    case Some(fee) => FixedItems(h) + [MinimalBytes(fee)]
    case None => FixedItems(h)
  }

  lemma IntsFit(h: Header)
    ensures |MinimalBytes(h.difficulty)| <= 32
    ensures |MinimalBytes(h.number)| <= 8 && |MinimalBytes(h.gasLimit)| <= 8
    ensures |MinimalBytes(h.gasUsed)| <= 8 && |MinimalBytes(h.timestamp)| <= 8
    ensures h.baseFee.Some? ==> |MinimalBytes(h.baseFee.value)| <= 8
  {
    BE.Power256Values();
    MinimalBytesLength(h.difficulty, 32);
    LengthBytesFit(h.number);
    LengthBytesFit(h.gasLimit);
    LengthBytesFit(h.gasUsed);
    LengthBytesFit(h.timestamp);
    if h.baseFee.Some? {
      LengthBytesFit(h.baseFee.value);
    }
  }

  /*** The separately computed payload length ***/

  method AddString(length: nat, ghost items: seq<seq<byte>>, b: seq<byte>) returns (length': nat,
      ghost items': seq<seq<byte>>)
    requires Encodable(items) && |b| < MAX_LENGTH
    requires length == |EncodeItems(items)|
    ensures items' == items + [b] && Encodable(items')
    ensures length' == length + StringLength(b) == |EncodeItems(items')|
    ensures length' <= length + 9 + |b|
  {
    length', items' := length + StringLength(b), items + [b];
    EncodeItemsSnoc(items, b);
    StringLengthExact(b);
    LengthBytesFit(|b|);
  }

  method AddInt(length: nat, ghost items: seq<seq<byte>>, n: nat) returns (length': nat, ghost items': seq<seq<byte>>)
    requires Encodable(items) && |MinimalBytes(n)| <= 32
    requires length == |EncodeItems(items)|
    ensures items' == items + [MinimalBytes(n)] && Encodable(items')
    ensures length' == length + IntLength(n) == |EncodeItems(items')|
    ensures length' <= length + 33
  {
    length', items' := length + IntLength(n), items + [MinimalBytes(n)];
    EncodeItemsSnoc(items, MinimalBytes(n));
    IntLengthExact(n);
  }

  // The sum of the field lengths equals the number of bytes that will be appended.
  method SealHashPayloadLength(h: Header) returns (length: nat)
    ensures Encodable(Items(h))
    ensures length == |EncodeItems(Items(h))| < U64_BOUND
  {
    IntsFit(h);
    ghost var items := [];
    length := 0;
    length, items := AddString(length, items, h.parentHash);
    length, items := AddString(length, items, h.ommersHash);
    length, items := AddString(length, items, BE.Bytes(h.beneficiary, 20));
    length, items := AddString(length, items, h.stateRoot);
    length, items := AddString(length, items, h.transactionsRoot);
    length, items := AddString(length, items, h.receiptsRoot);
    length, items := AddString(length, items, h.logsBloom);
    length, items := AddInt(length, items, h.difficulty);
    length, items := AddInt(length, items, h.number);
    length, items := AddInt(length, items, h.gasLimit);
    length, items := AddInt(length, items, h.gasUsed);
    length, items := AddInt(length, items, h.timestamp);
    length, items := AddString(length, items, h.extraData);
    if h.baseFee.Some? {
      length, items := AddInt(length, items, h.baseFee.value);
    }
  }

  /*** The bytes that are hashed ***/

  method Append(buf: seq<byte>, ghost prefix: seq<byte>, ghost items: seq<seq<byte>>, b: seq<byte>)
    returns (buf': seq<byte>, ghost items': seq<seq<byte>>)
    requires Encodable(items) && |b| < MAX_LENGTH
    requires buf == prefix + EncodeItems(items)
    ensures items' == items + [b] && Encodable(items')
    ensures buf' == buf + EncodeString(b) == prefix + EncodeItems(items')
  {
    buf', items' := buf + EncodeString(b), items + [b];
    EncodeItemsSnoc(items, b);
  }

  // What compute_seal_hash appends to its buffer, field by field.
  method ComputeSealPreimage(h: Header) returns (buf: seq<byte>)
    ensures buf == Preimage(h)
  {
    var payloadLength := SealHashPayloadLength(h);
    IntsFit(h);
    buf := LengthPrefix(0xc0, payloadLength);
    ghost var prefix, items := buf, [];
    buf, items := Append(buf, prefix, items, h.parentHash);
    buf, items := Append(buf, prefix, items, h.ommersHash);
    buf, items := Append(buf, prefix, items, BE.Bytes(h.beneficiary, 20));
    buf, items := Append(buf, prefix, items, h.stateRoot);
    buf, items := Append(buf, prefix, items, h.transactionsRoot);
    buf, items := Append(buf, prefix, items, h.receiptsRoot);
    buf, items := Append(buf, prefix, items, h.logsBloom);
    buf, items := Append(buf, prefix, items, MinimalBytes(h.difficulty));
    buf, items := Append(buf, prefix, items, MinimalBytes(h.number));
    buf, items := Append(buf, prefix, items, MinimalBytes(h.gasLimit));
    buf, items := Append(buf, prefix, items, MinimalBytes(h.gasUsed));
    buf, items := Append(buf, prefix, items, MinimalBytes(h.timestamp));
    buf, items := Append(buf, prefix, items, h.extraData);
    if h.baseFee.Some? {
      buf, items := Append(buf, prefix, items, MinimalBytes(h.baseFee.value));
    }
  }

  /*** Injectivity ***/

  // The signed fields: everything but the seal.
  predicate SameSignedFields(a: Header, b: Header) {
    a.(auraStep := None, auraSeal := None) == b.(auraStep := None, auraSeal := None)
  }

  lemma SameInt(x: nat, y: nat)
    requires MinimalBytes(x) == MinimalBytes(y)
    ensures x == y
  {
    ValueOfMinimalBytes(x);
    ValueOfMinimalBytes(y);
  }

  lemma SameAddress(x: Address, y: Address)
    requires BE.Bytes(x, 20) == BE.Bytes(y, 20)
    ensures x == y
  {
    BE.Power256Values();
    BE.ValueOfBytes(x, 20);
    BE.ValueOfBytes(y, 20);
  }

  lemma FixedItemsAt(h: Header)
    ensures var s := FixedItems(h);
            && |s| == 13
            && s[0] == h.parentHash && s[1] == h.ommersHash && s[2] == BE.Bytes(h.beneficiary, 20)
            && s[3] == h.stateRoot && s[4] == h.transactionsRoot && s[5] == h.receiptsRoot
            && s[6] == h.logsBloom && s[7] == MinimalBytes(h.difficulty) && s[8] == MinimalBytes(h.number)
            && s[9] == MinimalBytes(h.gasLimit) && s[10] == MinimalBytes(h.gasUsed)
            && s[11] == MinimalBytes(h.timestamp) && s[12] == h.extraData
  {
  }

  lemma SameFixedItems(a: Header, b: Header)
    requires FixedItems(a) == FixedItems(b)
    ensures SameSignedFields(a.(baseFee := None), b.(baseFee := None))
  {
    FixedItemsAt(a);
    FixedItemsAt(b);
    SameAddress(a.beneficiary, b.beneficiary);
    SameInt(a.difficulty, b.difficulty);
    SameInt(a.number, b.number);
    SameInt(a.gasLimit, b.gasLimit);
    SameInt(a.gasUsed, b.gasUsed);
    SameInt(a.timestamp, b.timestamp);
  }

  lemma ItemsDetermineFields(a: Header, b: Header)
    requires Items(a) == Items(b)
    ensures SameSignedFields(a, b)
  {
    FixedItemsAt(a);
    FixedItemsAt(b);
    assert FixedItems(a) == Items(a)[..13] && FixedItems(b) == Items(b)[..13];
    SameFixedItems(a, b);
    if a.baseFee.Some? && b.baseFee.Some? {
      assert MinimalBytes(a.baseFee.value) == Items(a)[13] && MinimalBytes(b.baseFee.value) == Items(b)[13];
      SameInt(a.baseFee.value, b.baseFee.value);
    }
  }

  lemma {:induction false} SmallItemsLength(items: seq<seq<byte>>)
    requires forall i :: 0 <= i < |items| ==> |items[i]| <= 256
    ensures Encodable(items) && |EncodeItems(items)| <= 265 * |items|
  {
    if items != [] {
      SmallItemsLength(items[1..]);
      LengthBytesFit(|items[0]|);
    }
  }

  // The payload of every header can be framed.
  lemma PayloadFits(h: Header)
    ensures Encodable(Items(h)) && |EncodeItems(Items(h))| < U64_BOUND
  {
    IntsFit(h);
    FixedItemsAt(h);
    var small := FixedItems(h)[..12];
    SmallItemsLength(small);
    assert FixedItems(h) == small + [h.extraData];
    EncodeItemsSnoc(small, h.extraData);
    LengthBytesFit(|h.extraData|);
    if h.baseFee.Some? {
      EncodeItemsSnoc(FixedItems(h), MinimalBytes(h.baseFee.value));
    }
  }

  // The bytes whose hash is signed.
  function Preimage(h: Header): seq<byte> {
    PayloadFits(h);
    EncodeList(Items(h))
  }

  // String `s` is the integer `n`: big-endian, without leading zeros.
  predicate IsInt(s: seq<byte>, n: nat) {
    BE.Value(s) == n && (s != [] ==> s[0] != 0)
  }

  lemma MinimalIsInt(n: nat)
    ensures IsInt(MinimalBytes(n), n)
  {
    ValueOfMinimalBytes(n);
    NoLeadingZero(n);
  }

  lemma FixedLayout(h: Header)
    ensures var s := FixedItems(h);
            && |s| == 13
            && s[0] == h.parentHash && s[1] == h.ommersHash
            && |s[2]| == 20 && BE.Value(s[2]) == h.beneficiary
            && s[3] == h.stateRoot && s[4] == h.transactionsRoot && s[5] == h.receiptsRoot
            && s[6] == h.logsBloom && IsInt(s[7], h.difficulty) && IsInt(s[8], h.number)
            && IsInt(s[9], h.gasLimit) && IsInt(s[10], h.gasUsed) && IsInt(s[11], h.timestamp)
            && s[12] == h.extraData
  {
    FixedItemsAt(h);
    BE.Power256Values();
    BE.ValueOfBytes(h.beneficiary, 20);
    MinimalIsInt(h.difficulty);
    MinimalIsInt(h.number);
    MinimalIsInt(h.gasLimit);
    MinimalIsInt(h.gasUsed);
    MinimalIsInt(h.timestamp);
  }

  // Main result: the layout of the pre-image, read by the decoder. It is a list whose strings are the
  // 13 fixed fields in their order and then the base fee if there is one, and nothing else.
  lemma PreimageLayout(h: Header)
    ensures ListPayload(Preimage(h)).Some? && DecodeItems(ListPayload(Preimage(h)).value).Some?
    ensures var s := DecodeItems(ListPayload(Preimage(h)).value).value;
            && |s| == (if h.baseFee.Some? then 14 else 13)
            && s[0] == h.parentHash && s[1] == h.ommersHash
            && |s[2]| == 20 && BE.Value(s[2]) == h.beneficiary
            && s[3] == h.stateRoot && s[4] == h.transactionsRoot && s[5] == h.receiptsRoot
            && s[6] == h.logsBloom && IsInt(s[7], h.difficulty) && IsInt(s[8], h.number)
            && IsInt(s[9], h.gasLimit) && IsInt(s[10], h.gasUsed) && IsInt(s[11], h.timestamp)
            && s[12] == h.extraData
            && (h.baseFee.Some? ==> IsInt(s[13], h.baseFee.value))
  {
    PayloadFits(h);
    PayloadOfList(Items(h));
    DecodeEncodeItems(Items(h));
    FixedLayout(h);
    assert forall i :: 0 <= i < 13 ==> Items(h)[i] == FixedItems(h)[i];
    if h.baseFee.Some? {
      MinimalIsInt(h.baseFee.value);
    }
  }

  // Main result: two headers have the same pre-image iff they agree on all 13 fixed fields and on
  // the optional base fee; the step and the seal do not matter.
  lemma PreimageInjective(a: Header, b: Header)
    ensures Preimage(a) == Preimage(b) <==> SameSignedFields(a, b)
  {
    PayloadFits(a);
    PayloadFits(b);
    EncodeListInjective(Items(a), Items(b));
    if Items(a) == Items(b) {
      ItemsDetermineFields(a, b);
    }
  }
}
