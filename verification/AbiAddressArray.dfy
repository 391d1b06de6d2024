// Decoding the `address[]` that getValidators() returns (src/block.rs).
module BigEndian {
  import opened Primitives

  function Value(s: seq<byte>): nat {
    if s == [] then 0 else 256 * Value(s[..|s| - 1]) + s[|s| - 1]
  }

  // The `width` low-order bytes of `n`, most significant first.
  function Bytes(n: nat, width: nat): (s: seq<byte>)
    ensures |s| == width
  {
    if width == 0 then [] else Bytes(n / 256, width - 1) + [n % 256]
  }

  function Power256(k: nat): (p: nat)
    ensures p > 0
  {
    if k == 0 then 1 else 256 * Power256(k - 1)
  }

  lemma {:induction false} ValueBound(s: seq<byte>)
    ensures Value(s) < Power256(|s|)
  {
    if s != [] {
      ValueBound(s[..|s| - 1]);
    }
  }

  lemma {:induction false} ValueOfBytes(n: nat, width: nat)
    requires n < Power256(width)
    ensures Value(Bytes(n, width)) == n
  {
    if width > 0 {
      ValueOfBytes(n / 256, width - 1);
      assert Bytes(n, width)[..width - 1] == Bytes(n / 256, width - 1);
    }
  }

  // The first byte is the most significant one.
  lemma {:induction false} FirstByte(s: seq<byte>)
    requires s != []
    ensures Value(s) == s[0] * Power256(|s| - 1) + Value(s[1..])
  {
    if |s| > 1 {
      var init := s[..|s| - 1];
      FirstByte(init);
      assert s[1..][..|s[1..]| - 1] == init[1..];
      ShiftByte(s[0], Power256(|s| - 2), Value(init[1..]));
    }
  }

  lemma ShiftByte(b: nat, p: nat, v: nat)
    ensures 256 * (b * p + v) == b * (256 * p) + 256 * v
  {
  }

  lemma Power256Values()
    ensures Power256(0) == 1 && Power256(1) == 256
    ensures Power256(8) == 0x1_0000_0000_0000_0000
    ensures Power256(20) == 0x1_0000_0000_0000_0000_0000_0000_0000_0000_0000_0000
    ensures Power256(32) == 0x1_0000_0000_0000_0000_0000_0000_0000_0000_0000_0000_0000_0000_0000_0000_0000_0000
  {
    assert Power256(4) == 0x1_0000_0000;
    assert Power256(12) == 0x1_0000_0000_0000_0000_0000_0000;
    assert Power256(16) == 0x1_0000_0000_0000_0000_0000_0000_0000_0000;
    assert Power256(24) == 0x1_0000_0000_0000_0000_0000_0000_0000_0000_0000_0000_0000_0000;
    assert Power256(28) == 0x1_0000_0000_0000_0000_0000_0000_0000_0000_0000_0000_0000_0000_0000_0000;
  }
}

module AbiAddressArray {
  import opened Primitives
  import BE = BigEndian

  // The low 8 bytes of the word at `at`.
  function LowU64(data: seq<byte>, at: nat): nat
    requires at + 32 <= |data|
  {
    BE.Value(data[at + 24..at + 32])
  }

  // The low 20 bytes of the word at `at`.
  function LowAddress(data: seq<byte>, at: nat): Address
    requires at + 32 <= |data|
  {
    BE.ValueBound(data[at + 12..at + 32]);
    BE.Power256Values();
    BE.Value(data[at + 12..at + 32])
  }

  // What the decoder accepts: an offset word, a length word in bounds, and every element in bounds.
  predicate WellFormed(data: seq<byte>) {
    && |data| >= 64
    && var offset := LowU64(data, 0);
       && offset + 32 <= |data|
       && offset + 32 + 32 * LowU64(data, offset) <= |data|
  }

  function Elements(data: seq<byte>, base: nat, count: nat): (r: seq<Address>)
    requires base + 32 * count <= |data|
    ensures |r| == count
    ensures forall i :: 0 <= i < count ==> r[i] == LowAddress(data, base + 32 * i)
  {
    seq(count, i requires 0 <= i < count => LowAddress(data, base + 32 * i))
  }

  // What the decoder answers: None when the input is rejected.
  function Decoded(data: seq<byte>): Option<seq<Address>> {
    if WellFormed(data) then
      var offset := LowU64(data, 0);
      Some(Elements(data, offset + 32, LowU64(data, offset)))
    else None
  }

  method DecodeAddressArray(data: seq<byte>) returns (r: Result<seq<Address>, ()>)
    ensures r == match Decoded(data) case Some(addresses) => Ok(addresses) case None => Err(())
  {
    if |data| < 64 {
      return Err(());
    }
    var offset := LowU64(data, 0);
    if offset + 32 > |data| {
      return Err(());
    }
    var length := LowU64(data, offset);
    var addresses := [];
    for i := 0 to length
      invariant offset + 32 + 32 * i <= |data|
      invariant addresses == Elements(data, offset + 32, i)
    {
      var start := offset + 32 + i * 32;
      if start + 32 > |data| {
        return Err(());
      }
      addresses := addresses + [LowAddress(data, start)];
    }
    return Ok(addresses);
  }

  // In terms of the bytes: of the offset word, the length word and each element, only the low 8, 8 and
  // 20 bytes matter, and the input is accepted iff these words lie within it.
  lemma DecodedExact(data: seq<byte>)
    ensures |data| < 64 ==> Decoded(data).None?
    ensures |data| >= 64 ==>
              var offset := BE.Value(data[24..32]);
              if offset + 32 > |data| then Decoded(data).None?
              else
                var count := BE.Value(data[offset + 24..offset + 32]);
                && (Decoded(data).Some? <==> offset + 32 + 32 * count <= |data|)
                && (Decoded(data).Some? ==>
                      && |Decoded(data).value| == count
                      && forall i :: 0 <= i < count ==>
                           var at := offset + 32 + 32 * i;
                           Decoded(data).value[i] == BE.Value(data[at + 12..at + 32]))
  {
  }

  /*** The Solidity ABI encoding of an address list ***/

  function Encode(addresses: seq<Address>): seq<byte> {
    BE.Bytes(32, 32) + BE.Bytes(|addresses|, 32) + EncodeElements(addresses)
  }

  function EncodeElements(addresses: seq<Address>): (s: seq<byte>)
    ensures |s| == 32 * |addresses|
  {
    if addresses == [] then []
    else EncodeElements(addresses[..|addresses| - 1]) + BE.Bytes(addresses[|addresses| - 1], 32)
  }

  lemma {:induction false} SuffixOfBytes(n: nat, width: nat, low: nat)
    requires low <= width
    ensures BE.Bytes(n, width)[width - low..] == BE.Bytes(n, low)
  {
    if low > 0 {
      SuffixOfBytes(n / 256, width - 1, low - 1);
      assert BE.Bytes(n, width)[width - low..] == BE.Bytes(n / 256, width - 1)[width - low..] + [n % 256];
    } else {
      assert BE.Bytes(n, width)[width..] == [];
    }
  }

  lemma {:induction false} ElementWord(addresses: seq<Address>, i: nat)
    requires i < |addresses|
    ensures EncodeElements(addresses)[32 * i..32 * i + 32] == BE.Bytes(addresses[i], 32)
  {
    var init := addresses[..|addresses| - 1];
    if i < |init| {
      ElementWord(init, i);
      assert EncodeElements(addresses)[32 * i..32 * i + 32] == EncodeElements(init)[32 * i..32 * i + 32];
    }
  }

  lemma AddressOfWord(data: seq<byte>, at: nat, a: Address)
    requires at + 32 <= |data|
    requires data[at..at + 32] == BE.Bytes(a, 32)
    ensures LowAddress(data, at) == a
  {
    SuffixOfBytes(a, 32, 20);
    assert data[at + 12..at + 32] == data[at..at + 32][12..];
    BE.Power256Values();
    BE.ValueOfBytes(a, 20);
  }

  lemma U64OfWord(data: seq<byte>, at: nat, n: nat)
    requires at + 32 <= |data|
    requires data[at..at + 32] == BE.Bytes(n, 32)
    requires n < U64_BOUND
    ensures LowU64(data, at) == n
  {
    SuffixOfBytes(n, 32, 8);
    assert data[at + 24..at + 32] == data[at..at + 32][24..];
    BE.Power256Values();
    BE.ValueOfBytes(n, 8);
  }

  // The header words of anything that starts like an encoding.
  lemma HeaderWords(addresses: seq<Address>, data: seq<byte>)
    requires |addresses| < U64_BOUND
    requires |data| >= 64 && data[..64] == Encode(addresses)[..64]
    ensures LowU64(data, 0) == 32 && LowU64(data, 32) == |addresses|
  {
    var e := Encode(addresses);
    assert data[0..32] == data[..64][0..32] == e[0..32] == BE.Bytes(32, 32);
    assert data[32..64] == data[..64][32..64] == e[32..64] == BE.Bytes(|addresses|, 32);
    U64OfWord(data, 0, 32);
    U64OfWord(data, 32, |addresses|);
  }

  lemma SlicesOfPrefix(data: seq<byte>, e: seq<byte>, lo: nat, hi: nat)
    requires e <= data
    requires lo <= hi <= |e|
    ensures data[lo..hi] == e[lo..hi]
  {
  }

  lemma SliceBehindHeader(header: seq<byte>, words: seq<byte>, lo: nat, hi: nat)
    requires lo <= hi <= |words|
    ensures (header + words)[|header| + lo..|header| + hi] == words[lo..hi]
  {
  }

  lemma EncodedElement(addresses: seq<Address>, data: seq<byte>, i: nat)
    requires Encode(addresses) <= data
    requires i < |addresses|
    ensures LowAddress(data, 64 + 32 * i) == addresses[i]
  {
    var at, e := 64 + 32 * i, Encode(addresses);
    ElementWord(addresses, i);
    SlicesOfPrefix(data, e, at, at + 32);
    var header, words := BE.Bytes(32, 32) + BE.Bytes(|addresses|, 32), EncodeElements(addresses);
    SliceBehindHeader(header, words, 32 * i, 32 * i + 32);
    AddressOfWord(data, at, addresses[i]);
  }

  // Decoding an encoding, whatever follows it, returns the list.
  lemma RoundTrip(addresses: seq<Address>, data: seq<byte>)
    requires |addresses| < U64_BOUND
    requires Encode(addresses) <= data
    ensures Decoded(data) == Some(addresses)
  {
    SlicesOfPrefix(data, Encode(addresses), 0, 64);
    HeaderWords(addresses, data);
    forall i | 0 <= i < |addresses| ensures Elements(data, 64, |addresses|)[i] == addresses[i] {
      EncodedElement(addresses, data, i);
    }
    assert Elements(data, 64, |addresses|) == addresses;
  }

  // Every strict prefix of an encoding is rejected.
  lemma StrictPrefixRejected(addresses: seq<Address>, k: nat)
    requires |addresses| < U64_BOUND
    requires k < |Encode(addresses)|
    ensures Decoded(Encode(addresses)[..k]) == None
  {
    var data := Encode(addresses)[..k];
    if k >= 64 {
      assert data[..64] == Encode(addresses)[..64];
      HeaderWords(addresses, data);
    }
  }

  // No encoding is a prefix of another list's encoding.
  lemma EncodingsPrefixFree(a: seq<Address>, b: seq<Address>)
    requires |a| < U64_BOUND && |b| < U64_BOUND
    requires Encode(a) <= Encode(b)
    ensures a == b
  {
    RoundTrip(a, Encode(b));
    RoundTrip(b, Encode(b));
  }
}
