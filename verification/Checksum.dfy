/** `internetChecksum` of daemon/src/pinger.cpp (RFC 1071). */
module Checksum {

  type Byte = x: int | 0 <= x < 256

  /** How the host lays out a 16-bit word in memory. */
  datatype ByteOrder = Little | Big

  /** The word that `memcpy` reads from two bytes. */
  function Word(first: Byte, second: Byte, order: ByteOrder): (w: nat)
    ensures w < 65536
  {
    if order == Little then first + 256 * second else 256 * first + second
  }

  /** The sum of the words of a buffer; a last odd byte is read into a zeroed word. */
  function Sum(data: seq<Byte>, order: ByteOrder): nat {
    if |data| >= 2 then Word(data[0], data[1], order) + Sum(data[2..], order)
    else if |data| == 1 then Word(data[0], 0, order)
    else 0
  }

  /** Carries added back until 16 bits are left. */
  function Fold(sum: nat): nat {
    if sum < 65536 then sum else Fold(sum % 65536 + sum / 65536)
  }

  /** The checksum, over a sum kept in 32 bits. */
  function InternetChecksum(data: seq<Byte>, order: ByteOrder): nat {
    65535 - Sixteen(Sum(data, order) % 0x1_0000_0000)
  }

  function Sixteen(sum: nat): (r: nat)
    ensures r < 65536
  {
    FoldKeepsResidue(sum);
    Fold(sum)
  }

  /** Folding ends in 16 bits, keeps the residue modulo 65535, and gives zero only for zero. */
  lemma {:induction false} FoldKeepsResidue(sum: nat)
    ensures Fold(sum) < 65536
    ensures Fold(sum) % 65535 == sum % 65535
    ensures Fold(sum) == 0 <==> sum == 0
  {
    if sum >= 65536 {
      var low, high := sum % 65536, sum / 65536;
      FoldKeepsResidue(low + high);
      assert sum == low + high + 65535 * high;
      ResidueShift(low + high, high);
    }
  }

  lemma ResidueShift(n: nat, k: nat)
    ensures (n + 65535 * k) % 65535 == n % 65535
  {
  }

  lemma Wrap(sum: nat, word: nat, rest: nat)
    ensures ((sum + word) % 0x1_0000_0000 + rest) % 0x1_0000_0000 == (sum + (word + rest)) % 0x1_0000_0000
  {
  }

  /** The two loops of `internetChecksum`, with a 32-bit accumulator. */
  method ComputeChecksum(data: array<Byte>, order: ByteOrder) returns (r: nat)
    ensures r == InternetChecksum(data[..], order)
  {
    var sum: nat := 0;
    var bytes, length := 0, data.Length;
    while length > 1
      invariant 0 <= length && bytes + length == data.Length && sum < 0x1_0000_0000
      invariant (sum + Sum(data[bytes..], order)) % 0x1_0000_0000 == Sum(data[..], order) % 0x1_0000_0000
    {
      var word := Word(data[bytes], data[bytes + 1], order);
      assert data[bytes..][2..] == data[bytes + 2..];
      assert Sum(data[bytes..], order) == word + Sum(data[bytes + 2..], order);
      hide Sum;
      Wrap(sum, word, Sum(data[bytes + 2..], order));
      sum := (sum + word) % 0x1_0000_0000;
      bytes := bytes + 2;
      length := length - 2;
    }
    if length == 1 {
      var last := Word(data[bytes], 0, order);
      sum := (sum + last) % 0x1_0000_0000;
    }
    assert sum == Sum(data[..], order) % 0x1_0000_0000;
    var folded := AddCarries(sum);
    r := 65535 - folded;
  }

  method AddCarries(total: nat) returns (sum: nat)
    ensures sum == Sixteen(total)
  {
    sum := total;
    while sum / 65536 != 0
      invariant Fold(sum) == Fold(total)
      decreases sum
    {
      sum := sum % 65536 + sum / 65536;
    }
  }

  // ---- storing the checksum ---------------------------------------------

  /** `data` with a word stored at `offset`, as `memcpy` lays it out. */
  function Store(data: seq<Byte>, offset: nat, word: nat, order: ByteOrder): (r: seq<Byte>)
    requires offset + 2 <= |data| && word < 65536
    ensures |r| == |data|
  {
    if order == Little then data[offset := word % 256][offset + 1 := word / 256]
    else data[offset := word / 256][offset + 1 := word % 256]
  }

  /** A word stored over zeros at an even offset adds exactly itself to the sum. */
  lemma {:induction false} StoreAdds(data: seq<Byte>, offset: nat, word: nat, order: ByteOrder)
    requires offset % 2 == 0 && offset + 2 <= |data| && word < 65536
    requires data[offset] == 0 && data[offset + 1] == 0
    ensures Sum(Store(data, offset, word, order), order) == Sum(data, order) + word
    decreases |data|
  {
    var r := Store(data, offset, word, order);
    if offset == 0 {
      assert r[2..] == data[2..];
      assert Word(r[0], r[1], order) == word;
    } else {
      StoreAdds(data[2..], offset - 2, word, order);
      assert r[2..] == Store(data[2..], offset - 2, word, order);
    }
  }

  /** At most 65535 for every word begun, so up to 65537 words fit in 32 bits. */
  lemma {:induction false} SumBound(data: seq<Byte>, order: ByteOrder)
    ensures Sum(data, order) <= (|data| + 1) / 2 * 65535
    decreases |data|
  {
    hide Word;
    if |data| >= 2 {
      SumBound(data[2..], order);
      assert (|data| + 1) / 2 == (|data[2..]| + 1) / 2 + 1;
    }
  }

  /** The bytes that are high in one order and low in the other. */
  function SecondBytes(data: seq<Byte>): nat {
    if |data| >= 2 then data[1] + SecondBytes(data[2..]) else 0
  }

  /** The byte order only multiplies the sum by 256, modulo 65535. */
  lemma {:induction false} OrderCongruence(data: seq<Byte>)
    ensures 256 * Sum(data, Little) == Sum(data, Big) + 65535 * SecondBytes(data)
    decreases |data|
  {
    if |data| >= 2 {
      OrderCongruence(data[2..]);
    }
  }

  lemma {:induction false} ZeroInBothOrders(data: seq<Byte>)
    ensures Sum(data, Little) == 0 <==> Sum(data, Big) == 0
    decreases |data|
  {
    if |data| >= 2 {
      ZeroInBothOrders(data[2..]);
    }
  }

  predicate Fits(data: seq<Byte>) {
    (|data| + 1) / 2 <= 65537
  }

  predicate Full(sum: nat) {
    sum > 0 && sum % 65535 == 0
  }

  /** The checksum vanishes exactly on sums that are positive multiples of 65535. */
  lemma VanishesIff(data: seq<Byte>, order: ByteOrder)
    requires Fits(data)
    ensures InternetChecksum(data, order) == 0 <==> Full(Sum(data, order))
  {
    hide Sum, Fold;
    SumBound(data, order);
    FoldKeepsResidue(Sum(data, order));
    ZeroOrFull(Sum(data, order), Fold(Sum(data, order)));
  }

  lemma ZeroOrFull(sum: nat, folded: nat)
    requires folded < 65536 && folded % 65535 == sum % 65535 && (folded == 0 <==> sum == 0)
    ensures folded == 65535 <==> Full(sum)
  {
  }

  lemma SealedIsFull(data: seq<Byte>, offset: nat, order: ByteOrder)
    requires Fits(data) && offset % 2 == 0 && offset + 2 <= |data|
    requires data[offset] == 0 && data[offset + 1] == 0
    ensures var sealed := Store(data, offset, InternetChecksum(data, order), order);
      Fits(sealed) && Full(Sum(sealed, order))
  {
    hide Sum, Fold, Store;
    var sum := Sum(data, order);
    SumBound(data, order);
    FoldKeepsResidue(sum);
    StoreAdds(data, offset, InternetChecksum(data, order), order);
    ComplementResidue(sum, Fold(sum));
  }

  /** Storing the checksum where the buffer held a zero word makes the checksum of the buffer 0,
      also for a receiver with the other byte order. */
  lemma SealedVanishes(data: seq<Byte>, offset: nat, order: ByteOrder, receiver: ByteOrder)
    requires Fits(data) && offset % 2 == 0 && offset + 2 <= |data|
    requires data[offset] == 0 && data[offset + 1] == 0
    ensures InternetChecksum(Store(data, offset, InternetChecksum(data, order), order), receiver) == 0
  {
    hide Sum, Store, Sixteen, Fold;
    var sealed := Store(data, offset, InternetChecksum(data, order), order);
    hide InternetChecksum;
    SealedIsFull(data, offset, order);
    OrderCongruence(sealed);
    ZeroInBothOrders(sealed);
    OtherOrder(Sum(sealed, Little), Sum(sealed, Big), SecondBytes(sealed));
    VanishesIff(sealed, receiver);
  }

  lemma ComplementResidue(sum: nat, folded: nat)
    requires folded < 65536 && folded % 65535 == sum % 65535 && (folded == 0 <==> sum == 0)
    ensures sum + (65535 - folded) > 0 && (sum + (65535 - folded)) % 65535 == 0
  {
  }

  lemma OtherOrder(little: nat, big: nat, k: nat)
    requires 256 * little == big + 65535 * k
    ensures little % 65535 == 0 <==> big % 65535 == 0
  {
    if little % 65535 == 0 {
      Multiple(big, 256 * (little / 65535) - k);
    }
    if big % 65535 == 0 {
      Multiple(little, 256 * (big / 65535 + k) - little);
    }
  }

  lemma Multiple(n: nat, q: int)
    requires n == 65535 * q
    ensures n % 65535 == 0
  {
  }

  const PACKET_SIZE := 32
  const CHECKSUM_OFFSET := 2

  /** The end of `send`: raw IPv4 packets are sealed here, the kernel seals all others. */
  method SealPacket(packet: array<Byte>, raw: bool, ipv4: bool, order: ByteOrder)
    requires packet.Length == PACKET_SIZE
    requires packet[CHECKSUM_OFFSET] == 0 && packet[CHECKSUM_OFFSET + 1] == 0
    modifies packet
    ensures raw && ipv4 ==>
        packet[..] == Store(old(packet[..]), CHECKSUM_OFFSET, InternetChecksum(old(packet[..]), order), order)
    ensures raw && ipv4 ==> forall receiver :: InternetChecksum(packet[..], receiver) == 0
    ensures !(raw && ipv4) ==> packet[..] == old(packet[..])
  {
    if raw && ipv4 {
      ghost var before := packet[..];
      var sum := ComputeChecksum(packet, order);
      if order == Little {
        packet[CHECKSUM_OFFSET], packet[CHECKSUM_OFFSET + 1] := sum % 256, sum / 256;
      } else {
        packet[CHECKSUM_OFFSET], packet[CHECKSUM_OFFSET + 1] := sum / 256, sum % 256;
      }
      assert packet[..] == Store(before, CHECKSUM_OFFSET, sum, order);
      forall receiver ensures InternetChecksum(packet[..], receiver) == 0 {
        SealedVanishes(before, CHECKSUM_OFFSET, order, receiver);
      }
    }
  }

  // ---- the sum, byte by byte --------------------------------------------

  /** What a byte at this place counts for: every other one 256. */
  function Weight(place: nat, order: ByteOrder): nat {
    if (order == Big) == (place % 2 == 0) then 256 else 1
  }

  function Weighted(data: seq<Byte>, order: ByteOrder): nat {
    if data == [] then 0
    else Weighted(data[..|data| - 1], order) + data[|data| - 1] * Weight(|data| - 1, order)
  }

  lemma {:induction false} WeightedFront(data: seq<Byte>, order: ByteOrder)
    requires |data| >= 2
    ensures Weighted(data, order)
      == data[0] * Weight(0, order) + data[1] * Weight(1, order) + Weighted(data[2..], order)
  {
    var n := |data| - 1;
    var front := data[..n];
    if |data| == 2 {
      assert front[..0] == [] && data[2..] == [];
      assert Weighted(front, order) == data[0] * Weight(0, order);
    } else {
      WeightedFront(front, order);
      assert front[2..] == data[2..][..n - 2] && data[2..][n - 2] == data[n];
      assert Weight(n - 2, order) == Weight(n, order);
    }
  }

  lemma {:induction false} SumIsWeighted(data: seq<Byte>, order: ByteOrder)
    ensures Sum(data, order) == Weighted(data, order)
    decreases |data|
  {
    if |data| >= 2 {
      WeightedFront(data, order);
      SumIsWeighted(data[2..], order);
    } else if |data| == 1 {
      assert data[..0] == [];
    }
  }

  /** The checksum is what is missing to a multiple of 65535: with it the weighted sum of all bytes, the last odd one
      included, vanishes; and it is 65535 exactly if all bytes are zero. */
  lemma ChecksumComplements(data: seq<Byte>, order: ByteOrder)
    requires Fits(data)
    ensures var c := InternetChecksum(data, order);
      c <= 65535 && (Weighted(data, order) + c) % 65535 == 0 && (c == 65535 <==> Weighted(data, order) == 0)
  {
    hide Sum, Fold, Weighted;
    SumIsWeighted(data, order);
    SumBound(data, order);
    FoldKeepsResidue(Sum(data, order));
    ComplementResidue(Sum(data, order), Fold(Sum(data, order)));
  }
}
