/** The sizes computed by `RaptorQ::new` (src/protocol.rs), which decide how many packets the receiver waits for. */
module RaptorQSizing {
  import opened Words
  import opened Wrappers

  const PACKET_HEADER_SIZE := 28
  const RAPTORQ_ALIGNMENT := 8
  const RAPTORQ_HEADER_SIZE := 4

  datatype RaptorQ = RaptorQ(
    maxPacketSize: nat,
    symbolCount: nat,
    transferLength: nat,
    nbRepairPackets: nat,
    minNbRepairPackets: nat)
  {
    /** A 16-bit sum in the original. */
    function MinNbPackets(): nat {
      (symbolCount + minNbRepairPackets) % U16_LIMIT
    }

    function NbPackets(): nat {
      symbolCount + nbRepairPackets
    }
  }

  /** The 32-bit product and division behind both repair counts, wrap-around included. */
  function RepairPackets(transferLength: nat, percentage: nat, maxPacketSize: nat): nat
    requires 0 < maxPacketSize
  {
    (((transferLength / 100) * percentage) % U32_LIMIT) / maxPacketSize
  }

  /** What the sizes mean: packets as large as the mtu allows, as many whole packets as fit in the block. */
  ghost predicate Sized(q: RaptorQ, mtu: nat, blockSize: nat, repair: nat, minRepair: nat) {
    && 0 < q.maxPacketSize <= mtu - 32 < q.maxPacketSize + 8 && q.maxPacketSize % 8 == 0
    && Fills(q.maxPacketSize, q.symbolCount, q.transferLength, blockSize)
    && q.minNbRepairPackets == RepairPackets(q.transferLength, minRepair, q.maxPacketSize)
    && q.nbRepairPackets == Max(RepairPackets(q.transferLength, repair, q.maxPacketSize), q.minNbRepairPackets)
    && q.symbolCount < U16_LIMIT && q.nbRepairPackets < U16_LIMIT
  }

  /** `count` packets of `size` bytes make `length` bytes, and one more would not fit in the block. */
  ghost predicate Fills(size: nat, count: nat, length: nat, blockSize: nat) {
    length == size * count && length <= blockSize < length + size
  }

  function Max(a: nat, b: nat): nat {
    if a < b then b else a
  }

  lemma QuotientBounds(a: nat, m: nat)
    requires 0 < m
    ensures m * (a / m) <= a < m * (a / m) + m
  {
  }

  lemma MultiplyMonotone(a: nat, b: nat, m: nat)
    requires a <= b
    ensures a * m <= b * m
  {
  }

  lemma QuotientUnique(a: nat, m: nat, q: nat)
    requires 0 < m && m * q <= a < m * q + m
    ensures q == a / m
  {
    QuotientBounds(a, m);
    if q < a / m {
      MultiplyMonotone(q + 1, a / m, m);
    } else if a / m < q {
      MultiplyMonotone(a / m + 1, q, m);
    }
  }

  lemma QuotientMonotone(a: nat, b: nat, m: nat)
    requires a <= b && 0 < m
    ensures a / m <= b / m
  {
    QuotientBounds(a, m);
    QuotientBounds(b, m);
    MultiplyMonotone(b / m + 1, if b / m < a / m then a / m else b / m + 1, m);
  }

  lemma FillsUnique(size: nat, count: nat, length: nat, blockSize: nat)
    requires 0 < size && Fills(size, count, length, blockSize)
    ensures count == blockSize / size == length / size
  {
    QuotientUnique(blockSize, size, count);
    QuotientUnique(length, size, count);
  }

  lemma FillsQuotient(size: nat, blockSize: nat)
    requires 0 < size
    ensures Fills(size, blockSize / size, size * (blockSize / size), blockSize)
  {
    QuotientBounds(blockSize, size);
  }

  lemma AlignedUnique(size: nat, limit: nat)
    requires size <= limit < size + 8 && size % 8 == 0
    ensures size == limit - limit % 8
  {
  }

  lemma SizedQuotient(q: RaptorQ, mtu: nat, blockSize: nat, repair: nat, minRepair: nat)
    requires Sized(q, mtu, blockSize, repair, minRepair)
    ensures q.maxPacketSize == mtu - 32 - (mtu - 32) % 8
    ensures q.symbolCount == blockSize / q.maxPacketSize == q.transferLength / q.maxPacketSize
    ensures q.transferLength == q.maxPacketSize * q.symbolCount
  {
    AlignedUnique(q.maxPacketSize, mtu - 32);
    FillsUnique(q.maxPacketSize, q.symbolCount, q.transferLength, blockSize);
  }

  /** The sizes are determined by the parameters. */
  lemma SizedUnique(q: RaptorQ, r: RaptorQ, mtu: nat, blockSize: nat, repair: nat, minRepair: nat)
    requires Sized(q, mtu, blockSize, repair, minRepair) && Sized(r, mtu, blockSize, repair, minRepair)
    ensures q == r
  {
    SizedQuotient(q, mtu, blockSize, repair, minRepair);
    SizedQuotient(r, mtu, blockSize, repair, minRepair);
  }

  lemma AlignedPacket(mtu: nat)
    requires 40 <= mtu
    ensures var size := mtu - 32 - (mtu - 32) % 8; 8 <= size <= mtu - 32 < size + 8 && size % 8 == 0
  {
  }

  ghost predicate Unsizable(mtu: nat, blockSize: nat, repair: nat, minRepair: nat) {
    forall q :: !Sized(q, mtu, blockSize, repair, minRepair)
  }

  predicate CountsFit(size: nat, count: nat, length: nat, repair: nat, minRepair: nat)
    requires 0 < size
  {
    && count < U16_LIMIT
    && RepairPackets(length, repair, size) < U16_LIMIT
    && RepairPackets(length, minRepair, size) < U16_LIMIT
  }

  /** Sizes exist exactly when the three 16-bit counts fit. */
  lemma SizableIff(mtu: nat, blockSize: nat, repair: nat, minRepair: nat, size: nat, count: nat, length: nat)
    requires 40 <= mtu && 0 < size == mtu - 32 - (mtu - 32) % 8 && Fills(size, count, length, blockSize)
    ensures var low := RepairPackets(length, minRepair, size);
            var q := RaptorQ(size, count, length, Max(RepairPackets(length, repair, size), low), low);
            if CountsFit(size, count, length, repair, minRepair) then Sized(q, mtu, blockSize, repair, minRepair)
            else Unsizable(mtu, blockSize, repair, minRepair)
  {
    AlignedPacket(mtu);
    FillsUnique(size, count, length, blockSize);
    forall q | Sized(q, mtu, blockSize, repair, minRepair)
      ensures CountsFit(size, count, length, repair, minRepair)
    {
      SizedQuotient(q, mtu, blockSize, repair, minRepair);
    }
  }

  /** How many packets a percentage of the block makes; the product wraps. */
  method RepairCount(length: nat, percentage: nat, size: nat) returns (count: nat)
    requires 0 < size
    ensures count == RepairPackets(length, percentage, size)
    ensures size * count <= ((length / 100) * percentage) % U32_LIMIT < size * (count + 1)
  {
    var product := (length / 100) * percentage;
    var wrapped := product % U32_LIMIT;
    count := wrapped / size;
    CountBounds(product, size);
  }

  lemma CountBounds(product: nat, size: nat)
    requires 0 < size
    ensures var count := (product % U32_LIMIT) / size; size * count <= product % U32_LIMIT < size * (count + 1)
    ensures product < U32_LIMIT ==> product % U32_LIMIT == product
  {
    var wrapped := product % U32_LIMIT;
    QuotientBounds(wrapped, size);
    assert size * (wrapped / size + 1) == size * (wrapped / size) + size;
  }

  /** The largest count of packets of `size` bytes within `bytes` bytes. */
  ghost predicate Holds(size: int, count: int, bytes: int) {
    size * count <= bytes < size * (count + 1)
  }

  /** What the repair counts are. A percentage of the block, counted in hundredths of its length rounded down, as many
      whole packets as it holds; the larger of the two for the repair count. Where the product does not fit in 32 bits
      its remainder takes its place. */
  lemma RepairCounts(q: RaptorQ, mtu: nat, blockSize: nat, repair: nat, minRepair: nat)
    requires Sized(q, mtu, blockSize, repair, minRepair)
    ensures var low, high := (q.transferLength / 100) * minRepair, (q.transferLength / 100) * repair;
            && (low < U32_LIMIT ==> Holds(q.maxPacketSize, q.minNbRepairPackets, low))
            && (U32_LIMIT <= low ==> Holds(q.maxPacketSize, q.minNbRepairPackets, low % U32_LIMIT))
            && (high < U32_LIMIT ==> exists count: nat ::
                  Holds(q.maxPacketSize, count, high) && q.nbRepairPackets == Max(count, q.minNbRepairPackets))
            && (U32_LIMIT <= high ==> exists count: nat ::
                  && Holds(q.maxPacketSize, count, high % U32_LIMIT)
                  && q.nbRepairPackets == Max(count, q.minNbRepairPackets))
  {
    var low, high := (q.transferLength / 100) * minRepair, (q.transferLength / 100) * repair;
    CountBounds(low, q.maxPacketSize);
    CountBounds(high, q.maxPacketSize);
    assert Holds(q.maxPacketSize, (high % U32_LIMIT) / q.maxPacketSize, high % U32_LIMIT);
  }

  /** Both repair counts, unless one does not fit; the larger minimum wins. */
  method Repairs(size: nat, length: nat, repair: nat, minRepair: nat) returns (r: Result<(nat, nat), string>)
    requires 0 < size
    ensures r.Ok? <==>
            RepairPackets(length, repair, size) < U16_LIMIT && RepairPackets(length, minRepair, size) < U16_LIMIT
    ensures r.Ok? ==> r.value.1 == RepairPackets(length, minRepair, size)
    ensures r.Ok? ==> r.value.0 == Max(RepairPackets(length, repair, size), r.value.1)
  {
    var nbRepairPackets := RepairCount(length, repair, size);
    if nbRepairPackets >= U16_LIMIT {
      return Err("nb_repair_packets");
    }
    var minNbRepairPackets := RepairCount(length, minRepair, size);
    if minNbRepairPackets >= U16_LIMIT {
      return Err("min_nb_repair_packets");
    }
    if nbRepairPackets < minNbRepairPackets {
      nbRepairPackets := minNbRepairPackets;
    }
    r := Ok((nbRepairPackets, minNbRepairPackets));
  }

  /** The aligned packet size, and the whole packets that fit in a block. */
  method Shape(mtu: nat, blockSize: nat) returns (maxPacketSize: nat, symbolCount: nat, transferLength: nat)
    requires 40 <= mtu
    ensures 0 < maxPacketSize == mtu - 32 - (mtu - 32) % 8
    ensures Fills(maxPacketSize, symbolCount, transferLength, blockSize)
  {
    AlignedPacket(mtu);
    maxPacketSize := mtu - PACKET_HEADER_SIZE - RAPTORQ_HEADER_SIZE;
    maxPacketSize := maxPacketSize - maxPacketSize % RAPTORQ_ALIGNMENT;
    symbolCount := blockSize / maxPacketSize;
    transferLength := maxPacketSize * symbolCount;
    FillsQuotient(maxPacketSize, blockSize);
  }

  /** An mtu below 40 makes the original underflow or divide by zero. */
  method New(mtu: nat, blockSize: nat, repair: nat, minRepair: nat) returns (r: Result<RaptorQ, string>)
    requires 40 <= mtu < U16_LIMIT && blockSize < U32_LIMIT && repair < U32_LIMIT && minRepair < U32_LIMIT
    ensures r.Ok? ==> Sized(r.value, mtu, blockSize, repair, minRepair)
    ensures r.Err? ==> Unsizable(mtu, blockSize, repair, minRepair)
  {
    var maxPacketSize, symbolCount, transferLength := Shape(mtu, blockSize);
    SizableIff(mtu, blockSize, repair, minRepair, maxPacketSize, symbolCount, transferLength);
    if symbolCount >= U16_LIMIT {
      return Err("symbol_count");
    }
    var repairs := Repairs(maxPacketSize, transferLength, repair, minRepair);
    if repairs.Err? {
      return Err(repairs.error);
    }
    r := Ok(RaptorQ(maxPacketSize, symbolCount, transferLength, repairs.value.0, repairs.value.1));
  }

  lemma Percentages(length: nat, p: nat, q: nat)
    requires p <= q <= 100
    ensures (length / 100) * p <= (length / 100) * q <= length
  {
    var unit := length / 100;
    MultiplyMonotone(p, q, unit);
    MultiplyMonotone(q, 100, unit);
    assert p * unit == unit * p && q * unit == unit * q;
  }

  /** With percentages up to 100 the 32-bit product does not wrap, a repair count never exceeds the symbol count,
      and a larger percentage gives no fewer repair packets. */
  lemma RepairMonotone(length: nat, maxPacketSize: nat, p: nat, q: nat)
    requires 0 < maxPacketSize && length < U32_LIMIT && p <= q <= 100
    ensures (length / 100) * q < U32_LIMIT
    ensures RepairPackets(length, p, maxPacketSize) <= RepairPackets(length, q, maxPacketSize) <= length / maxPacketSize
  {
    Percentages(length, p, q);
    var a, b := (length / 100) * p, (length / 100) * q;
    assert a % U32_LIMIT == a && b % U32_LIMIT == b;
    QuotientMonotone(a, b, maxPacketSize);
    QuotientMonotone(b, length, maxPacketSize);
  }

  lemma NoMinimum(length: nat, maxPacketSize: nat)
    requires 0 < maxPacketSize
    ensures RepairPackets(length, 0, maxPacketSize) == 0
  {
  }

  /** The 16-bit sum is the true one exactly when that fits. */
  lemma Wraps(a: nat, b: nat)
    requires a < U16_LIMIT && b < U16_LIMIT
    ensures (a + b) % U16_LIMIT == if a + b < U16_LIMIT then a + b else a + b - U16_LIMIT
  {
  }

  /** Can the receiver's threshold be met by what the sender sends? The sender is built without a minimum. For
      equal mtu and block size a complete block meets it exactly when the receiver's minimum count is no more than
      the sender's repair count, or the 16-bit threshold wraps. A minimum percentage no larger than the sender's
      is enough; the difference is the loss per block that is tolerated. */
  lemma ThresholdReachable(sender: RaptorQ, receiver: RaptorQ, mtu: nat, blockSize: nat, repair: nat, other: nat,
                           minRepair: nat)
    requires Sized(sender, mtu, blockSize, repair, 0) && Sized(receiver, mtu, blockSize, other, minRepair)
    ensures sender.transferLength == receiver.transferLength && sender.symbolCount == receiver.symbolCount
    ensures receiver.MinNbPackets() <= sender.NbPackets() <==>
            || receiver.minNbRepairPackets <= sender.nbRepairPackets
            || U16_LIMIT <= receiver.symbolCount + receiver.minNbRepairPackets
    ensures blockSize < U32_LIMIT && minRepair <= repair <= 100 ==> receiver.MinNbPackets() <= sender.NbPackets()
  {
    SizedQuotient(sender, mtu, blockSize, repair, 0);
    SizedQuotient(receiver, mtu, blockSize, other, minRepair);
    MinimumBelowRepair(receiver, mtu, blockSize, other, minRepair);
    Wraps(receiver.symbolCount, receiver.minNbRepairPackets);
    if blockSize < U32_LIMIT && minRepair <= repair <= 100 {
      NoMinimum(sender.transferLength, sender.maxPacketSize);
      RepairMonotone(sender.transferLength, sender.maxPacketSize, minRepair, repair);
    }
  }

  lemma MinimumBelowRepair(q: RaptorQ, mtu: nat, blockSize: nat, repair: nat, minRepair: nat)
    requires Sized(q, mtu, blockSize, repair, minRepair)
    ensures q.minNbRepairPackets <= q.nbRepairPackets < U16_LIMIT
  {
  }

  lemma OnePacketFits(size: nat, count: nat, length: nat, blockSize: nat)
    requires 0 < size && Fills(size, count, length, blockSize)
    ensures count >= 1 <==> size <= blockSize
  {
    if count > 0 {
      MultiplyMonotone(1, count, size);
    }
  }

  lemma RepairAtMost(q: RaptorQ, mtu: nat, blockSize: nat, repair: nat, minRepair: nat)
    requires blockSize < U32_LIMIT && minRepair <= 100 && Sized(q, mtu, blockSize, repair, minRepair)
    ensures q.minNbRepairPackets <= q.symbolCount
  {
    SizedQuotient(q, mtu, blockSize, repair, minRepair);
    RepairMonotone(q.transferLength, q.maxPacketSize, minRepair, 100);
  }

  /** The threshold is the number of symbols plus the minimum repair count exactly when that fits in 16 bits, as it
      does for up to 32767 symbols and a percentage up to 100; it is then positive exactly when a block holds a
      packet. */
  lemma ThresholdExact(q: RaptorQ, mtu: nat, blockSize: nat, repair: nat, minRepair: nat)
    requires Sized(q, mtu, blockSize, repair, minRepair)
    ensures q.MinNbPackets() == q.symbolCount + q.minNbRepairPackets <==>
            q.symbolCount + q.minNbRepairPackets < U16_LIMIT
    ensures U16_LIMIT <= q.symbolCount + q.minNbRepairPackets ==>
              q.MinNbPackets() == q.symbolCount + q.minNbRepairPackets - U16_LIMIT
    ensures blockSize < U32_LIMIT && minRepair <= 100 && q.symbolCount <= 32767 ==>
              q.symbolCount + q.minNbRepairPackets < U16_LIMIT
    ensures q.symbolCount + q.minNbRepairPackets < U16_LIMIT && blockSize < U32_LIMIT && minRepair <= 100 ==>
              (q.MinNbPackets() >= 1 <==> q.maxPacketSize <= blockSize)
  {
    MinimumBelowRepair(q, mtu, blockSize, repair, minRepair);
    Wraps(q.symbolCount, q.minNbRepairPackets);
    if blockSize < U32_LIMIT && minRepair <= 100 {
      RepairAtMost(q, mtu, blockSize, repair, minRepair);
    }
    OnePacketFits(q.maxPacketSize, q.symbolCount, q.transferLength, blockSize);
  }

  lemma MultipleOf8(size: nat, count: nat)
    requires size % 8 == 0
    ensures (size * count) % 8 == 0
  {
    assert size * count == 8 * ((size / 8) * count);
  }

  lemma FewPackets(size: nat, count: nat)
    requires 8 <= size && size % 8 == 0
    ensures size * count == 0 <==> count == 0
    ensures size * count == 8 <==> size == 8 && count == 1
    ensures (size * count) % 8 == 0
  {
    MultipleOf8(size, count);
    if count >= 2 {
      MultiplyMonotone(2, count, size);
    }
  }

  lemma AtMostOnePacket(size: nat, count: nat, length: nat, blockSize: nat)
    requires 0 < size && Fills(size, count, length, blockSize)
    ensures count == 0 <==> blockSize < size
    ensures count == 1 <==> size <= blockSize < 2 * size
  {
    OnePacketFits(size, count, length, blockSize);
    if count >= 2 {
      MultiplyMonotone(2, count, size);
    }
  }

  /** Which block lengths there are: multiples of 8. Those below the 9 bytes of a block header are 0, when the block
      size is less than a packet, and 8, when packets have 8 bytes and just one fits. */
  lemma BlockLengths(q: RaptorQ, mtu: nat, blockSize: nat, repair: nat, minRepair: nat)
    requires Sized(q, mtu, blockSize, repair, minRepair)
    ensures 40 <= mtu && q.maxPacketSize == mtu - 32 - (mtu - 32) % 8
    ensures q.transferLength % 8 == 0
    ensures q.transferLength == 0 <==> blockSize < q.maxPacketSize
    ensures q.transferLength == 8 <==> mtu < 48 && 8 <= blockSize < 16
    ensures q.transferLength < 9 <==> blockSize < Max(16, q.maxPacketSize)
  {
    SizedQuotient(q, mtu, blockSize, repair, minRepair);
    FewPackets(q.maxPacketSize, q.symbolCount);
    AtMostOnePacket(q.maxPacketSize, q.symbolCount, q.transferLength, blockSize);
  }
}
