/** blockchain/blockchain.go: the height, epoch and slot counters and the
    previous hash, on machine words. */
module Blockchains {
  import opened Common

  const SLOTS_IN_EPOCH: uint32 := 30

  datatype ChainInfo = ChainInfo(
    nextHeight: uint64, nextEpoch: uint64, nextSlot: uint32, previous: Option<Digest>)

  const NO_BLOCKS := ChainInfo(0, 0, 0, None)

  /** Blockchain.Init: the slot is taken from the height cut down to 32 bits. */
  function Restored(height: uint64, previous: Digest): ChainInfo {
    ChainInfo(height, height / SLOTS_IN_EPOCH, (height % TWO32) % SLOTS_IN_EPOCH, Some(previous))
  }

  /** Blockchain.Increment. */
  function Advanced(i: ChainInfo, hash: Digest): ChainInfo {
    var slot := ((i.nextSlot + 1) % TWO32) % SLOTS_IN_EPOCH;
    ChainInfo((i.nextHeight + 1) % TWO64,
              if slot == 0 then (i.nextEpoch + 1) % TWO64 else i.nextEpoch,
              slot, Some(hash))
  }

  /** The counters after storing blocks with these hashes one by one. */
  function Stepwise(hashes: seq<Digest>): ChainInfo {
    if hashes == [] then NO_BLOCKS
    else Advanced(Stepwise(hashes[..|hashes| - 1]), hashes[|hashes| - 1])
  }

  predicate Consistent(i: ChainInfo) {
    i.nextHeight == SLOTS_IN_EPOCH * i.nextEpoch + i.nextSlot && i.nextSlot < SLOTS_IN_EPOCH
  }

  lemma AdvancedConsistent(i: ChainInfo, hash: Digest)
    requires Consistent(i) && i.nextHeight + 1 < TWO64
    ensures Consistent(Advanced(i, hash)) && Advanced(i, hash).nextHeight == i.nextHeight + 1
  {
    if i.nextSlot + 1 < SLOTS_IN_EPOCH {
      assert ((i.nextSlot + 1) % TWO32) % SLOTS_IN_EPOCH == i.nextSlot + 1;
    } else {
      assert ((i.nextSlot + 1) % TWO32) % SLOTS_IN_EPOCH == 0;
    }
  }

  /** height = 30 * epoch + slot, all along. */
  lemma {:induction false} StepwiseCounters(hashes: seq<Digest>)
    requires |hashes| < TWO64
    ensures var i := Stepwise(hashes);
            && i.nextHeight == |hashes|
            && Consistent(i)
            && (hashes != [] ==> i.previous == Some(hashes[|hashes| - 1]))
  {
    if hashes != [] {
      var n := |hashes| - 1;
      StepwiseCounters(hashes[..n]);
      AdvancedConsistent(Stepwise(hashes[..n]), hashes[n]);
    }
  }

  /** Adding a multiple of 30 does not change the slot. */
  lemma {:induction false} SlotShift(q: nat, r: nat)
    ensures (30 * q + r) % 30 == r % 30
  {
    if q > 0 {
      SlotShift(q - 1, r);
      assert 30 * q + r == 30 + (30 * (q - 1) + r);
    }
  }

  /** 2^32 is 16 modulo 30, so cutting a height down to 32 bits moves the slot by
      16 for each unit of the upper half; 15 of those are eight epochs. */
  lemma CutSlot(height: uint64)
    ensures (height % TWO32) % SLOTS_IN_EPOCH == height % SLOTS_IN_EPOCH <==> (height / TWO32) % 15 == 0
  {
    var q, r := height / TWO32, height % TWO32;
    var a, b := q / 15, q % 15;
    assert height == 30 * (143165576 * q + 8 * a) + (16 * b + r);
    SlotShift(143165576 * q + 8 * a, 16 * b + r);
    SixteenTimes(b, r);
  }

  lemma SixteenTimes(b: nat, r: nat)
    requires b < 15
    ensures (16 * b + r) % 30 == r % 30 <==> b == 0
  {
    SlotShift(r / 30, 16 * b + r % 30);
    assert 16 * b + r == 30 * (r / 30) + (16 * b + r % 30);
    assert 16 * b <= 224;
  }

  /** Restoring the counters after a restart gives what counting block by block
      gave, if and only if the height's upper 32 bits are a multiple of 15; in
      particular for every height below 2^32. */
  lemma RestartKeepsCounters(hashes: seq<Digest>)
    requires 0 < |hashes| < TWO64
    ensures var h := |hashes|;
            Restored(h, hashes[h - 1]) == Stepwise(hashes) <==> (h / TWO32) % 15 == 0
  {
    StepwiseCounters(hashes);
    CutSlot(|hashes|);
    var i := Stepwise(hashes);
    assert i.nextHeight / SLOTS_IN_EPOCH == i.nextEpoch && i.nextHeight % SLOTS_IN_EPOCH == i.nextSlot;
  }

  class Blockchain {
    var nextHeight: uint64
    var nextEpoch: uint64
    var nextSlot: uint32
    var previousBlockHash: Option<Digest>

    constructor ()
      ensures Info() == NO_BLOCKS
    {
      nextHeight, nextEpoch, nextSlot, previousBlockHash := 0, 0, 0, None;
    }

    function Info(): ChainInfo
      reads this
    {
      ChainInfo(nextHeight, nextEpoch, nextSlot, previousBlockHash)
    }

    method Init(height: uint64, previous: Digest)
      modifies this
      ensures Info() == Restored(height, previous)
    {
      nextHeight := height;
      nextEpoch := height / SLOTS_IN_EPOCH;
      nextSlot := (height % TWO32) % SLOTS_IN_EPOCH;
      previousBlockHash := Some(previous);
    }

    method Increment(hash: Digest)
      modifies this
      ensures Info() == Advanced(old(Info()), hash)
    {
      nextHeight := (nextHeight + 1) % TWO64;
      nextSlot := ((nextSlot + 1) % TWO32) % SLOTS_IN_EPOCH;
      if nextSlot == 0 {
        nextEpoch := (nextEpoch + 1) % TWO64;
      }
      previousBlockHash := Some(hash);
    }
  }
}
