/** gas/gas.go: the gas schedule, and SSTORE's net metering over sequences of writes. */
module Gas {
  import opened Types

  const JUMP_DEST := 1
  const BASE := 2
  const VERY_LOW := 3
  const LOW := 5
  const MID := 8
  const HIGH := 10
  const WARM_READ := 100
  const COLD_ACCOUNT := 2600
  const COLD_SLOAD := 2100
  const SSTORE_SET := 20000
  const SSTORE_RESET := 2900
  const SSTORE_CLEAR := 4800
  const SSTORE_INIT_REFUND := 19900
  const SSTORE_CLEAN_REFUND := 4800
  const CALL_VALUE := 9000
  const CALL_STIPEND := 2300
  const NEW_ACCOUNT := 25000
  const SELF_DESTRUCT := 5000

  /** All but one 64th (EIP-150). */
  function CallGas(available: U64): U64 {
    available - available / 64
  }

  function CopyWords(n: U64): U64 {
    Wrap64(Wrap64(n + 31) / 32 * 3)
  }

  function Sha3Words(n: U64): U64 {
    Wrap64(Wrap64(n + 31) / 32 * 6)
  }

  /** Cost and refund of one write, the slot being warm (the only way it is called). */
  function SstoreCost(current: Hash, original: Hash, newVal: Hash): (r: (nat, nat))
    ensures 100 <= r.0 <= 20000
  {
    if current == newVal then (WARM_READ, 0)
    else if original == current then
      if original == 0 then (SSTORE_SET, 0)
      else if newVal == 0 then (SSTORE_RESET, SSTORE_CLEAR)
      else (SSTORE_RESET, 0)
    else
      var clear := if original != 0 && current != 0 && newVal == 0 then SSTORE_CLEAR else 0;
      var reset := if original != newVal then 0
                   else if original == 0 then SSTORE_INIT_REFUND
                   else SSTORE_CLEAN_REFUND;
      (WARM_READ, clear + reset)
  }

  /** Gas charged less gas refunded by SSTORE for the values written to one slot, in order.
      The first access to a cold slot costs 2100 more. */
  function NetCost(original: Hash, current: Hash, warm: bool, writes: seq<Hash>): int
    decreases |writes|
  {
    if writes == [] then 0
    else
      var (cost, refund) := SstoreCost(current, original, writes[0]);
      (if warm then 0 else COLD_SLOAD) + cost - refund + NetCost(original, writes[0], true, writes[1..])
  }

  function Final(current: Hash, writes: seq<Hash>): Hash {
    if writes == [] then current else writes[|writes| - 1]
  }

  /** What a slot holding `v` has paid, beyond 100 a write, since it was zero. */
  function Premium(v: Hash): nat {
    if v != 0 then SSTORE_INIT_REFUND else 0
  }

  /** With original value zero, only the number of writes and the two end values matter. */
  lemma {:induction false} ZeroOriginalNetCost(current: Hash, warm: bool, writes: seq<Hash>)
    ensures NetCost(0, current, warm, writes)
         == WARM_READ * |writes| + Premium(Final(current, writes)) - Premium(current)
            + (if warm || writes == [] then 0 else COLD_SLOAD)
    decreases |writes|
  {
    if writes != [] {
      ZeroOriginalNetCost(writes[0], true, writes[1..]);
    }
  }

  /** The bill depends only on how many writes there were and on the last of them. */
  ghost predicate PathIndependent(original: Hash) {
    forall s: seq<Hash>, t: seq<Hash> ::
      |s| == |t| && Final(original, s) == Final(original, t) ==>
        NetCost(original, original, true, s) == NetCost(original, original, true, t)
  }

  /** SSTORE metering is path-independent exactly for slots whose original value is zero. */
  lemma PathIndependentIffZero(original: Hash)
    ensures PathIndependent(original) <==> original == 0
  {
    if original == 0 {
      forall s: seq<Hash>, t: seq<Hash> | |s| == |t| && Final(0, s) == Final(0, t)
        ensures NetCost(0, 0, true, s) == NetCost(0, 0, true, t)
      {
        ZeroOriginalNetCost(0, true, s);
        ZeroOriginalNetCost(0, true, t);
      }
    } else {
      ClearAndRestore(original);
    }
  }

  /** Clearing a slot and writing its original value back is cheaper than leaving it alone. */
  lemma ClearAndRestore(original: Hash)
    requires original != 0
    ensures NetCost(original, original, true, [0, original]) < NetCost(original, original, true, [original, original])
  {
    assert [0, original][1..] == [original] && [original, original][1..] == [original] && [original][1..] == [];
  }
}
