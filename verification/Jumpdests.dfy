/** interpreter/frame.go: the jump destination bitmap. */
module Jumpdests {
  import opened Types

  const JUMPDEST := 0x5b
  const PUSH1 := 0x60
  const PUSH32 := 0x7f

  /** Length of the instruction whose first byte is `op`, immediate data included. */
  function InstrLen(op: Byte): nat {
    if PUSH1 <= op <= PUSH32 then op - PUSH1 + 2 else 1
  }

  /** Whether walking instruction by instruction from `from` arrives at `i`
      (section 9.4.3 of the Yellow Paper). */
  predicate BoundaryFrom(code: Code, from: nat, i: nat)
    decreases |code| - from
  {
    from == i || (from < i && from < |code| && BoundaryFrom(code, from + InstrLen(code[from]), i))
  }

  predicate Boundary(code: Code, i: nat) {
    BoundaryFrom(code, 0, i)
  }

  predicate ValidJump(code: Code, i: nat) {
    i < |code| && code[i] == JUMPDEST && Boundary(code, i)
  }

  lemma {:induction false} BoundaryExtends(code: Code, from: nat, i: nat)
    requires BoundaryFrom(code, from, i) && i < |code|
    ensures BoundaryFrom(code, from, i + InstrLen(code[i]))
    decreases |code| - from
  {
    if from != i {
      BoundaryExtends(code, from + InstrLen(code[from]), i);
    }
  }

  /** Nothing strictly inside an instruction is a boundary. */
  lemma {:induction false} NoBoundaryInside(code: Code, from: nat, i: nat, j: nat)
    requires BoundaryFrom(code, from, i) && i < |code| && i < j < i + InstrLen(code[i])
    ensures !BoundaryFrom(code, from, j)
    decreases |code| - from
  {
    if from != i {
      NoBoundaryInside(code, from + InstrLen(code[from]), i, j);
    }
  }

  // ---------- the bit vector ----------

  /** 1 << k on a byte. */
  function Mask(k: nat): bv8
    requires k < 8
  {
    [1, 2, 4, 8, 16, 32, 64, 128][k]
  }

  predicate Bit(b: bv8, k: nat)
    requires k < 8
  {
    b & Mask(k) != 0
  }

  lemma MasksAreBits(b: bv8, x: bv8, y: bv8)
    requires x == 1 || x == 2 || x == 4 || x == 8 || x == 16 || x == 32 || x == 64 || x == 128
    requires y == 1 || y == 2 || y == 4 || y == 8 || y == 16 || y == 32 || y == 64 || y == 128
    ensures (b | x) & y != 0 <==> x == y || b & y != 0
  {
  }

  lemma SetBit(b: bv8, j: nat, k: nat)
    requires j < 8 && k < 8
    ensures Bit(b | Mask(j), k) <==> j == k || Bit(b, k)
  {
    MasksAreBits(b, Mask(j), Mask(k));
    assert Mask(j) == Mask(k) <==> j == k;
  }

  predicate Has(bv: seq<bv8>, i: nat) {
    i / 8 < |bv| && Bit(bv[i / 8], i % 8)
  }

  method Set(bv: array<bv8>, i: nat)
    requires i / 8 < bv.Length
    modifies bv
    ensures forall k: nat :: Has(bv[..], k) <==> k == i || old(Has(bv[..], k))
  {
    bv[i / 8] := bv[i / 8] | Mask(i % 8);
    forall k: nat | k / 8 == i / 8
      ensures Has(bv[..], k) <==> k == i || old(Has(bv[..], k))
    {
      SetBit(old(bv[i / 8]), i % 8, k % 8);
    }
  }

  method BuildJumpdests(code: Code) returns (bv: array<bv8>)
    ensures forall k: nat :: Has(bv[..], k) <==> ValidJump(code, k)
  {
    bv := new bv8[(|code| + 7) / 8](_ => 0);
    var i := 0;
    while i < |code|
      invariant fresh(bv) && bv.Length == (|code| + 7) / 8
      invariant Boundary(code, i)
      invariant forall k: nat :: Has(bv[..], k) <==> k < i && ValidJump(code, k)
      decreases |code| - i
    {
      var op := code[i];
      if op == JUMPDEST {
        Set(bv, i);
      }
      BoundaryExtends(code, 0, i);
      forall k | i < k < i + InstrLen(op) ensures !ValidJump(code, k) {
        NoBoundaryInside(code, 0, i, k);
      }
      if PUSH1 <= op <= PUSH32 {
        i := i + (op - PUSH1) + 2;
      } else {
        i := i + 1;
      }
    }
  }
}
