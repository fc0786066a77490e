/** memory/memory.go: byte-addressable memory that grows in 32-byte words, its quadratic
    charge in wrapping 64-bit arithmetic, and the array behind it. */
module Memory {
  import opened Types

  // ---------- the charge ----------

  function SafeAdd(a: U64, b: U64): Option<U64> {
    if a + b < TWO_64 then Some(a + b) else None
  }

  function WordsFor(newSize: U64): (w: U64)
    ensures 32 * w < TWO_64
    ensures newSize + 31 < TWO_64 ==> newSize <= 32 * w < newSize + 32
  {
    Wrap64(newSize + 31) / 32
  }

  function Square(n: nat): nat {
    n * n
  }

  function MemoryGas(words: U64): U64 {
    Wrap64(3 * words + Wrap64(Square(words)) / 512)
  }

  /** Appendix H of the Yellow Paper, over the integers. */
  function TrueGas(words: nat): nat {
    3 * words + Square(words) / 512
  }

  /** The length of the memory and the charge for the last request; the bytes are in `Memory`. */
  datatype Mem = Mem(len: nat, lastGas: U64)

  function ExpansionCost(m: Mem, offset: U64, size: U64): (c: Option<U64>)
    ensures c.Some? <==> size == 0 || offset + size < TWO_64
  {
    if size == 0 then Some(0)
    else match SafeAdd(offset, size)
      case None => None
      case Some(newSize) =>
        var newGas := MemoryGas(WordsFor(newSize));
        Some(if newGas < m.lastGas then 0 else newGas - m.lastGas)
  }

  /** Go's int(newWords * 32). */
  function BytesNeeded(newSize: U64): (n: int)
    ensures n % 32 == 0
    ensures newSize <= TWO_64 / 2 - 32 ==> newSize <= n < newSize + 32
  {
    hide WordsFor;
    var n := Wrap64(WordsFor(newSize) * 32);
    if n < TWO_64 / 2 then n else n - TWO_64
  }

  function Expanded(m: Mem, newSize: U64): Mem {
    Mem(if BytesNeeded(newSize) > m.len then BytesNeeded(newSize) else m.len, MemoryGas(WordsFor(newSize)))
  }

  /** Expand: the new memory and the gas left, or None when the request overflows or costs
      more than is left. A request that succeeds may lower `lastGas`. */
  function ExpandMem(m: Mem, offset: U64, size: U64, gas: U64): (r: Option<(Mem, U64)>)
    ensures r.Some? ==> r.value.1 <= gas
  {
    if size == 0 then Some((m, gas))
    else match ExpansionCost(m, offset, size)
      case None => None
      case Some(cost) => if cost > gas then None else Some((Expanded(m, offset + size), gas - cost))
  }

  lemma SquareMonotone(a: nat, b: nat)
    ensures a <= b ==> Square(a) <= Square(b) && TrueGas(a) <= TrueGas(b)
  {
    if a <= b {
      assert b * b == a * a + (b - a) * (a + b);
    }
  }

  /** The charge for a word count is the Yellow Paper's exactly while it fits in 32 bits. */
  lemma ChargeIsExactIff(words: U64)
    requires words < TWO_64 / 32
    ensures MemoryGas(words) == TrueGas(words) <==> words < 0x1_0000_0000
  {
    assert Square(0xffff_ffff) < TWO_64 == Square(0x1_0000_0000);
    if words < 0x1_0000_0000 {
      SquareMonotone(words, 0xffff_ffff);
      hide Square;
      assert Wrap64(Square(words)) == Square(words);
    } else {
      SquareMonotone(0x1_0000_0000, words);
      hide Square;
      assert Wrap64(Square(words)) < TWO_64 <= Square(words);
    }
  }

  /** The largest request end whose word count fits in 32 bits. */
  const LAST_END := 0x20_0000_0000 - 32

  /** A request is charged for the words it covers exactly when it ends at or below LAST_END;
      beyond, the word count or its square wraps. */
  lemma RequestChargeIsExactIff(end: U64)
    requires end > 0
    ensures MemoryGas(WordsFor(end)) == TrueGas((end + 31) / 32) <==> end <= LAST_END
  {
    var words := (end + 31) / 32;
    WordsForIs(end);
    hide WordsFor, MemoryGas, TrueGas;
    if end + 31 < TWO_64 {
      ChargeIsExactIff(words);
    } else {
      NothingIsCheap(words);
    }
  }

  lemma WordsForIs(end: U64)
    ensures WordsFor(end) == if end + 31 < TWO_64 then (end + 31) / 32 else 0
  {
    if end + 31 >= TWO_64 {
      assert Wrap64(end + 31) == end + 31 - TWO_64 < 32;
    }
  }

  lemma NothingIsCheap(words: nat)
    requires words > 0
    ensures MemoryGas(0) == 0 < TrueGas(words)
  {
    assert Square(0) == 0;
    hide Square;
  }

  /** A request at the top of the address space is granted for nothing and grows nothing. */
  lemma TopRequestIsFree(m: Mem, gas: U64)
    ensures ExpandMem(m, TWO_64 - 33, 32, gas) == Some((Mem(m.len, 0), gas))
  {
    assert WordsFor(TWO_64 - 1) == 0 && MemoryGas(0) == 0;
  }

  /** The request ends beyond the memory and beyond what Go's int can hold in whole words. */
  predicate TooFar(m: Mem, offset: U64, size: U64) {
    size > 0 && offset + size > m.len && offset + size > TWO_64 / 2 - 32
  }

  /** A granted request is covered by the memory afterwards unless it was too far. */
  lemma GrantedIsCoveredIff(m: Mem, offset: U64, size: U64, gas: U64)
    requires ExpandMem(m, offset, size, gas).Some? && size > 0
    ensures offset + size <= ExpandMem(m, offset, size, gas).value.0.len <==> !TooFar(m, offset, size)
  {
    hide MemoryGas, ExpansionCost;
    FarGrowsNothing(offset + size);
  }

  lemma FarGrowsNothing(end: U64)
    ensures end > TWO_64 / 2 - 32 ==> BytesNeeded(end) < end
  {
  }

  // ---------- sequences of requests ----------

  datatype Request = Request(offset: U64, size: U64)

  predicate InRange(r: Request) {
    r.size > 0 && r.offset + r.size <= LAST_END
  }

  function Step(m: Mem, q: Request): Mem
    requires InRange(q)
  {
    Expanded(m, q.offset + q.size)
  }

  function Charge(m: Mem, q: Request): nat
    requires InRange(q)
  {
    ExpansionCost(m, q.offset, q.size).value
  }

  /** The memory after a sequence of granted requests, and all the gas they took. */
  function RunRequests(m: Mem, rs: seq<Request>): (r: (Mem, nat))
    requires forall i :: 0 <= i < |rs| ==> InRange(rs[i])
    decreases |rs|
  {
    if rs == [] then (m, 0)
    else
      var q := rs[|rs| - 1];
      var before := RunRequests(m, rs[..|rs| - 1]);
      (Step(before.0, q), before.1 + Charge(before.0, q))
  }

  predicate NeverShrinks(rs: seq<Request>) {
    forall i, j :: 0 <= i < j < |rs| ==> rs[i].offset + rs[i].size <= rs[j].offset + rs[j].size
  }

  /** Between requests, the last charge is that of some word count no larger than the memory. */
  predicate Paid(m: Mem, lastWords: nat) {
    m.len % 32 == 0 && lastWords <= m.len / 32 < 0x1_0000_0000 && m.lastGas == TrueGas(lastWords)
  }

  function EndWords(q: Request): nat {
    (q.offset + q.size + 31) / 32
  }

  lemma RangeIsExact(q: Request)
    requires InRange(q)
    ensures var w, end := EndWords(q), q.offset + q.size;
            WordsFor(end) == w < 0x1_0000_0000 && BytesNeeded(end) == 32 * w && MemoryGas(w) == TrueGas(w)
    ensures q.size > 0 && q.offset + q.size < TWO_64
  {
    hide MemoryGas, TrueGas;
    ChargeIsExactIff(EndWords(q));
  }

  lemma StepKeepsPaid(m: Mem, prevWords: nat, q: Request)
    requires Paid(m, prevWords) && InRange(q)
    ensures var m', w := Step(m, q), EndWords(q);
            && Paid(m', w)
            && m'.len / 32 == (if w > m.len / 32 then w else m.len / 32)
            && Charge(m, q) == (if w > prevWords then TrueGas(w) - TrueGas(prevWords) else 0)
  {
    hide TrueGas, MemoryGas, WordsFor, BytesNeeded, EndWords, InRange;
    var w := EndWords(q);
    RangeIsExact(q);
    SquareMonotone(prevWords, w);
    SquareMonotone(w, prevWords);
  }

  function LastWords(rs: seq<Request>): nat {
    if rs == [] then 0 else EndWords(rs[|rs| - 1])
  }

  lemma {:induction false} RequestsKeepPaid(rs: seq<Request>)
    requires forall i :: 0 <= i < |rs| ==> InRange(rs[i])
    ensures var (m, total) := RunRequests(Mem(0, 0), rs);
            Paid(m, LastWords(rs)) && total >= TrueGas(m.len / 32)
    decreases |rs|
  {
    if rs != [] {
      hide TrueGas, Step, Charge, EndWords, InRange;
      var front, q := rs[..|rs| - 1], rs[|rs| - 1];
      RequestsKeepPaid(front);
      var m := RunRequests(Mem(0, 0), front).0;
      StepKeepsPaid(m, LastWords(front), q);
      SquareMonotone(LastWords(front), m.len / 32);
    }
  }

  lemma {:induction false} GrowingRequestsPayExactly(rs: seq<Request>)
    requires forall i :: 0 <= i < |rs| ==> InRange(rs[i])
    requires NeverShrinks(rs)
    ensures var (m, total) := RunRequests(Mem(0, 0), rs);
            m.len / 32 == LastWords(rs) && total == TrueGas(m.len / 32)
    decreases |rs|
  {
    if rs != [] {
      var front, q := rs[..|rs| - 1], rs[|rs| - 1];
      if front != [] {
        assert rs[|rs| - 2].offset + rs[|rs| - 2].size <= q.offset + q.size;
        EndsOrdered(rs[|rs| - 2], q);
      }
      assert NeverShrinks(front);
      hide TrueGas, Step, Charge, EndWords, InRange, NeverShrinks;
      GrowingRequestsPayExactly(front);
      RequestsKeepPaid(front);
      var m := RunRequests(Mem(0, 0), front).0;
      StepKeepsPaid(m, LastWords(front), q);
    }
  }

  lemma EndsOrdered(p: Request, q: Request)
    requires p.offset + p.size <= q.offset + q.size
    ensures EndWords(p) <= EndWords(q)
  {
  }

  /** Whatever the order of requests, the gas taken covers the memory held; when request ends
      never shrink it is exactly the Yellow Paper's charge. */
  lemma ChargesCoverMemory(rs: seq<Request>)
    requires forall i :: 0 <= i < |rs| ==> InRange(rs[i])
    ensures var (m, total) := RunRequests(Mem(0, 0), rs);
            && total >= TrueGas(m.len / 32)
            && (NeverShrinks(rs) ==> total == TrueGas(m.len / 32))
  {
    RequestsKeepPaid(rs);
    if NeverShrinks(rs) {
      GrowingRequestsPayExactly(rs);
    }
  }

  // ---------- the bytes ----------

  class Memory {
    var data: array<Byte>
    var len: nat
    var lastGas: U64

    ghost predicate Valid()
      reads this, data
    {
      len <= data.Length && len % 32 == 0
    }

    /** Nothing but zeros beyond the end; true from New until the first Reset. */
    ghost predicate CleanTail()
      reads this, data
      requires Valid()
    {
      ExposesZeros(data.Length)
    }

    /** Growing in place to `end` would show nothing but zeros. */
    ghost predicate ExposesZeros(end: nat)
      reads this, data
      requires Valid()
    {
      forall i :: len <= i < end && i < data.Length ==> data[i] == 0
    }

    /** Growing to `end` keeps the byte map: it takes a new buffer, or what the old one holds
        beyond the end of the memory is zero as far as `end`. */
    ghost predicate GrowsClean(end: nat)
      reads this, data
      requires Valid()
    {
      end > data.Length || ExposesZeros(end)
    }

    /** The bytes a growth in place would show, those left by an earlier use included. */
    ghost function Buffered(i: nat): Byte
      reads this, data
      requires Valid()
    {
      if i < data.Length then data[i] else 0
    }

    /** Memory as the infinite zero-initialised byte map it stands for. */
    ghost function ByteAt(i: nat): Byte
      reads this, data
      requires Valid()
    {
      if i < len then data[i] else 0
    }

    ghost function View(): Mem
      reads this
    {
      Mem(len, lastGas)
    }

    constructor ()
      ensures Valid() && CleanTail() && View() == Mem(0, 0) && fresh(data)
      ensures forall i: nat :: ByteAt(i) == 0
    {
      data := new Byte[4096](_ => 0);
      len, lastGas := 0, 0;
    }

    /** Keeps the old bytes, so a later growth may expose them. The tail is clean afterwards
        exactly when the whole buffer was zero. */
    method Reset()
      requires Valid()
      modifies this
      ensures Valid() && View() == Mem(0, 0) && data == old(data)
      ensures forall i: nat :: Buffered(i) == old(Buffered(i))
      ensures CleanTail() <==> forall i: nat :: old(Buffered(i)) == 0
    {
      len, lastGas := 0, 0;
      assert forall i :: 0 <= i < data.Length ==> data[i] == Buffered(i);
    }

    /** The growth of Expand: in place when the buffer is long enough, else into a new one. */
    method Grow(need: nat)
      requires Valid() && need > len && need % 32 == 0
      modifies this
      ensures Valid() && (old(CleanTail()) ==> CleanTail())
      ensures len == need && lastGas == old(lastGas)
      ensures if need <= old(data.Length) then data == old(data) else fresh(data)
      ensures forall i: nat :: ByteAt(i) == if i < old(len) then old(ByteAt(i))
                                            else if i < need <= old(data.Length) then old(Buffered(i)) else 0
      ensures forall i: nat :: Buffered(i) == if i < old(len) || data == old(data) then old(Buffered(i)) else 0
      ensures (forall i: nat :: ByteAt(i) == old(ByteAt(i))) <==> old(GrowsClean(need))
    {
      if need > data.Length {
        var newCap := data.Length * 2;
        if newCap < need {
          newCap := need;
        }
        var buf := new Byte[newCap](_ => 0);
        for i := 0 to len
          invariant unchanged(this) && Valid() && data[..] == old(data[..])
          invariant fresh(buf) && buf.Length == newCap
          invariant forall j :: 0 <= j < i ==> buf[j] == data[j]
          invariant forall j :: i <= j < newCap ==> buf[j] == 0
        {
          buf[i] := data[i];
        }
        data := buf;
      }
      len := need;
      assert forall i: nat :: i < old(len) ==> ByteAt(i) == old(ByteAt(i));
      assert forall i: nat :: old(len) <= i < len && i < old(data.Length) ==> old(Buffered(i)) == old(data[i]);
    }

    /** A granted request keeps every byte the memory had. What it adds is what the buffer
        holds when it grows in place, and zeros when it takes a new one. */
    method Expand(offset: U64, size: U64, gasLeft: U64) returns (ok: bool, gas: U64)
      requires Valid()
      modifies this
      ensures Valid() && (old(CleanTail()) ==> CleanTail())
      ensures data == old(data) || fresh(data)
      ensures ok && len > old(len) ==> (data == old(data) <==> len <= old(data.Length))
      ensures ok <==> ExpandMem(old(View()), offset, size, gasLeft).Some?
      ensures ok ==> ExpandMem(old(View()), offset, size, gasLeft) == Some((View(), gas))
      ensures !ok ==> View() == old(View()) && gas == gasLeft
      ensures ok && size > 0 ==> (offset + size <= len <==> !TooFar(old(View()), offset, size))
      ensures forall i: nat :: ByteAt(i) == if i < old(len) then old(ByteAt(i))
                                            else if i < len <= old(data.Length) then old(Buffered(i)) else 0
      ensures forall i: nat :: Buffered(i) == if i < old(len) || data == old(data) then old(Buffered(i)) else 0
      ensures var end := len;
              (forall i: nat :: ByteAt(i) == old(ByteAt(i))) <==> old(GrowsClean(end))
      ensures old(CleanTail()) ==> forall i: nat :: ByteAt(i) == old(ByteAt(i))
    {
      hide MemoryGas, BytesNeeded, WordsFor, TooFar;
      ok, gas := true, gasLeft;
      if size == 0 {
        return;
      }
      var cost := ExpansionCost(Mem(len, lastGas), offset, size);
      if cost.None? || cost.value > gasLeft {
        return false, gasLeft;
      }
      gas := gasLeft - cost.value;
      GrantedIsCoveredIff(View(), offset, size, gasLeft);
      var newSize := offset + size;
      lastGas := MemoryGas(WordsFor(newSize));
      var need := BytesNeeded(newSize);
      if need > len {
        Grow(need);
      }
    }

    method SetByte(offset: U64, b: Byte)
      requires Valid() && offset < len
      modifies data
      ensures Valid() && (old(CleanTail()) ==> CleanTail())
      ensures forall i: nat :: Buffered(i) == (if i < len then ByteAt(i) else old(Buffered(i)))
      ensures forall i: nat :: ByteAt(i) == if i == offset then b else old(ByteAt(i))
    {
      data[offset] := b;
    }

    /** MSTORE's write: 32 bytes at `offset`. */
    method Set32(offset: U64, val: seq<Byte>)
      requires Valid() && offset + 32 <= len && |val| == 32
      modifies data
      ensures Valid() && (old(CleanTail()) ==> CleanTail())
      ensures forall i: nat :: Buffered(i) == (if i < len then ByteAt(i) else old(Buffered(i)))
      ensures forall i: nat :: ByteAt(i) == if offset <= i < offset + 32 then val[i - offset] else old(ByteAt(i))
    {
      for k := 0 to 32
        invariant forall i :: 0 <= i < data.Length ==>
                    data[i] == if offset <= i < offset + k then val[i - offset] else old(data[i])
      {
        data[offset + k] := val[k];
      }
    }

    method GetCopy(offset: U64, size: U64) returns (r: seq<Byte>)
      requires Valid() && (size > 0 ==> offset + size <= len)
      ensures |r| == size && forall i :: 0 <= i < size ==> r[i] == ByteAt(offset + i)
    {
      r := if size == 0 then [] else data[offset..offset + size];
    }
  }

  lemma FirstWord()
    ensures ExpandMem(Mem(0, 0), 0, 32, 3) == Some((Mem(32, 3), 0))
  {
    assert BytesNeeded(32) == 32 && MemoryGas(WordsFor(32)) == 3;
  }

  /** A frame that takes over a used memory sees its old bytes: memory does not read as zero
      after Reset. */
  method ReuseShowsOldByte() returns (b: Byte)
    ensures b == 1
  {
    hide ExpandMem;
    FirstWord();
    var m := new Memory();
    var ok, gas := m.Expand(0, 32, 3);
    m.SetByte(0, 1);
    m.Reset();
    ok, gas := m.Expand(0, 32, 3);
    var r := m.GetCopy(0, 1);
    b := r[0];
  }
}
