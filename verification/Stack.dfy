/** stack/stack.go: a fixed array of 1024 words and an index, refining a bounded sequence.

    A popped operand is a pointer into the array; here it is the index it points at. */
module Stack {
  import opened Types

  const MAX_DEPTH := 1024

  datatype StackError = Overflow | Underflow

  datatype Result = Ok(stack: seq<Word>) | Err(error: StackError)

  // The sequence the array stands for; the top is its last element.

  function PushSeq(s: seq<Word>, v: Word): Result {
    if |s| == MAX_DEPTH then Err(Overflow) else Ok(s + [v])
  }

  function Dup(s: seq<Word>, n: nat): Result
    requires n > 0
  {
    if |s| < n then Err(Underflow) else if |s| == MAX_DEPTH then Err(Overflow) else Ok(s + [s[|s| - n]])
  }

  function Swap(s: seq<Word>, n: nat): Result {
    if |s| < n + 1 then Err(Underflow)
    else
      var top, deep := |s| - 1, |s| - 1 - n;
      Ok(s[top := s[deep]][deep := s[top]])
  }

  /** SwapN undoes itself and permutes. */
  lemma SwapTwice(s: seq<Word>, n: nat)
    requires Swap(s, n).Ok?
    ensures Swap(Swap(s, n).stack, n) == Ok(s)
    ensures multiset(Swap(s, n).stack) == multiset(s)
  {
    var t := Swap(s, n).stack;
    assert |t| == |s|;
    assert Swap(t, n).stack == s;
  }

  class Stack {
    var data: array<Word>
    var top: nat

    ghost predicate Valid()
      reads this
    {
      data.Length == MAX_DEPTH && top <= MAX_DEPTH
    }

    ghost function Contents(): seq<Word>
      reads this, data
      requires Valid()
    {
      data[..top]
    }

    constructor ()
      ensures Valid() && fresh(data) && Contents() == []
    {
      data := new Word[MAX_DEPTH](_ => 0);
      top := 0;
    }

    method Push(v: Word) returns (err: Option<StackError>)
      requires Valid()
      modifies this, data
      ensures Valid() && data == old(data)
      ensures match PushSeq(old(Contents()), v)
              case Ok(s) => err == None && Contents() == s
              case Err(e) => err == Some(e) && Contents() == old(Contents())
      ensures forall i :: 0 <= i < MAX_DEPTH && i != old(top) ==> data[i] == old(data[i])
    {
      if top == MAX_DEPTH {
        return Some(Overflow);
      }
      data[top] := v;
      top := top + 1;
      err := None;
    }

    /** Pop moves the index only: the word stays in its cell. */
    method Pop() returns (ptr: Option<nat>)
      requires Valid()
      modifies `top
      ensures Valid()
      ensures old(top) == 0 ==> ptr == None && top == 0
      ensures old(top) > 0 ==> ptr == Some(top) && top == old(top) - 1
                               && old(Contents()) == Contents() + [data[top]]
    {
      if top == 0 {
        return None;
      }
      top := top - 1;
      ptr := Some(top);
    }

    method SwapN(n: nat) returns (err: Option<StackError>)
      requires Valid()
      modifies data
      ensures Valid()
      ensures match Swap(old(Contents()), n)
              case Ok(s) => err == None && Contents() == s
              case Err(e) => err == Some(e) && Contents() == old(Contents())
    {
      if top < n + 1 {
        return Some(Underflow);
      }
      data[top - 1], data[top - 1 - n] := data[top - 1 - n], data[top - 1];
      err := None;
    }

    method DupN(n: nat) returns (err: Option<StackError>)
      requires Valid() && n > 0
      modifies this, data
      ensures Valid() && data == old(data)
      ensures match Dup(old(Contents()), n)
              case Ok(s) => err == None && Contents() == s
              case Err(e) => err == Some(e) && Contents() == old(Contents())
    {
      if top < n {
        return Some(Underflow);
      }
      if top == MAX_DEPTH {
        return Some(Overflow);
      }
      data[top] := data[top - n];
      top := top + 1;
      err := None;
    }

    /** Back has no bounds check of its own; the caller must have the operands. */
    method Back(n: nat) returns (v: Word)
      requires Valid() && n < top
      ensures v == Contents()[|Contents()| - 1 - n]
    {
      v := data[top - 1 - n];
    }

    /** Operands popped one after another, as execCall and execCreate do: read through their
        pointers at the end, they are still the words that were on the stack, top first. */
    method PopOperands(n: nat) returns (ptrs: seq<nat>)
      requires Valid() && n <= top
      modifies `top
      ensures Valid() && |ptrs| == n && Contents() == old(Contents())[..old(top) - n]
      ensures forall k :: 0 <= k < n ==>
                ptrs[k] < MAX_DEPTH && data[ptrs[k]] == old(Contents())[old(top) - 1 - k]
    {
      ptrs := [];
      for i := 0 to n
        invariant Valid() && top == old(top) - i && |ptrs| == i
        invariant forall k :: 0 <= k < i ==> ptrs[k] == old(top) - 1 - k
      {
        var p := Pop();
        ptrs := ptrs + [p.value];
      }
    }

    /** The next push overwrites the operand popped last and no other. */
    method PushAfterPops(ptrs: seq<nat>, v: Word)
      requires Valid() && top < MAX_DEPTH
      requires forall k :: 0 <= k < |ptrs| ==> ptrs[k] == top + |ptrs| - 1 - k < MAX_DEPTH
      modifies this, data
      ensures Valid() && data == old(data) && Contents() == old(Contents()) + [v]
      ensures forall k :: 0 <= k < |ptrs| - 1 ==> data[ptrs[k]] == old(data[ptrs[k]])
      ensures ptrs != [] ==> data[ptrs[|ptrs| - 1]] == v
    {
      var _ := Push(v);
    }
  }
}
