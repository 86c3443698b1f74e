/** The sample functions of test-data/sample-code/code-samples.py, with their
    deliberate defects kept as written: the "stack" pops and peeks at the
    front of its list, and `is_empty` answers the opposite question. */
module CodeSamples {
  import opened Wrappers

  // ---------------------------------------------------------------------------
  // fibonacci

  /** The Fibonacci numbers, starting 0, 1. */
  function Fib(k: nat): nat
  {
    if k < 2 then k else Fib(k - 1) + Fib(k - 2)
  }

  /** `fibonacci(n)`: the first `n` Fibonacci numbers; none for `n <= 0`. */
  method Fibonacci(n: int) returns (fib: seq<nat>)
    ensures |fib| == (if n <= 0 then 0 else n)
    ensures forall k {:trigger fib[k]} :: 0 <= k < |fib| ==> fib[k] == Fib(k)
  {
    if n <= 0 {
      return [];
    } else if n == 1 {
      return [0];
    } else if n == 2 {
      return [0, 1];
    }
    fib := [0, 1];
    var i := 2;
    while i < n
      invariant 2 <= i <= n
      invariant |fib| == i
      invariant forall k {:trigger fib[k]} :: 0 <= k < i ==> fib[k] == Fib(k)
    {
      var next := fib[i - 1] + fib[i - 2];
      FibStep(i);
      fib := fib + [next];
      i := i + 1;
    }
  }

  lemma FibStep(i: nat)
    requires i >= 2
    ensures Fib(i) == Fib(i - 1) + Fib(i - 2)
  {
  }

  // ---------------------------------------------------------------------------
  // slow_search

  /** `slow_search(arr, target)`: the indices holding `target`, ascending.
      The inner loop breaks on its first turn whenever it appends. */
  method SlowSearch<T(==)>(arr: seq<T>, target: T) returns (found: seq<nat>)
    ensures forall k :: 0 <= k < |found| ==> found[k] < |arr| && arr[found[k]] == target
    ensures forall i :: 0 <= i < |arr| && arr[i] == target ==> i in found
    ensures forall k, l :: 0 <= k < l < |found| ==> found[k] < found[l]
  {
    found := [];
    var i := 0;
    while i < |arr|
      invariant 0 <= i <= |arr|
      invariant forall k :: 0 <= k < |found| ==> found[k] < i && arr[found[k]] == target
      invariant forall m :: 0 <= m < i && arr[m] == target ==> m in found
      invariant forall k, l :: 0 <= k < l < |found| ==> found[k] < found[l]
    {
      ghost var before := found;
      var j := 0;
      while j < |arr|
        invariant 0 <= j <= |arr|
        invariant found == before
        invariant j > 0 ==> arr[i] != target
      {
        if arr[i] == target {
          found := found + [i];
          break;
        }
        j := j + 1;
      }
      i := i + 1;
    }
  }

  // ---------------------------------------------------------------------------
  // BuggyStack

  class BuggyStack<T> {
    var items: seq<T>

    constructor()
      ensures items == []
    {
      items := [];
    }

    /** `push`: appends at the back. */
    method Push(item: T)
      modifies this
      ensures items == old(items) + [item]
    {
      items := items + [item];
    }

    /** `pop`: `None` when empty, otherwise removes and returns the FRONT
        item, i.e. the oldest one. */
    method Pop() returns (r: Option<T>)
      modifies this
      ensures old(items) == [] ==> r == None && items == []
      ensures old(items) != [] ==> r == Some(old(items)[0]) && items == old(items)[1..]
    {
      if |items| == 0 {
        return None;
      }
      r := Some(items[0]);
      items := items[1..];
    }

    /** `peek`: the front item; indexing an empty list raises `IndexError`. */
    function Peek(): (r: Result<T, string>)
      reads this
      ensures r.Ok? <==> |items| > 0
      ensures r.Ok? ==> r.value == items[0]
      ensures r.Err? ==> r.error == "list index out of range"
    {
      if |items| == 0 then Err("list index out of range") else Ok(items[0])
    }

    /** `is_empty`: true exactly when the stack holds something. */
    function IsEmpty(): (b: bool)
      reads this
      ensures b <==> items != []
    {
      |items| > 0
    }
  }

  /** Two pushes on a new stack and one pop: the new stack says it is not
      empty, the pop returns the first item pushed, and the peek then sees
      the second; the stack, holding one item, says it is empty. */
  method StackScenario<T>(x: T, y: T) returns (emptyAtStart: bool, popped: Option<T>, peeked: Result<T, string>, emptyAtEnd: bool)
    ensures !emptyAtStart
    ensures popped == Some(x)
    ensures peeked == Ok(y)
    ensures emptyAtEnd
  {
    var s := new BuggyStack<T>();
    emptyAtStart := s.IsEmpty();
    s.Push(x);
    s.Push(y);
    popped := s.Pop();
    peeked := s.Peek();
    emptyAtEnd := s.IsEmpty();
  }

  /** Popping after pushing `xs` on an empty stack returns them in the order
      they were pushed (first in, first out). */
  method PopAll<T>(s: BuggyStack<T>, xs: seq<T>) returns (out: seq<T>)
    requires s.items == []
    modifies s
    ensures out == xs && s.items == []
  {
    var i := 0;
    while i < |xs|
      invariant 0 <= i <= |xs| && s.items == xs[..i]
    {
      s.Push(xs[i]);
      assert xs[..i + 1] == xs[..i] + [xs[i]];
      i := i + 1;
    }
    out := [];
    while s.items != []
      invariant out + s.items == xs
      decreases |s.items|
    {
      var r := s.Pop();
      out := out + [r.value];
    }
  }

  // ---------------------------------------------------------------------------
  // undocumented_function

  /** An element of `data`: a number (an `int`; a `bool` counts as 0 or 1)
      or anything else. */
  datatype Item = Number(n: int) | Other

  /** What the loop appends from `data` on, with running total `temp`: a
      total above `threshold` is emitted and restarts at 0; a non-number
      emits a positive total and restarts at 0; a leftover total at the end
      is dropped. */
  function Chunks(data: seq<Item>, threshold: int, temp: int): seq<int>
    decreases |data|
  {
    if |data| == 0 then []
    else match data[0]
      case Number(n) =>
        if temp + n > threshold then [temp + n] + Chunks(data[1..], threshold, 0)
        else Chunks(data[1..], threshold, temp + n)
      case Other =>
        (if temp > 0 then [temp] else []) + Chunks(data[1..], threshold, 0)
  }

  /** The running total the loop ends with, which is never emitted. */
  function Leftover(data: seq<Item>, threshold: int, temp: int): int
    decreases |data|
  {
    if |data| == 0 then temp
    else match data[0]
      case Number(n) =>
        if temp + n > threshold then Leftover(data[1..], threshold, 0)
        else Leftover(data[1..], threshold, temp + n)
      case Other => Leftover(data[1..], threshold, 0)
  }

  /** `undocumented_function(data, threshold)`. */
  method UndocumentedFunction(data: seq<Item>, threshold: int) returns (result: seq<int>)
    ensures result == Chunks(data, threshold, 0)
  {
    result := [];
    var temp := 0;
    var i := 0;
    while i < |data|
      invariant 0 <= i <= |data|
      invariant Chunks(data, threshold, 0) == result + Chunks(data[i..], threshold, temp)
    {
      assert data[i..][1..] == data[i + 1..];
      match data[i] {
        case Number(n) =>
          temp := temp + n;
          if temp > threshold {
            result := result + [temp];
            temp := 0;
          }
        case Other =>
          if temp > 0 {
            result := result + [temp];
          }
          temp := 0;
      }
      i := i + 1;
    }
  }

  /** `threshold` defaults to 10. */
  method UndocumentedFunctionDefault(data: seq<Item>) returns (result: seq<int>)
    ensures result == Chunks(data, 10, 0)
  {
    result := UndocumentedFunction(data, 10);
  }

  /** At most one value per element, and each emitted value is either above
      the threshold or a positive total flushed by a non-number. */
  lemma {:induction false} ChunksBounds(data: seq<Item>, threshold: int, temp: int)
    ensures |Chunks(data, threshold, temp)| <= |data|
    ensures forall k :: 0 <= k < |Chunks(data, threshold, temp)| ==>
              Chunks(data, threshold, temp)[k] > threshold || Chunks(data, threshold, temp)[k] > 0
    decreases |data|
  {
    if |data| > 0 {
      match data[0]
      case Number(n) =>
        ChunksBounds(data[1..], threshold, 0);
        ChunksBounds(data[1..], threshold, temp + n);
      case Other =>
        ChunksBounds(data[1..], threshold, 0);
    }
  }

  /** With numbers only, every emitted value is a running total that passed
      the threshold. */
  lemma {:induction false} NumberChunksExceedThreshold(data: seq<Item>, threshold: int, temp: int)
    requires forall k :: 0 <= k < |data| ==> data[k].Number?
    ensures forall k :: 0 <= k < |Chunks(data, threshold, temp)| ==> Chunks(data, threshold, temp)[k] > threshold
    decreases |data|
  {
    if |data| > 0 {
      var n := data[0].n;
      NumberChunksExceedThreshold(data[1..], threshold, 0);
      NumberChunksExceedThreshold(data[1..], threshold, temp + n);
    }
  }

  function Sum(xs: seq<int>): int
    decreases |xs|
  {
    if |xs| == 0 then 0 else xs[0] + Sum(xs[1..])
  }

  function NumberTotal(data: seq<Item>): int
    decreases |data|
  {
    if |data| == 0 then 0 else (if data[0].Number? then data[0].n else 0) + NumberTotal(data[1..])
  }

  /** With numbers only, nothing is lost: what is emitted plus the dropped
      leftover is the starting total plus all the numbers. */
  lemma {:induction false} NumbersConserved(data: seq<Item>, threshold: int, temp: int)
    requires forall k :: 0 <= k < |data| ==> data[k].Number?
    ensures Sum(Chunks(data, threshold, temp)) + Leftover(data, threshold, temp) == temp + NumberTotal(data)
    decreases |data|
  {
    if |data| > 0 {
      var n := data[0].n;
      NumbersConserved(data[1..], threshold, 0);
      NumbersConserved(data[1..], threshold, temp + n);
      if temp + n > threshold {
        assert Chunks(data, threshold, temp) == [temp + n] + Chunks(data[1..], threshold, 0);
      }
    }
  }

  /** A total that never passes the threshold is dropped at the end. */
  lemma SmallTotalDropped()
    ensures Chunks([Number(5)], 10, 0) == []
    ensures Chunks([Number(5), Number(6)], 10, 0) == [11]
    ensures Chunks([Number(3), Other, Number(-2), Other], 10, 0) == [3]
  {
    assert [Number(5), Number(6)][1..] == [Number(6)];
    assert [Number(3), Other, Number(-2), Other][1..] == [Other, Number(-2), Other];
    assert [Other, Number(-2), Other][1..] == [Number(-2), Other];
    assert [Number(-2), Other][1..] == [Other];
  }
}
