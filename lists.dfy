/** Sequence helpers: occurrence counts, Python's `list.reverse()` and popping a stack back to a marker. */
module Lists {
  import opened Wrappers

  /** How often `x` occurs in `s`. */
  function Count<T(==)>(s: seq<T>, x: T): (n: nat)
    ensures n <= |s|
    ensures n == 0 <==> x !in s
  {
    if s == [] then 0 else (if s[0] == x then 1 else 0) + Count(s[1..], x)
  }

  lemma {:induction false} CountAppend<T>(a: seq<T>, b: seq<T>, x: T)
    ensures Count(a + b, x) == Count(a, x) + Count(b, x)
    decreases |a|
  {
    if a == [] {
      assert a + b == b;
    } else {
      assert (a + b)[0] == a[0];
      assert (a + b)[1..] == a[1..] + b;
      CountAppend(a[1..], b, x);
    }
  }

  function Reverse<T>(s: seq<T>): (r: seq<T>)
    ensures |r| == |s|
    ensures forall k :: 0 <= k < |s| ==> r[k] == s[|s| - 1 - k]
  {
    if s == [] then [] else Reverse(s[1..]) + [s[0]]
  }

  lemma ReverseAppendOne<T>(s: seq<T>, x: T)
    ensures Reverse(s + [x]) == [x] + Reverse(s)
  {
  }

  lemma ReverseMembers<T>(s: seq<T>)
    ensures forall x :: x in Reverse(s) <==> x in s
  {
    forall x | x in s ensures x in Reverse(s) {
      var k :| 0 <= k < |s| && s[k] == x;
      assert Reverse(s)[|s| - 1 - k] == x;
    }
  }

  /**
   * Pop `stack` (top at the end) back to the nearest `marker`: the entries
   * above it, in the order they were pushed, and the stack below it; `None`
   * when the stack runs out first.
   */
  function PopUntil<T(==)>(stack: seq<T>, marker: T): (r: Option<(seq<T>, seq<T>)>)
    ensures r.Some? ==> stack == r.value.1 + [marker] + r.value.0 && marker !in r.value.0
    ensures r.None? <==> marker !in stack
    decreases |stack|
  {
    if stack == [] then None
    else
      var top := stack[|stack| - 1];
      var below := stack[..|stack| - 1];
      assert stack == below + [top];
      if top == marker then Some(([], below))
      else
        match PopUntil(below, marker)
        case None => None
        case Some(p) => Some((p.0 + [top], p.1))
  }

  /** The decomposition `rest + [marker] + items` is the one `PopUntil` finds. */
  lemma {:induction false} PopUntilSplit<T>(rest: seq<T>, marker: T, items: seq<T>)
    requires marker !in items
    ensures PopUntil(rest + [marker] + items, marker) == Some((items, rest))
    decreases |items|
  {
    var stack := rest + [marker] + items;
    if items == [] {
      assert stack[..|stack| - 1] == rest;
    } else {
      var n := |items|;
      assert stack[|stack| - 1] == items[n - 1];
      assert stack[..|stack| - 1] == rest + [marker] + items[..n - 1];
      PopUntilSplit(rest, marker, items[..n - 1]);
      assert items[..n - 1] + [items[n - 1]] == items;
    }
  }

  /**
   * The pop loop: pop entries into a list until the marker comes off, then
   * reverse the list so that it is in push order.
   */
  method PopTo<T(==)>(stack0: seq<T>, marker: T) returns (items: Option<seq<T>>, stack: seq<T>)
    ensures PopUntil(stack0, marker).None? ==> items.None?
    ensures PopUntil(stack0, marker).Some? ==>
      items == Some(PopUntil(stack0, marker).value.0) && stack == PopUntil(stack0, marker).value.1
  {
    stack := stack0;
    var li: seq<T> := [];
    if stack == [] {
      return None, stack;
    }
    var val := stack[|stack| - 1];
    stack := stack[..|stack| - 1];
    while val != marker
      invariant stack0 == stack + [val] + Reverse(li)
      invariant marker !in li
      decreases |stack|
    {
      ReverseAppendOne(li, val);
      li := li + [val];
      if stack == [] {
        ReverseMembers(li);
        return None, stack;
      }
      val := stack[|stack| - 1];
      stack := stack[..|stack| - 1];
    }
    ReverseMembers(li);
    PopUntilSplit(stack, marker, Reverse(li));
    li := Reverse(li);
    return Some(li), stack;
  }
}
