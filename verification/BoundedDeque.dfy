/** `collections.deque(maxlen=n)`: appending to a full deque drops the oldest element. */
module BoundedDeque {

  function Push<T>(maxlen: nat, d: seq<T>, x: T): seq<T> {
    if maxlen == 0 then []
    else if |d| < maxlen then d + [x]
    else d[|d| - maxlen + 1..] + [x]
  }

  /** `ys` are the last `n` elements of `xs`, in order, or all of them if there are fewer. */
  ghost predicate AreLatest<T>(ys: seq<T>, n: nat, xs: seq<T>) {
    && |ys| == (if |xs| <= n then |xs| else n)
    && forall i {:trigger ys[i]} | 0 <= i < |ys| :: ys[i] == xs[|xs| - |ys| + i]
  }

  function Latest<T>(n: nat, xs: seq<T>): (ys: seq<T>)
    ensures AreLatest(ys, n, xs)
  {
    if |xs| <= n then xs else xs[|xs| - n..]
  }

  /** The new element comes last, and only the oldest one makes room for it. */
  lemma PushKeepsNewest<T>(maxlen: nat, d: seq<T>, x: T)
    requires |d| <= maxlen
    ensures AreLatest(Push(maxlen, d, x), maxlen, d + [x])
  {}

  /** A bounded deque always holds the latest elements of everything ever appended. */
  lemma PushKeepsLatest<T>(n: nat, xs: seq<T>, x: T)
    ensures Push(n, Latest(n, xs), x) == Latest(n, xs + [x])
  {}
}
