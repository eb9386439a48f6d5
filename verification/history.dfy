/**
  `History<T>`: a fixed-size ring buffer of the most recent samples.

  `tail` is the slot the next push writes, so once the buffer is full it
  is also the oldest sample; `last` is the slot of the newest sample. The
  source mutates the buffer in place; here `Push` returns the new value.

  `FromPushes(n, xs)` is the history a buffer of size `n` holds after the
  pushes `xs`, oldest first. The lemmas at the end read every accessor
  back in terms of `xs`: the buffer keeps exactly the last `n` pushes.
 */
module History {
  import opened Wrappers

  datatype History<T> = History(buffer: seq<Option<T>>, last: nat, tail: nat, size: nat)

  /** The shape every history keeps: one slot per unit of size, indices inside. */
  predicate Valid<T>(h: History<T>) {
    && |h.buffer| == h.size
    && (h.size == 0 ==> h.last == 0 && h.tail == 0)
    && (0 < h.size ==> h.last < h.size && h.tail < h.size)
  }

  /** `new`: `size` empty slots, both cursors at slot 0. */
  function New<T>(size: nat): (h: History<T>)
    ensures Valid(h) && h.size == size
    ensures h.last == 0 && h.tail == 0
    ensures forall j :: 0 <= j < size ==> h.buffer[j] == None
  {
    History(seq(size, _ => None), 0, 0, size)
  }

  /**
    `push`: stores the item at `tail`, makes that slot the newest and
    advances `tail` round the ring. The source then moves `last` on when
    it meets `tail`, which only happens for a one-slot buffer, where the
    move lands back on the same slot: `last` always ends on the new item.
    A buffer of size zero has no slot to write and the source panics.
   */
  function Push<T>(h: History<T>, item: T): (h': History<T>)
    requires Valid(h) && 0 < h.size
    ensures Valid(h') && h'.size == h.size
    ensures h'.buffer[h.tail] == Some(item)
    ensures h'.last == h.tail && h'.tail == (h'.last + 1) % h'.size
    ensures h'.tail == if h.tail + 1 == h.size then 0 else h.tail + 1
    ensures forall j :: 0 <= j < h.size && j != h.tail ==> h'.buffer[j] == h.buffer[j]
  {
    ModStep(h.tail, h.size);
    var buffer := h.buffer[h.tail := Some(item)];
    var last := h.tail;
    var tail := (h.tail + 1) % h.size;
    var last := if tail == last then (last + 1) % h.size else last;
    History(buffer, last, tail, h.size)
  }

  /** `get`: the slot `index` places after `tail`, counting round the ring. */
  function Get<T(!new)>(h: History<T>, index: nat): (r: Option<T>)
    requires Valid(h) && 0 < h.size
    ensures r == h.buffer[Slot(h.tail, h.size, h.size - index % h.size)]
    ensures forall xs: seq<T> {:trigger Holds(h, xs)} :: Holds(h, xs) && index < h.size ==>
      r == if |xs| - h.size + index >= 0 then Some(xs[|xs| - h.size + index]) else None
  {
    ModSum(h.tail, index, h.size);
    GetReadsPushes(h, index);
    h.buffer[(h.tail + index) % h.size]
  }

  /**
    For any pushes a history holds, slot `index` after `tail` holds the
    push made `size - index` pushes ago, or nothing when fewer were made.
   */
  lemma GetReadsPushes<T>(h: History<T>, index: nat)
    requires Valid(h) && 0 < h.size
    ensures forall xs: seq<T> {:trigger Holds(h, xs)} :: Holds(h, xs) && index < h.size ==>
      h.buffer[(h.tail + index) % h.size] ==
        if |xs| - h.size + index >= 0 then Some(xs[|xs| - h.size + index]) else None
  {
    forall xs: seq<T> | Holds(h, xs) && index < h.size
      ensures h.buffer[(h.tail + index) % h.size] ==
        if |xs| - h.size + index >= 0 then Some(xs[|xs| - h.size + index]) else None
    {
      ModSum(h.tail, index, h.size);
      ModSmall(index, h.size);
      SlotValue(h.tail, h.size, h.size - index);
      var d := h.size - index;
      if d <= |xs| {
        assert 1 <= d <= Min(|xs|, h.size);
      } else {
        assert |xs| <= h.tail + index < h.size;
      }
    }
  }

  /**
    `get_from_end`: the slot `index` places before `last`. The source
    computes `size + last - index` in unsigned arithmetic, so an index
    beyond `size + last` panics; the precondition excludes it.
   */
  function GetFromEnd<T(!new)>(h: History<T>, index: nat): (r: Option<T>)
    requires Valid(h) && 0 < h.size
    requires index <= h.size + h.last
    ensures index < h.size ==> r == h.buffer[Slot(h.last, h.size, index)]
    ensures h.size <= index ==> r == h.buffer[h.size + h.last - index]
    ensures h.tail == (h.last + 1) % h.size && index < h.size ==> r == Get(h, h.size - 1 - index)
  {
    var r := h.buffer[(h.size + h.last - index) % h.size];
    if index < h.size then
      ModSlot(h.last, h.size, index);
      BackIsForward(h, index);
      r
    else
      ModSmall(h.size + h.last - index, h.size);
      r
  }

  /**
    When `tail` sits just after `last`, as every push leaves it, stepping
    back `index` slots from `last` lands where stepping forward
    `size - 1 - index` slots from `tail` does.
   */
  lemma BackIsForward<T>(h: History<T>, index: nat)
    requires Valid(h) && 0 < h.size && index < h.size
    ensures h.tail == (h.last + 1) % h.size ==>
      (h.tail + (h.size - 1 - index)) % h.size == (h.size + h.last - index) % h.size
  {
    ModStep(h.last, h.size);
    if h.tail == (h.last + 1) % h.size && h.last + 1 == h.size {
      ModShift(h.size - 1 - index, h.size);
    }
  }

  /** `last`: the newest slot. */
  function Last<T(!new)>(h: History<T>): (r: Option<T>)
    requires Valid(h) && 0 < h.size
    ensures r == GetFromEnd(h, 0)
  {
    ModOnce(h.size + h.last, h.size);
    h.buffer[h.last]
  }

  /** `size`: the capacity fixed at construction. */
  function Size<T>(h: History<T>): (n: nat)
    ensures n == |h.buffer| || !Valid(h)
  {
    h.size
  }

  /** The slot `back` places before slot `t` on a ring of `n` slots. */
  function Slot(t: nat, n: nat, back: nat): nat
    requires t < n && back <= n
  {
    (t + n - back) % n
  }

  lemma ModSmall(x: nat, n: nat)
    requires x < n
    ensures x % n == x
  {
  }

  /** One step forward round a ring of `n` slots wraps only from the last slot. */
  lemma ModStep(t: nat, n: nat)
    requires t < n
    ensures (t + 1) % n == if t + 1 == n then 0 else t + 1
  {
    if t + 1 == n {
      ModOnce(t + 1, n);
    } else {
      ModSmall(t + 1, n);
    }
  }

  lemma ModOnce(x: nat, n: nat)
    requires n <= x < 2 * n
    ensures x % n == x - n
  {
  }

  /** Stepping back from slot `t` never needs more than one turn of the ring. */
  lemma {:induction false} SlotValue(t: nat, n: nat, back: nat)
    requires t < n && back <= n
    ensures Slot(t, n, back) == if back <= t then t - back else t + n - back
  {
    if back <= t {
      ModOnce(t + n - back, n);
    } else {
      ModSmall(t + n - back, n);
    }
  }

  /** Reaching forward `index` slots is stepping back `n - index % n` slots. */
  lemma {:induction false} ModSum(t: nat, index: nat, n: nat)
    requires t < n
    ensures (t + index) % n == Slot(t, n, n - index % n)
    decreases index
  {
    if n <= index {
      ModSum(t, index - n, n);
      ModShift(t + index - n, n);
      ModShift(index - n, n);
    } else {
      ModSmall(index, n);
      SlotValue(t, n, n - index);
      if t + index < n {
        ModSmall(t + index, n);
      } else {
        ModOnce(t + index, n);
      }
    }
  }

  /** One full turn of the ring changes nothing. */
  lemma ModShift(x: nat, n: nat)
    requires 0 < n
    ensures (x + n) % n == x % n
  {
    var q, r := x / n, x % n;
    assert x == q * n + r;
    assert x + n == (q + 1) * n + r;
    DivModUnique(x + n, n, q + 1, r);
  }

  /** Euclidean division has one quotient and one remainder. */
  lemma DivModUnique(x: nat, n: nat, q: int, r: int)
    requires 0 < n && 0 <= r < n && x == q * n + r
    ensures x % n == r
  {
    var q0, r0 := x / n, x % n;
    assert x == q0 * n + r0;
    var k := q - q0;
    assert k * n == r0 - r by {
      assert q * n - q0 * n == (q - q0) * n;
    }
    if k >= 1 {
      MulAtLeast(k, n);
    } else if k <= -1 {
      MulAtLeast(-k, n);
    }
  }

  lemma {:induction false} MulAtLeast(k: int, n: nat)
    requires 1 <= k && 0 < n
    ensures n <= k * n
  {
    if k > 1 {
      MulAtLeast(k - 1, n);
      assert k * n == (k - 1) * n + n;
    }
  }

  /** The `get_from_end` index arithmetic lands on `Slot`. */
  lemma ModSlot(last: nat, n: nat, index: nat)
    requires last < n && index < n
    ensures (n + last - index) % n == Slot(last, n, index)
  {
  }

  /** The history after pushing `xs`, oldest first, into an empty buffer of size `n`. */
  function FromPushes<T>(n: nat, xs: seq<T>): (h: History<T>)
    requires 0 < n
    ensures Valid(h) && h.size == n
    decreases |xs|
  {
    if |xs| == 0 then New(n) else Push(FromPushes(n, xs[..|xs| - 1]), xs[|xs| - 1])
  }

  function Min(a: nat, b: nat): nat {
    if a <= b then a else b
  }

  /**
    How a history holds the pushes `xs`: stepping `d` slots back from
    `tail` finds the `d`-th newest push, for as many pushes as fit;
    until the ring first fills, `tail` counts the pushes and the slots
    from there on are empty; `last` is one step back from `tail`.
   */
  ghost predicate Holds<T>(h: History<T>, xs: seq<T>) {
    && Valid(h) && 0 < h.size
    && (|xs| < h.size ==> h.tail == |xs| && forall j :: |xs| <= j < h.size ==> h.buffer[j] == None)
    && (forall d {:trigger Slot(h.tail, h.size, d)} :: 1 <= d <= Min(|xs|, h.size) ==>
          h.buffer[Slot(h.tail, h.size, d)] == Some(xs[|xs| - d]))
    && (0 < |xs| ==> h.last == Slot(h.tail, h.size, 1))
    && (|xs| == 0 ==> h.last == 0)
  }

  /** One push keeps the invariant, with the item appended to the pushes. */
  lemma PushHolds<T>(h: History<T>, xs: seq<T>, x: T)
    requires Holds(h, xs)
    ensures Holds(Push(h, x), xs + [x])
  {
    var h', xs', n, t := Push(h, x), xs + [x], h.size, h.tail;
    forall d | 1 <= d <= Min(|xs'|, n)
      ensures h'.buffer[Slot(h'.tail, n, d)] == Some(xs'[|xs'| - d])
    {
      SlotValue(h'.tail, n, d);
      if d == 1 {
        assert Slot(h'.tail, n, d) == t;
      } else {
        SlotValue(t, n, d - 1);
        assert Slot(h'.tail, n, d) == Slot(t, n, d - 1);
      }
    }
    SlotValue(h'.tail, n, 1);
  }

  /** Every history built by pushes holds those pushes. */
  lemma {:induction false} FromPushesHolds<T>(n: nat, xs: seq<T>)
    requires 0 < n
    ensures Holds(FromPushes(n, xs), xs)
    decreases |xs|
  {
    if |xs| > 0 {
      var init := xs[..|xs| - 1];
      FromPushesHolds(n, init);
      PushHolds(FromPushes(n, init), init, xs[|xs| - 1]);
      assert init + [xs[|xs| - 1]] == xs;
    }
  }

  /**
    `get(i)` counts from the oldest kept push: once `n` or more pushes are
    in, index `i` is the `i`-th of the last `n`; before that the first
    `n - |xs|` indices are empty and the pushes follow.
   */
  lemma GetSpec<T(!new)>(n: nat, xs: seq<T>, i: nat)
    requires 0 < n && i < n
    ensures Get(FromPushes(n, xs), i) ==
      if |xs| - n + i >= 0 then Some(xs[|xs| - n + i]) else None
  {
    var h := FromPushes(n, xs);
    FromPushesHolds(n, xs);
    ModSmall(i, n);
    assert Get(h, i) == h.buffer[Slot(h.tail, n, n - i)];
    if |xs| - n + i < 0 {
      SlotValue(h.tail, n, n - i);
    }
  }

  /** `get_from_end(i)` is the `i`-th newest push, or empty when fewer were made. */
  lemma GetFromEndSpec<T(!new)>(n: nat, xs: seq<T>, i: nat)
    requires 0 < n && i < n
    ensures GetFromEnd(FromPushes(n, xs), i) ==
      if i < |xs| then Some(xs[|xs| - 1 - i]) else None
  {
    var h := FromPushes(n, xs);
    FromPushesHolds(n, xs);
    var t := h.tail;
    var r := GetFromEnd(h, i);
    assert r == h.buffer[Slot(h.last, n, i)];
    SlotValue(h.last, n, i);
    if |xs| == 0 {
    } else {
      SlotValue(t, n, 1);
      SlotValue(t, n, i + 1);
      var k := Slot(t, n, i + 1);
      assert Slot(h.last, n, i) == k;
      if i < |xs| {
        assert 1 <= i + 1 <= Min(|xs|, n);
      } else {
        assert |xs| <= k < n;
      }
    }
  }

  /** `last` is the newest push, and empty before the first one. */
  lemma LastSpec<T(!new)>(n: nat, xs: seq<T>)
    requires 0 < n
    ensures Last(FromPushes(n, xs)) == if 0 < |xs| then Some(xs[|xs| - 1]) else None
  {
    GetFromEndSpec(n, xs, 0);
  }

  /** Counting either end gives the same slot: `get_from_end(i) == get(n - 1 - i)`. */
  lemma {:induction false} EndsAgree<T(!new)>(n: nat, xs: seq<T>, i: nat)
    requires 0 < n && i < n
    ensures GetFromEnd(FromPushes(n, xs), i) == Get(FromPushes(n, xs), n - 1 - i)
  {
    GetFromEndSpec(n, xs, i);
    GetSpec(n, xs, n - 1 - i);
  }

  /** `get` reads the ring modulo its size. */
  lemma GetPeriodic<T(!new)>(h: History<T>, i: nat)
    requires Valid(h) && 0 < h.size
    ensures Get(h, i + h.size) == Get(h, i)
  {
    ModShift(h.tail + i, h.size);
    assert h.tail + (i + h.size) == (h.tail + i) + h.size;
  }

  /** The number of filled slots. */
  function CountSome<T>(s: seq<Option<T>>): (c: nat)
    ensures c <= |s|
  {
    if |s| == 0 then 0 else CountSome(s[..|s| - 1]) + (if s[|s| - 1].Some? then 1 else 0)
  }

  /** A buffer filled exactly below `k` has `k` filled slots. */
  lemma {:induction false} CountPrefix<T>(s: seq<Option<T>>, k: nat)
    requires k <= |s|
    requires forall j :: 0 <= j < |s| ==> (s[j].Some? <==> j < k)
    ensures CountSome(s) == k
  {
    if |s| > 0 {
      if k == |s| {
        CountPrefix(s[..|s| - 1], k - 1);
      } else {
        CountPrefix(s[..|s| - 1], k);
      }
    }
  }

  /** The buffer keeps `min(|xs|, n)` samples: it fills up, then stays full. */
  lemma Occupancy<T>(n: nat, xs: seq<T>)
    requires 0 < n
    ensures CountSome(FromPushes(n, xs).buffer) == Min(|xs|, n)
  {
    var h := FromPushes(n, xs);
    FromPushesHolds(n, xs);
    var k := Min(|xs|, n);
    forall j | 0 <= j < n
      ensures h.buffer[j].Some? <==> j < k
    {
      var d := if j < h.tail then h.tail - j else h.tail + n - j;
      SlotValue(h.tail, n, d);
      if j < k {
        assert h.buffer[Slot(h.tail, n, d)].Some?;
      }
    }
    CountPrefix(h.buffer, k);
  }

  /** Whatever the history held, the item just pushed is the newest one. */
  lemma PushThenLast<T(!new)>(h: History<T>, x: T)
    requires Valid(h) && 0 < h.size
    ensures Last(Push(h, x)) == Some(x)
    ensures GetFromEnd(Push(h, x), 0) == Some(x)
  {
  }

  /** The correction of `last` in `push` fires exactly for a one-slot buffer. */
  lemma PushCorrection<T>(h: History<T>)
    requires Valid(h) && 0 < h.size
    ensures (h.tail + 1) % h.size == h.tail <==> h.size == 1
  {
    if h.tail + 1 < h.size {
      ModSmall(h.tail + 1, h.size);
    } else {
      ModOnce(h.tail + 1, h.size);
    }
  }
}
