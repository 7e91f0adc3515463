/** The fixed-size history behind a pup metric (Buffer in pkg/pups.go). */
module RingBuffer {

  ghost function Zeros<T>(n: nat, zero: T): seq<T> {
    seq(n, _ => zero)
  }

  ghost function LastOf<T>(s: seq<T>, n: nat): seq<T>
    requires n <= |s|
  {
    s[|s| - n..]
  }

  /** `s` read from position `tail` on, around the end. */
  ghost function Rotated<T>(s: seq<T>, tail: nat): seq<T>
    requires tail <= |s|
  {
    s[tail..] + s[..tail]
  }

  lemma RotateAdd<T>(s: seq<T>, tail: nat, value: T)
    requires tail < |s|
    ensures Rotated(s[tail := value], (tail + 1) % |s|) == Rotated(s, tail)[1..] + [value]
  {
    var front, back := s[..tail], s[tail + 1..];
    UpdateParts(s, tail, value);
    assert s[tail..] == [s[tail]] + back;
    FirstGone(s[tail], back, front);
    if tail + 1 == |s| {
      NextTail(tail, |s|);
      WholeFromZero(s[tail := value]);
      assert back == [] && back + front == front;
    } else {
      NextTail(tail, |s|);
      Regroup(back, front, [value]);
    }
  }

  lemma UpdateParts<T>(s: seq<T>, tail: nat, value: T)
    requires tail < |s|
    ensures s[tail := value][..tail + 1] == s[..tail] + [value] && s[tail := value][tail + 1..] == s[tail + 1..]
    ensures tail + 1 == |s| ==> s[tail := value] == s[..tail] + [value]
  {}

  lemma FirstGone<T>(x: T, back: seq<T>, front: seq<T>)
    ensures ([x] + back + front)[1..] == back + front
  {}

  lemma NextTail(tail: nat, n: nat)
    requires tail < n
    ensures (tail + 1) % n == if tail + 1 == n then 0 else tail + 1
  {
    if tail + 1 < n {
      SmallMod(tail + 1, n);
    }
  }

  lemma SmallMod(k: nat, n: nat)
    requires k < n
    ensures k % n == k
  {}

  lemma WholeFromZero<T>(s: seq<T>)
    ensures Rotated(s, 0) == s
  {
    assert s[0..] == s && s[..0] == [];
  }

  lemma Regroup<T>(a: seq<T>, b: seq<T>, c: seq<T>)
    ensures (a + b) + c == a + (b + c)
  {}

  class Buffer<T> {
    const values: array<T>
    var tail: nat

    ghost predicate Valid()
      reads this
    {
      values.Length > 0 && tail < values.Length
    }

    /** Oldest first. */
    ghost function Contents(): seq<T>
      requires Valid()
      reads this, values
    {
      Rotated(values[..], tail)
    }

    /** `zero` is the value that fresh slots hold. */
    constructor (size: nat, zero: T)
      requires size > 0
      ensures Valid() && fresh(values) && values.Length == size
      ensures Contents() == Zeros(size, zero)
    {
      values := new T[size](_ => zero);
      tail := 0;
      new;
      assert values[..] == Zeros(size, zero);
    }

    method Add(value: T)
      requires Valid()
      modifies this`tail, values
      ensures Valid() && Contents() == old(Contents())[1..] + [value]
    {
      RotateAdd(values[..], tail, value);
      values[tail] := value;
      tail := (tail + 1) % values.Length;
    }

    method GetValues() returns (firstN: array<T>)
      requires Valid()
      ensures Valid() && fresh(firstN) && firstN[..] == Contents()
    {
      var n := values.Length;
      firstN := new T[n](i requires 0 <= i < n reads this, values => values[0]);
      if tail > 0 {
        CopyInto(firstN, 0, values, tail, n);
        CopyInto(firstN, n - tail, values, 0, tail);
        assert firstN[..] == firstN[..n - tail] + firstN[n - tail..];
      } else {
        CopyInto(firstN, 0, values, 0, n);
      }
    }

    /** copy(dst[at:], src[from:to]) */
    static method CopyInto(dst: array<T>, at: nat, src: array<T>, from: nat, to: nat)
      requires from <= to <= src.Length && at + (to - from) <= dst.Length && dst != src
      modifies dst
      ensures dst[..at] == old(dst[..at])
      ensures dst[at..at + (to - from)] == src[from..to]
      ensures dst[at + (to - from)..] == old(dst[at + (to - from)..])
    {
      for i := 0 to to - from
        invariant forall k :: 0 <= k < dst.Length && !(at <= k < at + i) ==> dst[k] == old(dst[k])
        invariant dst[at..at + i] == src[from..from + i]
      {
        dst[at + i] := src[from + i];
      }
    }
  }

  /** The contents after adding every element of `added`, one `Add` at a time. */
  ghost function AfterAdds<T>(contents: seq<T>, added: seq<T>): seq<T>
    requires |contents| > 0
    decreases |added|
  {
    if added == [] then contents else AfterAdds(contents[1..] + [added[0]], added[1..])
  }

  /** After any sequence of adds the buffer holds the last `n` elements of its
      initial zeros followed by everything added. */
  lemma {:induction false} BufferKeepsLast<T>(contents: seq<T>, added: seq<T>)
    requires |contents| > 0
    ensures AfterAdds(contents, added) == LastOf(contents + added, |contents|)
    decreases |added|
  {
    if added == [] {
      assert contents + [] == contents;
    } else {
      BufferKeepsLast(contents[1..] + [added[0]], added[1..]);
      assert contents[1..] + [added[0]] + added[1..] == (contents + added)[1..];
    }
  }
}
