/** Sequence vocabulary shared by every module: bytes, concatenation of a list of lists,
    filtering and prefix sums. */
module Seqs {

  type Byte = b: int | 0 <= b < 256

  datatype Option<+T> = None | Some(value: T)

  /** The concatenation of a list of lists, in order. */
  function Concat<T>(ss: seq<seq<T>>): seq<T> {
    if ss == [] then [] else ss[0] + Concat(ss[1..])
  }

  lemma {:induction false} ConcatAppend<T>(a: seq<seq<T>>, b: seq<seq<T>>)
    ensures Concat(a + b) == Concat(a) + Concat(b)
  {
    if a == [] {
      assert a + b == b;
    } else {
      assert (a + b)[1..] == a[1..] + b;
      ConcatAppend(a[1..], b);
    }
  }

  lemma ConcatSnoc<T>(a: seq<seq<T>>, x: seq<T>)
    ensures Concat(a + [x]) == Concat(a) + x
  {
    ConcatAppend(a, [x]);
    assert Concat([x]) == x + Concat<T>([]);
  }

  /** Joining two neighbours does not change the concatenation. */
  lemma ConcatJoin<T>(l: seq<seq<T>>, x: seq<T>, y: seq<T>, r: seq<seq<T>>)
    ensures Concat(l + [x + y] + r) == Concat(l + [x, y] + r)
  {
    ConcatAppend(l + [x + y], r);
    ConcatSnoc(l, x + y);
    ConcatAppend(l + [x, y], r);
    assert l + [x, y] == l + [x] + [y];
    ConcatSnoc(l + [x], y);
    ConcatSnoc(l, x);
    assert Concat(l) + (x + y) == Concat(l) + x + y;
  }

  lemma SliceOfSlice<T>(s: seq<T>, i: nat, j: nat, a: nat, b: nat)
    requires i <= j <= |s| && a <= b <= j - i
    ensures s[i..j][a..b] == s[i + a..i + b]
  {
    var t := s[i..j];
    assert |t| == j - i && forall k | 0 <= k < |t| :: t[k] == s[i + k];
  }
}
