/** Shared vocabulary of the client model: optional values, the results of
    remote calls, and the fixed-width integers of the Go client (a TL `int`
    is 32 bits wide, a TL `long` 64 bits, and Go's `int` is 64 bits on the
    platforms the client targets). */
module Base {

  datatype Option<+T> = None | Some(value: T)

  /** The outcome of a remote procedure call: the decoded object, or the
      error the RPC layer returned. */
  datatype RpcResult<+T> = RpcOk(value: T) | RpcError(message: string)

  const TwoTo31: int := 0x8000_0000
  const TwoTo32: int := 0x1_0000_0000
  const MinInt64: int := -0x8000_0000_0000_0000
  const MaxInt64: int := 0x7FFF_FFFF_FFFF_FFFF

  type Int32 = x: int | -0x8000_0000 <= x < 0x8000_0000
  type Int64 = x: int | -0x8000_0000_0000_0000 <= x < 0x8000_0000_0000_0000

  /** The values `f` gives the items of `xs`, in order, skipping the items
      it gives nothing for: the shape of every loop in the client that
      prints at most one line per item. */
  function FilterMap<T, U>(xs: seq<T>, f: T -> Option<U>): (r: seq<U>)
    ensures |r| <= |xs|
    ensures r == [] <==> forall i :: 0 <= i < |xs| ==> f(xs[i]).None?
    decreases |xs|
  {
    if xs == [] then []
    else
      var first := match f(xs[0]) case Some(y) => [y] case None => [];
      var rest := FilterMap(xs[1..], f);
      assert forall i :: 1 <= i < |xs| ==> xs[i] == xs[1..][i - 1];
      first + rest
  }

  /** Every result comes from an item `f` gives a value for. */
  lemma {:induction false} FilterMapFrom<T, U>(xs: seq<T>, f: T -> Option<U>)
    ensures forall k :: 0 <= k < |FilterMap(xs, f)| ==>
      exists i :: 0 <= i < |xs| && f(xs[i]).Some? && FilterMap(xs, f)[k] == f(xs[i]).value
    decreases |xs|
  {
    if xs != [] {
      var rest := xs[1..];
      FilterMapFrom(rest, f);
      var first := match f(xs[0]) case Some(y) => [y] case None => [];
      var r := FilterMap(xs, f);
      var tail := FilterMap(rest, f);
      assert r == first + tail;
      forall k | 0 <= k < |r|
        ensures exists i :: 0 <= i < |xs| && f(xs[i]).Some? && r[k] == f(xs[i]).value
      {
        if k < |first| {
          assert f(xs[0]).Some? && r[k] == f(xs[0]).value;
        } else {
          var j := k - |first|;
          assert 0 <= j < |tail| && r[k] == tail[j];
          var i :| 0 <= i < |rest| && f(rest[i]).Some? && tail[j] == f(rest[i]).value;
          assert rest[i] == xs[i + 1];
        }
      }
    } else {
      assert FilterMap(xs, f) == [];
    }
  }

  lemma FilterMapOne<T, U>(x: T, f: T -> Option<U>)
    ensures FilterMap([x], f) == match f(x) case Some(y) => [y] case None => []
  {
    assert [x][1..] == [];
  }

  /** Filtering consecutive lists gives consecutive results: the order of
      the items is kept. */
  lemma {:induction false} FilterMapAppend<T, U>(a: seq<T>, b: seq<T>, f: T -> Option<U>)
    ensures FilterMap(a + b, f) == FilterMap(a, f) + FilterMap(b, f)
    decreases |a|
  {
    if a == [] {
      assert a + b == b;
    } else {
      assert (a + b)[0] == a[0];
      assert (a + b)[1..] == a[1..] + b;
      FilterMapAppend(a[1..], b, f);
    }
  }

  /** When `f` gives a value for every item, result `i` is the value of item `i`. */
  lemma {:induction false} FilterMapEveryItem<T, U>(xs: seq<T>, f: T -> Option<U>)
    requires forall i :: 0 <= i < |xs| ==> f(xs[i]).Some?
    ensures var r := FilterMap(xs, f);
      |r| == |xs| && forall i :: 0 <= i < |xs| ==> r[i] == f(xs[i]).value
    decreases |xs|
  {
    if xs != [] {
      var rest := xs[1..];
      forall i | 0 <= i < |rest| ensures f(rest[i]).Some? {
        assert rest[i] == xs[i + 1];
      }
      FilterMapEveryItem(rest, f);
      assert xs == [xs[0]] + rest;
      FilterMapAppend([xs[0]], rest, f);
      FilterMapOne(xs[0], f);
      var tail := FilterMap(rest, f);
      var all := [f(xs[0]).value] + tail;
      assert FilterMap(xs, f) == all;
      forall i | 1 <= i < |xs| ensures all[i] == f(xs[i]).value {
        assert all[i] == tail[i - 1];
        assert rest[i - 1] == xs[i];
      }
    }
  }

  /** Go's conversion `int32(n)`: keeps the low 32 bits of `n` and reads
      them back in two's complement. */
  function ToInt32(n: int): (r: Int32)
    ensures -TwoTo31 <= n < TwoTo31 ==> r == n
    ensures (n - r) % TwoTo32 == 0
  {
    var low := (n + TwoTo31) % TwoTo32;
    assert n - (low - TwoTo31) == TwoTo32 * ((n + TwoTo31) / TwoTo32);
    low - TwoTo31
  }
}
