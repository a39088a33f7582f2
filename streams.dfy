/**
 * A Python iterator over a list, as `iter(xs)` makes one: consumed front to back, shared by
 * everything that holds it. `next`, `islice` and `zip` all advance the same position, and the
 * order in which `zip` pulls from its arguments decides how many items are consumed.
 */
module Streams {
  import opened Wrappers
  import opened Text

  function Min(a: int, b: int): int {
    if a <= b then a else b
  }

  function SumNat(counts: seq<nat>): nat {
    if counts == [] then 0 else counts[0] + SumNat(counts[1..])
  }

  /**
   * The groups that successive `[v for v, _ in zip(it, xs_i)]` take from one shared iterator
   * over `rest`, where `counts[i] == |xs_i|`: each takes up to its count and then drops one more.
   */
  function ZipAheadGroups<T>(counts: seq<nat>, rest: seq<T>): (r: seq<seq<T>>)
    ensures |r| == |counts|
    ensures forall k :: 0 <= k < |r| ==> |r[k]| <= counts[k]
  {
    if counts == [] then []
    else [rest[..Min(counts[0], |rest|)]] + ZipAheadGroups(counts[1..], rest[Min(counts[0] + 1, |rest|)..])
  }

  lemma ZipAheadAt<T>(counts: seq<nat>, i: nat, rest: seq<T>)
    requires i < |counts|
    ensures Concat(ZipAheadGroups(counts[i..], rest))
         == rest[..Min(counts[i], |rest|)] + Concat(ZipAheadGroups(counts[i + 1..], rest[Min(counts[i] + 1, |rest|)..]))
  {
    assert counts[i..][0] == counts[i] && counts[i..][1..] == counts[i + 1..];
  }

  /** One turn of a loop that appends the groups of a shared zip-ahead iterator to `done`. */
  lemma ZipAheadAdvance<T>(counts: seq<nat>, i: nat, before: seq<T>, done: seq<T>, taken: seq<T>, after: seq<T>, whole: seq<T>)
    requires i < |counts|
    requires done + Concat(ZipAheadGroups(counts[i..], before)) == whole
    requires taken == before[..Min(counts[i], |before|)] && after == before[Min(counts[i] + 1, |before|)..]
    ensures (done + taken) + Concat(ZipAheadGroups(counts[i + 1..], after)) == whole
  {
    ZipAheadAt(counts, i, before);
    ConcatAssoc(done, taken, Concat(ZipAheadGroups(counts[i + 1..], after)));
  }

  /** What is left of the shared iterator after those groups. */
  function ZipAheadLeft<T>(counts: seq<nat>, rest: seq<T>): seq<T> {
    if counts == [] then rest
    else ZipAheadLeft(counts[1..], rest[Min(counts[0] + 1, |rest|)..])
  }

  /** The groups successive `zip(xs_i, it)` take: each exactly up to its count, nothing dropped. */
  function InOrderGroups<T>(counts: seq<nat>, rest: seq<T>): (r: seq<seq<T>>)
    ensures |r| == |counts|
  {
    if counts == [] then []
    else [rest[..Min(counts[0], |rest|)]] + InOrderGroups(counts[1..], rest[Min(counts[0], |rest|)..])
  }

  lemma InOrderAt<T>(counts: seq<nat>, i: nat, rest: seq<T>)
    requires i < |counts|
    ensures Concat(InOrderGroups(counts[i..], rest))
         == rest[..Min(counts[i], |rest|)] + Concat(InOrderGroups(counts[i + 1..], rest[Min(counts[i], |rest|)..]))
  {
    assert counts[i..][0] == counts[i] && counts[i..][1..] == counts[i + 1..];
  }

  /** One more group of `zip(xs_i, it)` taken: what is done and what is left still make up the whole. */
  lemma InOrderAdvance<T>(counts: seq<nat>, i: nat, before: seq<T>, done: seq<T>, taken: seq<T>, after: seq<T>, whole: seq<T>)
    requires i < |counts|
    requires done + Concat(InOrderGroups(counts[i..], before)) == whole
    requires taken == before[..Min(counts[i], |before|)] && after == before[|taken|..]
    ensures (done + taken) + Concat(InOrderGroups(counts[i + 1..], after)) == whole
  {
    InOrderAt(counts, i, before);
    ConcatAssoc(done, taken, Concat(InOrderGroups(counts[i + 1..], after)));
  }

  function InOrderLeft<T>(counts: seq<nat>, rest: seq<T>): seq<T> {
    if counts == [] then rest
    else InOrderLeft(counts[1..], rest[Min(counts[0], |rest|)..])
  }

  lemma MinSplit(c: nat, rest: nat, total: nat)
    ensures Min(c + total, rest) == Min(c, rest) + Min(total, rest - Min(c, rest))
  {
  }

  /** Taking groups in order hands out the items front to back, as one slice of the total size. */
  lemma {:induction false} InOrderIsPrefix<T>(counts: seq<nat>, rest: seq<T>)
    ensures Concat(InOrderGroups(counts, rest)) == rest[..Min(SumNat(counts), |rest|)]
  {
    if counts != [] {
      var n := Min(counts[0], |rest|);
      var tail := rest[n..];
      InOrderIsPrefix(counts[1..], tail);
      var m := Min(SumNat(counts[1..]), |tail|);
      MinSplit(counts[0], |rest|, SumNat(counts[1..]));
      assert Concat(InOrderGroups(counts, rest)) == rest[..n] + Concat(InOrderGroups(counts[1..], tail));
      assert tail[..m] == rest[n..n + m];
      assert rest[..n] + rest[n..n + m] == rest[..n + m];
    }
  }

  /** What is left after groups taken in order is everything past their total size. */
  lemma {:induction false} InOrderLeftIsSuffix<T>(counts: seq<nat>, rest: seq<T>)
    ensures InOrderLeft(counts, rest) == rest[Min(SumNat(counts), |rest|)..]
  {
    if counts != [] {
      var n := Min(counts[0], |rest|);
      var tail := rest[n..];
      InOrderLeftIsSuffix(counts[1..], tail);
      var m := Min(SumNat(counts[1..]), |tail|);
      MinSplit(counts[0], |rest|, SumNat(counts[1..]));
      assert InOrderLeft(counts, rest) == InOrderLeft(counts[1..], tail);
      assert Min(SumNat(counts), |rest|) == n + m;
      assert tail[m..] == rest[n + m..];
    }
  }

  /** Group `i` onwards of a shared zip-ahead iterator, unfolded one step. */
  lemma ZipAheadStep<T>(counts: seq<nat>, i: nat, rest: seq<T>)
    requires i < |counts|
    ensures ZipAheadGroups(counts[i..], rest)
         == [rest[..Min(counts[i], |rest|)]] + ZipAheadGroups(counts[i + 1..], rest[Min(counts[i] + 1, |rest|)..])
    ensures ZipAheadLeft(counts[i..], rest) == ZipAheadLeft(counts[i + 1..], rest[Min(counts[i] + 1, |rest|)..])
  {
    assert counts[i..][0] == counts[i] && counts[i..][1..] == counts[i + 1..];
  }

  /** Group `k` of a shared zip-ahead iterator starts where the first `k` groups left it. */
  lemma {:induction false} ZipAheadGroupAt<T>(counts: seq<nat>, rest: seq<T>, k: nat)
    requires k < |counts|
    ensures var left := ZipAheadLeft(counts[..k], rest);
      ZipAheadGroups(counts, rest)[k] == left[..Min(counts[k], |left|)]
  {
    if k == 0 {
      assert counts[..0] == [];
    } else {
      var tail := rest[Min(counts[0] + 1, |rest|)..];
      ZipAheadGroupAt(counts[1..], tail, k - 1);
      assert counts[..k][0] == counts[0] && counts[..k][1..] == counts[1..][..k - 1];
    }
  }

  /** The first `k + 1` groups leave what the first `k` left, less group `k` and its dropped item. */
  lemma {:induction false} ZipAheadLeftExtend<T>(counts: seq<nat>, rest: seq<T>, k: nat)
    requires k < |counts|
    ensures var left := ZipAheadLeft(counts[..k], rest);
      ZipAheadLeft(counts[..k + 1], rest) == left[Min(counts[k] + 1, |left|)..]
  {
    if k == 0 {
      assert counts[..0] == [] && counts[..1] == [counts[0]] && counts[..1][1..] == [];
    } else {
      var tail := rest[Min(counts[0] + 1, |rest|)..];
      ZipAheadLeftExtend(counts[1..], tail, k - 1);
      assert counts[..k][0] == counts[0] && counts[..k][1..] == counts[1..][..k - 1];
      assert counts[..k + 1][0] == counts[0] && counts[..k + 1][1..] == counts[1..][..k];
    }
  }

  /** Each zip-ahead group consumes its count plus one, so what is left is a suffix past all of them. */
  lemma {:induction false} ZipAheadLeftIsSuffix<T>(counts: seq<nat>, rest: seq<T>)
    ensures ZipAheadLeft(counts, rest) == rest[Min(SumNat(counts) + |counts|, |rest|)..]
  {
    if counts != [] {
      var n := Min(counts[0] + 1, |rest|);
      var tail := rest[n..];
      ZipAheadLeftIsSuffix(counts[1..], tail);
      var m := Min(SumNat(counts[1..]) + |counts[1..]|, |tail|);
      MinSplit(counts[0] + 1, |rest|, SumNat(counts[1..]) + |counts[1..]|);
      assert tail[m..] == rest[n + m..];
    }
  }

  /** With items enough for all of them, groups taken in order are exactly as large as their counts. */
  lemma {:induction false} InOrderGroupSizes<T>(counts: seq<nat>, rest: seq<T>)
    requires SumNat(counts) <= |rest|
    ensures forall k :: 0 <= k < |counts| ==> |InOrderGroups(counts, rest)[k]| == counts[k]
  {
    if counts != [] {
      var tail := rest[counts[0]..];
      InOrderGroupSizes(counts[1..], tail);
      var r := InOrderGroups(counts, rest);
      assert r == [rest[..counts[0]]] + InOrderGroups(counts[1..], tail);
      forall k | 1 <= k < |counts|
        ensures |r[k]| == counts[k]
      {
        assert r[k] == InOrderGroups(counts[1..], tail)[k - 1];
        assert counts[1..][k - 1] == counts[k];
      }
    }
  }

  /** The groups of a shared zip-ahead iterator never hold more items than it had. */
  lemma {:induction false} ZipAheadAtMost<T>(counts: seq<nat>, rest: seq<T>)
    ensures |Concat(ZipAheadGroups(counts, rest))| + |ZipAheadLeft(counts, rest)| <= |rest|
  {
    if counts != [] {
      ZipAheadAtMost(counts[1..], rest[Min(counts[0] + 1, |rest|)..]);
    }
  }

  /**
   * Once a group runs out of its own items while the iterator still has some, an item is lost:
   * the groups and what is left together hold fewer items than the iterator had.
   */
  lemma ZipAheadLoses<T>(counts: seq<nat>, rest: seq<T>)
    requires counts != [] && counts[0] < |rest|
    ensures |Concat(ZipAheadGroups(counts, rest))| + |ZipAheadLeft(counts, rest)| < |rest|
  {
    ZipAheadAtMost(counts[1..], rest[counts[0] + 1..]);
  }

  class Stream<T> {
    const items: seq<T>
    var pos: nat

    ghost predicate Valid()
      reads this
    {
      pos <= |items|
    }

    /** The items not consumed yet. */
    function Rest(): seq<T>
      reads this
      requires Valid()
    {
      items[pos..]
    }

    /** `iter(items)`. */
    constructor (items: seq<T>)
      ensures Valid() && this.items == items && pos == 0
    {
      this.items := items;
      pos := 0;
    }

    /** `next(it, None)`: the next item, or nothing once the iterator is exhausted. */
    method Next() returns (r: Option<T>)
      requires Valid()
      modifies this
      ensures Valid()
      ensures old(pos) < |items| ==> r == Some(items[old(pos)]) && pos == old(pos) + 1
      ensures old(pos) < |items| ==> r == Some(old(Rest())[0]) && Rest() == old(Rest())[1..]
      ensures old(pos) == |items| ==> r == None && pos == old(pos) && Rest() == []
    {
      if pos < |items| {
        r := Some(items[pos]);
        pos := pos + 1;
      } else {
        r := None;
      }
    }

    /** `list(islice(it, n))`: up to `n` items, taking no more than it returns. */
    method Take(n: nat) returns (r: seq<T>)
      requires Valid()
      modifies this
      ensures Valid()
      ensures r == old(Rest())[..Min(n, |old(Rest())|)]
      ensures pos == old(pos) + |r|
      ensures Rest() == old(Rest())[|r|..]
    {
      var k := Min(n, |items| - pos);
      r := items[pos..pos + k];
      pos := pos + k;
    }

    /**
     * `[v for v, _ in zip(it, xs)]` with `|xs| == n`: `zip` pulls from `it` before it looks at
     * `xs`, so once `xs` runs out one more item has already been taken from `it` and is dropped.
     */
    method ZipAhead(n: nat) returns (r: seq<T>)
      requires Valid()
      modifies this
      ensures Valid()
      ensures r == old(Rest())[..Min(n, |old(Rest())|)]
      ensures pos == old(pos) + Min(n + 1, |old(Rest())|)
      ensures Rest() == old(Rest())[Min(n + 1, |old(Rest())|)..]
    {
      ghost var rest := Rest();
      r := [];
      var i: nat := 0;
      while true
        invariant Valid() && i <= n && i <= |rest|
        invariant pos == old(pos) + i
        invariant r == rest[..i]
        decreases |items| - pos
      {
        var v := Next();
        if v.None? {
          break;
        }
        if i == n {
          break;
        }
        assert v.value == rest[i];
        r := r + [v.value];
        i := i + 1;
      }
    }

    /**
     * `zip(xs, it)` with `|xs| == n`, taking only the items of `it`: `xs` is asked first, so
     * nothing beyond the `n`-th item is consumed from `it`.
     */
    method ZipBehind(n: nat) returns (r: seq<T>)
      requires Valid()
      modifies this
      ensures Valid()
      ensures r == old(Rest())[..Min(n, |old(Rest())|)]
      ensures pos == old(pos) + |r|
      ensures Rest() == old(Rest())[|r|..]
    {
      ghost var rest := Rest();
      r := [];
      var i: nat := 0;
      while i < n
        invariant Valid() && i <= n && i <= |rest|
        invariant pos == old(pos) + i
        invariant r == rest[..i]
        decreases n - i
      {
        var v := Next();
        if v.None? {
          break;
        }
        assert v.value == rest[i];
        r := r + [v.value];
        i := i + 1;
      }
    }
  }
}
