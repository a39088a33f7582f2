/**
 * Word boundaries as the annotation code records them, `(word, time, "end" | "start")`, and the
 * stable sort by time that `sorted(..., key=lambda item: item[1])` and `list.sort` perform.
 */
module Boundaries {

  datatype Kind = End | Start

  datatype Boundary = Boundary(word: string, time: real, kind: Kind)

  predicate SortedByTime(bs: seq<Boundary>) {
    forall i, j :: 0 <= i < j < |bs| ==> bs[i].time <= bs[j].time
  }

  /** The entries recorded at time `t`, in their order. */
  function At(bs: seq<Boundary>, t: real): (r: seq<Boundary>)
    ensures forall k :: 0 <= k < |r| ==> r[k].time == t
    ensures |r| <= |bs|
  {
    if bs == [] then [] else (if bs[0].time == t then [bs[0]] else []) + At(bs[1..], t)
  }

  lemma {:induction false} AtAppend(a: seq<Boundary>, b: seq<Boundary>, t: real)
    ensures At(a + b, t) == At(a, t) + At(b, t)
  {
    if a == [] {
      assert a + b == b;
    } else {
      assert (a + b)[0] == a[0] && (a + b)[1..] == a[1..] + b;
      AtAppend(a[1..], b, t);
    }
  }

  /** Every entry of a list of one kind has that kind. */
  predicate AllOfKind(bs: seq<Boundary>, kind: Kind) {
    forall k :: 0 <= k < |bs| ==> bs[k].kind == kind
  }

  lemma {:induction false} AtOfKind(bs: seq<Boundary>, kind: Kind, t: real)
    requires AllOfKind(bs, kind)
    ensures AllOfKind(At(bs, t), kind)
  {
    if bs != [] {
      AtOfKind(bs[1..], kind, t);
    }
  }

  /** `b` placed before the first entry recorded no earlier than it. */
  function Insert(s: seq<Boundary>, b: Boundary): (r: seq<Boundary>)
    ensures |r| == |s| + 1
  {
    if s == [] || b.time <= s[0].time then [b] + s
    else [s[0]] + Insert(s[1..], b)
  }

  /**
   * The sort by time, one entry at a time from the back: each entry goes before the later
   * entries recorded at its own time, so entries recorded at one time keep their order.
   */
  function SortByTime(bs: seq<Boundary>): (r: seq<Boundary>)
    ensures |r| == |bs|
  {
    if bs == [] then [] else Insert(SortByTime(bs[1..]), bs[0])
  }

  lemma {:induction false} InsertElements(s: seq<Boundary>, b: Boundary)
    ensures multiset(Insert(s, b)) == multiset(s) + multiset{b}
  {
    if s != [] && b.time > s[0].time {
      InsertElements(s[1..], b);
      assert s == [s[0]] + s[1..];
    }
  }

  /** An entry no later than any of a sorted list, followed by that list, is sorted. */
  lemma SortedCons(first: Boundary, s: seq<Boundary>)
    requires SortedByTime(s)
    requires forall k :: 0 <= k < |s| ==> first.time <= s[k].time
    ensures SortedByTime([first] + s)
  {
    var r := [first] + s;
    forall i, j | 0 <= i < j < |r|
      ensures r[i].time <= r[j].time
    {
      if i == 0 {
        assert r[i] == first && r[j] == s[j - 1];
      } else {
        assert r[i] == s[i - 1] && r[j] == s[j - 1];
      }
    }
  }

  lemma {:induction false} InsertSorted(s: seq<Boundary>, b: Boundary)
    requires SortedByTime(s)
    ensures SortedByTime(Insert(s, b))
  {
    if s == [] || b.time <= s[0].time {
      SortedCons(b, s);
    } else {
      var rest := s[1..];
      assert SortedByTime(rest);
      InsertSorted(rest, b);
      InsertElements(rest, b);
      var x := Insert(rest, b);
      forall k | 0 <= k < |x|
        ensures s[0].time <= x[k].time
      {
        assert x[k] in multiset(x);
        if x[k] != b {
          assert x[k] in multiset(rest);
          var j :| 0 <= j < |rest| && rest[j] == x[k];
          assert s[j + 1] == rest[j];
        }
      }
      SortedCons(s[0], x);
    }
  }

  /** `b` goes before every entry of its own time, as no entry before it has that time. */
  lemma {:induction false} InsertAt(s: seq<Boundary>, b: Boundary, t: real)
    ensures At(Insert(s, b), t) == if b.time == t then [b] + At(s, t) else At(s, t)
  {
    if s == [] || b.time <= s[0].time {
      assert ([b] + s)[0] == b && ([b] + s)[1..] == s;
    } else {
      var r := [s[0]] + Insert(s[1..], b);
      assert r[0] == s[0] && r[1..] == Insert(s[1..], b);
      InsertAt(s[1..], b, t);
      if b.time == t {
        assert s[0].time != t;
      }
    }
  }

  lemma {:induction false} SortSorted(bs: seq<Boundary>)
    ensures SortedByTime(SortByTime(bs))
  {
    if bs != [] {
      SortSorted(bs[1..]);
      InsertSorted(SortByTime(bs[1..]), bs[0]);
    }
  }

  lemma {:induction false} SortElements(bs: seq<Boundary>)
    ensures multiset(SortByTime(bs)) == multiset(bs)
  {
    if bs != [] {
      SortElements(bs[1..]);
      InsertElements(SortByTime(bs[1..]), bs[0]);
      assert bs == [bs[0]] + bs[1..];
    }
  }

  lemma {:induction false} SortAt(bs: seq<Boundary>, t: real)
    ensures At(SortByTime(bs), t) == At(bs, t)
  {
    if bs != [] {
      SortAt(bs[1..], t);
      InsertAt(SortByTime(bs[1..]), bs[0], t);
    }
  }

  /**
   * The sort is a stable sort: the result is ordered by time, holds the same entries, and keeps
   * the entries recorded at any one time in their original order.
   */
  lemma SortByTimeIsStable(bs: seq<Boundary>)
    ensures SortedByTime(SortByTime(bs))
    ensures multiset(SortByTime(bs)) == multiset(bs)
    ensures forall t :: At(SortByTime(bs), t) == At(bs, t)
  {
    SortSorted(bs);
    SortElements(bs);
    forall t
      ensures At(SortByTime(bs), t) == At(bs, t)
    {
      SortAt(bs, t);
    }
  }

  /**
   * Sorting a list of ends followed by a list of starts puts, at every time, the ends recorded
   * then before the starts recorded then.
   */
  lemma EndsBeforeStarts(ends: seq<Boundary>, starts: seq<Boundary>, t: real)
    requires AllOfKind(ends, End) && AllOfKind(starts, Start)
    ensures At(SortByTime(ends + starts), t) == At(ends, t) + At(starts, t)
    ensures AllOfKind(At(ends, t), End) && AllOfKind(At(starts, t), Start)
  {
    SortAt(ends + starts, t);
    AtAppend(ends, starts, t);
    AtOfKind(ends, End, t);
    AtOfKind(starts, Start, t);
  }
}
