/** The two list edits the form applies to ingredient rows and instruction
    sections: removal by position (`filter` on the index) and the drag-and-drop
    move (two `splice` calls). */
module Lists {

  /** `s.filter((_, k) => k !== i)`: `s` without position `i`, and `s` itself
      when `i` is not a position of `s`. */
  function RemoveAt<T>(s: seq<T>, i: int): (r: seq<T>)
    ensures 0 <= i < |s| ==> |r| == |s| - 1
    ensures 0 <= i < |s| ==> forall k :: 0 <= k < i ==> r[k] == s[k]
    ensures 0 <= i < |s| ==> forall k :: i <= k < |r| ==> r[k] == s[k + 1]
    ensures !(0 <= i < |s|) ==> r == s
    ensures multiset(r) <= multiset(s)
  {
    if 0 <= i < |s| then
      assert s == s[..i] + [s[i]] + s[i + 1..];
      s[..i] + s[i + 1..]
    else
      s
  }

  /** `const [x] = s.splice(from, 1); s.splice(to, 0, x)` on a copy of `s`:
      each position of the result holds the element `MovedFrom` names. */
  function MoveItem<T>(s: seq<T>, from: int, to: int): (r: seq<T>)
    requires 0 <= from < |s| && 0 <= to < |s|
    ensures |r| == |s|
    ensures forall k :: 0 <= k < |r| ==> 0 <= MovedFrom(k, from, to) < |s| && r[k] == s[MovedFrom(k, from, to)]
  {
    SplicePositions(s, from, to);
    var rest := s[..from] + s[from + 1..];
    rest[..to] + [s[from]] + rest[to..]
  }

  lemma SplicePositions<T>(s: seq<T>, from: int, to: int)
    requires 0 <= from < |s| && 0 <= to < |s|
    ensures var rest := s[..from] + s[from + 1..];
            var r := rest[..to] + [s[from]] + rest[to..];
            |r| == |s| &&
            forall k :: 0 <= k < |r| ==> 0 <= MovedFrom(k, from, to) < |s| && r[k] == s[MovedFrom(k, from, to)]
  {
    var rest := s[..from] + s[from + 1..];
    var r := rest[..to] + [s[from]] + rest[to..];
    forall k | 0 <= k < |r| ensures 0 <= MovedFrom(k, from, to) < |s| && r[k] == s[MovedFrom(k, from, to)] {
      if k < to {
        assert r[k] == rest[k];
      } else if k > to {
        assert r[k] == rest[k - 1];
      }
    }
  }

  /** The move is a permutation that puts the element at `from` at `to` and
      keeps the others in their order. */
  lemma MoveItemSpec<T>(s: seq<T>, from: int, to: int)
    requires 0 <= from < |s| && 0 <= to < |s|
    ensures multiset(MoveItem(s, from, to)) == multiset(s)
    ensures MoveItem(s, from, to)[to] == s[from]
    ensures RemoveAt(MoveItem(s, from, to), to) == RemoveAt(s, from)
  {
    MovePermutes(s, from, to);
    MoveKeepsOrder(s, from, to);
  }

  lemma MovePermutes<T>(s: seq<T>, from: int, to: int)
    requires 0 <= from < |s| && 0 <= to < |s|
    ensures multiset(MoveItem(s, from, to)) == multiset(s)
  {
    var x := s[from];
    var rest := s[..from] + s[from + 1..];
    assert MoveItem(s, from, to) == rest[..to] + [x] + rest[to..];
    assert s == s[..from] + [x] + s[from + 1..];
    assert rest == rest[..to] + rest[to..];
    calc {
      multiset(MoveItem(s, from, to));
      multiset(rest[..to]) + multiset{x} + multiset(rest[to..]);
      multiset(rest) + multiset{x};
      multiset(s[..from]) + multiset(s[from + 1..]) + multiset{x};
      multiset(s);
    }
  }

  lemma MoveKeepsOrder<T>(s: seq<T>, from: int, to: int)
    requires 0 <= from < |s| && 0 <= to < |s|
    ensures RemoveAt(MoveItem(s, from, to), to) == RemoveAt(s, from)
  {
    var r := MoveItem(s, from, to);
    var a := RemoveAt(r, to);
    var b := RemoveAt(s, from);
    forall k | 0 <= k < |a| ensures a[k] == b[k] {
      if k < to {
        assert a[k] == r[k];
      } else {
        assert a[k] == r[k + 1];
      }
    }
  }

  /** Where the element at position `k` after a move from `from` to `to` was
      before it. */
  function MovedFrom(k: int, from: int, to: int): int
  {
    if k == to then from
    else
      var j := if k < to then k else k - 1;  // position in the list without the moved element
      if j < from then j else j + 1
  }

  /** Different positions after a move come from different positions. */
  lemma MovedFromInjective(p: int, q: int, from: int, to: int)
    requires p != q
    ensures MovedFrom(p, from, to) != MovedFrom(q, from, to)
  {
  }

  /** No element occurs twice. */
  predicate Distinct<T(==)>(s: seq<T>)
  {
    forall p, q :: 0 <= p < |s| && 0 <= q < |s| && p != q ==> s[p] != s[q]
  }

  /** Removing a position keeps the elements distinct. */
  lemma RemoveAtDistinct<T>(s: seq<T>, i: int)
    requires Distinct(s)
    ensures Distinct(RemoveAt(s, i))
  {
    var r := RemoveAt(s, i);
    if 0 <= i < |s| {
      forall p, q | 0 <= p < |r| && 0 <= q < |r| && p != q ensures r[p] != r[q] {
        var p' := if p < i then p else p + 1;
        var q' := if q < i then q else q + 1;
        assert r[p] == s[p'] && r[q] == s[q'];
      }
    }
  }

  /** A move keeps the elements distinct. */
  lemma MoveItemDistinct<T>(s: seq<T>, from: int, to: int)
    requires 0 <= from < |s| && 0 <= to < |s| && Distinct(s)
    ensures Distinct(MoveItem(s, from, to))
  {
    var r := MoveItem(s, from, to);
    forall p, q | 0 <= p < |r| && 0 <= q < |r| && p != q ensures r[p] != r[q] {
      MovedFromInjective(p, q, from, to);
    }
  }

  /** Moving the element back where it came from restores the list. */
  lemma MoveBack<T>(s: seq<T>, from: int, to: int)
    requires 0 <= from < |s| && 0 <= to < |s|
    ensures MoveItem(MoveItem(s, from, to), to, from) == s
  {
    var r := MoveItem(s, from, to);
    var q := MoveItem(r, to, from);
    forall k | 0 <= k < |s| ensures q[k] == s[k] {
      assert MovedFrom(MovedFrom(k, to, from), from, to) == k;
    }
  }

  /** A list is its part before `i`, the element at `i` and the part after;
      removing `i` leaves the two parts. */
  lemma SplitAt<T>(s: seq<T>, i: int)
    requires 0 <= i < |s|
    ensures s == s[..i] + ([s[i]] + s[i + 1..])
    ensures RemoveAt(s, i) == s[..i] + s[i + 1..]
  {
  }
}
