/** JavaScript's `Array.prototype.splice`, `filter` and `findIndex` as the
    components use them to find, remove and move list elements. */
module Splice {
  import opened Wrappers

  /** The start index `splice` actually uses: a negative index counts from
      the end, and the result is clamped to `[0, len]`. */
  function RelativeIndex(i: int, len: nat): (r: nat)
    ensures r <= len
    ensures 0 <= i <= len ==> r == i
    ensures -(len as int) <= i < 0 ==> r == len as int + i
    ensures i > len as int ==> r == len
    ensures i < -(len as int) ==> r == 0
  {
    if i < 0 then (if len + i < 0 then 0 else len + i)
    else if i > len then len
    else i
  }

  /** `s` without its element at `i`. */
  function RemoveAt<T>(s: seq<T>, i: nat): (r: seq<T>)
    requires i < |s|
    ensures |r| == |s| - 1
    ensures forall k :: 0 <= k < i ==> r[k] == s[k]
    ensures forall k :: i <= k < |r| ==> r[k] == s[k + 1]
    ensures multiset(r) + multiset{s[i]} == multiset(s)
  {
    assert s == s[..i] + [s[i]] + s[i + 1..];
    s[..i] + s[i + 1..]
  }

  /** `s` with `x` inserted before position `i`. */
  function InsertAt<T>(s: seq<T>, i: nat, x: T): (r: seq<T>)
    requires i <= |s|
    ensures |r| == |s| + 1
    ensures r[i] == x
    ensures forall k :: 0 <= k < i ==> r[k] == s[k]
    ensures forall k :: i < k < |r| ==> r[k] == s[k - 1]
    ensures multiset(r) == multiset(s) + multiset{x}
  {
    assert s == s[..i] + s[i..];
    s[..i] + [x] + s[i..]
  }

  /** `const [x] = a.splice(from, 1); a.splice(to, 0, x)` on a copy of `s`.
      The first splice must remove an element: on an empty list, or from an
      index at or past the end, it removes nothing and the source would
      insert `undefined`. An index before `-|s|` is clamped to 0. */
  function Move<T>(s: seq<T>, from: int, to: int): (r: seq<T>)
    requires 0 < |s| && from < |s|
    ensures |r| == |s|
    ensures multiset(r) == multiset(s)
    ensures r[RelativeIndex(to, |s| - 1)] == s[RelativeIndex(from, |s|)]
  {
    var i := RelativeIndex(from, |s|);
    var rest := RemoveAt(s, i);
    InsertAt(rest, RelativeIndex(to, |rest|), s[i])
  }

  /** A move is a permutation that puts the element taken from `from` at
      the destination and keeps every other element in its relative order. */
  lemma MovePermutes<T>(s: seq<T>, from: int, to: int)
    requires 0 < |s| && from < |s|
    ensures var i := RelativeIndex(from, |s|);
            var j := RelativeIndex(to, |s| - 1);
            var r := Move(s, from, to);
            && multiset(r) == multiset(s)
            && r[j] == s[i]
            && RemoveAt(r, j) == RemoveAt(s, i)
  {
    var i := RelativeIndex(from, |s|);
    var j := RelativeIndex(to, |s| - 1);
    var rest := RemoveAt(s, i);
    var r := Move(s, from, to);
    assert r == InsertAt(rest, j, s[i]);
    assert RemoveAt(r, j) == rest;
  }

  /** Putting an element back where it was removed restores the sequence. */
  lemma InsertRemoved<T>(s: seq<T>, i: nat)
    requires i < |s|
    ensures InsertAt(RemoveAt(s, i), i, s[i]) == s
  {
  }

  /** Moving an element back from its destination to its source undoes a
      move. */
  lemma {:induction false} MoveUndo<T>(s: seq<T>, from: nat, to: nat)
    requires from < |s| && to < |s|
    ensures Move(Move(s, from, to), to, from) == s
  {
    var r := Move(s, from, to);
    MovePermutes(s, from, to);
    assert RemoveAt(r, to) == RemoveAt(s, from) && r[to] == s[from];
    assert Move(r, to, from) == InsertAt(RemoveAt(s, from), from, s[from]);
    InsertRemoved(s, from);
  }

  /** `s.filter((_, k) => k !== index)`, keeping elements in order. */
  function FilterOutIndex<T>(s: seq<T>, index: int): (r: seq<T>)
    ensures |r| == if 0 <= index < |s| then |s| - 1 else |s|
    ensures !(0 <= index < |s|) ==> r == s
    decreases |s|
  {
    if s == [] then []
    else
      var init := s[..|s| - 1];
      assert s == init + [s[|s| - 1]];
      FilterOutIndex(init, index) + (if |s| - 1 == index then [] else [s[|s| - 1]])
  }

  /** Filtering by index removes exactly the element at an in-range index
      and leaves the sequence as it is for any other index. */
  lemma {:induction false} FilterOutIndexRemoves<T>(s: seq<T>, index: int)
    ensures 0 <= index < |s| ==> FilterOutIndex(s, index) == RemoveAt(s, index)
    ensures !(0 <= index < |s|) ==> FilterOutIndex(s, index) == s
    decreases |s|
  {
    if s != [] {
      var init := s[..|s| - 1];
      FilterOutIndexRemoves(init, index);
      if index == |s| - 1 {
        assert init == RemoveAt(s, index);
      } else if 0 <= index < |s| - 1 {
        assert RemoveAt(init, index) + [s[|s| - 1]] == RemoveAt(s, index);
      } else {
        assert init + [s[|s| - 1]] == s;
      }
    }
  }

  predicate Distinct<T(==)>(s: seq<T>) {
    forall i, j :: 0 <= i < j < |s| ==> s[i] != s[j]
  }

  /** A move keeps the elements pairwise distinct. */
  lemma MoveKeepsDistinct<T>(s: seq<T>, from: int, to: int)
    requires 0 < |s| && from < |s|
    requires Distinct(s)
    ensures Distinct(Move(s, from, to))
  {
    var i := RelativeIndex(from, |s|);
    var rest := RemoveAt(s, i);
    assert Distinct(rest) by {
      forall a, b | 0 <= a < b < |rest| ensures rest[a] != rest[b] {
        var a' := if a < i then a else a + 1;
        var b' := if b < i then b else b + 1;
        assert rest[a] == s[a'] && rest[b] == s[b'];
      }
    }
    assert s[i] !in rest by {
      forall k | 0 <= k < |rest| ensures rest[k] != s[i] {
        var k' := if k < i then k else k + 1;
        assert rest[k] == s[k'];
      }
    }
    var j := RelativeIndex(to, |rest|);
    var r := InsertAt(rest, j, s[i]);
    forall a, b | 0 <= a < b < |r| ensures r[a] != r[b] {
      if a == j {
        assert r[b] == rest[b - 1];
      } else if b == j {
        assert r[a] == rest[a];
      } else {
        var a' := if a < j then a else a - 1;
        var b' := if b < j then b else b - 1;
        assert r[a] == rest[a'] && r[b] == rest[b'];
      }
    }
  }

  /** `Array.prototype.findIndex`: the index of the first element that
      satisfies `p`, or nothing when no element does. */
  function FindIndex<T>(s: seq<T>, p: T -> bool): (r: Option<nat>)
    ensures r.Some? ==> r.value < |s| && p(s[r.value])
    ensures r.Some? ==> forall j :: 0 <= j < r.value ==> !p(s[j])
    ensures r.None? <==> forall j :: 0 <= j < |s| ==> !p(s[j])
  {
    if s == [] then None
    else if p(s[0]) then Some(0)
    else match FindIndex(s[1..], p)
      case None => None
      case Some(k) => Some(k + 1)
  }
}
