/** The list of a process's children and the loop that takes a closed child out
    of it (process/process.go, lines 207-219). */
module ChildLists {
  import opened Wrappers

  /** What one pass of the loop leaves: it shifts the tail over every match and
      then steps past the element that moved in, without comparing it. */
  function Pruned<T(==)>(s: seq<T>, x: T): seq<T> {
    if s == [] then []
    else if s[0] != x then [s[0]] + Pruned(s[1..], x)
    else if |s| == 1 then []
    else [s[1]] + Pruned(s[2..], x)
  }

  lemma AppendKeepsNoDuplicates<T>(s: seq<T>, x: T)
    requires NoDuplicates(s) && x !in s
    ensures NoDuplicates(s + [x])
  {
  }

  lemma {:induction false} PrunedWithout<T>(s: seq<T>, x: T)
    requires x !in s
    ensures Pruned(s, x) == s
  {
    if s != [] {
      PrunedWithout(s[1..], x);
    }
  }

  lemma {:induction false} PrunedAt<T>(s: seq<T>, x: T, k: nat)
    requires NoDuplicates(s) && k < |s| && s[k] == x
    ensures Pruned(s, x) == s[..k] + s[k + 1..]
  {
    if k == 0 {
      assert x !in s[1..];
      if |s| > 1 {
        PrunedWithout(s[2..], x);
      }
    } else {
      PrunedAt(s[1..], x, k - 1);
      assert s[..k] + s[k + 1..] == [s[0]] + (s[1..][..k - 1] + s[1..][k..]);
    }
  }

  lemma CutAt<T>(s: seq<T>, k: nat)
    requires NoDuplicates(s) && k < |s|
    ensures var r := s[..k] + s[k + 1..];
            NoDuplicates(r) && forall y :: y in r <==> y in s && y != s[k]
  {
    var r := s[..k] + s[k + 1..];
    assert forall i :: 0 <= i < |r| ==> r[i] == s[if i < k then i else i + 1];
    forall y | y in s && y != s[k] ensures y in r {
      var i :| 0 <= i < |s| && s[i] == y;
      assert r[if i < k then i else i - 1] == y;
    }
  }

  /** Of a list without duplicates the loop removes exactly the child, and keeps
      the others in their order. */
  lemma PrunedRemovesOne<T>(s: seq<T>, x: T)
    requires NoDuplicates(s)
    ensures x !in s ==> Pruned(s, x) == s
    ensures x in s ==> exists k :: 0 <= k < |s| && s[k] == x && Pruned(s, x) == s[..k] + s[k + 1..]
    ensures NoDuplicates(Pruned(s, x))
    ensures forall y :: y in Pruned(s, x) <==> y in s && y != x
  {
    if x in s {
      var k :| 0 <= k < |s| && s[k] == x;
      PrunedAt(s, x, k);
      CutAt(s, k);
    } else {
      PrunedWithout(s, x);
    }
  }

  predicate AdjacentPair<T(==)>(s: seq<T>, x: T) {
    exists i :: 0 <= i < |s| - 1 && s[i] == x && s[i + 1] == x
  }

  lemma {:induction false} PrunedLeavesPair<T>(s: seq<T>, x: T, i: nat)
    requires i + 1 < |s| && s[i] == x && s[i + 1] == x
    ensures x in Pruned(s, x)
  {
    if s[0] != x {
      PrunedLeavesPair(s[1..], x, i - 1);
    } else if s[1] == x {
    } else if i >= 2 {
      PrunedLeavesPair(s[2..], x, i - 2);
    }
  }

  lemma {:induction false} PrunedClears<T>(s: seq<T>, x: T)
    requires forall i :: 0 <= i < |s| - 1 && s[i] == x ==> s[i + 1] != x
    ensures x !in Pruned(s, x)
  {
    if s == [] {
    } else if s[0] != x {
      assert forall i :: 0 <= i < |s[1..]| ==> s[1..][i] == s[i + 1];
      PrunedClears(s[1..], x);
    } else if |s| > 1 {
      assert forall i :: 0 <= i < |s[2..]| ==> s[2..][i] == s[i + 2];
      PrunedClears(s[2..], x);
    }
  }

  /** On any list at all: every occurrence goes exactly when no two are adjacent. */
  lemma PrunedClearsIff<T>(s: seq<T>, x: T)
    ensures x !in Pruned(s, x) <==> !AdjacentPair(s, x)
  {
    if AdjacentPair(s, x) {
      var i :| 0 <= i < |s| - 1 && s[i] == x && s[i + 1] == x;
      PrunedLeavesPair(s, x, i);
    } else {
      PrunedClears(s, x);
    }
  }

  /** The slice `subs`: the first `len` cells of a backing array. */
  class ChildList<T(==)> {
    var cells: array<T>
    const none: T
    var len: nat

    ghost predicate Valid()
      reads this
    {
      len <= cells.Length
    }

    ghost function Subs(): seq<T>
      requires Valid()
      reads this, cells
    {
      cells[..len]
    }

    constructor (capacity: nat, none: T)
      ensures Valid() && Subs() == [] && fresh(cells) && this.none == none
    {
      this.cells := new T[capacity](_ => none);
      this.none := none;
      this.len := 0;
    }

    /** copy(p.subs[i:], p.subs[i+1:n]), then p.subs[n-1] = nil */
    method TakeOut(i: nat, n: nat)
      requires i < n <= cells.Length
      modifies cells
      ensures cells[..] == TakenOut(old(cells[..]), i, n, none)
    {
      ghost var was := cells[..];
      var k := i;
      while k + 1 < n
        invariant i <= k < n
        invariant forall j :: 0 <= j < i || k <= j < cells.Length ==> cells[j] == was[j]
        invariant forall j :: i <= j < k ==> cells[j] == was[j + 1]
      {
        cells[k] := cells[k + 1];
        k := k + 1;
      }
      cells[n - 1] := none;
      TakenOutAt(was, cells[..], i, n, none);
    }

    /** append: in place while there is room, into a larger array otherwise. */
    method Append(child: T)
      requires Valid()
      modifies this, cells
      ensures Valid() && Subs() == old(Subs()) + [child]
      ensures cells == old(cells) || fresh(cells)
    {
      if len == cells.Length {
        var larger := new T[2 * len + 1](_ => none);
        for k := 0 to len
          modifies larger
          invariant larger[..k] == cells[..k]
        {
          larger[k] := cells[k];
        }
        cells := larger;
      }
      cells[len] := child;
      len := len + 1;
    }

    method Remove(child: T)
      requires Valid()
      modifies this`len, cells
      ensures Valid() && Subs() == Pruned(old(Subs()), child)
      ensures forall k :: len <= k < old(len) ==> cells[k] == none
    {
      ghost var was := cells[..];
      var n, i := len, 0;
      assert was[..len][0..] == was[..len];
      while i < n
        invariant 0 <= n <= len == old(len) && i <= n + 1
        invariant Standing(was, cells[..], len, n, i, child, none)
        decreases n - i
      {
        if cells[i] == child {
          TakeOutStands(was, cells[..], len, n, i, child, none);
          TakeOut(i, n);
          n := n - 1;
        } else {
          PassStands(was, cells[..], len, n, i, child, none);
        }
        i := i + 1;
      }
      len := n;
    }
  }

  function TakenOut<T>(s: seq<T>, i: nat, n: nat, none: T): (r: seq<T>)
    requires i < n <= |s|
    ensures |r| == |s|
  {
    s[..i] + s[i + 1..n] + [none] + s[n..]
  }

  lemma TakenOutAt<T>(was: seq<T>, now: seq<T>, i: nat, n: nat, none: T)
    requires i < n <= |was| == |now| && now[n - 1] == none
    requires forall j :: 0 <= j < i || n <= j < |was| ==> now[j] == was[j]
    requires forall j :: i <= j < n - 1 ==> now[j] == was[j + 1]
    ensures now == TakenOut(was, i, n, none)
  {
    var r := TakenOut(was, i, n, none);
    forall j | 0 <= j < |was| ensures now[j] == r[j] {
      assert r[j] == if j < i then was[j] else if j < n - 1 then was[j + 1] else if j == n - 1 then none else was[j];
    }
  }

  /** The loop stands at `i` of the `n` cells that are left of the first `len`. */
  ghost predicate Standing<T>(was: seq<T>, now: seq<T>, len: nat, n: nat, i: nat, x: T, none: T) {
    && n <= len <= |was| == |now|
    && Pruned(was[..len], x) == Remaining(now[..n], i, x)
    && forall k :: n <= k < len ==> now[k] == none
  }

  lemma TakeOutStands<T>(was: seq<T>, now: seq<T>, len: nat, n: nat, i: nat, x: T, none: T)
    requires Standing(was, now, len, n, i, x, none) && i < n && now[i] == x
    ensures Standing(was, TakenOut(now, i, n, none), len, n - 1, i + 1, x, none)
  {
    var after := TakenOut(now, i, n, none);
    RemainingHit(now[..n], i, x);
    assert after[..n - 1] == now[..n][..i] + now[..n][i + 1..];
  }

  lemma PassStands<T>(was: seq<T>, now: seq<T>, len: nat, n: nat, i: nat, x: T, none: T)
    requires Standing(was, now, len, n, i, x, none) && i < n && now[i] != x
    ensures Standing(was, now, len, n, i + 1, x, none)
  {
    RemainingMiss(now[..n], i, x);
  }

  /** The result, when the loop stands at `i` of `s`. */
  function Remaining<T(==)>(s: seq<T>, i: nat, x: T): seq<T> {
    if i <= |s| then s[..i] + Pruned(s[i..], x) else s
  }

  lemma RemainingMiss<T>(s: seq<T>, i: nat, x: T)
    requires i < |s| && s[i] != x
    ensures Remaining(s, i + 1, x) == Remaining(s, i, x)
  {
    assert s[i..][1..] == s[i + 1..];
  }

  lemma RemainingHit<T>(s: seq<T>, i: nat, x: T)
    requires i < |s| && s[i] == x
    ensures Remaining(s[..i] + s[i + 1..], i + 1, x) == Remaining(s, i, x)
  {
    var t := s[..i] + s[i + 1..];
    if i + 1 < |s| {
      assert t[i + 1..] == s[i..][2..];
      assert t[..i + 1] == s[..i] + [s[i..][1]];
    }
  }
}
