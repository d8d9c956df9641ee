/** The loop of `splice` on one list, as a step on the positions of its three
    iterators and on the items, and the exact condition under which it ever
    reaches `last`. */
module SpliceLoop {
  import opened Sequences

  /** Positions of the iterators `it`, `last` and `before`; end() is the
      position behind the last item. */
  datatype Cursor = Cursor(it: nat, last: nat, before: nat)

  /** Where the item at `it` is put back, once it has been erased. */
  function Landing(c: Cursor): nat
  {
    if c.before > c.it then c.before - 1 else c.before
  }

  /** One iteration erases the item at `it` and inserts it ahead of `before`.
      `last` and `before` keep designating the same node; the erase moves `it`
      on to the next one. */
  function Advance(c: Cursor): Cursor
  {
    if c.it == c.last then c else
      var b := Landing(c);
      var l := if c.last > c.it then c.last - 1 else c.last;
      Cursor(if c.it >= b then c.it + 1 else c.it, if l >= b then l + 1 else l, b + 1)
  }

  function Relink<T>(s: seq<T>, c: Cursor): seq<T>
  {
    if c.it == c.last || c.it >= |s| || c.before > |s| then s
    else InsertAt(RemoveAt(s, c.it), Landing(c), s[c.it])
  }

  function CursorAfter(c: Cursor, k: nat): Cursor
    decreases k
  {
    if k == 0 then c else CursorAfter(Advance(c), k - 1)
  }

  /** The list after k iterations (the loop does nothing once it has ended). */
  function ItemsAfter<T>(s: seq<T>, c: Cursor, k: nat): seq<T>
    decreases k
  {
    if k == 0 then s else ItemsAfter(Relink(s, c), Advance(c), k - 1)
  }

  ghost predicate Ends(c: Cursor)
  {
    exists k: nat :: CursorAfter(c, k).it == CursorAfter(c, k).last
  }

  /** The call spans a non-empty range [it, last) that is not the whole list
      and does not contain `before`. */
  predicate Proper<T>(s: seq<T>, c: Cursor)
  {
    && c.it < c.last <= |s| && c.before <= |s|
    && (c.before < c.it || c.last <= c.before)
    && !(c.it == 0 && c.last == |s|)
  }

  /** What a splice is for: the block [it, last) moved, in order, ahead of
      `before`. */
  function Moved<T>(s: seq<T>, c: Cursor): seq<T>
    requires c.it <= c.last <= |s| && c.before <= |s| && (c.before <= c.it || c.last <= c.before)
  {
    if c.before <= c.it then s[..c.before] + s[c.it..c.last] + s[c.before..c.it] + s[c.last..]
    else s[..c.it] + s[c.last..c.before] + s[c.it..c.last] + s[c.before..]
  }

  /** A call whose loop ends. */
  predicate Ending<T>(s: seq<T>, c: Cursor)
  {
    && c.it <= c.last <= |s| && c.before <= |s|
    && (c.it == c.last || c.before < c.it || c.last < c.before || (c.before == c.last == c.it + 1))
  }

  lemma EndingStep<T>(s: seq<T>, c: Cursor)
    requires Ending(s, c) && c.it < c.last
    ensures Ending(Relink(s, c), Advance(c)) && |Relink(s, c)| == |s|
    ensures Advance(c).last - Advance(c).it == c.last - c.it - 1
  {
  }

  lemma Blocks<T>(p: seq<T>, q: seq<T>, r: seq<T>, u: seq<T>)
    ensures var t := p + q + r + u;
            && t[..|p|] == p && t[|p|..|p| + |q|] == q
            && t[|p| + |q|..|p| + |q| + |r|] == r && t[|p| + |q| + |r|..] == u
  {
  }

  lemma RelinkLifted<T>(s: seq<T>, c: Cursor)
    requires c.before < c.it < c.last <= |s|
    ensures Relink(s, c) == (s[..c.before] + [s[c.it]]) + s[c.before..c.it] + s[c.it + 1..c.last] + s[c.last..]
  {
    assert RemoveAt(s, c.it) == s[..c.before] + s[c.before..c.it] + s[c.it + 1..c.last] + s[c.last..];
  }

  lemma RelinkRolled<T>(s: seq<T>, c: Cursor)
    requires c.it < c.last < c.before <= |s|
    ensures Relink(s, c) == s[..c.it] + s[c.it + 1..c.last] + (s[c.last..c.before] + [s[c.it]]) + s[c.before..]
  {
    assert RemoveAt(s, c.it) == s[..c.it] + s[c.it + 1..c.last] + s[c.last..c.before] + s[c.before..];
  }

  /** What is still to be moved, moved, is the same list before and after a
      step: the loop's invariant. */
  lemma MovedStep<T>(s: seq<T>, c: Cursor)
    requires Ending(s, c) && c.it < c.last
    ensures Ending(Relink(s, c), Advance(c)) && Moved(Relink(s, c), Advance(c)) == Moved(s, c)
  {
    EndingStep(s, c);
    if c.before < c.it {
      MovedLifted(s, c);
    } else if c.last < c.before {
      MovedRolled(s, c);
    } else {
      assert Relink(s, c) == s;
      assert Moved(s, c) == s by { MovedNowhere(s, c); }
      assert Moved(s, Advance(c)) == s by { MovedNowhere(s, Advance(c)); }
    }
  }

  /** The third of four blocks moved ahead of the second. */
  lemma MovedThird<T>(p: seq<T>, q: seq<T>, r: seq<T>, u: seq<T>)
    ensures Moved(p + q + r + u, Cursor(|p| + |q|, |p| + |q| + |r|, |p|)) == p + r + q + u
  {
    Blocks(p, q, r, u);
  }

  /** The second of four blocks moved behind the third. */
  lemma MovedSecond<T>(p: seq<T>, q: seq<T>, r: seq<T>, u: seq<T>)
    requires q != []
    ensures Moved(p + q + r + u, Cursor(|p|, |p| + |q|, |p| + |q| + |r|)) == p + r + q + u
  {
    Blocks(p, q, r, u);
  }

  lemma MovedLifted<T>(s: seq<T>, c: Cursor)
    requires c.before < c.it < c.last <= |s|
    ensures |Relink(s, c)| == |s| && Moved(Relink(s, c), Advance(c)) == Moved(s, c)
  {
    hide Moved, Relink;
    var x, p, q, r, u := s[c.it], s[..c.before], s[c.before..c.it], s[c.it + 1..c.last], s[c.last..];
    RelinkLifted(s, c);
    MovedThird(p + [x], q, r, u);
    MovedThird(p, q, [x] + r, u);
    assert s == p + q + ([x] + r) + u;
    assert (p + [x]) + r + q + u == p + ([x] + r) + q + u;
  }

  lemma MovedRolled<T>(s: seq<T>, c: Cursor)
    requires c.it < c.last < c.before <= |s|
    ensures |Relink(s, c)| == |s| && Moved(Relink(s, c), Advance(c)) == Moved(s, c)
  {
    hide Moved, Relink;
    var x, p, q, r, u := s[c.it], s[..c.it], s[c.it + 1..c.last], s[c.last..c.before], s[c.before..];
    RelinkRolled(s, c);
    if q != [] { MovedSecond(p, q, r + [x], u); } else { MovedNowhere(p + q + (r + [x]) + u, Advance(c)); }
    MovedSecond(p, [x] + q, r, u);
    assert s == p + ([x] + q) + r + u;
    assert p + (r + [x]) + q + u == p + r + ([x] + q) + u;
  }

  lemma {:induction false} CursorMeets<T>(s: seq<T>, c: Cursor)
    requires Ending(s, c)
    ensures CursorAfter(c, c.last - c.it).it == CursorAfter(c, c.last - c.it).last
    decreases c.last - c.it
  {
    if c.it < c.last {
      EndingStep(s, c);
      CursorMeets(Relink(s, c), Advance(c));
    }
  }

  /** A loop that ends has moved the block, in order, in as many steps as the
      block has items. */
  lemma {:induction false} EndsMoved<T>(s: seq<T>, c: Cursor, goal: seq<T>)
    requires Ending(s, c) && goal == Moved(s, c)
    ensures ItemsAfter(s, c, c.last - c.it) == goal
    decreases c.last - c.it
  {
    if c.it == c.last {
      MovedNowhere(s, c);
    } else {
      EndingStep(s, c);
      MovedStep(s, c);
      EndsMoved(Relink(s, c), Advance(c), goal);
    }
  }

  /** With `before == last` and two or more items, each step sends the item at
      the cursor behind the rest of the range: the cursor never moves. */
  lemma {:induction false} CursorStays(c: Cursor, k: nat)
    requires c.it + 2 <= c.last == c.before
    ensures CursorAfter(c, k) == c
  {
    if k > 0 {
      assert Advance(c) == c;
      CursorStays(c, k - 1);
    }
  }

  /** The list with the first k items of the range i..b sent behind the rest. */
  function Rotated<T>(s: seq<T>, i: nat, k: nat, b: nat): seq<T>
    requires i + k <= b <= |s|
  {
    s[..i] + s[i + k..b] + s[i..i + k] + s[b..]
  }

  lemma RotatedStep<T>(s: seq<T>, c: Cursor, k: nat)
    requires c.it + k < c.before == c.last <= |s|
    ensures Relink(Rotated(s, c.it, k, c.before), c) == Rotated(s, c.it, k + 1, c.before)
  {
    assert RemoveAt(Rotated(s, c.it, k, c.before), c.it)
        == s[..c.it] + s[c.it + k + 1..c.before] + s[c.it..c.it + k] + s[c.before..];
    assert s[c.it..c.it + k + 1] == s[c.it..c.it + k] + [s[c.it + k]];
  }

  lemma RotatedNone<T>(s: seq<T>, i: nat, b: nat)
    requires i <= b <= |s|
    ensures Rotated(s, i, 0, b) == s
  {
    assert s == s[..i] + s[i..b] + s[b..];
  }

  lemma RotatedAll<T>(s: seq<T>, i: nat, k: nat, b: nat)
    requires i + k == b <= |s|
    ensures Rotated(s, i, k, b) == s
  {
    assert s[i + k..b] == [];
    assert s == s[..i] + s[i..i + k] + s[b..];
  }

  /** ... while the range rotates under it, until it is back where it was. */
  lemma {:induction false} TurnEnds<T>(s: seq<T>, t: seq<T>, c: Cursor, k: nat)
    requires c.it + 2 <= c.last == c.before <= |s| && k <= c.last - c.it
    requires t == Rotated(s, c.it, k, c.before)
    ensures ItemsAfter(t, c, c.last - c.it - k) == s
    decreases c.last - c.it - k
  {
    if k == c.last - c.it {
      RotatedAll(s, c.it, k, c.before);
    } else {
      assert Advance(c) == c;
      RotatedStep(s, c, k);
      TurnEnds(s, Relink(t, c), c, k + 1);
    }
  }

  lemma FullTurn<T>(s: seq<T>, c: Cursor)
    requires c.it + 2 <= c.last == c.before <= |s|
    ensures ItemsAfter(s, c, c.last - c.it) == s && CursorAfter(c, c.last - c.it) == c
  {
    hide Rotated, ItemsAfter, CursorAfter;
    CursorStays(c, c.last - c.it);
    RotatedNone(s, c.it, c.before);
    TurnEnds(s, s, c, 0);
  }

  /** The loop ends exactly when it is not asked to move two or more items to
      where they already are. */
  lemma EndsIff<T>(s: seq<T>, c: Cursor)
    requires Proper(s, c)
    ensures Ends(c) <==> !(c.before == c.last && c.it + 2 <= c.last)
    ensures Ends(c) ==> Ending(s, c)
  {
    if c.before == c.last && c.it + 2 <= c.last {
      forall k: nat ensures CursorAfter(c, k).it != CursorAfter(c, k).last {
        CursorStays(c, k);
      }
    } else {
      CursorMeets(s, c);
    }
  }

  /** Each iterator still designates the node it did, `it` its successor. */
  lemma RelinkTracks<T>(s: seq<T>, end: T, c: Cursor)
    requires c.it < |s| && c.last <= |s| && c.before <= |s| && c.it != c.last && c.it != c.before
    ensures var t, d := Relink(s, c), Advance(c);
            && |t| == |s| && d.it <= |s| && d.last <= |s| && d.before <= |s|
            && Designated(t, end, d.it) == Designated(s, end, c.it + 1)
            && Designated(t, end, d.last) == Designated(s, end, c.last)
            && Designated(t, end, d.before) == Designated(s, end, c.before)
  {
    RelinkItems(s, c);
    hide Relink;
  }

  lemma RelinkItems<T>(s: seq<T>, c: Cursor)
    requires c.it < |s| && c.last <= |s| && c.before <= |s| && c.it != c.last && c.it != c.before
    ensures var t, l := Relink(s, c), Landing(c);
            && |t| == |s| && t[l] == s[c.it]
            && (forall i :: 0 <= i < |s| && i < c.it && i < l ==> t[i] == s[i])
            && (forall i :: 0 <= i < |s| && i > c.it && i > l ==> t[i] == s[i])
            && (forall i :: c.it < i <= l ==> t[i - 1] == s[i])
            && (forall i :: l <= i < c.it ==> t[i + 1] == s[i])
  {
  }

  /** Moving nothing, or everything, or to where it already is. */
  lemma MovedNowhere<T>(s: seq<T>, c: Cursor)
    requires c.it <= c.last <= |s| && c.before <= |s| && (c.before <= c.it || c.last <= c.before)
    requires c.it == c.last || c.before == c.it || c.before == c.last
    ensures Moved(s, c) == s
  {
    if c.before <= c.it {
      FourParts(s, c.before, c.it, c.last);
    } else {
      FourParts(s, c.it, c.last, c.before);
    }
  }

  /** A sequence cut in four, the middle parts in either order when one of them
      is empty. */
  lemma FourParts<T>(s: seq<T>, i: nat, j: nat, k: nat)
    requires i <= j <= k <= |s|
    ensures s[..i] + s[i..j] + s[j..k] + s[k..] == s
    ensures i == j || j == k ==> s[..i] + s[j..k] + s[i..j] + s[k..] == s
  {
    if i == j {
      assert s[i..j] == [];
    } else if j == k {
      assert s[j..k] == [];
    }
  }

  /** A call that never ends: two items at the back of a list of three. */
  lemma RotationExample()
    ensures Proper([3, 5, 6], Cursor(1, 3, 3)) && !Ends(Cursor(1, 3, 3))
  {
    EndsIff([3, 5, 6], Cursor(1, 3, 3));
  }
}
