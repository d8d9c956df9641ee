/** Facts about duplicate-free sequences that every layer above uses. */
module Sequences {

  ghost predicate NoDup<T>(s: seq<T>) {
    forall i, j :: 0 <= i < j < |s| ==> s[i] != s[j]
  }

  function InsertAt<T>(s: seq<T>, k: nat, x: T): seq<T>
    requires k <= |s|
  {
    s[..k] + [x] + s[k..]
  }

  function RemoveAt<T>(s: seq<T>, k: nat): seq<T>
    requires k < |s|
  {
    s[..k] + s[k + 1..]
  }

  /** The sequence s without its block s[i..j]. */
  function CutBlock<T>(s: seq<T>, i: nat, j: nat): seq<T>
    requires i <= j <= |s|
  {
    s[..i] + s[j..]
  }

  function Reversed<T>(s: seq<T>): (r: seq<T>)
    ensures |r| == |s| && forall k :: 0 <= k < |s| ==> r[k] == s[|s| - 1 - k]
  {
    if s == [] then [] else [s[|s| - 1]] + Reversed(s[..|s| - 1])
  }

  /** The element an iterator at position k designates; k == |s| is end. */
  function Designated<T>(s: seq<T>, end: T, k: int): T
  {
    if 0 <= k < |s| then s[k] else end
  }

  lemma DesignatedAfterRemove<T>(s: seq<T>, end: T, i: nat, k: nat)
    requires i < |s| && k <= |s| && k != i
    ensures Designated(RemoveAt(s, i), end, if k < i then k else k - 1) == Designated(s, end, k)
  {
  }

  lemma NoDupInsert<T>(s: seq<T>, k: nat, x: T)
    requires k <= |s| && NoDup(s) && x !in s
    ensures NoDup(InsertAt(s, k, x))
  {
  }

  lemma NoDupRemove<T>(s: seq<T>, k: nat)
    requires k < |s| && NoDup(s)
    ensures NoDup(RemoveAt(s, k)) && s[k] !in RemoveAt(s, k)
  {
  }

  /** The sequence s with the block t[i..l] put in ahead of position p. */
  function Received<T>(s: seq<T>, p: nat, t: seq<T>, i: nat, l: nat): seq<T>
    requires p <= |s| && i <= l <= |t|
  {
    s[..p] + t[i..l] + s[p..]
  }

  /** What is still to be received, received, is the same before and after one
      element has been taken from the front of the range. */
  lemma TransferOne<T>(s: seq<T>, t: seq<T>, p: nat, i: nat, l: nat)
    requires p <= |s| && i < l <= |t|
    ensures Received(InsertAt(s, p, t[i]), p + 1, RemoveAt(t, i), i, l - 1) == Received(s, p, t, i, l)
    ensures CutBlock(RemoveAt(t, i), i, l - 1) == CutBlock(t, i, l)
  {
    assert RemoveAt(t, i)[i..l - 1] == t[i + 1..l];
    assert t[i..l] == [t[i]] + t[i + 1..l];
    assert RemoveAt(t, i)[l - 1..] == t[l..];
  }

  lemma ReceivedNothing<T>(s: seq<T>, p: nat, t: seq<T>, i: nat)
    requires p <= |s| && i <= |t|
    ensures Received(s, p, t, i, i) == s && CutBlock(t, i, i) == t
  {
  }

  lemma ReceivedAll<T>(s: seq<T>, p: nat, t: seq<T>)
    requires p <= |s|
    ensures Received(s, p, t, 0, |t|) == s[..p] + t + s[p..] && CutBlock(t, 0, |t|) == []
  {
  }

  lemma MultisetInsert<T>(s: seq<T>, k: nat, x: T)
    requires k <= |s|
    ensures multiset(InsertAt(s, k, x)) == multiset(s) + multiset{x}
    ensures forall y :: y in InsertAt(s, k, x) <==> y in s || y == x
  {
    assert s == s[..k] + s[k..];
  }

  lemma MultisetRemove<T>(s: seq<T>, k: nat)
    requires k < |s|
    ensures multiset(RemoveAt(s, k)) == multiset(s) - multiset{s[k]}
    ensures s[k] in multiset(s)
    ensures forall y :: y in s <==> y in RemoveAt(s, k) || y == s[k]
  {
    assert s == s[..k] + [s[k]] + s[k + 1..];
  }
}

/** The circular doubly linked list with an embedded sentinel. */
module IntrusiveLists {
  import opened Sequences
  import opened SpliceLoop

  class ListItem<T(0)> {
    var prev: ListItem?<T>
    var next: ListItem?<T>
    const value: T

    constructor (value: T)
      ensures this.value == value
    {
      this.value := value;
      prev, next := null, null;
    }

    constructor Sentinel()
      ensures next == this && prev == this
    {
      next, prev := this, this;
    }
  }

  class IntrusiveList<T(0)> {
    const sentinel: ListItem<T>
    ghost var items: seq<ListItem<T>>

    ghost function At(s: seq<ListItem<T>>, k: int): ListItem<T>
    {
      Designated(s, sentinel, k)
    }

    /** The node ahead of it in the ring. */
    ghost function Before(s: seq<ListItem<T>>, k: int): ListItem<T>
    {
      Designated(s, sentinel, k - 1)
    }

    /** Position k - 1 and position k are joined by one pair of links, for
        every k, with the sentinel closing the ring on both sides. */
    ghost predicate Valid()
      reads this, Nodes()
    {
      && NoDup(items)
      && sentinel !in items
      && (forall k {:trigger At(items, k)} :: 0 <= k <= |items| ==>
          At(items, k).prev == Before(items, k) && Before(items, k).next == At(items, k))
    }

    ghost function Nodes(): set<ListItem<T>>
      reads this
    {
      (set n | n in items) + {sentinel}
    }

    /** A list whose own nodes are untouched is untouched. */
    twostate lemma Framed()
      requires old(Valid()) && items == old(items)
      requires forall n :: n in old(Nodes()) ==> n.prev == old(n.prev) && n.next == old(n.next)
      ensures Valid() && Nodes() == old(Nodes())
    {
    }

    lemma SamePosition(a: nat, b: nat)
      requires Valid() && a <= |items| && b <= |items|
      ensures At(items, a) == At(items, b) <==> a == b
    {
      assert a < |items| ==> items[a] in items;
      assert b < |items| ==> items[b] in items;
    }

    constructor ()
      ensures Valid() && items == [] && fresh(sentinel)
    {
      sentinel := new ListItem<T>.Sentinel();
      items := [];
    }

    method Empty() returns (r: bool)
      requires Valid()
      ensures Valid()
      ensures r == (items == [])
    {
      r := sentinel.next == sentinel;
      assert At(items, 0) == sentinel.next;
    }

    /** begin(). */
    method Begin() returns (r: ListItem<T>)
      requires Valid()
      ensures Valid()
      ensures r == At(items, 0)
    {
      assert At(items, 0).prev == At(items, -1);
      r := sentinel.next;
    }

    /** The iterator's ++ and --. */
    method Next(it: ListItem<T>, ghost k: nat) returns (r: ListItem<T>)
      requires Valid() && k < |items| && it == At(items, k)
      ensures Valid()
      ensures r == At(items, k + 1)
    {
      assert At(items, k + 1).prev == it;
      r := it.next;
    }

    method Prev(it: ListItem<T>, ghost k: nat) returns (r: ListItem<T>)
      requires Valid() && k <= |items| && it == At(items, k)
      ensures Valid()
      ensures r == At(items, k - 1)
    {
      r := it.prev;
    }

    method Insert(item: ListItem<T>, before: ListItem<T>, ghost b: nat) returns (r: ListItem<T>)
      requires Valid()
      requires b <= |items| && before == At(items, b)
      requires item !in items && item != sentinel
      modifies this`items, item, Nodes()
      ensures Valid()
      ensures items == InsertAt(old(items), b, item)
      ensures Nodes() == old(Nodes()) + {item}
      ensures r == before
    {
      assert At(items, b).prev == At(items, b - 1);
      before.prev.next := item;
      item.prev := before.prev;
      item.next := before;
      before.prev := item;
      r := before;
      ghost var was := items;
      items := InsertAt(items, b, item);
      NoDupInsert(was, b, item);
      MultisetInsert(was, b, item);
      forall k | 0 <= k <= |items|
        ensures At(items, k).prev == Before(items, k) && Before(items, k).next == At(items, k)
      {
        if k < b {
          assert At(items, k) == At(was, k) && Before(items, k) == Before(was, k);
        } else if k > b + 1 {
          assert At(items, k) == At(was, k - 1) && Before(items, k) == Before(was, k - 1);
        }
      }
    }

    method Erase(pos: ListItem<T>, ghost p: nat) returns (r: ListItem<T>)
      requires Valid()
      requires p < |items| && pos == At(items, p)
      modifies this`items, Nodes()
      ensures Valid()
      ensures items == RemoveAt(old(items), p)
      ensures Nodes() == old(Nodes()) - {pos}
      ensures r == At(items, p)
    {
      assert At(items, p).prev == At(items, p - 1);
      assert At(items, p + 1).prev == pos;
      var prv, nxt := pos.prev, pos.next;
      r := pos.next;
      prv.next := nxt;
      nxt.prev := prv;
      ghost var was := items;
      items := RemoveAt(items, p);
      NoDupRemove(was, p);
      MultisetRemove(was, p);
      forall k | 0 <= k <= |items|
        ensures At(items, k).prev == Before(items, k) && Before(items, k).next == At(items, k)
      {
        if k < p {
          assert At(items, k) == At(was, k) && Before(items, k) == Before(was, k);
        } else if k > p {
          assert At(items, k) == At(was, k + 1) && Before(items, k) == Before(was, k + 1);
        }
      }
    }

    method Front() returns (r: ListItem<T>)
      requires Valid() && items != []
      ensures Valid() && r == items[0]
    {
      assert At(items, 0) == items[0];
      r := sentinel.next;
    }

    method Back() returns (r: ListItem<T>)
      requires Valid() && items != []
      ensures r == items[|items| - 1]
    {
      assert At(items, |items|).prev == At(items, |items| - 1);
      r := sentinel.prev;
    }

    method PushFront(item: ListItem<T>)
      requires Valid() && item !in items && item != sentinel
      modifies this`items, item, Nodes()
      ensures Valid() && items == [item] + old(items)
      ensures Nodes() == old(Nodes()) + {item}
    {
      assert At(items, 0).prev == At(items, -1);
      sentinel.next.prev := item;
      item.prev := sentinel;
      item.next := sentinel.next;
      sentinel.next := item;
      ghost var was := items;
      items := [item] + items;
      forall k | 0 <= k <= |items|
        ensures At(items, k).prev == Before(items, k) && Before(items, k).next == At(items, k)
      {
        if k > 1 {
          assert At(items, k) == At(was, k - 1) && Before(items, k) == Before(was, k - 1);
        }
      }
    }

    method PushBack(item: ListItem<T>)
      requires Valid() && item !in items && item != sentinel
      modifies this`items, item, Nodes()
      ensures Valid() && items == old(items) + [item]
      ensures Nodes() == old(Nodes()) + {item}
    {
      assert At(items, |items|).prev == At(items, |items| - 1);
      sentinel.prev.next := item;
      item.next := sentinel;
      item.prev := sentinel.prev;
      sentinel.prev := item;
      ghost var was := items;
      items := items + [item];
      forall k | 0 <= k <= |items|
        ensures At(items, k).prev == Before(items, k) && Before(items, k).next == At(items, k)
      {
        if k < |was| {
          assert At(items, k) == At(was, k) && Before(items, k) == Before(was, k);
        }
      }
    }

    method PopFront()
      requires Valid() && items != []
      modifies this`items, Nodes()
      ensures Valid() && items == old(items)[1..]
      ensures Nodes() <= old(Nodes())
    {
      assert At(items, 0) == items[0] && At(items, 1).prev == items[0];
      var itemToRemove := sentinel.next;
      sentinel.next := itemToRemove.next;
      sentinel.next.prev := sentinel;
      ghost var was := items;
      items := items[1..];
      forall k | 0 <= k <= |items|
        ensures At(items, k).prev == Before(items, k) && Before(items, k).next == At(items, k)
      {
        if k > 0 {
          assert At(items, k) == At(was, k + 1) && Before(items, k) == Before(was, k + 1);
        }
      }
    }

    method PopBack()
      requires Valid() && items != []
      modifies this`items, Nodes()
      ensures Valid() && items == old(items)[..|old(items)| - 1]
    {
      ghost var n := |items| - 1;
      assert At(items, |items|).prev == At(items, n) && At(items, n).prev == At(items, n - 1);
      var itemToRemove := sentinel.prev;
      sentinel.prev := itemToRemove.prev;
      sentinel.prev.next := sentinel;
      ghost var was := items;
      items := items[..n];
      forall k | 0 <= k <= |items|
        ensures At(items, k).prev == Before(items, k) && Before(items, k).next == At(items, k)
      {
        if k < n {
          assert At(items, k) == At(was, k) && Before(items, k) == Before(was, k);
        }
      }
    }

    /** One iteration of the splice loop with the list as its own source. */
    method SpliceOnce(it: ListItem<T>, before: ListItem<T>, ghost c: Cursor)
      returns (it': ListItem<T>, before': ListItem<T>)
      requires Valid()
      requires c.it < |items| && c.last <= |items| && c.before <= |items|
      requires c.it != c.last && c.it != c.before
      requires it == At(items, c.it) && before == At(items, c.before)
      modifies this`items, Nodes()
      ensures Valid()
      ensures items == Relink(old(items), c)
      ensures it' == At(items, Advance(c).it) && before' == At(items, Advance(c).before)
      ensures At(items, Advance(c).last) == old(At(items, c.last))
      ensures Nodes() == old(Nodes())
    {
      ghost var was := items;
      RelinkTracks(was, sentinel, c);
      assert it in Nodes();
      it' := Erase(it, c.it);
      assert it !in items && before == At(items, Landing(c)) by {
        NoDupRemove(was, c.it);
        DesignatedAfterRemove(was, sentinel, c.it, c.before);
      }
      before' := Insert(it, before, Landing(c));
    }

    /** `splice` with `&other == this`.  Beyond the source's own check that
        `before` is not `first`, `before` must not lie inside the range, and
        the loop must be one that ends: see SpliceLoop.EndsIff. */
    method SpliceWithin(before: ListItem<T>, first: ListItem<T>, last: ListItem<T>, ghost c: Cursor)
      returns (r: ListItem<T>)
      requires Valid()
      requires c.it <= c.last <= |items| && c.before <= |items|
      requires first == At(items, c.it) && last == At(items, c.last) && before == At(items, c.before)
      requires c.before != c.it && (c.before < c.it || c.last <= c.before)
      requires (c.it == 0 && c.last == |items|) || !(c.before == c.last && c.it + 2 <= c.last)
      modifies this`items, Nodes()
      ensures Valid()
      ensures items == Moved(old(items), c)
      ensures Nodes() == old(Nodes())
      ensures r == first
    {
      var begin := Begin();
      if first == begin && last == sentinel {
        MovedNowhere(items, c);
        return first;
      }
      ghost var was, d := items, c;
      var it, pos := first, before;
      while it != last
        invariant Valid()
        invariant Ending(items, d) && Moved(items, d) == Moved(was, c)
        invariant Nodes() == old(Nodes())
        invariant it == At(items, d.it) && last == At(items, d.last) && pos == At(items, d.before)
        decreases d.last - d.it
      {
        MovedStep(items, d);
        EndingStep(items, d);
        it, pos := SpliceOnce(it, pos, d);
        d := Advance(d);
      }
      MovedNowhere(items, d);
      r := first;
    }

    ghost predicate Apart(other: IntrusiveList<T>)
      reads this, other
    {
      this != other && Nodes() !! other.Nodes()
    }

    /** `splice` from another list: the range [i, j) of `other`, in order, ends
        up ahead of position b of this list. */
    method SpliceFrom(before: ListItem<T>, other: IntrusiveList<T>, first: ListItem<T>, last: ListItem<T>,
                      ghost b: nat, ghost i: nat, ghost j: nat)
      returns (r: ListItem<T>)
      requires Valid() && other.Valid() && Apart(other)
      requires i <= j <= |other.items| && b <= |items|
      requires first == other.At(other.items, i) && last == other.At(other.items, j) && before == At(items, b)
      modifies this`items, Nodes(), other`items, other.Nodes()
      ensures Valid() && other.Valid() && Apart(other)
      ensures items == Received(old(items), b, old(other.items), i, j)
      ensures other.items == CutBlock(old(other.items), i, j)
      ensures Nodes() + other.Nodes() == old(Nodes() + other.Nodes())
      ensures r == first
    {
      hide Received, CutBlock, Nodes, Valid, Apart;
      ghost var goal, rest := Received(items, b, other.items, i, j), CutBlock(other.items, i, j);
      ghost var p: nat, l: nat := b, j;
      var it, pos := first, before;
      while it != last
        invariant Valid() && other.Valid() && Apart(other)
        invariant i <= l <= |other.items| && p <= |items|
        invariant Received(items, p, other.items, i, l) == goal && CutBlock(other.items, i, l) == rest
        invariant Nodes() + other.Nodes() == old(Nodes() + other.Nodes())
        invariant it == other.At(other.items, i) && last == other.At(other.items, l) && pos == At(items, p)
        decreases l
      {
        it, pos := Transfer(pos, other, it, p, i, l);
        p, l := p + 1, l - 1;
      }
      assert items == goal && other.items == rest by {
        other.SamePosition(i, l);
        ReceivedNothing(items, p, other.items, i);
      }
      r := first;
    }

    /** One iteration of the splice loop with another list as its source. */
    method Transfer(before: ListItem<T>, other: IntrusiveList<T>, it: ListItem<T>,
                    ghost b: nat, ghost i: nat, ghost l: nat)
      returns (it': ListItem<T>, before': ListItem<T>)
      requires Valid() && other.Valid() && Apart(other)
      requires i < l <= |other.items| && b <= |items|
      requires it == other.At(other.items, i) && before == At(items, b)
      modifies this`items, Nodes(), other`items, other.Nodes()
      ensures Valid() && other.Valid() && Apart(other)
      ensures |items| == old(|items|) + 1 && |other.items| == old(|other.items|) - 1
      ensures Received(items, b + 1, other.items, i, l - 1) == old(Received(items, b, other.items, i, l))
      ensures CutBlock(other.items, i, l - 1) == old(CutBlock(other.items, i, l))
      ensures Nodes() + other.Nodes() == old(Nodes() + other.Nodes())
      ensures it' == other.At(other.items, i) && before' == before == At(items, b + 1)
      ensures other.At(other.items, l - 1) == old(other.At(other.items, l))
    {
      NoDupRemove(other.items, i);
      DesignatedAfterRemove(other.items, other.sentinel, i, l);
      TransferOne(items, other.items, b, i, l);
      assert it in other.Nodes();
      it' := other.Erase(it, i);
      assert it !in Nodes() && it !in other.Nodes();
      before' := Insert(it, before, b);
    }

    /** `splice` of a whole other list. */
    method SpliceAll(before: ListItem<T>, other: IntrusiveList<T>, ghost b: nat) returns (r: ListItem<T>)
      requires Valid() && other.Valid() && Apart(other)
      requires b <= |items| && before == At(items, b)
      modifies this`items, Nodes(), other`items, other.Nodes()
      ensures Valid() && other.Valid() && Apart(other)
      ensures items == old(items[..b]) + old(other.items) + old(items[b..])
      ensures other.items == []
      ensures Nodes() + other.Nodes() == old(Nodes() + other.Nodes())
      ensures r == old(other.At(other.items, 0))
    {
      ReceivedAll(items, b, other.items);
      var begin := other.Begin();
      r := SpliceFrom(before, other, begin, other.sentinel, b, 0, |other.items|);
    }
  }
}
