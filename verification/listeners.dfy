/** The flag-change listener lists of both providers are
    `CopyOnWriteArrayList`s of callbacks; a listener is identified here by a
    number, so registering the same callback twice is two equal entries.
 */
module Listeners {
  type ListenerId = nat

  /** `CopyOnWriteArrayList.remove(o)`: drops the first equal entry, if any. */
  function RemoveFirst(ls: seq<ListenerId>, l: ListenerId): (r: seq<ListenerId>)
    ensures l !in ls ==> r == ls
    ensures l in ls ==> |r| == |ls| - 1
  {
    if |ls| == 0 then []
    else if ls[0] == l then ls[1..]
    else [ls[0]] + RemoveFirst(ls[1..], l)
  }

  /** Exactly one registration of `l` goes, when there is one, and every
      other entry stays. */
  lemma {:induction false} RemoveFirstCounts(ls: seq<ListenerId>, l: ListenerId)
    ensures multiset(RemoveFirst(ls, l)) == multiset(ls) - multiset{l}
  {
    if |ls| > 0 {
      assert ls == [ls[0]] + ls[1..];
      if ls[0] != l {
        RemoveFirstCounts(ls[1..], l);
      }
    }
  }

  /** Adding a new listener and removing it again restores the list. */
  lemma {:induction false} AddThenRemove(ls: seq<ListenerId>, l: ListenerId)
    requires l !in ls
    ensures RemoveFirst(ls + [l], l) == ls
  {
    var xs := ls + [l];
    if |ls| > 0 {
      assert xs[0] == ls[0] && xs[0] != l;
      assert xs[1..] == ls[1..] + [l];
      AddThenRemove(ls[1..], l);
      assert RemoveFirst(xs, l) == [ls[0]] + RemoveFirst(ls[1..] + [l], l);
      assert ls == [ls[0]] + ls[1..];
    } else {
      assert xs == [l];
    }
  }

  /** Of two registrations of the same callback, one removal leaves one. */
  lemma RemoveOneOfTwo(ls: seq<ListenerId>, l: ListenerId)
    requires l !in ls
    ensures RemoveFirst(ls + [l, l], l) == ls + [l]
  {
    assert ls + [l, l] == (ls + [l]) + [l];
    RemoveFirstSkips(ls, l, [l, l]);
  }

  /** Removal passes over a prefix that does not hold the listener. */
  lemma {:induction false} RemoveFirstSkips(ls: seq<ListenerId>, l: ListenerId, rest: seq<ListenerId>)
    requires l !in ls
    ensures RemoveFirst(ls + rest, l) == ls + RemoveFirst(rest, l)
  {
    if |ls| > 0 {
      var xs := ls + rest;
      assert RemoveFirst(xs, l) == [ls[0]] + RemoveFirst(ls[1..] + rest, l) by {
        assert xs[0] == ls[0] && ls[0] != l;
        assert xs[1..] == ls[1..] + rest;
      }
      assert l !in ls[1..];
      RemoveFirstSkips(ls[1..], l, rest);
      assert [ls[0]] + (ls[1..] + RemoveFirst(rest, l)) == ls + RemoveFirst(rest, l) by {
        assert ls == [ls[0]] + ls[1..];
      }
    } else {
      assert ls + rest == rest;
    }
  }
}
