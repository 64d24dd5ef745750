/** One side of a limit-order book: a price-ordered map from price to a FIFO queue.
    Both engines keep their bids and asks in a `std::map<Price, std::list<...>, Cmp>`;
    here such a map is a sequence of levels sorted best-first, which is the order in
    which the C++ code iterates it (`begin()` is the best level). */
module Levels {

  /** The comparator of a side: bids rank the highest price first (`std::greater`),
      asks the lowest price first (`std::less`). */
  datatype Dir = Desc | Asc

  /** The side of an order; bids rank with `Desc`, asks with `Asc`. */
  datatype Side = Buy | Sell

  function Other(s: Side): Side {
    if s == Buy then Sell else Buy
  }

  function DirOf(s: Side): Dir {
    if s == Buy then Desc else Asc
  }

  /** `std::min` on quantities: what a match trades. */
  function Min(a: nat, b: nat): nat {
    if a <= b then a else b
  }

  /** Price `p` is ranked strictly ahead of price `q` on a side with comparator `d`. */
  predicate Before(d: Dir, p: int, q: int) {
    if d == Desc then p > q else p < q
  }

  /** A price level: its price and the FIFO queue of what rests there, front first. */
  datatype Level<T> = Level(price: int, queue: seq<T>)

  /** Levels are strictly ordered best-first, so no price occurs twice. */
  ghost predicate Sorted<T>(d: Dir, l: seq<Level<T>>) {
    forall i, j :: 0 <= i < j < |l| ==> Before(d, l[i].price, l[j].price)
  }

  /** A level is erased as soon as its queue becomes empty. */
  ghost predicate NoEmptyLevel<T>(l: seq<Level<T>>) {
    forall i :: 0 <= i < |l| ==> l[i].queue != []
  }

  ghost predicate WellFormed<T>(d: Dir, l: seq<Level<T>>) {
    Sorted(d, l) && NoEmptyLevel(l)
  }

  /** The queue stored at price `p`; empty when the side has no level at `p`
      (the abstract view of `side[p]`). */
  function QueueAt<T>(l: seq<Level<T>>, p: int): seq<T> {
    if l == [] then []
    else if l[0].price == p then l[0].queue
    else QueueAt(l[1..], p)
  }

  /** Everything resting on the side, best level first and FIFO within a level. */
  function Flatten<T>(l: seq<Level<T>>): seq<T> {
    if l == [] then [] else l[0].queue + Flatten(l[1..])
  }

  /** The best price of a side after an update is no better than before, unless the
      update created a level at the price `p` it wrote. */
  ghost predicate NotBetter<T>(d: Dir, r: seq<Level<T>>, l: seq<Level<T>>) {
    r == [] || (l != [] && !Before(d, r[0].price, l[0].price))
  }

  lemma {:induction false} SortedTail<T>(d: Dir, l: seq<Level<T>>)
    requires WellFormed(d, l) && l != []
    ensures WellFormed(d, l[1..])
  {
    forall i, j | 0 <= i < j < |l| - 1
      ensures Before(d, l[1..][i].price, l[1..][j].price)
    {
      assert l[1..][i] == l[i + 1] && l[1..][j] == l[j + 1];
    }
  }

  /** A price ranked ahead of the best level is not on the side at all. */
  lemma {:induction false} AbsentAhead<T>(d: Dir, l: seq<Level<T>>, p: int)
    requires WellFormed(d, l)
    requires l == [] || Before(d, p, l[0].price)
    ensures QueueAt(l, p) == []
    decreases |l|
  {
    if l != [] {
      SortedTail(d, l);
      if |l| > 1 {
        assert Before(d, l[0].price, l[1].price);
      }
      AbsentAhead(d, l[1..], p);
    }
  }

  /** The first level holds the best price among all prices that have orders. */
  lemma {:induction false} FrontIsBest<T>(d: Dir, l: seq<Level<T>>, x: int)
    requires WellFormed(d, l)
    requires QueueAt(l, x) != []
    ensures x == l[0].price || Before(d, l[0].price, x)
  {
    if l[0].price != x && !Before(d, l[0].price, x) {
      AbsentAhead(d, l, x);
    }
  }

  /** The one update of a side (`ReplaceFront` is this at the best price): store
      queue `q` at price `p`, creating the level in its sorted position when it is
      missing and erasing it when `q` is empty. This is `side[p]` followed by `push_back`/`pop_front`/`erase` on the queue and
      `side.erase(p)` once the queue is empty. */
  function SetQueue<T>(d: Dir, l: seq<Level<T>>, p: int, q: seq<T>): (r: seq<Level<T>>)
    requires WellFormed(d, l)
    ensures WellFormed(d, r)
    ensures r != [] ==> (q != [] && r[0].price == p) || (l != [] && !Before(d, r[0].price, l[0].price))
    decreases |l|
  {
    if l == [] then
      (if q == [] then [] else [Level(p, q)])
    else if l[0].price == p then
      SortedTail(d, l);
      if q == [] then l[1..] else [Level(p, q)] + l[1..]
    else if Before(d, p, l[0].price) then
      if q == [] then l else [Level(p, q)] + l
    else
      SortedTail(d, l);
      var rest := SetQueue(d, l[1..], p, q);
      SortedCons(d, l[0], rest);
      [l[0]] + rest
  }

  lemma {:induction false} SortedCons<T>(d: Dir, x: Level<T>, l: seq<Level<T>>)
    requires WellFormed(d, l) && x.queue != []
    requires l == [] || Before(d, x.price, l[0].price)
    ensures WellFormed(d, [x] + l)
  {
    var r := [x] + l;
    forall i, j | 0 <= i < j < |r| ensures Before(d, r[i].price, r[j].price) {
      if i > 0 {
        assert r[i] == l[i - 1] && r[j] == l[j - 1];
      } else if j > 1 {
        assert r[j] == l[j - 1];
        assert Before(d, l[0].price, l[j - 1].price);
      }
    }
  }

  /** `SetQueue` changes the queue at `p` and no other. */
  lemma {:induction false} SetQueueAt<T>(d: Dir, l: seq<Level<T>>, p: int, q: seq<T>, x: int)
    requires WellFormed(d, l)
    ensures QueueAt(SetQueue(d, l, p, q), x) == if x == p then q else QueueAt(l, x)
    decreases |l|
  {
    var r := SetQueue(d, l, p, q);
    if l == [] {
    } else if l[0].price == p {
      SortedTail(d, l);
      if |l| > 1 {
        assert Before(d, l[0].price, l[1].price) && l[1..][0] == l[1];
      }
      AbsentAhead(d, l[1..], p);
      if q != [] { assert r[1..] == l[1..]; }
    } else if Before(d, p, l[0].price) {
      AbsentAhead(d, l, p);
      if q != [] { assert r[1..] == l; }
    } else {
      SortedTail(d, l);
      assert r[1..] == SetQueue(d, l[1..], p, q);
      SetQueueAt(d, l[1..], p, q, x);
    }
  }

  lemma SetQueueAtAll<T>(d: Dir, l: seq<Level<T>>, p: int, q: seq<T>)
    requires WellFormed(d, l)
    ensures forall x :: QueueAt(SetQueue(d, l, p, q), x) == if x == p then q else QueueAt(l, x)
  {
    forall x ensures QueueAt(SetQueue(d, l, p, q), x) == if x == p then q else QueueAt(l, x) {
      SetQueueAt(d, l, p, q, x);
    }
  }

  /** `SetQueue` replaces the entries queued at `p` by `q` and keeps every other entry. */
  lemma {:induction false} SetQueueFlatten<T>(d: Dir, l: seq<Level<T>>, p: int, q: seq<T>)
    requires WellFormed(d, l)
    ensures multiset(Flatten(SetQueue(d, l, p, q))) + multiset(QueueAt(l, p)) == multiset(Flatten(l)) + multiset(q)
    decreases |l|
  {
    if l == [] {
      assert Flatten(SetQueue(d, l, p, q)) == q;
    } else if l[0].price == p || Before(d, p, l[0].price) {
      FlattenFront(d, l, p, q);
    } else {
      SortedTail(d, l);
      SetQueueFlatten(d, l[1..], p, q);
      FlattenLater(d, l, p, q);
    }
  }

  lemma FlattenFront<T>(d: Dir, l: seq<Level<T>>, p: int, q: seq<T>)
    requires WellFormed(d, l) && l != []
    requires l[0].price == p || Before(d, p, l[0].price)
    ensures multiset(Flatten(SetQueue(d, l, p, q))) + multiset(QueueAt(l, p)) == multiset(Flatten(l)) + multiset(q)
  {
    var r := SetQueue(d, l, p, q);
    if l[0].price == p {
      assert Flatten(r) == q + Flatten(l[1..]) by {
        if q != [] { assert r[1..] == l[1..]; }
      }
      assert Flatten(l) == QueueAt(l, p) + Flatten(l[1..]);
    } else {
      assert Flatten(r) == q + Flatten(l) by {
        if q != [] { assert r[1..] == l; }
      }
      AbsentAhead(d, l, p);
    }
  }

  lemma FlattenLater<T>(d: Dir, l: seq<Level<T>>, p: int, q: seq<T>)
    requires WellFormed(d, l) && l != []
    requires l[0].price != p && !Before(d, p, l[0].price)
    requires WellFormed(d, l[1..])
    requires multiset(Flatten(SetQueue(d, l[1..], p, q))) + multiset(QueueAt(l[1..], p))
          == multiset(Flatten(l[1..])) + multiset(q)
    ensures multiset(Flatten(SetQueue(d, l, p, q))) + multiset(QueueAt(l, p)) == multiset(Flatten(l)) + multiset(q)
  {
    var r := SetQueue(d, l, p, q);
    var rest := SetQueue(d, l[1..], p, q);
    assert r == [l[0]] + rest;
    assert Flatten(r) == l[0].queue + Flatten(rest) by {
      assert r[1..] == rest;
    }
    assert QueueAt(l, p) == QueueAt(l[1..], p);
    assert Flatten(l) == l[0].queue + Flatten(l[1..]);
    UnionShift(multiset(l[0].queue), multiset(Flatten(rest)), multiset(QueueAt(l[1..], p)),
               multiset(Flatten(l[1..])), multiset(q));
  }

  lemma UnionShift<T>(a: multiset<T>, b: multiset<T>, c: multiset<T>, e: multiset<T>, f: multiset<T>)
    requires b + c == e + f
    ensures (a + b) + c == (a + e) + f
  {
    assert (a + b) + c == a + (b + c);
    assert (a + e) + f == a + (e + f);
  }

  /** Writing at a price ranked behind every level appends a level at the worst end. */
  lemma {:induction false} SetQueueBehind<T>(d: Dir, l: seq<Level<T>>, p: int, q: seq<T>)
    requires WellFormed(d, l) && q != []
    requires l == [] || Before(d, l[|l| - 1].price, p)
    ensures SetQueue(d, l, p, q) == l + [Level(p, q)]
    decreases |l|
  {
    if l != [] {
      var last := l[|l| - 1];
      assert l[0].price == last.price || Before(d, l[0].price, last.price);
      SortedTail(d, l);
      if |l| > 1 {
        assert l[1..][|l[1..]| - 1] == l[|l| - 1];
        SetQueueBehind(d, l[1..], p, q);
      }
      assert [l[0]] + (l[1..] + [Level(p, q)]) == l + [Level(p, q)];
    }
  }

  /** Rewriting a level that exists never improves the side's best price. */
  lemma SetQueueExisting<T>(d: Dir, l: seq<Level<T>>, p: int, q: seq<T>)
    requires WellFormed(d, l) && QueueAt(l, p) != []
    ensures NotBetter(d, SetQueue(d, l, p, q), l)
  {
    FrontIsBest(d, l, p);
  }

  /** What is queued at one price is part of what rests on the side. */
  lemma {:induction false} QueueAtInFlatten<T>(l: seq<Level<T>>, p: int)
    ensures multiset(QueueAt(l, p)) <= multiset(Flatten(l))
    decreases |l|
  {
    if l != [] && l[0].price != p {
      QueueAtInFlatten(l[1..], p);
    }
  }

  /** Everything resting on the side sits in the queue of some price. */
  lemma {:induction false} FindLevel<T>(d: Dir, l: seq<Level<T>>, x: T) returns (p: int)
    requires WellFormed(d, l) && x in Flatten(l)
    ensures x in QueueAt(l, p)
    decreases |l|
  {
    if x in l[0].queue {
      p := l[0].price;
    } else {
      SortedTail(d, l);
      p := FindLevel(d, l[1..], x);
      FrontIsBest(d, l[1..], p);
      assert Before(d, l[0].price, l[1].price);
    }
  }

  /** The best level's queue replaced by `q`, the level erased when `q` is empty:
      `pop_front` on the front queue and `erase` of its price once it is empty. This is
      `SetQueue` at the best price, which touches only the front level. */
  function ReplaceFront<T>(d: Dir, l: seq<Level<T>>, q: seq<T>): (r: seq<Level<T>>)
    requires WellFormed(d, l) && l != []
    ensures WellFormed(d, r)
    ensures r == if q == [] then l[1..] else [Level(l[0].price, q)] + l[1..]
  {
    SetQueue(d, l, l[0].price, q)
  }

  /** Replacing the front queue changes the queue at the best price and no other,
      changes the flattened side only at its front, and never improves the best price. */
  lemma ReplaceFrontFacts<T>(d: Dir, l: seq<Level<T>>, q: seq<T>)
    requires WellFormed(d, l) && l != []
    ensures forall x :: QueueAt(ReplaceFront(d, l, q), x) == if x == l[0].price then q else QueueAt(l, x)
    ensures Flatten(ReplaceFront(d, l, q)) == q + Flatten(l[1..])
    ensures NotBetter(d, ReplaceFront(d, l, q), l)
  {
    var r := ReplaceFront(d, l, q);
    SortedTail(d, l);
    if l[1..] != [] {
      assert Before(d, l[0].price, l[1].price);
    }
    AbsentAhead(d, l[1..], l[0].price);
    if q != [] {
      assert r[1..] == l[1..];
    }
  }

  /** A price that no level carries has an empty queue. */
  lemma {:induction false} QueueAtAbsent<T>(l: seq<Level<T>>, p: int)
    requires forall i :: 0 <= i < |l| ==> l[i].price != p
    ensures QueueAt(l, p) == []
    decreases |l|
  {
    if l != [] {
      assert l[0].price != p;
      QueueAtAbsent(l[1..], p);
    }
  }

  /** `bestBid()` / `bestAsk()`: the best price, or 0 when the side is empty. */
  function Best<T>(d: Dir, l: seq<Level<T>>): (p: int)
    requires WellFormed(d, l)
    ensures l == [] ==> p == 0
    ensures l != [] ==> QueueAt(l, p) != []
    ensures l != [] ==> forall x :: QueueAt(l, x) != [] ==> x == p || Before(d, p, x)
  {
    if l == [] then 0
    else
      assert QueueAt(l, l[0].price) == l[0].queue;
      assert forall x :: QueueAt(l, x) != [] ==> x == l[0].price || Before(d, l[0].price, x) by {
        forall x | QueueAt(l, x) != [] ensures x == l[0].price || Before(d, l[0].price, x) {
          FrontIsBest(d, l, x);
        }
      }
      l[0].price
  }

  /** The number of queued entries, level by level (the loop of `restingOrders`). */
  function Count<T>(l: seq<Level<T>>): (n: nat)
    ensures n == |Flatten(l)|
  {
    if l == [] then 0 else |l[0].queue| + Count(l[1..])
  }
}
