/** The indexed matching engine of orderBook_core.cpp: every order rests in the book
    first and is then crossed against the other side, best bid front against best ask
    front, until the book is uncrossed.

    Orders are owned values keyed by id in `lookup` (the index that maps an id to its
    order and its queue position); the price queues hold the ids, so a partial fill
    changes only the order in `lookup`, as a fill through the `Order*` does. */
module IndexedBook {
  import opened Levels

  datatype OrderType = GoodTillCancel | FillAndKill

  /** `OrderId` is `uint64_t`: any natural number here. `Price` (`int32_t`) and
      `Quantity` (`uint32_t`) are `int` and `nat`; no operation of this engine adds
      them, so the widths do not matter. */
  newtype OrderId = x: int | 0 <= x

  datatype Order = Order(kind: OrderType, id: OrderId, side: Side, px: int, initial: nat, remaining: nat)
  {
    /** `filled()`: nothing is left to trade. */
    predicate Filled() {
      remaining == 0
    }
  }

  /** `fill` either succeeds or throws `logic_error("overfill")`. */
  datatype Result<T> = Ok(value: T) | Overfill

  /** One half of a trade: the order, the price it records and the quantity. */
  datatype TradeInfo = TradeInfo(orderId: OrderId, price: int, qty: nat)

  /** A match: the bid half first, then the ask half. */
  datatype Trade = Trade(bid: TradeInfo, ask: TradeInfo)

  /** `MakeOrder`: a new order has nothing filled yet. */
  function MakeOrder(t: OrderType, id: OrderId, s: Side, px: int, qty: nat): (o: Order)
    ensures o.initial == qty && o.remaining == qty && !(o.Filled() && qty > 0)
    ensures o.kind == t && o.id == id && o.side == s && o.px == px
  {
    Order(t, id, s, px, qty, qty)
  }

  /** `Order::fill`: refuses to take more than what remains; otherwise only
      `remaining` changes, and it drops by exactly `q`. */
  function Fill(o: Order, q: nat): (r: Result<Order>)
    ensures r.Overfill? <==> q > o.remaining
    ensures r.Ok? ==> r.value.remaining + q == o.remaining && r.value.(remaining := o.remaining) == o
  {
    if q > o.remaining then Overfill else Ok(o.(remaining := o.remaining - q))
  }

  /** A run of fills applied one after the other, stopping at the first overfill. */
  function FillAll(o: Order, qs: seq<nat>): Result<Order>
    decreases |qs|
  {
    if qs == [] then Ok(o)
    else match Fill(o, qs[0])
      case Overfill => Overfill
      case Ok(o') => FillAll(o', qs[1..])
  }

  function Sum(qs: seq<nat>): nat {
    if qs == [] then 0 else qs[0] + Sum(qs[1..])
  }

  /** Fills never overdraw an order: a run of fills succeeds exactly when it asks for
      no more than what remains, and then `remaining` drops by the total. Started from
      `MakeOrder`, this keeps `0 <= remaining <= initial` for the order's whole life. */
  lemma {:induction false} FillAllConserves(o: Order, qs: seq<nat>)
    ensures FillAll(o, qs).Ok? <==> Sum(qs) <= o.remaining
    ensures FillAll(o, qs).Ok? ==>
              FillAll(o, qs).value.remaining + Sum(qs) == o.remaining
              && FillAll(o, qs).value.(remaining := o.remaining) == o
    decreases |qs|
  {
    if qs != [] && qs[0] <= o.remaining {
      FillAllConserves(Fill(o, qs[0]).value, qs[1..]);
    }
  }

  /** The engine's state: the two sides and the index from id to order. */
  datatype Book = Book(bids: seq<Level<OrderId>>, asks: seq<Level<OrderId>>, lookup: map<OrderId, Order>)

  function SideOf(b: Book, s: Side): seq<Level<OrderId>> {
    if s == Buy then b.bids else b.asks
  }

  function WithSide(b: Book, s: Side, l: seq<Level<OrderId>>): Book {
    if s == Buy then b.(bids := l) else b.(asks := l)
  }

  /** Every id queued on side `s` at price `p` indexes an order of that side and price. */
  ghost predicate Placed(l: seq<Level<OrderId>>, lookup: map<OrderId, Order>, s: Side) {
    forall p, id :: id in QueueAt(l, p) ==> id in lookup && lookup[id].side == s && lookup[id].px == p
  }

  /** The book invariant: both sides sorted best-first without empty levels, every
      indexed order queued exactly once (and nothing else queued), each at its own
      side and price. */
  ghost predicate Inv(b: Book) {
    && WellFormed(Desc, b.bids) && WellFormed(Asc, b.asks)
    && multiset(Flatten(b.bids)) + multiset(Flatten(b.asks)) == multiset(b.lookup.Keys)
    && Placed(b.bids, b.lookup, Buy) && Placed(b.asks, b.lookup, Sell)
    && (forall id :: id in b.lookup ==> b.lookup[id].id == id)
  }

  /** The best bid reaches the best ask. */
  predicate Crossed(b: Book) {
    b.bids != [] && b.asks != [] && b.bids[0].price >= b.asks[0].price
  }

  lemma InvSide(b: Book, s: Side)
    requires Inv(b)
    ensures WellFormed(DirOf(s), SideOf(b, s)) && Placed(SideOf(b, s), b.lookup, s)
  {
  }

  /** An id is queued at most once on its side. */
  lemma QueuedOnce(b: Book, s: Side, p: int, id: OrderId)
    requires Inv(b)
    ensures multiset(QueueAt(SideOf(b, s), p))[id] <= 1
  {
    var l := SideOf(b, s);
    QueueAtInFlatten(l, p);
    assert multiset(QueueAt(l, p))[id] <= multiset(Flatten(l))[id];
    var m := multiset(Flatten(b.bids)) + multiset(Flatten(b.asks));
    assert m[id] == multiset(Flatten(b.bids))[id] + multiset(Flatten(b.asks))[id];
    assert multiset(Flatten(l))[id] <= m[id] == multiset(b.lookup.Keys)[id] <= 1;
  }

  /** The order at the front of the best level of side `s`. */
  function FrontId(b: Book, s: Side): (id: OrderId)
    requires Inv(b) && SideOf(b, s) != []
    ensures id in b.lookup && b.lookup[id].side == s && b.lookup[id].px == SideOf(b, s)[0].price
    ensures id in QueueAt(SideOf(b, s), SideOf(b, s)[0].price)
  {
    var l := SideOf(b, s);
    InvSide(b, s);
    assert QueueAt(l, l[0].price) == l[0].queue;
    l[0].queue[0]
  }

  /** The index after order `id` is filled by `q`: a filled order leaves it. */
  function FillIn(lookup: map<OrderId, Order>, id: OrderId, q: nat): map<OrderId, Order>
    requires id in lookup && q <= lookup[id].remaining
  {
    if q == lookup[id].remaining then lookup - {id}
    else lookup[id := lookup[id].(remaining := lookup[id].remaining - q)]
  }

  /** A fill takes `q` from order `id` and from no other order. */
  lemma FillInConserves(lookup: map<OrderId, Order>, id: OrderId, q: nat)
    requires id in lookup && q <= lookup[id].remaining
    ensures forall k :: Remaining(FillIn(lookup, id, q), k) + (if k == id then q else 0) == Remaining(lookup, k)
    ensures Evolved(lookup, FillIn(lookup, id, q))
  {
  }

  lemma EvolvedTrans(a: map<OrderId, Order>, b: map<OrderId, Order>, c: map<OrderId, Order>)
    requires Evolved(a, b) && Evolved(b, c)
    ensures Evolved(a, c)
  {
  }

  /** Fill the front order of side `s` by `q`; a filled order leaves its queue and the
      index, and its level is erased if that empties it (`fill`, then `lookup.erase`,
      `pop_front` and `erase(px)`). */
  function FillFront(b: Book, s: Side, q: nat): (r: Book)
    requires Inv(b) && SideOf(b, s) != [] && q <= b.lookup[FrontId(b, s)].remaining
    ensures SideOf(r, Other(s)) == SideOf(b, Other(s))
    ensures r.lookup == FillIn(b.lookup, FrontId(b, s), q)
  {
    var l := SideOf(b, s);
    var id := FrontId(b, s);
    var o := Fill(b.lookup[id], q).value;
    InvSide(b, s);
    if o.Filled() then
      WithSide(b, s, SetQueue(DirOf(s), l, l[0].price, l[0].queue[1..])).(lookup := b.lookup - {id})
    else
      b.(lookup := b.lookup[id := o])
  }

  /** The invariant seen from side `s`: `own` is that side, `other` the opposite one. */
  ghost predicate InvFrom(own: seq<Level<OrderId>>, other: seq<Level<OrderId>>, lookup: map<OrderId, Order>, s: Side) {
    && WellFormed(DirOf(s), own) && WellFormed(DirOf(Other(s)), other)
    && multiset(Flatten(own)) + multiset(Flatten(other)) == multiset(lookup.Keys)
    && Placed(own, lookup, s) && Placed(other, lookup, Other(s))
    && (forall id :: id in lookup ==> lookup[id].id == id)
  }

  lemma InvFromSide(b: Book, s: Side)
    ensures Inv(b) <==> InvFrom(SideOf(b, s), SideOf(b, Other(s)), b.lookup, s)
  {
    if s == Sell {
      assert multiset(Flatten(b.bids)) + multiset(Flatten(b.asks)) == multiset(Flatten(b.asks)) + multiset(Flatten(b.bids));
    }
  }

  /** The position of the first occurrence of `x` in `q`. */
  function FirstIndex<T(==)>(q: seq<T>, x: T): (k: nat)
    requires x in q
    ensures k < |q| && q[k] == x && x !in q[..k]
  {
    if q[0] == x then 0
    else
      var k := FirstIndex(q[1..], x);
      assert q[..k + 1] == [q[0]] + q[1..][..k];
      k + 1
  }

  /** `std::list::erase` at the order's iterator: the first (under the invariant, the
      only) occurrence of `x` leaves the queue. */
  function Remove<T(==)>(q: seq<T>, x: T): (r: seq<T>)
    ensures x in q ==> multiset(r) + multiset{x} == multiset(q)
    ensures x !in q ==> r == q
    ensures forall y :: y in r ==> y in q
  {
    if q == [] then []
    else
      assert q == [q[0]] + q[1..];
      if q[0] == x then q[1..]
      else
        var r := Remove(q[1..], x);
        assert multiset([q[0]] + r) == multiset{q[0]} + multiset(r);
        [q[0]] + r
  }

  /** `Remove` cuts out exactly the first occurrence: the entries before it and after it
      keep their order. */
  lemma {:induction false} RemoveAtFirst<T>(q: seq<T>, x: T)
    requires x in q
    ensures Remove(q, x) == q[..FirstIndex(q, x)] + q[FirstIndex(q, x) + 1..]
  {
    if q[0] != x {
      var t := q[1..];
      assert x in t by { assert q == [q[0]] + t; }
      RemoveAtFirst(t, x);
      var k := FirstIndex(t, x);
      assert FirstIndex(q, x) == k + 1;
      assert Remove(q, x) == [q[0]] + (t[..k] + t[k + 1..]);
      CutAfterHead(q, k);
    }
  }

  /** Cutting index `k` out of the tail is cutting index `k + 1` out of the whole. */
  lemma CutAfterHead<T>(q: seq<T>, k: nat)
    requires k + 1 < |q|
    ensures [q[0]] + (q[1..][..k] + q[1..][k + 1..]) == q[..k + 1] + q[k + 2..]
  {
    var t := q[1..];
    assert q[..k + 1] == [q[0]] + t[..k];
    assert q[k + 2..] == t[k + 1..];
  }

  /** Erasing an indexed order from its queue and from the index keeps the invariant. */
  lemma DropInv(own: seq<Level<OrderId>>, other: seq<Level<OrderId>>, lookup: map<OrderId, Order>, s: Side,
                p0: int, id: OrderId)
    requires InvFrom(own, other, lookup, s) && id in QueueAt(own, p0)
    ensures InvFrom(SetQueue(DirOf(s), own, p0, Remove(QueueAt(own, p0), id)), other, lookup - {id}, s)
  {
    var d := DirOf(s);
    var rest := Remove(QueueAt(own, p0), id);
    var own' := SetQueue(d, own, p0, rest);
    var lookup' := lookup - {id};
    PlacedAt(own, lookup, s, p0, id);
    assert multiset(Flatten(own')) + multiset(Flatten(other)) == multiset(lookup'.Keys) && id !in rest by {
      DropCount(own, other, lookup, s, p0, id);
    }
    assert Placed(own', lookup', s) by {
      SetQueueAtAll(d, own, p0, rest);
      PlacedDropOwn(own, own', lookup, s, p0, id, rest);
    }
    assert Placed(other, lookup', Other(s)) by {
      PlacedDropOther(other, lookup, Other(s), id);
    }
    InvFromIntro(own', other, lookup', s);
  }

  lemma PlacedAt(l: seq<Level<OrderId>>, lookup: map<OrderId, Order>, s: Side, p: int, id: OrderId)
    requires Placed(l, lookup, s) && id in QueueAt(l, p)
    ensures id in lookup && lookup[id].side == s && lookup[id].px == p
  {
  }

  /** Removing the filled front order of `own`: `pop_front` is the erase of the front. */
  lemma PopFrontInv(own: seq<Level<OrderId>>, other: seq<Level<OrderId>>, lookup: map<OrderId, Order>, s: Side)
    requires InvFrom(own, other, lookup, s) && own != []
    ensures InvFrom(SetQueue(DirOf(s), own, own[0].price, own[0].queue[1..]), other, lookup - {own[0].queue[0]}, s)
  {
    var p0 := own[0].price;
    assert QueueAt(own, p0) == own[0].queue;
    assert Remove(own[0].queue, own[0].queue[0]) == own[0].queue[1..];
    DropInv(own, other, lookup, s, p0, own[0].queue[0]);
  }

  lemma InvFromIntro(own: seq<Level<OrderId>>, other: seq<Level<OrderId>>, lookup: map<OrderId, Order>, s: Side)
    requires WellFormed(DirOf(s), own)
    requires WellFormed(DirOf(Other(s)), other)
    requires multiset(Flatten(own)) + multiset(Flatten(other)) == multiset(lookup.Keys)
    requires Placed(own, lookup, s)
    requires Placed(other, lookup, Other(s))
    requires forall id :: id in lookup ==> lookup[id].id == id
    ensures InvFrom(own, other, lookup, s)
  {
  }

  /** The multiset half of `DropInv`: the id leaves both the queues and the index, and
      it was queued only once. */
  lemma DropCount(own: seq<Level<OrderId>>, other: seq<Level<OrderId>>, lookup: map<OrderId, Order>, s: Side,
                  p0: int, id: OrderId)
    requires WellFormed(DirOf(s), own) && id in QueueAt(own, p0) && id in lookup
    requires multiset(Flatten(own)) + multiset(Flatten(other)) == multiset(lookup.Keys)
    ensures id !in Remove(QueueAt(own, p0), id)
    ensures multiset(Flatten(SetQueue(DirOf(s), own, p0, Remove(QueueAt(own, p0), id)))) + multiset(Flatten(other))
            == multiset((lookup - {id}).Keys)
  {
    var d := DirOf(s);
    var q := QueueAt(own, p0);
    var rest := Remove(q, id);
    var own' := SetQueue(d, own, p0, rest);
    var lookup' := lookup - {id};
    RemoveFlatten(d, own, p0, id);
    AtMostOnce(own, other, lookup.Keys, p0, id);
    RemoveOnce(q, id);
    KeysMinus(lookup, id);
    DropOne(multiset(Flatten(own')), multiset(Flatten(own)), multiset(Flatten(other)), multiset(lookup'.Keys), id);
  }

  /** Erasing a queued entry removes exactly that entry from the side. */
  lemma RemoveFlatten(d: Dir, own: seq<Level<OrderId>>, p0: int, id: OrderId)
    requires WellFormed(d, own) && id in QueueAt(own, p0)
    ensures multiset(Flatten(SetQueue(d, own, p0, Remove(QueueAt(own, p0), id)))) + multiset{id} == multiset(Flatten(own))
  {
    var rest := Remove(QueueAt(own, p0), id);
    SetQueueFlatten(d, own, p0, rest);
    Cancel1(multiset(Flatten(SetQueue(d, own, p0, rest))), multiset(rest), multiset(Flatten(own)), id);
  }

  /** Erasing an entry that occurs once leaves none of it. */
  lemma RemoveOnce(q: seq<OrderId>, id: OrderId)
    requires id in q && multiset(q)[id] <= 1
    ensures id !in Remove(q, id)
  {
    assert multiset(q)[id] == multiset(Remove(q, id))[id] + 1;
  }

  lemma KeysMinus(lookup: map<OrderId, Order>, id: OrderId)
    requires id in lookup
    ensures multiset(lookup.Keys) == multiset((lookup - {id}).Keys) + multiset{id}
  {
    assert lookup.Keys == (lookup - {id}).Keys + {id};
  }

  /** An id counted once among the keys is queued at most once at any price. */
  lemma AtMostOnce(own: seq<Level<OrderId>>, other: seq<Level<OrderId>>, keys: set<OrderId>, p: int, id: OrderId)
    requires multiset(Flatten(own)) + multiset(Flatten(other)) == multiset(keys)
    ensures multiset(QueueAt(own, p))[id] <= 1
  {
    QueueAtInFlatten(own, p);
    var m := multiset(Flatten(own)) + multiset(Flatten(other));
    assert m[id] == multiset(Flatten(own))[id] + multiset(Flatten(other))[id];
  }

  lemma Cancel1<T>(a: multiset<T>, r: multiset<T>, c: multiset<T>, x: T)
    requires a + (r + multiset{x}) == c + r
    ensures a + multiset{x} == c
  {
    forall y ensures (a + multiset{x})[y] == c[y] {
      assert (a + (r + multiset{x}))[y] == (c + r)[y];
    }
  }

  lemma Cancel2<T>(a: multiset<T>, r: multiset<T>, c: multiset<T>, x: T)
    requires a + r == c + (r + multiset{x})
    ensures a == c + multiset{x}
  {
    forall y ensures a[y] == (c + multiset{x})[y] {
      assert (a + r)[y] == (c + (r + multiset{x}))[y];
    }
  }

  /** After an id leaves its queue, what remains queued on its side is still placed. */
  lemma PlacedDropOwn(own: seq<Level<OrderId>>, own': seq<Level<OrderId>>, lookup: map<OrderId, Order>, s: Side,
                      p0: int, id: OrderId, rest: seq<OrderId>)
    requires Placed(own, lookup, s)
    requires forall p :: QueueAt(own', p) == if p == p0 then rest else QueueAt(own, p)
    requires id in QueueAt(own, p0) && id !in rest
    requires forall y :: y in rest ==> y in QueueAt(own, p0)
    ensures Placed(own', lookup - {id}, s)
  {
    assert lookup[id].px == p0;
    forall p, x | x in QueueAt(own', p)
      ensures x in lookup - {id} && (lookup - {id})[x].side == s && (lookup - {id})[x].px == p
    {
      if p == p0 {
        assert x in QueueAt(own, p0);
        assert x != id;
      } else {
        assert x in QueueAt(own, p);
        assert lookup[x].px == p;
        assert x != id;
      }
    }
  }

  /** Dropping an order of the other side from the index keeps a side placed. */
  lemma PlacedDropOther(l: seq<Level<OrderId>>, lookup: map<OrderId, Order>, s: Side, id: OrderId)
    requires Placed(l, lookup, s)
    requires id in lookup && lookup[id].side != s
    ensures Placed(l, lookup - {id}, s)
  {
  }

  lemma DropOne<T>(a: multiset<T>, a0: multiset<T>, b: multiset<T>, c: multiset<T>, x: T)
    requires a + multiset{x} == a0
    requires a0 + b == c + multiset{x}
    ensures a + b == c
  {
    forall y ensures (a + b)[y] == c[y] {
      assert (a0 + b)[y] == (c + multiset{x})[y];
      assert a0[y] == a[y] + multiset{x}[y];
    }
  }

  /** Updating an indexed order without changing its id, side or price. */
  lemma UpdateOrderInv(own: seq<Level<OrderId>>, other: seq<Level<OrderId>>, lookup: map<OrderId, Order>, s: Side, o: Order)
    requires InvFrom(own, other, lookup, s)
    requires o.id in lookup && lookup[o.id].side == o.side && lookup[o.id].px == o.px
    ensures InvFrom(own, other, lookup[o.id := o], s)
  {
    assert lookup[o.id := o].Keys == lookup.Keys;
  }

  lemma FillFrontInv(b: Book, s: Side, q: nat)
    requires Inv(b) && SideOf(b, s) != [] && q <= b.lookup[FrontId(b, s)].remaining
    ensures Inv(FillFront(b, s, q))
  {
    var r := FillFront(b, s, q);
    var id := FrontId(b, s);
    var own, other := SideOf(b, s), SideOf(b, Other(s));
    assert InvFrom(own, other, b.lookup, s) by { InvFromSide(b, s); }
    assert InvFrom(SideOf(r, s), other, r.lookup, s) by {
      if q == b.lookup[id].remaining {
        assert SideOf(r, s) == SetQueue(DirOf(s), own, own[0].price, own[0].queue[1..]);
        PopFrontInv(own, other, b.lookup, s);
      } else {
        assert SideOf(r, s) == own;
        UpdateOrderInv(own, other, b.lookup, s, b.lookup[id].(remaining := b.lookup[id].remaining - q));
      }
    }
    InvFromSide(r, s);
  }

  /** One pass of the matching loop: the front bid and the front ask trade the smaller
      of their two remaining quantities. Each half records its own order's price, which
      is its level's price, so the bid half's price is at least the ask half's. */
  function MatchStep(b: Book): (r: (Book, Trade))
    requires Inv(b) && Crossed(b)
    ensures Inv(r.0) && |r.0.lookup| < |b.lookup|
    ensures r.1.bid.orderId == FrontId(b, Buy) && r.1.ask.orderId == FrontId(b, Sell)
    ensures r.1.bid.qty == r.1.ask.qty
              == Min(b.lookup[FrontId(b, Buy)].remaining, b.lookup[FrontId(b, Sell)].remaining)
    ensures r.1.bid.price == b.bids[0].price >= b.asks[0].price == r.1.ask.price
  {
    var bid := b.lookup[FrontId(b, Buy)];
    var ask := b.lookup[FrontId(b, Sell)];
    var q := Min(bid.remaining, ask.remaining);
    var b1 := FillFront(b, Buy, q);
    FillFrontInv(b, Buy, q);
    assert FrontId(b1, Sell) == FrontId(b, Sell);
    var b2 := FillFront(b1, Sell, q);
    FillFrontInv(b1, Sell, q);
    (b2, Trade(TradeInfo(bid.id, bid.px, q), TradeInfo(ask.id, ask.px, q)))
  }

  /** `Impl::match`: repeat `MatchStep` while the book is crossed. It ends because
      every step removes at least one order. */
  function MatchAll(b: Book): (r: (Book, seq<Trade>))
    requires Inv(b)
    ensures Inv(r.0) && !Crossed(r.0)
    decreases |b.lookup|
  {
    if !Crossed(b) then (b, [])
    else
      var (b1, t) := MatchStep(b);
      var (b2, ts) := MatchAll(b1);
      (b2, [t] + ts)
  }

  /** The part of `AddOrder` before matching: `side[o->px].push_back(o)` and the
      `lookup` entry for the new id. */
  function Insert(b: Book, o: Order): (r: Book)
    requires Inv(b) && o.id !in b.lookup
    ensures Inv(r) && r.lookup == b.lookup[o.id := o]
    ensures QueueAt(SideOf(r, o.side), o.px) == QueueAt(SideOf(b, o.side), o.px) + [o.id]
    ensures forall p :: p != o.px ==> QueueAt(SideOf(r, o.side), p) == QueueAt(SideOf(b, o.side), p)
    ensures SideOf(r, Other(o.side)) == SideOf(b, Other(o.side))
  {
    var s := o.side;
    var l := SideOf(b, s);
    InvSide(b, s);
    var r := WithSide(b, s, SetQueue(DirOf(s), l, o.px, QueueAt(l, o.px) + [o.id])).(lookup := b.lookup[o.id := o]);
    SetQueueAtAll(DirOf(s), l, o.px, QueueAt(l, o.px) + [o.id]);
    InvFromSide(b, s);
    InvFromSide(r, s);
    InsertInv(l, SideOf(b, Other(s)), b.lookup, s, o);
    r
  }

  lemma InsertInv(own: seq<Level<OrderId>>, other: seq<Level<OrderId>>, lookup: map<OrderId, Order>, s: Side, o: Order)
    requires InvFrom(own, other, lookup, s) && o.id !in lookup && o.side == s
    ensures InvFrom(SetQueue(DirOf(s), own, o.px, QueueAt(own, o.px) + [o.id]), other, lookup[o.id := o], s)
  {
    var d := DirOf(s);
    var q := QueueAt(own, o.px);
    var own' := SetQueue(d, own, o.px, q + [o.id]);
    var lookup' := lookup[o.id := o];
    assert multiset(Flatten(own')) + multiset(Flatten(other)) == multiset(lookup'.Keys) by {
      InsertCount(own, other, lookup, s, o);
    }
    assert Placed(own', lookup', s) by {
      SetQueueAtAll(d, own, o.px, q + [o.id]);
      PlacedAddOwn(own, own', lookup, s, o);
    }
    assert Placed(other, lookup', Other(s)) by {
      PlacedAddOther(other, lookup, Other(s), o);
    }
    InvFromIntro(own', other, lookup', s);
  }

  /** The multiset half of `InsertInv`: the new id joins both the queues and the index. */
  lemma InsertCount(own: seq<Level<OrderId>>, other: seq<Level<OrderId>>, lookup: map<OrderId, Order>, s: Side, o: Order)
    requires WellFormed(DirOf(s), own) && o.id !in lookup
    requires multiset(Flatten(own)) + multiset(Flatten(other)) == multiset(lookup.Keys)
    ensures multiset(Flatten(SetQueue(DirOf(s), own, o.px, QueueAt(own, o.px) + [o.id]))) + multiset(Flatten(other))
            == multiset(lookup[o.id := o].Keys)
  {
    PushFlatten(DirOf(s), own, o.px, o.id);
    KeysPlus(lookup, o);
    AddOne(multiset(Flatten(own)), multiset(Flatten(other)), multiset(lookup.Keys), o.id);
  }

  /** Appending an id at a price adds exactly that id to the side. */
  lemma PushFlatten(d: Dir, own: seq<Level<OrderId>>, p: int, id: OrderId)
    requires WellFormed(d, own)
    ensures multiset(Flatten(SetQueue(d, own, p, QueueAt(own, p) + [id]))) == multiset(Flatten(own)) + multiset{id}
  {
    var q := QueueAt(own, p);
    SetQueueFlatten(d, own, p, q + [id]);
    assert multiset(q + [id]) == multiset(q) + multiset{id};
    Cancel2(multiset(Flatten(SetQueue(d, own, p, q + [id]))), multiset(q), multiset(Flatten(own)), id);
  }

  lemma KeysPlus(lookup: map<OrderId, Order>, o: Order)
    requires o.id !in lookup
    ensures multiset(lookup[o.id := o].Keys) == multiset(lookup.Keys) + multiset{o.id}
  {
    assert lookup[o.id := o].Keys == lookup.Keys + {o.id};
  }

  lemma AddOne<T>(a: multiset<T>, b: multiset<T>, c: multiset<T>, x: T)
    requires a + b == c
    ensures (a + multiset{x}) + b == c + multiset{x}
  {
  }

  /** A new id queued at the back of its price's queue is placed. */
  lemma PlacedAddOwn(own: seq<Level<OrderId>>, own': seq<Level<OrderId>>, lookup: map<OrderId, Order>, s: Side, o: Order)
    requires Placed(own, lookup, s) && o.side == s && o.id !in lookup
    requires forall p :: QueueAt(own', p) == if p == o.px then QueueAt(own, o.px) + [o.id] else QueueAt(own, p)
    ensures Placed(own', lookup[o.id := o], s)
  {
    forall p, x | x in QueueAt(own', p)
      ensures x in lookup[o.id := o] && lookup[o.id := o][x].side == s && lookup[o.id := o][x].px == p
    {
      if x != o.id {
        assert x in QueueAt(own, p) by {
          if p == o.px {
            assert x in QueueAt(own, o.px) + [o.id];
          }
        }
      }
    }
  }

  /** A new order of side `s` leaves the other side placed. */
  lemma PlacedAddOther(l: seq<Level<OrderId>>, lookup: map<OrderId, Order>, s: Side, o: Order)
    requires Placed(l, lookup, s) && o.id !in lookup
    ensures Placed(l, lookup[o.id := o], s)
  {
  }

  /** Every indexed order is queued on its own side at its own price, so the level
      `CancelOrder` looks up by `o->px` is always there. */
  lemma Located(b: Book, id: OrderId)
    requires Inv(b) && id in b.lookup
    ensures id in QueueAt(SideOf(b, b.lookup[id].side), b.lookup[id].px)
  {
    var m := multiset(Flatten(b.bids)) + multiset(Flatten(b.asks));
    assert m[id] == multiset(Flatten(b.bids))[id] + multiset(Flatten(b.asks))[id];
    assert m[id] > 0;
    if id in Flatten(b.bids) {
      var p := FindLevel(Desc, b.bids, id);
    } else {
      assert id in multiset(Flatten(b.asks));
      var p := FindLevel(Asc, b.asks, id);
    }
  }

  /** `CancelOrder`: an unknown id changes nothing; a known one leaves its queue (the
      others in it keep their order, and an emptied level is erased) and the index. */
  function Cancel(b: Book, id: OrderId): (r: Book)
    requires Inv(b)
    ensures Inv(r) && r.lookup == b.lookup - {id}
    ensures id !in b.lookup ==> r == b
    ensures id in b.lookup ==>
              var o := b.lookup[id];
              && QueueAt(SideOf(r, o.side), o.px) == Remove(QueueAt(SideOf(b, o.side), o.px), id)
              && (forall p :: p != o.px ==> QueueAt(SideOf(r, o.side), p) == QueueAt(SideOf(b, o.side), p))
              && SideOf(r, Other(o.side)) == SideOf(b, Other(o.side))
    ensures !Crossed(b) ==> !Crossed(r)
  {
    if id !in b.lookup then b
    else
      var o := b.lookup[id];
      var s := o.side;
      var l := SideOf(b, s);
      InvSide(b, s);
      var l' := SetQueue(DirOf(s), l, o.px, Remove(QueueAt(l, o.px), id));
      var r := WithSide(b, s, l').(lookup := b.lookup - {id});
      CancelInv(b, id);
      SetQueueAtAll(DirOf(s), l, o.px, Remove(QueueAt(l, o.px), id));
      r
  }

  /** Cancelling twice is cancelling once. */
  lemma CancelTwice(b: Book, id: OrderId)
    requires Inv(b)
    ensures Cancel(Cancel(b, id), id) == Cancel(b, id)
  {
  }

  lemma CancelInv(b: Book, id: OrderId)
    requires Inv(b) && id in b.lookup
    ensures var o := b.lookup[id];
            var l := SideOf(b, o.side);
            var r := WithSide(b, o.side, SetQueue(DirOf(o.side), l, o.px, Remove(QueueAt(l, o.px), id))).(lookup := b.lookup - {id});
            Inv(r) && (!Crossed(b) ==> !Crossed(r))
  {
    var o := b.lookup[id];
    var s := o.side;
    var l := SideOf(b, s);
    InvSide(b, s);
    var l' := SetQueue(DirOf(s), l, o.px, Remove(QueueAt(l, o.px), id));
    var r := WithSide(b, s, l').(lookup := b.lookup - {id});
    assert id in QueueAt(l, o.px) by {
      Located(b, id);
    }
    assert Inv(r) by {
      InvFromSide(b, s);
      InvFromSide(r, s);
      DropInv(l, SideOf(b, Other(s)), b.lookup, s, o.px, id);
    }
    assert NotBetter(DirOf(s), l', l) by {
      SetQueueExisting(DirOf(s), l, o.px, Remove(QueueAt(l, o.px), id));
    }
  }

  /** What is left of order `id`: its `remaining` while indexed, and nothing once it
      has left the index. */
  function Remaining(lookup: map<OrderId, Order>, id: OrderId): nat {
    if id in lookup then lookup[id].remaining else 0
  }

  /** The quantity `id` traded in `ts`, on either half. */
  function Traded(ts: seq<Trade>, id: OrderId): nat
    decreases |ts|
  {
    if ts == [] then 0
    else
      (if ts[0].bid.orderId == id then ts[0].bid.qty else 0)
      + (if ts[0].ask.orderId == id then ts[0].ask.qty else 0)
      + Traded(ts[1..], id)
  }

  lemma TradedCons(t: Trade, ts: seq<Trade>, id: OrderId)
    ensures Traded([t] + ts, id) == Traded([t], id) + Traded(ts, id)
  {
    assert ([t] + ts)[1..] == ts;
    assert [t][1..] == [];
  }

  /** How the index may evolve while matching: orders only leave it, an order that
      stays keeps everything but `remaining`, and only an order that had nothing left
      to begin with can rest with nothing left (a fill to zero always removes). */
  ghost predicate Evolved(before: map<OrderId, Order>, after: map<OrderId, Order>) {
    && after.Keys <= before.Keys
    && forall id :: id in after ==>
         && after[id] == before[id].(remaining := after[id].remaining)
         && (after[id].remaining == 0 ==> before[id].remaining == 0)
  }

  /** A trade of the matching loop pairs an indexed buy with an indexed sell, each half
      at its own order's limit price, for the same quantity. */
  ghost predicate TradeOf(t: Trade, lookup: map<OrderId, Order>) {
    && t.bid.orderId in lookup && lookup[t.bid.orderId].side == Buy && lookup[t.bid.orderId].px == t.bid.price
    && t.ask.orderId in lookup && lookup[t.ask.orderId].side == Sell && lookup[t.ask.orderId].px == t.ask.price
    && t.bid.qty == t.ask.qty && t.bid.price >= t.ask.price
  }

  /** One matching step conserves quantity order by order. */
  lemma MatchStepConserves(b: Book)
    requires Inv(b) && Crossed(b)
    ensures forall id :: Remaining(MatchStep(b).0.lookup, id) + Traded([MatchStep(b).1], id) == Remaining(b.lookup, id)
    ensures Evolved(b.lookup, MatchStep(b).0.lookup)
    ensures TradeOf(MatchStep(b).1, b.lookup)
  {
    var bidId := FrontId(b, Buy);
    var askId := FrontId(b, Sell);
    var q := Min(b.lookup[bidId].remaining, b.lookup[askId].remaining);
    var b1 := FillFront(b, Buy, q);
    FillFrontInv(b, Buy, q);
    assert FrontId(b1, Sell) == askId;
    MatchStepFills(b, q, b1);
    var r := MatchStep(b);
    var l1 := FillIn(b.lookup, bidId, q);
    assert r.0.lookup == FillIn(l1, askId, q);
    assert bidId != askId;
    FillInConserves(b.lookup, bidId, q);
    FillInConserves(l1, askId, q);
    EvolvedTrans(b.lookup, l1, r.0.lookup);
    TwoFillsConserve(b.lookup, l1, r.0.lookup, r.1, q);
  }

  /** Time priority: a matching step fills only the two front orders, so an order
      queued behind another receives nothing until the one ahead of it has left. */
  lemma MatchStepFrontOnly(b: Book, id: OrderId)
    requires Inv(b) && Crossed(b) && id != FrontId(b, Buy) && id != FrontId(b, Sell)
    ensures Remaining(MatchStep(b).0.lookup, id) == Remaining(b.lookup, id)
    ensures id in MatchStep(b).0.lookup <==> id in b.lookup
  {
    var q := Min(b.lookup[FrontId(b, Buy)].remaining, b.lookup[FrontId(b, Sell)].remaining);
    var b1 := FillFront(b, Buy, q);
    FillFrontInv(b, Buy, q);
    assert FrontId(b1, Sell) == FrontId(b, Sell);
    MatchStepFills(b, q, b1);
  }

  /** The fills of both halves of trade `t` take its quantity from each half's order
      and from no other. */
  lemma TwoFillsConserve(before: map<OrderId, Order>, mid: map<OrderId, Order>, after: map<OrderId, Order>, t: Trade, q: nat)
    requires t.bid.orderId != t.ask.orderId && t.bid.qty == q && t.ask.qty == q
    requires forall k :: Remaining(mid, k) + (if k == t.bid.orderId then q else 0) == Remaining(before, k)
    requires forall k :: Remaining(after, k) + (if k == t.ask.orderId then q else 0) == Remaining(mid, k)
    ensures forall id :: Remaining(after, id) + Traded([t], id) == Remaining(before, id)
  {
    forall id ensures Remaining(after, id) + Traded([t], id) == Remaining(before, id) {
      assert Traded([t], id) == (if id == t.bid.orderId then q else 0) + (if id == t.ask.orderId then q else 0);
    }
  }

  /** `MatchAll` conserves quantity order by order: what each order still has plus
      what it traded is what it had. Every trade is a `TradeOf` the book it started
      from. */
  lemma {:induction false} MatchAllConserves(b: Book)
    requires Inv(b)
    ensures forall id :: Remaining(MatchAll(b).0.lookup, id) + Traded(MatchAll(b).1, id) == Remaining(b.lookup, id)
    ensures Evolved(b.lookup, MatchAll(b).0.lookup)
    ensures forall t :: t in MatchAll(b).1 ==> TradeOf(t, b.lookup)
    decreases |b.lookup|
  {
    if Crossed(b) {
      var (b1, t) := MatchStep(b);
      MatchStepConserves(b);
      MatchAllConserves(b1);
      MatchAllUnfold(b);
      ChainConserves(b.lookup, b1.lookup, MatchAll(b1).0.lookup, t, MatchAll(b1).1);
    }
  }

  /** A trade followed by a run of trades, each conserving quantity from the index it
      started from, conserves it from the first index. */
  lemma ChainConserves(l0: map<OrderId, Order>, l1: map<OrderId, Order>, l2: map<OrderId, Order>, t: Trade, ts: seq<Trade>)
    requires forall id :: Remaining(l1, id) + Traded([t], id) == Remaining(l0, id)
    requires forall id :: Remaining(l2, id) + Traded(ts, id) == Remaining(l1, id)
    requires Evolved(l0, l1) && Evolved(l1, l2)
    requires TradeOf(t, l0) && forall u :: u in ts ==> TradeOf(u, l1)
    ensures forall id :: Remaining(l2, id) + Traded([t] + ts, id) == Remaining(l0, id)
    ensures Evolved(l0, l2)
    ensures forall u :: u in [t] + ts ==> TradeOf(u, l0)
  {
    forall id ensures Remaining(l2, id) + Traded([t] + ts, id) == Remaining(l0, id) {
      TradedCons(t, ts, id);
    }
    EvolvedTrans(l0, l1, l2);
    forall u | u in [t] + ts ensures TradeOf(u, l0) {
      if u != t {
        assert u in ts;
      }
    }
  }

  /** `AddOrder`: a duplicate id is refused with no trades; otherwise the order rests
      at the back of its price's queue, the book is matched, and a FillAndKill order
      with quantity left is cancelled. A FillAndKill order that left the index while
      matching was filled (`MatchAllConserves`), so `Remaining` is what `o->remaining`
      reads there. */
  function Add(b: Book, o: Order): (r: (Book, seq<Trade>))
    requires Inv(b)
    ensures Inv(r.0)
    ensures o.id in b.lookup ==> r == (b, [])
    ensures o.id !in b.lookup ==> !Crossed(r.0)
    ensures o.id !in b.lookup && o.kind == FillAndKill ==> Remaining(r.0.lookup, o.id) == 0
  {
    if o.id in b.lookup then (b, [])
    else
      var (b1, ts) := MatchAll(Insert(b, o));
      if o.kind == FillAndKill && Remaining(b1.lookup, o.id) > 0 then (Cancel(b1, o.id), ts)
      else (b1, ts)
  }

  /** Quantity is conserved by `AddOrder`: every resting order keeps what it did not
      trade, and the new order's quantity is split between its trades and, for a
      GoodTillCancel order, what rests; a FillAndKill order rests with nothing. */
  lemma AddConserves(b: Book, o: Order)
    requires Inv(b) && o.id !in b.lookup
    ensures forall id :: id != o.id ==> Remaining(Add(b, o).0.lookup, id) + Traded(Add(b, o).1, id) == Remaining(b.lookup, id)
    ensures o.kind == GoodTillCancel ==> Remaining(Add(b, o).0.lookup, o.id) + Traded(Add(b, o).1, o.id) == o.remaining
    ensures o.kind == FillAndKill ==> Remaining(Add(b, o).0.lookup, o.id) == 0 && Traded(Add(b, o).1, o.id) <= o.remaining
  {
    var b0 := Insert(b, o);
    var (b1, ts) := MatchAll(b0);
    AddIndex(b, o);
    MatchAllConserves(b0);
    assert Remaining(b0.lookup, o.id) == o.remaining;
    assert forall id :: id != o.id ==> Remaining(b0.lookup, id) == Remaining(b.lookup, id);
  }

  /** What `AddOrder` leaves in the index, in terms of the matched book. */
  lemma AddIndex(b: Book, o: Order)
    requires Inv(b) && o.id !in b.lookup
    ensures Add(b, o).1 == MatchAll(Insert(b, o)).1
    ensures forall id :: id != o.id ==> Remaining(Add(b, o).0.lookup, id) == Remaining(MatchAll(Insert(b, o)).0.lookup, id)
    ensures o.kind == GoodTillCancel ==> Remaining(Add(b, o).0.lookup, o.id) == Remaining(MatchAll(Insert(b, o)).0.lookup, o.id)
  {
    var b1 := MatchAll(Insert(b, o)).0;
    if o.kind == FillAndKill && Remaining(b1.lookup, o.id) > 0 {
      assert Add(b, o).0 == Cancel(b1, o.id);
      RemainingMinus(b1.lookup, o.id);
    } else {
      assert Add(b, o).0 == b1;
    }
  }

  lemma RemainingMinus(lookup: map<OrderId, Order>, gone: OrderId)
    ensures forall id :: id != gone ==> Remaining(lookup - {gone}, id) == Remaining(lookup, id)
  {
  }

  /** Every resting order has something left to trade. */
  ghost predicate Live(lookup: map<OrderId, Order>) {
    forall id :: id in lookup ==> lookup[id].remaining > 0
  }

  /** A FillAndKill order with a positive quantity never rests: after `AddOrder` it is
      no longer in the index (and so, by `Inv`, in no queue). */
  lemma FakNeverRests(b: Book, o: Order)
    requires Inv(b) && o.id !in b.lookup && o.remaining > 0 && o.kind == FillAndKill
    ensures o.id !in Add(b, o).0.lookup
  {
    var b0 := Insert(b, o);
    var b1 := MatchAll(b0).0;
    assert Remaining(b1.lookup, o.id) > 0 || o.id !in b1.lookup by {
      MatchAllConserves(b0);
      assert o.id in b0.lookup && b0.lookup[o.id].remaining > 0;
    }
  }

  /** On a book of live orders, adding a live order keeps the book live. */
  lemma AddKeepsLive(b: Book, o: Order)
    requires Inv(b) && o.id !in b.lookup && o.remaining > 0 && Live(b.lookup)
    ensures Live(Add(b, o).0.lookup)
  {
    AddEvolved(b, o);
    LiveEvolved(Insert(b, o).lookup, Add(b, o).0.lookup);
  }

  /** From the book with the new order inserted, `AddOrder` evolves the index as
      matching does: the FillAndKill cancellation only removes one more order. */
  lemma AddEvolved(b: Book, o: Order)
    requires Inv(b) && o.id !in b.lookup
    ensures Evolved(Insert(b, o).lookup, Add(b, o).0.lookup)
  {
    var b0 := Insert(b, o);
    var b1 := MatchAll(b0).0;
    MatchAllConserves(b0);
    if o.kind == FillAndKill && Remaining(b1.lookup, o.id) > 0 {
      assert Add(b, o).0.lookup == b1.lookup - {o.id};
    }
  }

  lemma LiveEvolved(before: map<OrderId, Order>, after: map<OrderId, Order>)
    requires Evolved(before, after) && Live(before)
    ensures Live(after)
  {
    forall id | id in after ensures after[id].remaining > 0 {
      assert before[id].remaining > 0;
    }
  }

  /** Orders of opposite sides other than `x` do not cross: every buy is priced below
      every sell. */
  ghost predicate UncrossedExcept(lookup: map<OrderId, Order>, x: OrderId) {
    forall i, j :: i in lookup && j in lookup && i != x && j != x && lookup[i].side == Buy && lookup[j].side == Sell
      ==> lookup[i].px < lookup[j].px
  }

  /** While only order `x` can cross, every matching step trades `x`. */
  lemma {:induction false} MatchAllInvolves(b: Book, x: OrderId)
    requires Inv(b) && UncrossedExcept(b.lookup, x)
    ensures forall t :: t in MatchAll(b).1 ==> t.bid.orderId == x || t.ask.orderId == x
    decreases |b.lookup|
  {
    if Crossed(b) {
      var (b1, t) := MatchStep(b);
      MatchStepConserves(b);
      var bidId := FrontId(b, Buy);
      var askId := FrontId(b, Sell);
      assert bidId == x || askId == x;
      assert UncrossedExcept(b1.lookup, x);
      MatchAllInvolves(b1, x);
      var (b2, ts) := MatchAll(b1);
      assert forall u :: u in [t] + ts ==> u == t || u in ts;
    }
  }

  /** In an uncrossed book every resting buy is priced below every resting sell. */
  lemma UncrossedPrices(b: Book, i: OrderId, j: OrderId)
    requires Inv(b) && !Crossed(b)
    requires i in b.lookup && j in b.lookup && b.lookup[i].side == Buy && b.lookup[j].side == Sell
    ensures b.lookup[i].px < b.lookup[j].px
  {
    Located(b, i);
    Located(b, j);
    FrontIsBest(Desc, b.bids, b.lookup[i].px);
    FrontIsBest(Asc, b.asks, b.lookup[j].px);
  }

  /** On an uncrossed book, every trade `AddOrder` reports has the new order as one of
      its halves: the new order is the aggressor of each of them. */
  lemma AddTradesInvolveIncoming(b: Book, o: Order)
    requires Inv(b) && !Crossed(b) && o.id !in b.lookup
    ensures forall t :: t in Add(b, o).1 ==> (if o.side == Buy then t.bid.orderId else t.ask.orderId) == o.id
  {
    var b0 := Insert(b, o);
    forall i, j | i in b0.lookup && j in b0.lookup && i != o.id && j != o.id && b0.lookup[i].side == Buy && b0.lookup[j].side == Sell
      ensures b0.lookup[i].px < b0.lookup[j].px
    {
      UncrossedPrices(b, i, j);
    }
    MatchAllInvolves(b0, o.id);
    MatchAllConserves(b0);
  }

  /** One turn of the matching loop keeps the loop's invariant: what is still to be
      matched, after the trades so far, is what `MatchAll` does from the start. */
  lemma MatchLoopStep(b0: Book, st: Book, trades: seq<Trade>, next: Book, t: Trade)
    requires Inv(b0) && Inv(st) && Crossed(st)
    requires MatchAll(b0) == (MatchAll(st).0, trades + MatchAll(st).1)
    requires (next, t) == MatchStep(st)
    ensures Inv(next) && |next.lookup| < |st.lookup|
    ensures MatchAll(b0) == (MatchAll(next).0, (trades + [t]) + MatchAll(next).1)
  {
    MatchAllUnfold(st);
    Accumulate(MatchAll(b0), MatchAll(st), trades, t, MatchAll(next));
  }

  lemma Accumulate<B, T>(all: (B, seq<T>), rest: (B, seq<T>), done: seq<T>, t: T, later: (B, seq<T>))
    requires all == (rest.0, done + rest.1)
    requires rest == (later.0, [t] + later.1)
    ensures all == (later.0, (done + [t]) + later.1)
  {
    assert done + ([t] + later.1) == (done + [t]) + later.1;
  }

  lemma MatchAllUnfold(b: Book)
    requires Inv(b) && Crossed(b)
    ensures MatchAll(b) == (MatchAll(MatchStep(b).0).0, [MatchStep(b).1] + MatchAll(MatchStep(b).0).1)
  {
  }

  /** `MatchStep` written the way the loop of `Impl::match` does it: both fills
      first, then the trade, then each filled order leaves the index and its queue. */
  lemma MatchStepIs(b: Book, bid: Order, ask: Order, q: nat, lookup: map<OrderId, Order>,
                    bids: seq<Level<OrderId>>, asks: seq<Level<OrderId>>, t: Trade)
    requires Inv(b) && Crossed(b)
    requires q == Min(b.lookup[FrontId(b, Buy)].remaining, b.lookup[FrontId(b, Sell)].remaining)
    requires bid == b.lookup[FrontId(b, Buy)].(remaining := b.lookup[FrontId(b, Buy)].remaining - q)
    requires ask == b.lookup[FrontId(b, Sell)].(remaining := b.lookup[FrontId(b, Sell)].remaining - q)
    requires var l0 := b.lookup[FrontId(b, Buy) := bid][FrontId(b, Sell) := ask];
             var l1 := if bid.Filled() then l0 - {bid.id} else l0;
             lookup == if ask.Filled() then l1 - {ask.id} else l1
    requires bids == if bid.Filled() then SetQueue(Desc, b.bids, b.bids[0].price, b.bids[0].queue[1..]) else b.bids
    requires asks == if ask.Filled() then SetQueue(Asc, b.asks, b.asks[0].price, b.asks[0].queue[1..]) else b.asks
    requires t == Trade(TradeInfo(bid.id, bid.px, q), TradeInfo(ask.id, ask.px, q))
    ensures MatchStep(b) == (Book(bids, asks, lookup), t)
  {
    var b1 := FillFront(b, Buy, q);
    FillFrontInv(b, Buy, q);
    assert FrontId(b1, Sell) == FrontId(b, Sell);
    MatchStepFills(b, q, b1);
    StepLookup(b, q, b1, bid, ask, lookup);
    StepSides(b, q, b1, bid, ask, bids, asks);
  }

  /** `MatchStep` fills the best bid, then the best ask, by the smaller quantity. */
  lemma MatchStepFills(b: Book, q: nat, b1: Book)
    requires Inv(b) && Crossed(b)
    requires q == Min(b.lookup[FrontId(b, Buy)].remaining, b.lookup[FrontId(b, Sell)].remaining)
    requires b1 == FillFront(b, Buy, q) && Inv(b1) && b1.asks != [] && FrontId(b1, Sell) == FrontId(b, Sell)
    requires q <= b1.lookup[FrontId(b1, Sell)].remaining
    ensures MatchStep(b).0 == FillFront(b1, Sell, q)
    ensures var bid, ask := b.lookup[FrontId(b, Buy)], b.lookup[FrontId(b, Sell)];
            MatchStep(b).1 == Trade(TradeInfo(bid.id, bid.px, q), TradeInfo(ask.id, ask.px, q))
  {
  }

  /** The index after a matching step, written as `Impl::match` updates it. */
  lemma StepLookup(b: Book, q: nat, b1: Book, bid: Order, ask: Order, lookup: map<OrderId, Order>)
    requires Inv(b) && Crossed(b)
    requires q == Min(b.lookup[FrontId(b, Buy)].remaining, b.lookup[FrontId(b, Sell)].remaining)
    requires b1 == FillFront(b, Buy, q) && Inv(b1) && b1.asks != [] && FrontId(b1, Sell) == FrontId(b, Sell)
    requires q <= b1.lookup[FrontId(b1, Sell)].remaining
    requires bid == b.lookup[FrontId(b, Buy)].(remaining := b.lookup[FrontId(b, Buy)].remaining - q)
    requires ask == b.lookup[FrontId(b, Sell)].(remaining := b.lookup[FrontId(b, Sell)].remaining - q)
    requires var l0 := b.lookup[FrontId(b, Buy) := bid][FrontId(b, Sell) := ask];
             var l1 := if bid.Filled() then l0 - {bid.id} else l0;
             lookup == if ask.Filled() then l1 - {ask.id} else l1
    ensures FillFront(b1, Sell, q).lookup == lookup
  {
    var bidId, askId := FrontId(b, Buy), FrontId(b, Sell);
    assert bidId != askId;
    assert b.lookup[bidId].id == bidId && b.lookup[askId].id == askId;
    TwoFills(b.lookup, bidId, askId, q, bid, ask, lookup);
  }

  /** The two sides after a matching step: each loses its front order exactly when
      that order is filled. */
  lemma StepSides(b: Book, q: nat, b1: Book, bid: Order, ask: Order, bids: seq<Level<OrderId>>, asks: seq<Level<OrderId>>)
    requires Inv(b) && Crossed(b)
    requires q == Min(b.lookup[FrontId(b, Buy)].remaining, b.lookup[FrontId(b, Sell)].remaining)
    requires b1 == FillFront(b, Buy, q) && Inv(b1) && b1.asks != [] && FrontId(b1, Sell) == FrontId(b, Sell)
    requires q <= b1.lookup[FrontId(b1, Sell)].remaining
    requires bid == b.lookup[FrontId(b, Buy)].(remaining := b.lookup[FrontId(b, Buy)].remaining - q)
    requires ask == b.lookup[FrontId(b, Sell)].(remaining := b.lookup[FrontId(b, Sell)].remaining - q)
    requires bids == if bid.Filled() then SetQueue(Desc, b.bids, b.bids[0].price, b.bids[0].queue[1..]) else b.bids
    requires asks == if ask.Filled() then SetQueue(Asc, b.asks, b.asks[0].price, b.asks[0].queue[1..]) else b.asks
    ensures FillFront(b1, Sell, q).bids == bids && FillFront(b1, Sell, q).asks == asks
  {
    FillFrontSide(b, Buy, q);
    FillFrontSide(b1, Sell, q);
    assert b1.lookup[FrontId(b, Sell)] == b.lookup[FrontId(b, Sell)];
  }

  /** The side a fill acts on loses its front order exactly when that order is filled. */
  lemma FillFrontSide(b: Book, s: Side, q: nat)
    requires Inv(b) && SideOf(b, s) != [] && q <= b.lookup[FrontId(b, s)].remaining
    ensures SideOf(FillFront(b, s, q), s)
            == if q == b.lookup[FrontId(b, s)].remaining
               then SetQueue(DirOf(s), SideOf(b, s), SideOf(b, s)[0].price, SideOf(b, s)[0].queue[1..])
               else SideOf(b, s)
  {
  }

  /** Filling two different orders through the index, written as `Impl::match` does
      it: both fills first, then each filled order is erased. */
  lemma TwoFills(lookup: map<OrderId, Order>, x: OrderId, y: OrderId, q: nat, ox: Order, oy: Order, r: map<OrderId, Order>)
    requires x != y && x in lookup && y in lookup && lookup[x].id == x && lookup[y].id == y
    requires q <= lookup[x].remaining && q <= lookup[y].remaining
    requires ox == lookup[x].(remaining := lookup[x].remaining - q)
    requires oy == lookup[y].(remaining := lookup[y].remaining - q)
    requires var l0 := lookup[x := ox][y := oy];
             var l1 := if ox.Filled() then l0 - {ox.id} else l0;
             r == if oy.Filled() then l1 - {oy.id} else l1
    ensures FillIn(FillIn(lookup, x, q), y, q) == r
  {
    var m := FillIn(FillIn(lookup, x, q), y, q);
    forall k ensures k in r <==> k in m {}
    forall k | k in r ensures r[k] == m[k] {}
  }

  /** The index holds exactly as many orders as the queues do. */
  lemma ResidentCount(b: Book)
    requires Inv(b)
    ensures |b.lookup| == |Flatten(b.bids)| + |Flatten(b.asks)|
  {
    var ks := b.lookup.Keys;
    assert |multiset(Flatten(b.bids)) + multiset(Flatten(b.asks))| == |multiset(ks)|;
    SetCard(ks);
    assert |ks| == |b.lookup|;
  }

  lemma {:induction false} SetCard<T>(s: set<T>)
    ensures |multiset(s)| == |s|
    decreases |s|
  {
    if s != {} {
      var x :| x in s;
      SetCard(s - {x});
      assert s == (s - {x}) + {x};
      assert multiset(s) == multiset(s - {x}) + multiset{x};
    }
  }

  /** The `Orderbook` object: its two price maps and its index, updated in place. */
  class Orderbook {
    var bids: seq<Level<OrderId>>
    var asks: seq<Level<OrderId>>
    var lookup: map<OrderId, Order>

    function State(): Book
      reads this
    {
      Book(bids, asks, lookup)
    }

    /** Between calls the book satisfies the invariant and is uncrossed. */
    ghost predicate Valid()
      reads this
    {
      Inv(State()) && !Crossed(State())
    }

    constructor()
      ensures Valid() && State() == Book([], [], map[])
    {
      bids := [];
      asks := [];
      lookup := map[];
    }

    /** `Impl::match`: match while both sides have orders and the best bid reaches the
        best ask. */
    method Match() returns (trades: seq<Trade>)
      modifies this
      requires Inv(State())
      ensures (State(), trades) == MatchAll(old(State()))
    {
      trades := [];
      assert trades + MatchAll(State()).1 == MatchAll(State()).1;
      while bids != [] && asks != []
        invariant Inv(State())
        invariant MatchAll(old(State())) == (MatchAll(State()).0, trades + MatchAll(State()).1)
        decreases |lookup|
      {
        if bids[0].price < asks[0].price {
          break;
        }
        ghost var st := State();
        var t := MatchFronts();
        MatchLoopStep(old(State()), st, trades, State(), t);
        trades := trades + [t];
      }
      assert !Crossed(State()) && trades + [] == trades;
    }

    /** One turn of the loop of `Impl::match`, step for step: fill both fronts by the
        smaller remaining quantity, record the trade, pop what was filled and erase
        emptied levels. */
    method MatchFronts() returns (t: Trade)
      modifies this
      requires Inv(State()) && Crossed(State())
      ensures (State(), t) == MatchStep(old(State()))
    {
      ghost var st := State();
      var bidPx := bids[0].price;
      var askPx := asks[0].price;
      var bidId := bids[0].queue[0];
      var askId := asks[0].queue[0];
      assert bidId == FrontId(st, Buy) && askId == FrontId(st, Sell);
      InvSide(st, Buy);
      InvSide(st, Sell);
      var bid := lookup[bidId];
      var ask := lookup[askId];
      var q := Min(bid.remaining, ask.remaining);
      bid := Fill(bid, q).value;
      ask := Fill(ask, q).value;
      var index := lookup[bidId := bid][askId := ask];
      var bidLevels, askLevels := bids, asks;
      t := Trade(TradeInfo(bid.id, bid.px, q), TradeInfo(ask.id, ask.px, q));
      if bid.Filled() {
        index := index - {bid.id};
        bidLevels := SetQueue(Desc, bidLevels, bidPx, bidLevels[0].queue[1..]);
      }
      if ask.Filled() {
        index := index - {ask.id};
        askLevels := SetQueue(Asc, askLevels, askPx, askLevels[0].queue[1..]);
      }
      MatchStepIs(st, bid, ask, q, index, bidLevels, askLevels, t);
      bids, asks, lookup := bidLevels, askLevels, index;
    }

    /** `CancelOrder`: an unknown id is ignored; otherwise the order is erased from its
        level (found by its price; the level is erased once empty) and from the index. */
    method CancelOrder(id: OrderId)
      modifies this
      requires Inv(State())
      ensures State() == Cancel(old(State()), id)
    {
      if id !in lookup {
        return;
      }
      ghost var st := State();
      var o := lookup[id];
      InvSide(st, o.side);
      Located(st, id);
      if o.side == Buy {
        var q := QueueAt(bids, o.px);
        if q != [] {
          bids := SetQueue(Desc, bids, o.px, Remove(q, id));
        }
      } else {
        var q := QueueAt(asks, o.px);
        if q != [] {
          asks := SetQueue(Asc, asks, o.px, Remove(q, id));
        }
      }
      lookup := lookup - {id};
    }

    /** `AddOrder`: refuse a duplicate id; otherwise queue the order at the back of its
        price level, index it, match, and cancel what is left of a FillAndKill order. */
    method AddOrder(o: Order) returns (trades: seq<Trade>)
      modifies this
      requires Valid()
      ensures Valid()
      ensures (State(), trades) == Add(old(State()), o)
    {
      if o.id in lookup {
        return [];
      }
      ghost var st := State();
      InvSide(st, o.side);
      if o.side == Buy {
        bids := SetQueue(Desc, bids, o.px, QueueAt(bids, o.px) + [o.id]);
      } else {
        asks := SetQueue(Asc, asks, o.px, QueueAt(asks, o.px) + [o.id]);
      }
      lookup := lookup[o.id := o];
      assert State() == Insert(st, o);
      trades := [];
      var newTrades := Match();
      trades := trades + newTrades;
      assert trades == newTrades;
      ghost var matched := State();
      if o.kind == FillAndKill && Remaining(lookup, o.id) > 0 {
        CancelOrder(o.id);
        assert State() == Cancel(matched, o.id);
      }
      assert (State(), trades) == Add(st, o);
    }

    /** `size()`: the number of indexed orders, which is the number of queued ones. */
    function Size(): (n: nat)
      reads this
      requires Inv(State())
      ensures n == Count(bids) + Count(asks)
    {
      ResidentCount(State());
      |lookup|
    }
  }
}
