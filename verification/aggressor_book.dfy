/** The single-symbol engine of orderBook.cpp (`class Orderbook`): an incoming order is
    the aggressor. It walks the opposite side best-first while its limit reaches the
    best level, trading against the front of that level at the level's price; only a
    GTC remainder rests afterwards, at the tail of its own price level.

    Resting orders are stored by value in the queues; there is no index by id and ids
    are not checked for uniqueness. */
module AggressorBook {
  import opened Levels

  datatype OrderType = GTC | IOC

  /** `Price` is `int32_t`, `Qty` `uint32_t` and `Oid` `uint64_t`: `int`, `nat`, `nat`. */
  datatype Order = Order(id: nat, side: Side, kind: OrderType, px: int, rem: nat)

  /** A trade on the tape: bid id, ask id, the price traded at, the quantity, the
      timestamp and the side of the incoming order. */
  datatype TradeEvent = TradeEvent(bidId: nat, askId: nat, px: int, qty: nat, ts: nat, aggressor: Side)

  /** The two sides: `bids_` best (highest) first, `asks_` best (lowest) first. */
  datatype Book = Book(bids: seq<Level<Order>>, asks: seq<Level<Order>>)

  function SideOf(b: Book, s: Side): seq<Level<Order>> {
    if s == Buy then b.bids else b.asks
  }

  function WithSide(b: Book, s: Side, l: seq<Level<Order>>): Book {
    if s == Buy then b.(bids := l) else b.(asks := l)
  }

  /** Every order queued at price `p` on a side is an order of side `s` limited at `p`. */
  ghost predicate Placed(l: seq<Level<Order>>, s: Side) {
    forall p, x :: x in QueueAt(l, p) ==> x.side == s && x.px == p
  }

  /** The book invariant: both sides sorted best-first, no empty level, and each order
      at its own side and price. */
  ghost predicate Inv(b: Book) {
    && WellFormed(Desc, b.bids) && WellFormed(Asc, b.asks)
    && Placed(b.bids, Buy) && Placed(b.asks, Sell)
  }

  /** The best bid is below the best ask. */
  predicate Uncrossed(b: Book) {
    b.bids == [] || b.asks == [] || b.bids[0].price < b.asks[0].price
  }

  /** The incoming order's limit reaches a level at price `p` of the opposite side. */
  predicate Crosses(o: Order, p: int) {
    if o.side == Buy then o.px >= p else o.px <= p
  }

  /** The `matchable` lambda: the opposite side has a best level within the limit. */
  predicate Matchable(b: Book, o: Order) {
    var opp := SideOf(b, Other(o.side));
    opp != [] && Crosses(o, opp[0].price)
  }

  /** Since the front level is the best one, `matchable` holds exactly when some
      level of the opposite side is within the limit. */
  lemma MatchableMeans(b: Book, o: Order)
    requires Inv(b)
    ensures Matchable(b, o) <==> exists p :: QueueAt(SideOf(b, Other(o.side)), p) != [] && Crosses(o, p)
  {
    var opp := SideOf(b, Other(o.side));
    var d := DirOf(Other(o.side));
    if opp != [] {
      assert QueueAt(opp, opp[0].price) == opp[0].queue;
    }
    forall p | QueueAt(opp, p) != [] && Crosses(o, p) ensures Matchable(b, o) {
      FrontIsBest(d, opp, p);
    }
  }

  /** The trade pushed by one pass of the loop: the bid id first, the ask id second,
      at price `px`, with the incoming order's side as aggressor. */
  function Event(o: Order, top: Order, px: int, q: nat, ts: nat): (t: TradeEvent)
    ensures Incoming(t, o.side) == o.id && Resting(t, o.side) == top.id
    ensures t.px == px && t.qty == q && t.ts == ts && t.aggressor == o.side
  {
    if o.side == Buy then TradeEvent(o.id, top.id, px, q, ts, Buy)
    else TradeEvent(top.id, o.id, px, q, ts, Sell)
  }

  /** The id of the incoming order's half of a trade. */
  function Incoming(t: TradeEvent, s: Side): nat {
    if s == Buy then t.bidId else t.askId
  }

  /** The id of the resting order's half of a trade. */
  function Resting(t: TradeEvent, s: Side): nat {
    if s == Buy then t.askId else t.bidId
  }

  /** The queue of the best level after its front order `top` traded down to
      `top.rem`: a resting order left with nothing is popped. */
  function AfterFill(top: Order, behind: seq<Order>): seq<Order> {
    if top.rem == 0 then behind else [top] + behind
  }

  /** One pass of the matching loop of `add` against the best level of `opp` (ordered
      by `d`): the incoming order and the front resting order `top` both lose the
      smaller of their two quantities, the trade is priced at the level, and `top` is
      popped if it has nothing left (the level goes with its last order). */
  function Pass(d: Dir, opp: seq<Level<Order>>, o: Order, ts: nat): (r: (seq<Level<Order>>, Order, TradeEvent))
    requires WellFormed(d, opp) && opp != []
    ensures WellFormed(d, r.0)
    ensures r.1.rem > 0 ==> |Flatten(r.0)| < |Flatten(opp)|
  {
    var top := opp[0].queue[0];
    var q := Min(o.rem, top.rem);
    var rest := AfterFill(top.(rem := top.rem - q), opp[0].queue[1..]);
    ReplaceFrontFacts(d, opp, rest);
    (ReplaceFront(d, opp, rest), o.(rem := o.rem - q), Event(o, top, opp[0].price, q, ts))
  }

  /** What a pass does: the front order `top` of the best level and the incoming order
      both lose `q`, the smaller of their quantities; the trade is for `q` at the level's
      price; the side changes only at its front, where `top` stays (reduced) only if it
      has something left. */
  lemma PassFacts(d: Dir, opp: seq<Level<Order>>, o: Order, ts: nat)
    requires WellFormed(d, opp) && opp != []
    ensures Flatten(opp)[0] == opp[0].queue[0]
    ensures Pass(d, opp, o, ts).1 == o.(rem := o.rem - Min(o.rem, Flatten(opp)[0].rem))
    ensures Pass(d, opp, o, ts).2 == Event(o, Flatten(opp)[0], opp[0].price, Min(o.rem, Flatten(opp)[0].rem), ts)
    ensures NotBetter(d, Pass(d, opp, o, ts).0, opp)
  {
    var top := opp[0].queue[0];
    var q := Min(o.rem, top.rem);
    assert opp[0].queue == [top] + opp[0].queue[1..];
    ReplaceFrontFacts(d, opp, AfterFill(top.(rem := top.rem - q), opp[0].queue[1..]));
  }

  /** A pass changes the side only at its front: read front to back, the side is the
      old one with its first order reduced by the traded quantity, or without that
      order once it has nothing left. */
  lemma PassFlatten(d: Dir, opp: seq<Level<Order>>, o: Order, ts: nat)
    requires WellFormed(d, opp) && opp != []
    ensures Flatten(Pass(d, opp, o, ts).0)
            == AfterFill(Flatten(opp)[0].(rem := Flatten(opp)[0].rem - Min(o.rem, Flatten(opp)[0].rem)), Flatten(opp)[1..])
  {
    var top := opp[0].queue[0];
    var q := Min(o.rem, top.rem);
    var top1 := top.(rem := top.rem - q);
    var behind := opp[0].queue[1..];
    var f := Flatten(opp);
    assert f[0] == top && f[1..] == behind + Flatten(opp[1..]) by {
      assert opp[0].queue == [top] + behind;
      assert f == [top] + (behind + Flatten(opp[1..]));
    }
    ReplaceFrontFacts(d, opp, AfterFill(top1, behind));
    AfterFillAppend(top1, behind, Flatten(opp[1..]));
  }

  lemma AfterFillAppend(top: Order, behind: seq<Order>, tail: seq<Order>)
    ensures AfterFill(top, behind) + tail == AfterFill(top, behind + tail)
  {
    if top.rem != 0 {
      assert [top] + behind + tail == [top] + (behind + tail);
    }
  }

  /** The matching loop of `add` on the opposite side: passes run while the incoming
      order has quantity left and the best level is within its limit. It ends because
      every pass either pops a resting order or uses up the incoming one. */
  function Sweep(d: Dir, opp: seq<Level<Order>>, o: Order, ts: nat): (r: (seq<Level<Order>>, Order, seq<TradeEvent>))
    requires WellFormed(d, opp)
    ensures WellFormed(d, r.0)
    decreases |Flatten(opp)|, o.rem
  {
    if o.rem == 0 || opp == [] || !Crosses(o, opp[0].price) then (opp, o, [])
    else
      var (opp1, o1, t) := Pass(d, opp, o, ts);
      if o1.rem == 0 then (opp1, o1, [t])
      else
        var r := Sweep(d, opp1, o1, ts);
        (r.0, r.1, [t] + r.2)
  }

  /** When the loop stops, the incoming order (with what is left of it) is used up or
      out of reach of the opposite side, whose best price is no better than before.
      Every trade has the incoming order as aggressor and in its own half. */
  lemma {:induction false} SweepEnds(d: Dir, opp: seq<Level<Order>>, o: Order, ts: nat)
    requires WellFormed(d, opp)
    ensures NotBetter(d, Sweep(d, opp, o, ts).0, opp)
    ensures Sweep(d, opp, o, ts).1 == o.(rem := Sweep(d, opp, o, ts).1.rem) && Sweep(d, opp, o, ts).1.rem <= o.rem
    ensures Sweep(d, opp, o, ts).1.rem == 0 || Sweep(d, opp, o, ts).0 == [] || !Crosses(o, Sweep(d, opp, o, ts).0[0].price)
    ensures forall t :: t in Sweep(d, opp, o, ts).2 ==> t.aggressor == o.side && Incoming(t, o.side) == o.id && t.ts == ts
    decreases |Flatten(opp)|, o.rem
  {
    if o.rem > 0 && opp != [] && Crosses(o, opp[0].price) {
      var (opp1, o1, t) := Pass(d, opp, o, ts);
      PassFacts(d, opp, o, ts);
      if o1.rem > 0 {
        SweepEnds(d, opp1, o1, ts);
        var r := Sweep(d, opp1, o1, ts);
        assert forall u :: u in [t] + r.2 ==> u == t || u in r.2;
      }
    }
  }

  /** A run of trades `out` already made, followed by the outcome `r` of the rest of
      the loop. */
  function Prefixed(out: seq<TradeEvent>, r: (seq<Level<Order>>, Order, seq<TradeEvent>)): (seq<Level<Order>>, Order, seq<TradeEvent>) {
    (r.0, r.1, out + r.2)
  }

  /** The total quantity left in a run of orders. */
  function Volume(q: seq<Order>): nat {
    if q == [] then 0 else q[0].rem + Volume(q[1..])
  }

  /** The total quantity of a run of trades. */
  function Traded(ts: seq<TradeEvent>): nat {
    if ts == [] then 0 else ts[0].qty + Traded(ts[1..])
  }

  /** The matching loop conserves quantity: what the incoming order traded plus what
      it has left is what it came with, and the opposite side lost exactly what was
      traded. */
  lemma {:induction false} SweepConserves(d: Dir, opp: seq<Level<Order>>, o: Order, ts: nat)
    requires WellFormed(d, opp)
    ensures Traded(Sweep(d, opp, o, ts).2) + Sweep(d, opp, o, ts).1.rem == o.rem
    ensures Volume(Flatten(Sweep(d, opp, o, ts).0)) + Traded(Sweep(d, opp, o, ts).2) == Volume(Flatten(opp))
    decreases |Flatten(opp)|, o.rem
  {
    if o.rem > 0 && opp != [] && Crosses(o, opp[0].price) {
      var (opp1, o1, t) := Pass(d, opp, o, ts);
      PassVolume(d, opp, o, ts);
      if o1.rem > 0 {
        SweepConserves(d, opp1, o1, ts);
        var r := Sweep(d, opp1, o1, ts);
        assert ([t] + r.2)[1..] == r.2;
      }
    }
  }

  lemma PassVolume(d: Dir, opp: seq<Level<Order>>, o: Order, ts: nat)
    requires WellFormed(d, opp) && opp != []
    ensures Volume(Flatten(Pass(d, opp, o, ts).0)) + Pass(d, opp, o, ts).2.qty == Volume(Flatten(opp))
  {
    var f := Flatten(opp);
    var t := Pass(d, opp, o, ts).2;
    var top1 := f[0].(rem := f[0].rem - t.qty);
    PassFacts(d, opp, o, ts);
    PassFlatten(d, opp, o, ts);
    assert ([top1] + f[1..])[1..] == f[1..];
  }

  /** Time priority of a run of trades against the resting orders `f` (a side,
      flattened best level first, each level front to back), leaving `g`: the `i`-th
      trade is against the `i`-th resting order, every trade but the last fills its
      resting order completely, and what is left is the rest of `f`, led by the last
      order reduced by its fill exactly when that fill left it something. */
  ghost predicate Fifo(f: seq<Order>, trades: seq<TradeEvent>, g: seq<Order>, s: Side) {
    var n := |trades|;
    && n <= |f|
    && (forall i :: 0 <= i < n ==> Resting(trades[i], s) == f[i].id && trades[i].qty <= f[i].rem)
    && (forall i :: 0 <= i < n - 1 ==> trades[i].qty == f[i].rem)
    && g == if n > 0 && trades[n - 1].qty < f[n - 1].rem
            then [f[n - 1].(rem := f[n - 1].rem - trades[n - 1].qty)] + f[n..]
            else f[n..]
  }

  /** The matching loop obeys time priority on the opposite side. */
  lemma {:induction false} SweepFifo(d: Dir, opp: seq<Level<Order>>, o: Order, ts: nat)
    requires WellFormed(d, opp)
    ensures Fifo(Flatten(opp), Sweep(d, opp, o, ts).2, Flatten(Sweep(d, opp, o, ts).0), o.side)
    decreases |Flatten(opp)|, o.rem
  {
    var f := Flatten(opp);
    if o.rem > 0 && opp != [] && Crosses(o, opp[0].price) {
      var (opp1, o1, t) := Pass(d, opp, o, ts);
      PassFifo(d, opp, o, ts);
      if o1.rem > 0 {
        SweepFifo(d, opp1, o1, ts);
        var r := Sweep(d, opp1, o1, ts);
        FifoCons(f, t, r.2, Flatten(r.0), o.side);
      }
    } else {
      assert f == f[0..];
    }
  }

  /** A single pass obeys time priority; when the incoming order has something left
      after it, the pass used up the front resting order. */
  lemma PassFifo(d: Dir, opp: seq<Level<Order>>, o: Order, ts: nat)
    requires WellFormed(d, opp) && opp != []
    ensures Fifo(Flatten(opp), [Pass(d, opp, o, ts).2], Flatten(Pass(d, opp, o, ts).0), o.side)
    ensures Pass(d, opp, o, ts).1.rem > 0 ==>
              && Flatten(Pass(d, opp, o, ts).0) == Flatten(opp)[1..]
              && Pass(d, opp, o, ts).2.qty == Flatten(opp)[0].rem
              && Resting(Pass(d, opp, o, ts).2, o.side) == Flatten(opp)[0].id
  {
    var f := Flatten(opp);
    var p := Pass(d, opp, o, ts);
    PassFacts(d, opp, o, ts);
    PassFlatten(d, opp, o, ts);
    FifoOne(f, p.2, Flatten(p.0), o.side);
  }

  /** One trade against the front of `f` that leaves it `AfterFill` obeys time priority. */
  lemma FifoOne(f: seq<Order>, t: TradeEvent, g: seq<Order>, s: Side)
    requires f != [] && Resting(t, s) == f[0].id && t.qty <= f[0].rem
    requires g == AfterFill(f[0].(rem := f[0].rem - t.qty), f[1..])
    ensures Fifo(f, [t], g, s)
  {
    assert f[1..] == f[|[t]|..];
  }

  /** The inductive step of `SweepFifo`: a pass that used up the front order, followed
      by a run that obeys time priority on what is behind it. */
  lemma FifoCons(f: seq<Order>, t: TradeEvent, ts: seq<TradeEvent>, g: seq<Order>, s: Side)
    requires f != [] && Resting(t, s) == f[0].id && t.qty == f[0].rem
    requires Fifo(f[1..], ts, g, s)
    ensures Fifo(f, [t] + ts, g, s)
  {
    var f1 := f[1..];
    var n := |ts| + 1;
    assert f1[|ts|..] == f[n..];
    forall i | 0 < i < n
      ensures Resting(([t] + ts)[i], s) == f[i].id && ([t] + ts)[i].qty <= f[i].rem
      ensures i < n - 1 ==> ([t] + ts)[i].qty == f[i].rem
    {
      assert ([t] + ts)[i] == ts[i - 1] && f[i] == f1[i - 1];
    }
    if |ts| > 0 {
      assert ([t] + ts)[n - 1] == ts[|ts| - 1] && f[n - 1] == f1[|ts| - 1];
    }
  }

  /** Every trade is at the price of a resting level within the incoming order's limit,
      and that price is the resting order's own limit; the side keeps every order at
      its own price. */
  lemma {:induction false} SweepPrices(d: Dir, opp: seq<Level<Order>>, o: Order, ts: nat, s: Side)
    requires WellFormed(d, opp) && Placed(opp, s)
    ensures Placed(Sweep(d, opp, o, ts).0, s)
    ensures forall t :: t in Sweep(d, opp, o, ts).2 ==> Crosses(o, t.px) && QueueAt(opp, t.px) != []
    decreases |Flatten(opp)|, o.rem
  {
    if o.rem > 0 && opp != [] && Crosses(o, opp[0].price) {
      var (opp1, o1, t) := Pass(d, opp, o, ts);
      PassPlaced(d, opp, o, ts, s);
      if o1.rem > 0 {
        SweepPrices(d, opp1, o1, ts, s);
        var r := Sweep(d, opp1, o1, ts);
        forall u | u in [t] + r.2 ensures Crosses(o, u.px) && QueueAt(opp, u.px) != [] {
          if u != t {
            assert u in r.2;
          }
        }
      }
    }
  }

  /** A pass keeps every order of the side at its own price, and it trades at a price
      within the limit where the side has a level. */
  lemma PassPlaced(d: Dir, opp: seq<Level<Order>>, o: Order, ts: nat, s: Side)
    requires WellFormed(d, opp) && opp != [] && Placed(opp, s) && Crosses(o, opp[0].price)
    ensures Placed(Pass(d, opp, o, ts).0, s)
    ensures Crosses(o, Pass(d, opp, o, ts).2.px) && Pass(d, opp, o, ts).2.px == opp[0].price
    ensures forall p :: QueueAt(Pass(d, opp, o, ts).0, p) != [] ==> QueueAt(opp, p) != []
  {
    PassKeepsPlaced(d, opp, o, ts, s);
    PassFacts(d, opp, o, ts);
  }

  lemma PassKeepsPlaced(d: Dir, opp: seq<Level<Order>>, o: Order, ts: nat, s: Side)
    requires WellFormed(d, opp) && opp != [] && Placed(opp, s)
    ensures Placed(Pass(d, opp, o, ts).0, s)
  {
    var top := opp[0].queue[0];
    var rest := AfterFill(top.(rem := top.rem - Min(o.rem, top.rem)), opp[0].queue[1..]);
    assert QueueAt(opp, opp[0].price) == opp[0].queue;
    PlacedFront(d, opp, rest, s);
  }

  /** Replacing the best level's queue by orders of that side and price keeps every
      order of the side at its own price. */
  lemma PlacedFront(d: Dir, opp: seq<Level<Order>>, rest: seq<Order>, s: Side)
    requires WellFormed(d, opp) && opp != [] && Placed(opp, s)
    requires forall x :: x in rest ==> x.side == s && x.px == opp[0].price
    ensures Placed(ReplaceFront(d, opp, rest), s)
  {
    var r := ReplaceFront(d, opp, rest);
    ReplaceFrontFacts(d, opp, rest);
    forall p: int, x: Order | x in QueueAt(r, p) ensures x.side == s && x.px == p {
      if p == opp[0].price {
        assert QueueAt(r, p) == rest;
      } else {
        assert QueueAt(r, p) == QueueAt(opp, p);
      }
    }
  }

  /** Each trade is priced at its resting order's own limit. */
  lemma {:induction false} SweepPricesOwn(d: Dir, opp: seq<Level<Order>>, o: Order, ts: nat, s: Side)
    requires WellFormed(d, opp) && Placed(opp, s)
    ensures forall i :: 0 <= i < |Sweep(d, opp, o, ts).2| && i < |Flatten(opp)| ==>
              Sweep(d, opp, o, ts).2[i].px == Flatten(opp)[i].px
    decreases |Flatten(opp)|, o.rem
  {
    if o.rem > 0 && opp != [] && Crosses(o, opp[0].price) {
      var (opp1, o1, t) := Pass(d, opp, o, ts);
      PassPlaced(d, opp, o, ts, s);
      PassFacts(d, opp, o, ts);
      PassFifo(d, opp, o, ts);
      assert QueueAt(opp, opp[0].price) == opp[0].queue;
      if o1.rem > 0 {
        SweepPricesOwn(d, opp1, o1, ts, s);
        var r := Sweep(d, opp1, o1, ts);
        forall i | 0 < i < |[t] + r.2| && i < |Flatten(opp)|
          ensures ([t] + r.2)[i].px == Flatten(opp)[i].px
        {
          assert ([t] + r.2)[i] == r.2[i - 1];
        }
      }
    }
  }

  /** The matching loop of `add`, run on the opposite side `opp`: one pass per
      iteration until the order is used up or the best level is out of reach. */
  method RunSweep(d: Dir, opp0: seq<Level<Order>>, o: Order, ts: nat) returns (opp: seq<Level<Order>>, cur: Order, out: seq<TradeEvent>)
    requires WellFormed(d, opp0)
    ensures (opp, cur, out) == Sweep(d, opp0, o, ts)
  {
    opp, cur, out := opp0, o, [];
    assert out + Sweep(d, opp, cur, ts).2 == Sweep(d, opp, cur, ts).2;
    while cur.rem > 0 && opp != [] && Crosses(o, opp[0].price)
      invariant WellFormed(d, opp) && cur == o.(rem := cur.rem)
      invariant Sweep(d, opp0, o, ts) == Prefixed(out, Sweep(d, opp, cur, ts))
      decreases |Flatten(opp)|, cur.rem
    {
      SweepStep(d, opp0, o, ts, opp, cur, out);
      var t;
      opp, cur, t := RunPass(d, opp, cur, ts);
      out := out + [t];
      if cur.rem == 0 {
        break;
      }
    }
    assert out + [] == out;
  }

  /** The body of the matching loop: the front resting order and the incoming order
      trade the smaller of their quantities at the best level's price. */
  method RunPass(d: Dir, opp: seq<Level<Order>>, cur: Order, ts: nat) returns (opp1: seq<Level<Order>>, cur1: Order, t: TradeEvent)
    requires WellFormed(d, opp) && opp != []
    ensures (opp1, cur1, t) == Pass(d, opp, cur, ts)
    ensures cur1 == cur.(rem := cur1.rem) && cur1.rem <= cur.rem
  {
    var top := opp[0].queue[0];
    var q := Min(cur.rem, top.rem);
    t := Event(cur, top, opp[0].price, q, ts);
    opp1 := ReplaceFront(d, opp, AfterFill(top.(rem := top.rem - q), opp[0].queue[1..]));
    cur1 := cur.(rem := cur.rem - q);
  }

  /** One iteration of `RunSweep` keeps its invariant. */
  lemma SweepStep(d: Dir, opp0: seq<Level<Order>>, o: Order, ts: nat, opp: seq<Level<Order>>, cur: Order, out: seq<TradeEvent>)
    requires WellFormed(d, opp0) && WellFormed(d, opp)
    requires cur.rem > 0 && opp != [] && Crosses(cur, opp[0].price)
    requires Sweep(d, opp0, o, ts) == Prefixed(out, Sweep(d, opp, cur, ts))
    ensures Sweep(d, opp0, o, ts)
            == Prefixed(out + [Pass(d, opp, cur, ts).2], Sweep(d, Pass(d, opp, cur, ts).0, Pass(d, opp, cur, ts).1, ts))
  {
    var p := Pass(d, opp, cur, ts);
    if p.1.rem > 0 {
      SweepGoes(d, opp, cur, ts);
    } else {
      SweepStops(d, opp, cur, ts);
    }
    var r := Sweep(d, p.0, p.1, ts);
    var s1 := Sweep(d, opp, cur, ts);
    assert s1.0 == r.0 && s1.1 == r.1 && s1.2 == [p.2] + r.2;
    assert out + s1.2 == (out + [p.2]) + r.2;
  }

  /** A pass that leaves the incoming order something is followed by the rest of
      the loop. */
  lemma SweepGoes(d: Dir, opp: seq<Level<Order>>, o: Order, ts: nat)
    requires WellFormed(d, opp) && o.rem > 0 && opp != [] && Crosses(o, opp[0].price)
    requires Pass(d, opp, o, ts).1.rem > 0
    ensures Sweep(d, opp, o, ts)
            == Prefixed([Pass(d, opp, o, ts).2], Sweep(d, Pass(d, opp, o, ts).0, Pass(d, opp, o, ts).1, ts))
  {
  }

  /** A pass that uses up the incoming order ends the loop. */
  lemma SweepStops(d: Dir, opp: seq<Level<Order>>, o: Order, ts: nat)
    requires WellFormed(d, opp) && o.rem > 0 && opp != [] && Crosses(o, opp[0].price)
    requires Pass(d, opp, o, ts).1.rem == 0
    ensures Sweep(d, opp, o, ts) == Prefixed([Pass(d, opp, o, ts).2], Sweep(d, Pass(d, opp, o, ts).0, Pass(d, opp, o, ts).1, ts))
  {
    assert [Pass(d, opp, o, ts).2] + [] == [Pass(d, opp, o, ts).2];
  }

  /** `enqueue`: append the order at the tail of its price's queue. */
  function Enqueue(d: Dir, l: seq<Level<Order>>, o: Order): (r: seq<Level<Order>>)
    requires WellFormed(d, l)
    ensures WellFormed(d, r)
    ensures forall p :: QueueAt(r, p) == if p == o.px then QueueAt(l, p) + [o] else QueueAt(l, p)
  {
    SetQueueAtAll(d, l, o.px, QueueAt(l, o.px) + [o]);
    SetQueue(d, l, o.px, QueueAt(l, o.px) + [o])
  }

  lemma EnqueuePlaced(d: Dir, l: seq<Level<Order>>, o: Order, s: Side)
    requires WellFormed(d, l) && Placed(l, s) && o.side == s
    ensures Placed(Enqueue(d, l, o), s)
  {
    forall p, x | x in QueueAt(Enqueue(d, l, o), p) ensures x.side == s && x.px == p {
      if p == o.px {
        assert x in QueueAt(l, p) || x == o;
      }
    }
  }

  /** `Orderbook::add`: an IOC order that cannot match is dropped without touching the
      book; otherwise the order sweeps the opposite side and a GTC remainder rests. */
  function Aggress(b: Book, o: Order, ts: nat): (r: (Book, seq<TradeEvent>))
    requires Inv(b)
    ensures Inv(r.0)
  {
    if o.kind == IOC && !Matchable(b, o) then (b, [])
    else
      var s := o.side;
      var sw := Sweep(DirOf(Other(s)), SideOf(b, Other(s)), o, ts);
      SweepPrices(DirOf(Other(s)), SideOf(b, Other(s)), o, ts, Other(s));
      SweepEnds(DirOf(Other(s)), SideOf(b, Other(s)), o, ts);
      var b1 := WithSide(b, Other(s), sw.0);
      if sw.1.rem > 0 && o.kind == GTC then
        EnqueuePlaced(DirOf(s), SideOf(b, s), sw.1, s);
        (WithSide(b1, s, Enqueue(DirOf(s), SideOf(b, s), sw.1)), sw.2)
      else
        (b1, sw.2)
  }

  /** An IOC order with no opposite level within its limit trades nothing and leaves
      the book as it was. */
  lemma IocUnmatched(b: Book, o: Order, ts: nat)
    requires Inv(b) && o.kind == IOC
    requires forall p :: QueueAt(SideOf(b, Other(o.side)), p) != [] ==> !Crosses(o, p)
    ensures Aggress(b, o, ts) == (b, [])
  {
    MatchableMeans(b, o);
  }

  /** `add` conserves quantity: the trades use up at most the order's quantity, the
      opposite side loses exactly what was traded, and on the order's own side only
      its price's queue changes, gaining the remainder at the tail when the order is
      GTC and something is left. */
  lemma AddConserves(b: Book, o: Order, ts: nat)
    requires Inv(b)
    ensures Traded(Aggress(b, o, ts).1) <= o.rem
    ensures Volume(Flatten(SideOf(Aggress(b, o, ts).0, Other(o.side)))) + Traded(Aggress(b, o, ts).1)
            == Volume(Flatten(SideOf(b, Other(o.side))))
    ensures forall p :: QueueAt(SideOf(Aggress(b, o, ts).0, o.side), p)
              == QueueAt(SideOf(b, o.side), p)
                 + if p == o.px && o.kind == GTC && Traded(Aggress(b, o, ts).1) < o.rem
                   then [o.(rem := o.rem - Traded(Aggress(b, o, ts).1))] else []
  {
    if !(o.kind == IOC && !Matchable(b, o)) {
      var d := DirOf(Other(o.side));
      var opp := SideOf(b, Other(o.side));
      AggressParts(b, o, ts);
      SweepConserves(d, opp, o, ts);
      SweepEnds(d, opp, o, ts);
    }
  }

  /** Where `add` does not drop the order: the trades and the opposite side are those
      of the sweep, and the own side changes only by the resting remainder. */
  lemma AggressParts(b: Book, o: Order, ts: nat)
    requires Inv(b) && !(o.kind == IOC && !Matchable(b, o))
    ensures var sw := Sweep(DirOf(Other(o.side)), SideOf(b, Other(o.side)), o, ts);
            && Aggress(b, o, ts).1 == sw.2
            && SideOf(Aggress(b, o, ts).0, Other(o.side)) == sw.0
            && SideOf(Aggress(b, o, ts).0, o.side)
               == if sw.1.rem > 0 && o.kind == GTC then Enqueue(DirOf(o.side), SideOf(b, o.side), sw.1)
                  else SideOf(b, o.side)
  {
  }

  /** Every trade of `add` has the incoming order as aggressor and in its own half, and
      is priced at a level of the opposite side that lies within the order's limit. */
  lemma AddTrades(b: Book, o: Order, ts: nat)
    requires Inv(b)
    ensures forall t :: t in Aggress(b, o, ts).1 ==>
              && t.aggressor == o.side && Incoming(t, o.side) == o.id && t.ts == ts
              && Crosses(o, t.px) && QueueAt(SideOf(b, Other(o.side)), t.px) != []
  {
    if !(o.kind == IOC && !Matchable(b, o)) {
      SweepPrices(DirOf(Other(o.side)), SideOf(b, Other(o.side)), o, ts, Other(o.side));
      SweepEnds(DirOf(Other(o.side)), SideOf(b, Other(o.side)), o, ts);
    }
  }

  /** A book that is not crossed stays so: matching only moves the opposite side's best
      price away, and a remainder rests only beyond the opposite side's new best. */
  lemma AddKeepsUncrossed(b: Book, o: Order, ts: nat)
    requires Inv(b) && Uncrossed(b)
    ensures Uncrossed(Aggress(b, o, ts).0)
  {
    if !(o.kind == IOC && !Matchable(b, o)) {
      var s := o.side;
      var sw := Sweep(DirOf(Other(s)), SideOf(b, Other(s)), o, ts);
      SweepEnds(DirOf(Other(s)), SideOf(b, Other(s)), o, ts);
      if sw.1.rem > 0 && o.kind == GTC {
        var own := SideOf(b, s);
        var q := QueueAt(own, sw.1.px) + [sw.1];
        assert SetQueue(DirOf(s), own, sw.1.px, q) == Enqueue(DirOf(s), own, sw.1);
      }
    }
  }

  /** `topBids(N)` / `topAsks(N)`: at most `N` levels best-first, each with the total
      quantity resting at its price. */
  function TopLevels(d: Dir, l: seq<Level<Order>>, n: nat): (r: seq<(int, nat)>)
    requires WellFormed(d, l)
    ensures |r| == Min(n, |l|)
    ensures forall i :: 0 <= i < |r| ==> r[i].0 == l[i].price && r[i].1 == Volume(QueueAt(l, r[i].0))
    ensures forall i, j :: 0 <= i < j < |r| ==> Before(d, r[i].0, r[j].0)
  {
    if n == 0 || l == [] then []
    else
      SortedTail(d, l);
      var rest := TopLevels(d, l[1..], n - 1);
      var r := [(l[0].price, Volume(l[0].queue))] + rest;
      forall i | 0 < i < |r| ensures r[i].1 == Volume(QueueAt(l, r[i].0)) {
        assert r[i] == rest[i - 1] && l[1..][i - 1] == l[i];
        assert Before(d, l[0].price, l[i].price);
      }
      r
  }

  /** `seedAsks`: the order placed at step `i`, a GTC sell of `qty` (converted to
      `uint32_t`) at price `100 + i`. */
  function SeedOrder(i: nat, qty: int): Order {
    Order(100000 + i, Sell, GTC, 100 + i, qty % 0x1_0000_0000)
  }

  /** The ask side after the first `n` steps of `seedAsks`. */
  function Seeded(asks: seq<Level<Order>>, n: int, qty: int): (r: seq<Level<Order>>)
    requires WellFormed(Asc, asks)
    ensures WellFormed(Asc, r)
    decreases n
  {
    if n <= 0 then asks else Enqueue(Asc, Seeded(asks, n - 1, qty), SeedOrder(n - 1, qty))
  }

  lemma SeedStep(asks: seq<Level<Order>>, i: nat, qty: int)
    requires WellFormed(Asc, asks)
    ensures Seeded(asks, i + 1, qty) == Enqueue(Asc, Seeded(asks, i, qty), Order(100000 + i, Sell, GTC, 100 + i, qty % 0x1_0000_0000))
  {
  }

  lemma {:induction false} SeededPlaced(asks: seq<Level<Order>>, n: int, qty: int)
    requires WellFormed(Asc, asks) && Placed(asks, Sell)
    ensures Placed(Seeded(asks, n, qty), Sell)
    decreases n
  {
    if n > 0 {
      SeededPlaced(asks, n - 1, qty);
      EnqueuePlaced(Asc, Seeded(asks, n - 1, qty), SeedOrder(n - 1, qty), Sell);
    }
  }

  lemma SeededInv(b: Book, n: int, qty: int)
    requires Inv(b)
    ensures Inv(Book(b.bids, Seeded(b.asks, n, qty)))
  {
    SeededPlaced(b.asks, n, qty);
  }

  /** On an empty ask side `seedAsks(n, qty)` builds a ladder: one level per price
      `100 .. 100 + n - 1`, each holding the single order seeded for it. */
  lemma {:induction false} SeedLadder(n: nat, qty: int)
    ensures |Seeded([], n, qty)| == n
    ensures forall i :: 0 <= i < n ==> Seeded([], n, qty)[i] == Level(100 + i, [SeedOrder(i, qty)])
  {
    if n > 0 {
      SeedLadder(n - 1, qty);
      var l := Seeded([], n - 1, qty);
      var o := SeedOrder(n - 1, qty);
      LadderSnoc(l, n, qty);
      EnqueueBehind(l, o);
      assert Seeded([], n, qty) == l + [Level(o.px, [o])];
    }
  }

  /** The ladder of `n - 1` levels followed by the level seeded for price `100 + n - 1`
      is the ladder of `n` levels. */
  lemma LadderSnoc(l: seq<Level<Order>>, n: nat, qty: int)
    requires n > 0 && |l| == n - 1
    requires forall i :: 0 <= i < n - 1 ==> l[i] == Level(100 + i, [SeedOrder(i, qty)])
    ensures var r := l + [Level(SeedOrder(n - 1, qty).px, [SeedOrder(n - 1, qty)])];
            |r| == n && forall i :: 0 <= i < n ==> r[i] == Level(100 + i, [SeedOrder(i, qty)])
  {
    var r := l + [Level(SeedOrder(n - 1, qty).px, [SeedOrder(n - 1, qty)])];
    forall i | 0 <= i < n ensures r[i] == Level(100 + i, [SeedOrder(i, qty)]) {
      if i < n - 1 {
        assert r[i] == l[i];
      }
    }
  }

  /** An order priced above every ask level opens a new last level. */
  lemma EnqueueBehind(l: seq<Level<Order>>, o: Order)
    requires WellFormed(Asc, l)
    requires forall i :: 0 <= i < |l| ==> l[i].price < o.px
    ensures Enqueue(Asc, l, o) == l + [Level(o.px, [o])]
  {
    QueueAtAbsent(l, o.px);
    assert QueueAt(l, o.px) + [o] == [o];
    SetQueueBehind(Asc, l, o.px, [o]);
  }

  /** `class Orderbook` of orderBook.cpp. */
  class Orderbook {
    var bids: seq<Level<Order>>
    var asks: seq<Level<Order>>

    function State(): Book
      reads this
    {
      Book(bids, asks)
    }

    ghost predicate Valid()
      reads this
    {
      Inv(State())
    }

    constructor()
      ensures Valid() && State() == Book([], [])
    {
      bids := [];
      asks := [];
    }

    /** `add`: the two C++ loops, one per side of the incoming order, run here as one
        loop over the opposite side, which is written back when it ends. */
    method Add(o: Order, ts: nat) returns (out: seq<TradeEvent>)
      modifies this
      requires Valid()
      ensures Valid()
      ensures (State(), out) == Aggress(old(State()), o, ts)
      ensures Uncrossed(old(State())) ==> Uncrossed(State())
    {
      ghost var b := State();
      if Uncrossed(b) {
        AddKeepsUncrossed(b, o, ts);
      }
      out := [];
      if o.kind == IOC && !Matchable(State(), o) {
        return;
      }
      var opp, cur;
      opp, cur, out := RunSweep(DirOf(Other(o.side)), if o.side == Buy then asks else bids, o, ts);
      if o.side == Buy {
        asks := opp;
        if cur.rem > 0 && o.kind == GTC {
          bids := Enqueue(Desc, bids, cur);
        }
      } else {
        bids := opp;
        if cur.rem > 0 && o.kind == GTC {
          asks := Enqueue(Asc, asks, cur);
        }
      }
      assert (State(), out) == Aggress(b, o, ts);
    }

    /** `seedAsks(levels, qty)`: one GTC sell per price `100 + i`, for `i` below
        `levels`, each at the tail of its level. */
    method SeedAsks(levels: int, qty: int)
      modifies this
      requires Valid()
      ensures Valid()
      ensures bids == old(bids) && asks == Seeded(old(asks), levels, qty)
    {
      ghost var b := State();
      var i := 0;
      while i < levels
        invariant 0 <= i && (i <= levels || i == 0)
        invariant asks == Seeded(b.asks, i, qty) && bids == b.bids
      {
        var px := 100 + i;
        SeedStep(b.asks, i, qty);
        asks := Enqueue(Asc, asks, Order(100000 + i, Sell, GTC, px, qty % 0x1_0000_0000));
        i := i + 1;
      }
      SeededInv(b, levels, qty);
    }

    /** `bestBid()`: the highest bid, or 0 when there is none. */
    function BestBid(): (p: int)
      reads this
      requires Valid()
      ensures bids == [] ==> p == 0
      ensures bids != [] ==> QueueAt(bids, p) != [] && forall x :: QueueAt(bids, x) != [] ==> x <= p
    {
      Best(Desc, bids)
    }

    /** `bestAsk()`: the lowest ask, or 0 when there is none. */
    function BestAsk(): (p: int)
      reads this
      requires Valid()
      ensures asks == [] ==> p == 0
      ensures asks != [] ==> QueueAt(asks, p) != [] && forall x :: QueueAt(asks, x) != [] ==> p <= x
    {
      Best(Asc, asks)
    }

    /** `restingOrders()`: every queued order on both sides. */
    function RestingOrders(): (n: nat)
      reads this
      ensures n == |Flatten(bids)| + |Flatten(asks)|
    {
      Count(bids) + Count(asks)
    }

    /** `topBids(N)`: the `N` best bid levels, highest first, with their volumes. */
    function TopBids(n: nat): (r: seq<(int, nat)>)
      reads this
      requires Valid()
      ensures |r| == Min(n, |bids|)
      ensures forall i :: 0 <= i < |r| ==> r[i].0 == bids[i].price && r[i].1 == Volume(QueueAt(bids, r[i].0))
      ensures forall i, j :: 0 <= i < j < |r| ==> r[i].0 > r[j].0
    {
      TopLevels(Desc, bids, n)
    }

    /** `topAsks(N)`: the `N` best ask levels, lowest first, with their volumes. */
    function TopAsks(n: nat): (r: seq<(int, nat)>)
      reads this
      requires Valid()
      ensures |r| == Min(n, |asks|)
      ensures forall i :: 0 <= i < |r| ==> r[i].0 == asks[i].price && r[i].1 == Volume(QueueAt(asks, r[i].0))
      ensures forall i, j :: 0 <= i < j < |r| ==> r[i].0 < r[j].0
    {
      TopLevels(Asc, asks, n)
    }
  }
}
