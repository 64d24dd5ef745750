/** The functional scenario of orderBook_bench.cpp (`runBasicTests`), run on the
    indexed engine: a resting buy, a sell that crosses it in full, and a buy that is
    added and cancelled. */
module BasicTests {
  import opened Levels
  import opened IndexedBook

  /** A GoodTillCancel buy on an empty book trades nothing and rests alone. */
  lemma RestsOnEmpty(e: Book, o: Order)
    requires e == Book([], [], map[]) && o.kind == GoodTillCancel && o.side == Buy
    ensures Add(e, o) == (Book([Level(o.px, [o.id])], [], map[o.id := o]), [])
  {
    var b := Insert(e, o);
    assert QueueAt(b.bids, o.px) == [o.id];
  }

  /** Test 2, the insertion: the sell of 10 at 99 opens the ask side. */
  lemma CrossInsert(b: Book, o1: Order, o: Order)
    requires o1 == MakeOrder(GoodTillCancel, 1, Buy, 100, 10) && b == Book([Level(100, [1])], [], map[1 := o1])
    requires o == MakeOrder(GoodTillCancel, 2, Sell, 99, 10)
    requires Inv(b)
    ensures Insert(b, o) == Book([Level(100, [1])], [Level(99, [2])], map[1 := o1, 2 := o])
  {
    var b0 := Insert(b, o);
    assert QueueAt(b0.asks, 99) == [2];
  }

  /** Test 2, the match: both orders fill completely and leave an empty book; each
      half of the trade carries its own order's price. */
  lemma CrossStep(b: Book, o1: Order, o: Order)
    requires o1 == MakeOrder(GoodTillCancel, 1, Buy, 100, 10) && o == MakeOrder(GoodTillCancel, 2, Sell, 99, 10)
    requires b == Book([Level(100, [1])], [Level(99, [2])], map[1 := o1, 2 := o])
    requires Inv(b)
    ensures MatchStep(b) == (Book([], [], map[]), Trade(TradeInfo(1, 100, 10), TradeInfo(2, 99, 10)))
  {
    assert FrontId(b, Buy) == 1 && FrontId(b, Sell) == 2;
    var b1 := FillFront(b, Buy, 10);
    assert b1 == Book([], [Level(99, [2])], map[2 := o]);
  }

  /** Test 2 as a whole: one trade, and nothing rests. */
  lemma CrossAdd(b: Book, o1: Order, o: Order)
    requires o1 == MakeOrder(GoodTillCancel, 1, Buy, 100, 10) && b == Book([Level(100, [1])], [], map[1 := o1])
    requires o == MakeOrder(GoodTillCancel, 2, Sell, 99, 10)
    requires Inv(b)
    ensures Add(b, o) == (Book([], [], map[]), [Trade(TradeInfo(1, 100, 10), TradeInfo(2, 99, 10))])
  {
    CrossInsert(b, o1, o);
    var b0 := Insert(b, o);
    CrossStep(b0, o1, o);
    var e := Book([], [], map[]);
    var t := Trade(TradeInfo(1, 100, 10), TradeInfo(2, 99, 10));
    assert Crossed(b0) && MatchStep(b0) == (e, t);
    assert MatchAll(e) == (e, []);
    assert [t] + [] == [t];
  }

  /** `runBasicTests`: the first add executes no trade, the second exactly one (buy 1
      at 100 against sell 2 at 99, for 10), and after adding and cancelling order 3 the
      book is empty. */
  method RunBasicTests() returns (t1: seq<Trade>, t2: seq<Trade>, size: nat)
    ensures t1 == []
    ensures t2 == [Trade(TradeInfo(1, 100, 10), TradeInfo(2, 99, 10))]
    ensures size == 0
  {
    var ob := new Orderbook();
    var o1 := MakeOrder(GoodTillCancel, 1, Buy, 100, 10);
    RestsOnEmpty(ob.State(), o1);
    t1 := ob.AddOrder(o1);

    var o2 := MakeOrder(GoodTillCancel, 2, Sell, 99, 10);
    CrossAdd(ob.State(), o1, o2);
    t2 := ob.AddOrder(o2);

    var o3 := MakeOrder(GoodTillCancel, 3, Buy, 101, 5);
    RestsOnEmpty(ob.State(), o3);
    var _ := ob.AddOrder(o3);
    ob.CancelOrder(3);
    size := ob.Size();
  }
}
