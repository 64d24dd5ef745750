/** The per-symbol bookkeeping of orderBook.cpp around the aggressor engine: a `Market`
    holds one book, a scrolling tape of recent trades (newest first, at most
    `MAX_TAPE`) and a trade counter; a `SymbolManager` holds one market per symbol and
    the index of the symbol on screen. The mutex of `Market` and the atomic index are
    left out: the locked region of the simulation loop is one sequential method. */
module MarketSim {
  import opened Levels
  import opened AggressorBook

  /** `MAX_TAPE`: the tape keeps the 12 most recent trades. */
  const MAX_TAPE: nat := 12

  /** One turn of `addTradesToTapeLocked`: `push_front`, then `pop_back` once the tape
      holds more than `MAX_TAPE` trades. */
  function PushTrade(tape: seq<TradeEvent>, t: TradeEvent): (r: seq<TradeEvent>)
    ensures |tape| < MAX_TAPE ==> |r| == |tape| + 1
    ensures |tape| >= MAX_TAPE ==> |r| == |tape|
    ensures r != [] && r[0] == t && r[1..] == tape[..|r| - 1]
  {
    var f := [t] + tape;
    if |f| > MAX_TAPE then f[..|f| - 1] else f
  }

  /** The tape after `addTradesToTapeLocked` has pushed the trades of `ts` in order. */
  function PushTrades(tape: seq<TradeEvent>, ts: seq<TradeEvent>): (r: seq<TradeEvent>)
    ensures |tape| <= MAX_TAPE ==> |r| <= MAX_TAPE
    ensures ts != [] ==> r != [] && r[0] == ts[|ts| - 1]
    decreases |ts|
  {
    if ts == [] then tape else PushTrade(PushTrades(tape, ts[..|ts| - 1]), ts[|ts| - 1])
  }

  /** The trades of `s`, last first. */
  function Reverse<T>(s: seq<T>): (r: seq<T>)
    ensures |r| == |s| && forall i :: 0 <= i < |s| ==> r[i] == s[|s| - 1 - i]
    decreases |s|
  {
    if s == [] then [] else [s[|s| - 1]] + Reverse(s[..|s| - 1])
  }

  /** The tape is a window: after pushing `ts` onto a tape of at most `MAX_TAPE`
      trades, it holds the newest `MAX_TAPE` of all trades seen, newest first, so the
      oldest trades are the ones evicted. */
  lemma {:induction false} TapeWindow(tape: seq<TradeEvent>, ts: seq<TradeEvent>)
    requires |tape| <= MAX_TAPE
    ensures PushTrades(tape, ts) == (Reverse(ts) + tape)[..Min(|ts| + |tape|, MAX_TAPE)]
    decreases |ts|
  {
    if ts != [] {
      var init, last := ts[..|ts| - 1], ts[|ts| - 1];
      TapeWindow(tape, init);
      var w := (Reverse(init) + tape)[..Min(|init| + |tape|, MAX_TAPE)];
      var all := Reverse(ts) + tape;
      assert all == [last] + (Reverse(init) + tape);
      var f := [last] + w;
      assert f == all[..|f|];
      if |f| > MAX_TAPE {
        assert f[..|f| - 1] == all[..MAX_TAPE];
      }
    }
  }

  /** What the tape promises: never more than `MAX_TAPE` trades, the newest in front,
      and the old tape still behind the new trades as far as room allows. */
  lemma TapeBounded(tape: seq<TradeEvent>, ts: seq<TradeEvent>)
    requires |tape| <= MAX_TAPE
    ensures |PushTrades(tape, ts)| == Min(|ts| + |tape|, MAX_TAPE)
    ensures ts != [] ==> PushTrades(tape, ts)[0] == ts[|ts| - 1]
    ensures forall i :: |ts| <= i < |PushTrades(tape, ts)| ==> PushTrades(tape, ts)[i] == tape[i - |ts|]
  {
    TapeWindow(tape, ts);
  }

  /** The order a simulation thread submits (orderBook.cpp, `marketSimLoop`): an IOC
      order of 10 at `100 + id % 30 + seedSkew`. */
  function SimOrder(id: nat, s: Side, seedSkew: int): (o: Order)
    ensures o.id == id && o.side == s && o.kind == IOC && o.rem == 10
    ensures 100 + seedSkew <= o.px < 130 + seedSkew
  {
    Order(id, s, IOC, 100 + id % 30 + seedSkew, 10)
  }

  /** A simulated order never rests: its own side is unchanged, and it trades at most
      its 10 units. */
  lemma SimOrderNeverRests(b: Book, id: nat, s: Side, seedSkew: int, ts: nat)
    requires Inv(b)
    ensures forall p :: QueueAt(SideOf(Aggress(b, SimOrder(id, s, seedSkew), ts).0, s), p) == QueueAt(SideOf(b, s), p)
    ensures Traded(Aggress(b, SimOrder(id, s, seedSkew), ts).1) <= 10
  {
    AddConserves(b, SimOrder(id, s, seedSkew), ts);
  }

  /** `struct Market`: a book, its tape and the number of trades it has produced. */
  class Market {
    const book: Orderbook
    var tape: seq<TradeEvent>
    var tradeCount: nat

    ghost predicate Valid()
      reads this, book
    {
      book.Valid() && |tape| <= MAX_TAPE
    }

    constructor()
      ensures Valid() && fresh(book) && book.State() == Book([], [])
      ensures tape == [] && tradeCount == 0
    {
      book := new Orderbook();
      tape := [];
      tradeCount := 0;
    }

    /** `addTradesToTapeLocked`. */
    method AddTradesToTape(trades: seq<TradeEvent>)
      modifies this
      ensures tape == PushTrades(old(tape), trades) && tradeCount == old(tradeCount)
    {
      for i := 0 to |trades|
        invariant tape == PushTrades(old(tape), trades[..i]) && tradeCount == old(tradeCount)
      {
        assert trades[..i + 1][..i] == trades[..i];
        tape := [trades[i]] + tape;
        if |tape| > MAX_TAPE {
          tape := tape[..|tape| - 1];
        }
      }
      assert trades[..|trades|] == trades;
    }

    /** The locked region of `marketSimLoop`: the order goes to the book, the trade
        counter grows by the number of trades, and the trades go to the tape. */
    method Submit(o: Order, ts: nat) returns (trades: seq<TradeEvent>)
      modifies this, book
      requires Valid()
      ensures Valid()
      ensures (book.State(), trades) == Aggress(old(book.State()), o, ts)
      ensures tradeCount == old(tradeCount) + |trades|
      ensures tape == PushTrades(old(tape), trades)
    {
      trades := book.Add(o, ts);
      tradeCount := tradeCount + |trades|;
      AddTradesToTape(trades);
      TapeWindow(old(tape), trades);
    }
  }

  /** `max(lo, min(x, hi))`. */
  function Clamp(x: int, lo: int, hi: int): (r: int)
    requires lo <= hi
    ensures lo <= r <= hi
    ensures lo <= x <= hi ==> r == x
    ensures x < lo ==> r == lo
    ensures hi < x ==> r == hi
  {
    if x < lo then lo else if x > hi then hi else x
  }

  /** The arguments of the `seedAsks` call in the `SymbolManager` constructor. */
  const SEED_LEVELS: nat := 15
  const SEED_QTY: int := 20

  /** The ask side `seedAsks(n, qty)` leaves on an empty book: level `i` at price
      `100 + i` holding the single order seeded for it. */
  ghost predicate Ladder(asks: seq<Level<Order>>, n: nat, qty: int) {
    |asks| == n && forall i :: 0 <= i < n ==> asks[i] == Level(100 + i, [SeedOrder(i, qty)])
  }

  /** A market as the constructor leaves it: valid, no bids, the ask ladder of
      `seedAsks(n, qty)`, an empty tape and no trades. */
  ghost predicate Opening(m: Market, n: nat, qty: int)
    reads m, m.book
  {
    && m.Valid() && m.book.bids == [] && Ladder(m.book.asks, n, qty)
    && m.tape == [] && m.tradeCount == 0
  }

  /** The body of the constructor's loop: a new market whose asks are seeded. */
  method SeededMarket(n: nat, qty: int) returns (m: Market)
    ensures fresh(m) && fresh(m.book) && Opening(m, n, qty)
  {
    m := new Market();
    m.book.SeedAsks(n, qty);
    SeedLadder(n, qty);
  }

  /** `struct SymbolManager`: one market per symbol and the index of the active one
      (0 for AAPL, 1 for MSFT, 2 for BTCUSD). */
  class SymbolManager {
    const symbols: seq<string> := ["AAPL", "MSFT", "BTCUSD"]
    var markets: map<string, Market>
    var activeIdx: int

    ghost predicate Valid()
      reads this, markets.Values, set m | m in markets.Values :: m.book
    {
      && (forall s :: s in markets <==> s in symbols)
      && (forall s :: s in markets ==> markets[s].Valid())
      && Distinct()
    }

    /** Each symbol owns its market (a `unique_ptr`), so no two symbols share a market
        or an order book. */
    ghost predicate Distinct()
      reads this, markets.Values
    {
      forall s, t :: s in markets && t in markets && s != t ==>
        markets[s] != markets[t] && markets[s].book != markets[t].book
    }

    /** Every market starts with the ask ladder of `seedAsks(15, 20)` and an empty
        tape. */
    constructor()
      ensures Valid() && activeIdx == 0
      ensures forall s :: s in markets ==> Opening(markets[s], SEED_LEVELS, SEED_QTY)
    {
      activeIdx := 0;
      markets := map[];
      new;
      for i := 0 to |symbols|
        invariant forall s :: s in markets <==> s in symbols[..i]
        invariant forall s :: s in markets ==> Opening(markets[s], SEED_LEVELS, SEED_QTY)
        invariant activeIdx == 0
        invariant Distinct()
      {
        var m := SeededMarket(SEED_LEVELS, SEED_QTY);
        markets := markets[symbols[i] := m];
      }
      assert symbols[..|symbols|] == symbols;
    }

    /** `activeSymbol()`: the index clamped to the symbol list, so always a symbol. */
    function ActiveSymbol(): (s: string)
      reads this
      ensures s in symbols
      ensures 0 <= activeIdx < |symbols| ==> s == symbols[activeIdx]
      ensures activeIdx < 0 ==> s == symbols[0]
      ensures activeIdx >= |symbols| ==> s == symbols[|symbols| - 1]
    {
      symbols[Clamp(activeIdx, 0, |symbols| - 1)]
    }

    /** `activeMarket()`: the market of the active symbol. */
    function ActiveMarket(): (m: Market)
      reads this, markets.Values, set m | m in markets.Values :: m.book
      requires Valid()
      ensures m in markets.Values && m.Valid()
    {
      markets[ActiveSymbol()]
    }
  }
}
