/**
 * The trailing-stop monitor of the paper-trading script: poll the position,
 * track a trailing stop once the price is above the entry price, and on a
 * stop hit cancel the ticker's open orders and sell the whole position.
 * The broker's answers are parameters; the broker requests made are
 * returned in order.
 */
module PaperTrial {
  /** `trailing_percent` in `monitor_position`. */
  const TrailingPercent: real := 0.0005

  /** The fields of an Alpaca position, as `float`s read as reals. */
  datatype Position = Position(qty: real, currentPrice: real, avgEntryPrice: real)

  /** What one `get_position(ticker)` call gave: the position, or an
      exception (no such position, a failed request), which ends the monitor. */
  datatype Poll = Held(position: Position) | Failed

  datatype Order = Order(symbol: string, qty: real, side: string, kind: string, timeInForce: string)

  /** The requests sent to the broker; a cancel records whether it succeeded. */
  datatype Request =
    | GetPosition(symbol: string)
    | ListOpenOrders(symbol: string)
    | CancelOrder(id: string, ok: bool)
    | SubmitOrder(order: Order)

  /** `highest_price` and `trailing_stop_active`. */
  datatype Trail = Trail(highest: real, active: bool)

  const Start: Trail := Trail(0.0, false)

  /** One poll: wait below or at the entry price, otherwise the new trail,
      the stop price and whether the stop is hit. */
  datatype StepResult = Waited | Moved(trail: Trail, stop: real, sell: bool)

  /** How a run ended: a sale at poll `at`, an exception at poll `at`, or
      still polling when the polls given run out. */
  datatype Outcome = Sold(at: nat, qty: real) | Raised(at: nat) | Polling

  datatype Run = Run(trail: Trail, outcome: Outcome)

  /** One pass of the `while True` body after the position is read. The
      highest price is set to the current price and then to the maximum of
      itself and the current price, so the earlier highest plays no part. */
  function PollStep(p: Position, tp: real): StepResult {
    if p.currentPrice > p.avgEntryPrice then
      var latest := p.currentPrice;
      var highest := if latest < p.currentPrice then p.currentPrice else latest;
      var stop := highest * (1.0 - tp);
      Moved(Trail(highest, true), stop, p.currentPrice <= stop)
    else Waited
  }

  /** The monitor from poll `i` on with trail `t`. */
  function RunFrom(polls: seq<Poll>, i: nat, t: Trail, tp: real): Run
    decreases |polls| - i
  {
    if i >= |polls| then Run(t, Polling)
    else if polls[i].Failed? then Run(t, Raised(i))
    else match PollStep(polls[i].position, tp)
      case Waited => RunFrom(polls, i + 1, t, tp)
      case Moved(next, _, sell) =>
        if sell then Run(next, Sold(i, polls[i].position.qty)) else RunFrom(polls, i + 1, next, tp)
  }

  /** How many polls a run with this outcome made, out of `n` given. */
  function Made(o: Outcome, n: nat): nat {
    match o
    case Sold(at, _) => at + 1
    case Raised(at) => at + 1
    case Polling => n
  }

  /** `n` position reads. */
  function Polls(ticker: string, n: nat): (r: seq<Request>)
    ensures |r| == n && forall k :: 0 <= k < n ==> r[k] == GetPosition(ticker)
  {
    if n == 0 then [] else Polls(ticker, n - 1) + [GetPosition(ticker)]
  }

  /** One cancel per listed order, in order, each with its own outcome. */
  function Cancels(orders: seq<string>, cancel: string -> bool): (r: seq<Request>)
    ensures |r| == |orders|
    ensures forall k :: 0 <= k < |orders| ==> r[k] == CancelOrder(orders[k], cancel(orders[k]))
  {
    if orders == [] then []
    else Cancels(orders[..|orders| - 1], cancel) + [CancelOrder(orders[|orders| - 1], cancel(orders[|orders| - 1]))]
  }

  /** The market sell of the whole position. */
  function SellOrder(ticker: string, qty: real): Order {
    Order(ticker, qty, "sell", "market", "gtc")
  }

  /** `close_all_orders(ticker)` with `openOrders` the ids `list_orders`
      answers and `cancel` whether `cancel_order` succeeds for an id: every
      listed order gets a cancel attempt, whatever the earlier ones gave. */
  method CloseAllOrders(ticker: string, openOrders: seq<string>, cancel: string -> bool)
    returns (requests: seq<Request>)
    ensures requests == [ListOpenOrders(ticker)] + Cancels(openOrders, cancel)
  {
    requests := [ListOpenOrders(ticker)];
    for k := 0 to |openOrders|
      invariant requests == [ListOpenOrders(ticker)] + Cancels(openOrders[..k], cancel)
    {
      assert openOrders[..k + 1][..k] == openOrders[..k];
      var ok := cancel(openOrders[k]);
      requests := requests + [CancelOrder(openOrders[k], ok)];
    }
    assert openOrders[..|openOrders|] == openOrders;
  }

  /** `monitor_position(ticker)` over the positions `polls` read in turn,
      with `openOrders` and `cancel` the broker's answers at exit. It
      returns the final trail, how the run ended and the requests made: one
      read per poll and, on a sale, the cancels before the sell. */
  method MonitorPosition(ticker: string, polls: seq<Poll>, openOrders: seq<string>, cancel: string -> bool)
    returns (highest: real, active: bool, outcome: Outcome, requests: seq<Request>)
    ensures var r := RunFrom(polls, 0, Start, TrailingPercent);
      && Trail(highest, active) == r.trail && outcome == r.outcome
      && requests == Polls(ticker, Made(outcome, |polls|))
           + (if outcome.Sold? then [ListOpenOrders(ticker)] + Cancels(openOrders, cancel)
                                    + [SubmitOrder(SellOrder(ticker, outcome.qty))]
              else [])
  {
    var trailingPercent := TrailingPercent;
    highest, active := 0.0, false;
    outcome := Polling;
    requests := [];
    var i := 0;
    while i < |polls|
      invariant i <= |polls|
      invariant RunFrom(polls, i, Trail(highest, active), trailingPercent) == RunFrom(polls, 0, Start, TrailingPercent)
      invariant requests == Polls(ticker, i)
    {
      requests := requests + [GetPosition(ticker)];
      if polls[i].Failed? {
        outcome := Raised(i);
        return;
      }
      var position := polls[i].position;
      var quantity := position.qty;
      var currentPrice := position.currentPrice;
      var buyPrice := position.avgEntryPrice;
      if currentPrice > buyPrice {
        active := true;
        highest := currentPrice;
        highest := if highest < currentPrice then currentPrice else highest;
        var stopPrice := highest * (1.0 - trailingPercent);
        if currentPrice <= stopPrice {
          var closing := CloseAllOrders(ticker, openOrders, cancel);
          requests := requests + closing + [SubmitOrder(SellOrder(ticker, quantity))];
          outcome := Sold(i, quantity);
          return;
        }
      }
      i := i + 1;
    }
  }

  /** At or below the entry price a poll changes nothing and orders nothing:
      the run goes on from the same trail. */
  lemma WaitKeepsTrail(polls: seq<Poll>, i: nat, t: Trail, tp: real)
    requires i < |polls| && polls[i].Held?
    requires polls[i].position.currentPrice <= polls[i].position.avgEntryPrice
    ensures PollStep(polls[i].position, tp) == Waited
    ensures RunFrom(polls, i, t, tp) == RunFrom(polls, i + 1, t, tp)
  {
  }

  /** Above the entry price a poll activates the trail and sets the highest
      price to the current one, whatever the trail held before, with the stop
      the fixed fraction below it; it sells exactly when the current price is
      at or below that stop, and the run then ends. */
  lemma ProfitOverwrites(polls: seq<Poll>, i: nat, t: Trail, tp: real)
    requires i < |polls| && polls[i].Held?
    requires polls[i].position.currentPrice > polls[i].position.avgEntryPrice
    ensures var p := polls[i].position;
      var s := PollStep(p, tp);
      && s == Moved(Trail(p.currentPrice, true), p.currentPrice * (1.0 - tp), p.currentPrice <= p.currentPrice * (1.0 - tp))
      && (s.sell ==> RunFrom(polls, i, t, tp) == Run(Trail(p.currentPrice, true), Sold(i, p.qty)))
      && (!s.sell ==> RunFrom(polls, i, t, tp) == RunFrom(polls, i + 1, Trail(p.currentPrice, true), tp))
  {
  }

  /** With a positive trailing percentage a poll sells exactly when the
      price is above the entry price and yet not positive. */
  lemma SellIff(p: Position, tp: real)
    requires 0.0 < tp
    ensures PollStep(p, tp).Moved? && PollStep(p, tp).sell <==> p.avgEntryPrice < p.currentPrice <= 0.0
  {
    var c := p.currentPrice;
    assert c * (1.0 - tp) == c - c * tp;
    if c > 0.0 {
      assert c * tp > 0.0;
    } else {
      assert c * tp <= 0.0;
    }
  }

  /** For positive prices and a percentage strictly between 0 and 1 the stop
      is always below the current price, so the monitor never sells. */
  lemma {:induction false} NeverSells(polls: seq<Poll>, i: nat, t: Trail, tp: real)
    requires 0.0 < tp < 1.0
    requires forall k :: 0 <= k < |polls| && polls[k].Held? ==> polls[k].position.currentPrice > 0.0
    ensures !RunFrom(polls, i, t, tp).outcome.Sold?
    decreases |polls| - i
  {
    if i < |polls| && polls[i].Held? {
      var s := PollStep(polls[i].position, tp);
      SellIff(polls[i].position, tp);
      NeverSells(polls, i + 1, if s.Waited? then t else s.trail, tp);
    }
  }

  /** The monitor as shipped, on any positive price feed, never sells. */
  lemma MonitorNeverSells(polls: seq<Poll>)
    requires forall k :: 0 <= k < |polls| && polls[k].Held? ==> polls[k].position.currentPrice > 0.0
    ensures !RunFrom(polls, 0, Start, TrailingPercent).outcome.Sold?
  {
    NeverSells(polls, 0, Start, TrailingPercent);
  }

  /** The trail a poll leaves before any sale is decided. */
  function Gain(poll: Poll, t: Trail): Trail {
    if poll.Held? && poll.position.currentPrice > poll.position.avgEntryPrice
    then Trail(poll.position.currentPrice, true) else t
  }

  /** Reference definition of the trail after the polls `ps`: the price of
      the last poll above its entry price, or `t` when there was none. */
  function LastGain(ps: seq<Poll>, t: Trail): Trail
    decreases |ps|
  {
    if ps == [] then t
    else
      var last := ps[|ps| - 1];
      if last.Held? && last.position.currentPrice > last.position.avgEntryPrice
      then Trail(last.position.currentPrice, true)
      else LastGain(ps[..|ps| - 1], t)
  }

  lemma {:induction false} LastGainFront(x: Poll, rest: seq<Poll>, t: Trail)
    ensures LastGain([x] + rest, t) == LastGain(rest, Gain(x, t))
    decreases |rest|
  {
    if rest != [] {
      var r' := rest[..|rest| - 1];
      assert ([x] + rest)[..|[x] + rest| - 1] == [x] + r';
      assert ([x] + rest)[|[x] + rest| - 1] == rest[|rest| - 1];
      LastGainFront(x, r', t);
    } else {
      assert ([x] + rest)[..0] == [];
    }
  }

  /** How many polls a run with this outcome had taken into its trail, out
      of `n` given: a failed read contributes nothing. */
  function Decided(o: Outcome, n: nat): nat {
    match o
    case Sold(at, _) => at + 1
    case Raised(at) => at
    case Polling => n
  }

  /** Whatever the outcome, the trail is that of the last profitable poll
      among those made: a record of the latest price, not of the highest. */
  lemma {:induction false} TrailIsLastGain(polls: seq<Poll>, i: nat, t: Trail, tp: real)
    requires i <= |polls|
    ensures var r := RunFrom(polls, i, t, tp);
      var n := Decided(r.outcome, |polls|);
      i <= n <= |polls| && r.trail == LastGain(polls[i..n], t)
    decreases |polls| - i
  {
    if i == |polls| {
      assert polls[i..|polls|] == [];
    } else if polls[i].Failed? {
      assert polls[i..i] == [];
    } else {
      var s := PollStep(polls[i].position, tp);
      var next := if s.Waited? then t else s.trail;
      assert next == Gain(polls[i], t);
      if s.Moved? && s.sell {
        assert polls[i..i + 1] == [polls[i]] + [];
        LastGainFront(polls[i], [], t);
      } else {
        TrailIsLastGain(polls, i + 1, next, tp);
        var r := RunFrom(polls, i + 1, next, tp);
        var n := Decided(r.outcome, |polls|);
        assert polls[i..n] == [polls[i]] + polls[i + 1..n];
        LastGainFront(polls[i], polls[i + 1..n], t);
      }
    }
  }

  /** Entry at 100 and prices 100, 101, 102, 101.94: the monitor is still
      polling with 101.94 as its highest price, although 101.94 is below the
      stop a running maximum of 102 would give. */
  lemma RisingThenDipping()
    ensures var polls := [Held(Position(1.0, 100.0, 100.0)), Held(Position(1.0, 101.0, 100.0)),
                          Held(Position(1.0, 102.0, 100.0)), Held(Position(1.0, 101.94, 100.0))];
      RunFrom(polls, 0, Start, TrailingPercent) == Run(Trail(101.94, true), Polling)
    ensures 101.94 <= 102.0 * (1.0 - TrailingPercent)
  {
    var polls := [Held(Position(1.0, 100.0, 100.0)), Held(Position(1.0, 101.0, 100.0)),
                  Held(Position(1.0, 102.0, 100.0)), Held(Position(1.0, 101.94, 100.0))];
    assert RunFrom(polls, 3, Trail(102.0, true), TrailingPercent) == Run(Trail(101.94, true), Polling);
    assert RunFrom(polls, 1, Start, TrailingPercent) == RunFrom(polls, 3, Trail(102.0, true), TrailingPercent);
  }
}
