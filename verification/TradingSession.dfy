/** The in-memory trading session: a conditional enable that a concurrent change always defeats. */
module TradingSession {
  import opened Prelude

  datatype Session = Session(
    enabled: bool,
    ordersSentThisSession: nat,
    knownOpenSymbols: set<string>,
    lastOrderTimeBySymbol: map<string, int>,
    generation: nat)

  /** One locked call. `expected` is the generation an enabler read before its network round-trips. */
  datatype Op =
    | Enable(openSymbols: set<string>, expected: Option<nat>)
    | Disable
    | RecordOrderSent(symbol: string, when: int)
    | ReconcilePosition(symbol: string, hasPosition: bool)

  const FRESH_SESSION := Session(false, 0, {}, map[], 0)

  predicate Refused(s: Session, op: Op) {
    op.Enable? && op.expected.Some? && op.expected.value != s.generation
  }

  function Next(s: Session, op: Op): Session {
    match op
    case Enable(openSymbols, expected) =>
      if Refused(s, op) then s
      else s.(enabled := true, knownOpenSymbols := openSymbols, generation := s.generation + 1)
    case Disable => s.(enabled := false, generation := s.generation + 1)
    case RecordOrderSent(symbol, when) =>
      Session(s.enabled, s.ordersSentThisSession + 1, s.knownOpenSymbols + {symbol},
              s.lastOrderTimeBySymbol[symbol := when], s.generation + 1)
    case ReconcilePosition(symbol, hasPosition) =>
      s.(knownOpenSymbols := if hasPosition then s.knownOpenSymbols + {symbol} else s.knownOpenSymbols - {symbol},
         generation := s.generation + 1)
  }

  /** The session after any interleaving of calls, each atomic under the lock. */
  function After(s: Session, ops: seq<Op>): Session {
    if ops == [] then s else Next(After(s, ops[..|ops| - 1]), ops[|ops| - 1])
  }

  // ---------------------------------------------------------------- what the history says

  /** Call `i` took effect: every call does, but for an enable that was refused. */
  predicate TookEffect(s: Session, ops: seq<Op>, i: int) {
    0 <= i < |ops| && !Refused(After(s, ops[..i]), ops[i])
  }

  /** Call `i` says something about whether `symbol` is open. */
  predicate Concerns(s: Session, ops: seq<Op>, symbol: string, i: int) {
    TookEffect(s, ops, i) &&
    match ops[i]
    case Enable(_, _) => true
    case Disable => false
    case RecordOrderSent(x, _) => x == symbol
    case ReconcilePosition(x, _) => x == symbol
  }

  /** Call `i` is the last one that concerns `symbol`. */
  ghost predicate LastConcerning(s: Session, ops: seq<Op>, symbol: string, i: int) {
    Concerns(s, ops, symbol, i) && forall j :: i < j < |ops| ==> !Concerns(s, ops, symbol, j)
  }

  predicate Switches(s: Session, ops: seq<Op>, i: int) {
    TookEffect(s, ops, i) && (ops[i].Enable? || ops[i].Disable?)
  }

  ghost predicate LastSwitch(s: Session, ops: seq<Op>, i: int) {
    Switches(s, ops, i) && forall j :: i < j < |ops| ==> !Switches(s, ops, j)
  }

  predicate Orders(ops: seq<Op>, symbol: string, i: int) {
    0 <= i < |ops| && ops[i].RecordOrderSent? && ops[i].symbol == symbol
  }

  ghost predicate LastOrder(ops: seq<Op>, symbol: string, i: int) {
    Orders(ops, symbol, i) && forall j :: i < j < |ops| ==> !Orders(ops, symbol, j)
  }

  predicate SaysOpen(op: Op, symbol: string) {
    match op
    case Enable(openSymbols, _) => symbol in openSymbols
    case Disable => false
    case RecordOrderSent(x, _) => x == symbol
    case ReconcilePosition(x, hasPosition) => x == symbol && hasPosition
  }

  function OrdersSent(ops: seq<Op>): nat {
    if ops == [] then 0 else OrdersSent(ops[..|ops| - 1]) + if ops[|ops| - 1].RecordOrderSent? then 1 else 0
  }

  lemma PrefixEffects(s: Session, ops: seq<Op>)
    requires ops != []
    ensures forall i :: i < |ops| - 1 ==> (TookEffect(s, ops, i) <==> TookEffect(s, ops[..|ops| - 1], i))
  {
    var before := ops[..|ops| - 1];
    forall i | 0 <= i < |before| ensures TookEffect(s, ops, i) <==> TookEffect(s, before, i) {
      assert before[..i] == ops[..i];
    }
  }

  // ---------------------------------------------------------------- a stale enable never wins

  /** The generation moves exactly when a call takes effect, and never back. */
  lemma {:induction false} GenerationCountsEffects(s: Session, ops: seq<Op>)
    ensures After(s, ops).generation >= s.generation
    ensures After(s, ops).generation == s.generation <==> forall i :: 0 <= i < |ops| ==> !TookEffect(s, ops, i)
    ensures After(s, ops).generation == s.generation ==> After(s, ops) == s
  {
    if ops != [] {
      var before := ops[..|ops| - 1];
      GenerationCountsEffects(s, before);
      PrefixEffects(s, ops);
      if forall i :: 0 <= i < |ops| ==> !TookEffect(s, ops, i) {
        forall i | 0 <= i < |before| ensures !TookEffect(s, before, i) {
          assert !TookEffect(s, ops, i);
        }
        assert !TookEffect(s, ops, |before|);
      } else {
        var i :| 0 <= i < |ops| && TookEffect(s, ops, i);
        assert i < |before| ==> TookEffect(s, before, i);
      }
    }
  }

  /**
   * An enabler reads the generation in state `s`; other calls land while it is on the network. Its enable
   * is refused, and changes nothing, exactly when any of them took effect; otherwise it finds the state it read.
   */
  lemma StaleEnableNeverWins(s: Session, between: seq<Op>, openSymbols: set<string>)
    ensures var now, enable := After(s, between), Enable(openSymbols, Some(s.generation));
      && (Refused(now, enable) <==> exists i :: TookEffect(s, between, i))
      && (Refused(now, enable) ==> Next(now, enable) == now)
      && (!Refused(now, enable) ==>
            now == s && Next(now, enable).enabled && Next(now, enable).knownOpenSymbols == openSymbols)
  {
    GenerationCountsEffects(s, between);
    if Refused(After(s, between), Enable(openSymbols, Some(s.generation))) {
      var i :| 0 <= i < |between| && TookEffect(s, between, i);
    }
  }

  lemma {:induction false} StaysDisabled(s: Session, stopped: seq<Op>, later: seq<Op>)
    requires stopped != [] && stopped[|stopped| - 1].Disable?
    requires forall i :: 0 <= i < |later| ==> !later[i].Enable?
    ensures !After(s, stopped + later).enabled
  {
    if later == [] {
      assert stopped + later == stopped;
    } else {
      StaysDisabled(s, stopped, later[..|later| - 1]);
      assert (stopped + later)[..|stopped + later| - 1] == stopped + later[..|later| - 1];
    }
  }

  /** In particular an emergency stop's `disable` during the round-trips is never undone by the enable they led to. */
  lemma DisableIsNotUndone(s: Session, earlier: seq<Op>, later: seq<Op>, openSymbols: set<string>)
    requires forall i :: 0 <= i < |later| ==> !later[i].Enable?
    ensures !After(s, earlier + [Disable] + later + [Enable(openSymbols, Some(s.generation))]).enabled
  {
    var between := earlier + [Disable] + later;
    var enable := Enable(openSymbols, Some(s.generation));
    assert between[|earlier|] == Disable;
    assert TookEffect(s, between, |earlier|);
    StaleEnableNeverWins(s, between, openSymbols);
    assert (between + [enable])[..|between|] == between;
    StaysDisabled(s, earlier + [Disable], later);
  }

  // ---------------------------------------------------------------- what the fields mean

  lemma {:induction false} OrderCountIsExact(s: Session, ops: seq<Op>)
    ensures After(s, ops).ordersSentThisSession == s.ordersSentThisSession + OrdersSent(ops)
  {
    if ops != [] { OrderCountIsExact(s, ops[..|ops| - 1]); }
  }

  lemma LastConcerningOfLonger(s: Session, ops: seq<Op>, symbol: string)
    requires ops != []
    ensures var n := |ops| - 1;
      && (Concerns(s, ops, symbol, n) ==> LastConcerning(s, ops, symbol, n))
      && (forall i :: Concerns(s, ops, symbol, n) && LastConcerning(s, ops, symbol, i) ==> i == n)
      && (forall i :: !Concerns(s, ops, symbol, n) ==>
            (LastConcerning(s, ops, symbol, i) <==> LastConcerning(s, ops[..n], symbol, i)))
  {
    var n, before := |ops| - 1, ops[..|ops| - 1];
    PrefixEffects(s, ops);
    assert forall i :: i < n ==> (Concerns(s, ops, symbol, i) <==> Concerns(s, before, symbol, i));
    hide TookEffect, Concerns;
  }

  lemma ConcernsAPlace(ops: seq<Op>, symbol: string, i: int)
    requires LastConcerning(FRESH_SESSION, ops, symbol, i)
    ensures 0 <= i < |ops|
  {
  }

  lemma MembershipStep(s: Session, ops: seq<Op>, symbol: string)
    requires ops != []
    ensures var n := |ops| - 1;
      symbol in After(s, ops).knownOpenSymbols
      <==> if Concerns(s, ops, symbol, n) then SaysOpen(ops[n], symbol)
           else symbol in After(s, ops[..n]).knownOpenSymbols
  {
  }

  /** A symbol is known open exactly when the last call that concerns it says so. */
  lemma {:induction false} MembershipIsLastEvent(ops: seq<Op>, symbol: string)
    ensures symbol in After(FRESH_SESSION, ops).knownOpenSymbols
       <==> exists i :: LastConcerning(FRESH_SESSION, ops, symbol, i) && SaysOpen(ops[i], symbol)
  {
    if ops != [] {
      var n, before := |ops| - 1, ops[..|ops| - 1];
      hide After, Concerns, SaysOpen;
      MembershipIsLastEvent(before, symbol);
      LastConcerningOfLonger(FRESH_SESSION, ops, symbol);
      MembershipStep(FRESH_SESSION, ops, symbol);
      forall i | LastConcerning(FRESH_SESSION, before, symbol, i) ensures 0 <= i < n && ops[i] == before[i] {
        ConcernsAPlace(before, symbol, i);
      }
      hide LastConcerning;
    }
  }

  lemma LastSwitchOfLonger(s: Session, ops: seq<Op>)
    requires ops != []
    ensures var n := |ops| - 1;
      && (Switches(s, ops, n) ==> LastSwitch(s, ops, n))
      && (forall i :: Switches(s, ops, n) && LastSwitch(s, ops, i) ==> i == n)
      && (forall i :: !Switches(s, ops, n) ==> (LastSwitch(s, ops, i) <==> LastSwitch(s, ops[..n], i)))
  {
    var n, before := |ops| - 1, ops[..|ops| - 1];
    PrefixEffects(s, ops);
    assert forall i :: i < n ==> (Switches(s, ops, i) <==> Switches(s, before, i));
    hide TookEffect, Switches;
  }

  /** Trading is on exactly when the last effective enable or disable was an enable. */
  lemma {:induction false} EnabledIsLastSwitch(ops: seq<Op>)
    ensures After(FRESH_SESSION, ops).enabled <==> exists i :: LastSwitch(FRESH_SESSION, ops, i) && ops[i].Enable?
  {
    if ops != [] {
      var n, before := |ops| - 1, ops[..|ops| - 1];
      EnabledIsLastSwitch(before);
      LastSwitchOfLonger(FRESH_SESSION, ops);
      assert After(FRESH_SESSION, ops).enabled
        <==> if Switches(FRESH_SESSION, ops, n) then ops[n].Enable? else After(FRESH_SESSION, before).enabled;
      hide After, Switches;
      if i :| LastSwitch(FRESH_SESSION, before, i) && before[i].Enable? {
        assert ops[i] == before[i];
      }
      hide LastSwitch;
    }
  }

  lemma LastOrderOfLonger(ops: seq<Op>, symbol: string)
    requires ops != []
    ensures var n := |ops| - 1;
      && (Orders(ops, symbol, n) ==> LastOrder(ops, symbol, n))
      && (forall i :: Orders(ops, symbol, n) && LastOrder(ops, symbol, i) ==> i == n)
      && (forall i :: !Orders(ops, symbol, n) ==> (LastOrder(ops, symbol, i) <==> LastOrder(ops[..n], symbol, i)))
  {
    var n, before := |ops| - 1, ops[..|ops| - 1];
    assert forall i :: i < n ==> (Orders(ops, symbol, i) <==> Orders(before, symbol, i));
    hide Orders;
  }

  lemma LastOrderIsAnOrder(ops: seq<Op>, symbol: string, i: int)
    requires LastOrder(ops, symbol, i)
    ensures 0 <= i < |ops| && ops[i].RecordOrderSent? && ops[i].symbol == symbol
  {
  }

  /** The last-order time of a symbol is its last order's, whatever was enabled, disabled or reconciled since. */
  lemma {:induction false} LastOrderTimeIsLastOrder(ops: seq<Op>, symbol: string)
    ensures symbol in After(FRESH_SESSION, ops).lastOrderTimeBySymbol <==> exists i :: LastOrder(ops, symbol, i)
    ensures forall i :: LastOrder(ops, symbol, i) ==> 0 <= i < |ops| && ops[i].RecordOrderSent?
    ensures forall i :: LastOrder(ops, symbol, i) ==>
              && symbol in After(FRESH_SESSION, ops).lastOrderTimeBySymbol
              && After(FRESH_SESSION, ops).lastOrderTimeBySymbol[symbol] == ops[i].when
  {
    forall i | LastOrder(ops, symbol, i) ensures 0 <= i < |ops| && ops[i].RecordOrderSent? {
      LastOrderIsAnOrder(ops, symbol, i);
    }
    if ops != [] {
      var n, before := |ops| - 1, ops[..|ops| - 1];
      LastOrderTimeIsLastOrder(before, symbol);
      LastOrderOfLonger(ops, symbol);
      var times, timesBefore := After(FRESH_SESSION, ops).lastOrderTimeBySymbol,
                                After(FRESH_SESSION, before).lastOrderTimeBySymbol;
      assert Orders(ops, symbol, n) ==> symbol in times && times[symbol] == ops[n].when;
      assert !Orders(ops, symbol, n) ==> (symbol in times <==> symbol in timesBefore);
      assert !Orders(ops, symbol, n) && symbol in times ==> times[symbol] == timesBefore[symbol];
      hide After, Orders, LastOrder;
    }
  }

  // ---------------------------------------------------------------- the object

  lemma OneMoreCall(ops: seq<Op>, op: Op)
    ensures After(FRESH_SESSION, ops + [op]) == Next(After(FRESH_SESSION, ops), op)
  {
    assert (ops + [op])[..|ops|] == ops;
  }

  class TradingSessionState {
    var enabled: bool
    var ordersSentThisSession: nat
    var knownOpenSymbols: set<string>
    var lastOrderTimeBySymbol: map<string, int>
    var generation: nat
    /** Every call so far, in the order the lock admitted them. */
    ghost var history: seq<Op>

    ghost function View(): Session
      reads this
    {
      Session(enabled, ordersSentThisSession, knownOpenSymbols, lastOrderTimeBySymbol, generation)
    }

    ghost predicate Valid()
      reads this
    {
      View() == After(FRESH_SESSION, history)
    }

    constructor ()
      ensures Valid() && history == [] && View() == FRESH_SESSION
    {
      enabled, ordersSentThisSession, knownOpenSymbols, lastOrderTimeBySymbol, generation := false, 0, {}, map[], 0;
      history := [];
    }

    method Enable(openSymbols: set<string>, expected: Option<nat>) returns (applied: bool)
      requires Valid()
      modifies this
      ensures Valid() && history == old(history) + [Op.Enable(openSymbols, expected)]
      ensures View() == Next(old(View()), Op.Enable(openSymbols, expected))
      ensures applied <==> !Refused(old(View()), Op.Enable(openSymbols, expected))
    {
      OneMoreCall(history, Op.Enable(openSymbols, expected));
      hide After;
      history := history + [Op.Enable(openSymbols, expected)];
      if expected.Some? && expected.value != generation {
        return false;
      }
      enabled := true;
      knownOpenSymbols := openSymbols;
      generation := generation + 1;
      return true;
    }

    method Disable()
      requires Valid()
      modifies this
      ensures Valid() && history == old(history) + [Op.Disable]
      ensures View() == Next(old(View()), Op.Disable)
    {
      OneMoreCall(history, Op.Disable);
      hide After;
      history := history + [Op.Disable];
      enabled := false;
      generation := generation + 1;
    }

    method RecordOrderSent(symbol: string, when: int)
      requires Valid()
      modifies this
      ensures Valid() && history == old(history) + [Op.RecordOrderSent(symbol, when)]
      ensures View() == Next(old(View()), Op.RecordOrderSent(symbol, when))
    {
      OneMoreCall(history, Op.RecordOrderSent(symbol, when));
      hide After;
      history := history + [Op.RecordOrderSent(symbol, when)];
      ordersSentThisSession := ordersSentThisSession + 1;
      lastOrderTimeBySymbol := lastOrderTimeBySymbol[symbol := when];
      knownOpenSymbols := knownOpenSymbols + {symbol};
      generation := generation + 1;
    }

    /** Says whether this app's belief about the symbol was wrong, which is when it changes. */
    method ReconcilePosition(symbol: string, hasPosition: bool) returns (disagreed: bool)
      requires Valid()
      modifies this
      ensures Valid() && history == old(history) + [Op.ReconcilePosition(symbol, hasPosition)]
      ensures View() == Next(old(View()), Op.ReconcilePosition(symbol, hasPosition))
      ensures disagreed <==> knownOpenSymbols != old(knownOpenSymbols)
    {
      OneMoreCall(history, Op.ReconcilePosition(symbol, hasPosition));
      hide After;
      history := history + [Op.ReconcilePosition(symbol, hasPosition)];
      var wasKnownOpen := symbol in knownOpenSymbols;
      if hasPosition {
        knownOpenSymbols := knownOpenSymbols + {symbol};
      } else {
        knownOpenSymbols := knownOpenSymbols - {symbol};
      }
      generation := generation + 1;
      assert old(knownOpenSymbols) != knownOpenSymbols <==> wasKnownOpen != (symbol in knownOpenSymbols);
      return wasKnownOpen != hasPosition;
    }

    /** The time since the symbol's last order of the whole history, or None when it has none. */
    method TimeSinceLastOrder(symbol: string, now: int) returns (elapsed: Option<int>)
      requires Valid()
      ensures elapsed.None? <==> forall i :: !LastOrder(history, symbol, i)
      ensures forall i :: LastOrder(history, symbol, i) ==>
                0 <= i < |history| && history[i].RecordOrderSent? && elapsed == Some(now - history[i].when)
    {
      LastOrderTimeIsLastOrder(history, symbol);
      if symbol in lastOrderTimeBySymbol {
        return Some(now - lastOrderTimeBySymbol[symbol]);
      }
      return None;
    }
  }
}
