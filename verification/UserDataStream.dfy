/** The futures user data stream: a generation fence around its coroutines, and a per-symbol fold of unrealized PnL. */
module UserDataStream {
  import opened Prelude

  const QUOTE_ASSET := "USDT"

  /** One entry of an ACCOUNT_UPDATE's position array; a missing unrealized PnL reads as zero. */
  datatype PositionEntry = PositionEntry(symbol: string, unrealizedPnl: Option<real>)
  datatype BalanceEntry = BalanceEntry(asset: string, walletBalance: real)

  datatype Message =
    | AccountUpdate(positions: seq<PositionEntry>, balances: seq<BalanceEntry>, capturedAt: int)
    | OrderTradeUpdate
    | LibraryError

  datatype EquitySample = EquitySample(capturedAt: int, walletBalance: real, unrealizedPnl: real)

  // ---------------------------------------------------------------- parsing one message

  function ReportedPnl(entry: PositionEntry): real {
    if entry.unrealizedPnl.Some? then entry.unrealizedPnl.value else 0.0
  }

  /** `account_update_position_pnls`: a dict comprehension, so the last entry of a symbol wins. */
  function PositionPnls(positions: seq<PositionEntry>): map<string, real> {
    if positions == [] then map[]
    else
      var last := positions[|positions| - 1];
      PositionPnls(positions[..|positions| - 1])[last.symbol := ReportedPnl(last)]
  }

  /** `account_update_wallet_balance`: the first quote-asset entry, if any. */
  function WalletBalance(balances: seq<BalanceEntry>): Option<real> {
    if balances == [] then None
    else if balances[0].asset == QUOTE_ASSET then Some(balances[0].walletBalance)
    else WalletBalance(balances[1..])
  }

  /** Entry `i` is the first in the quote asset. */
  ghost predicate FirstQuote(balances: seq<BalanceEntry>, i: int) {
    && 0 <= i < |balances| && balances[i].asset == "USDT"
    && forall j :: 0 <= j < i ==> balances[j].asset != "USDT"
  }

  /** The wallet balance is the first quote-asset entry's, and None exactly when there is no such entry. */
  lemma {:induction false} WalletBalanceIsFirstQuote(balances: seq<BalanceEntry>)
    ensures WalletBalance(balances).None? <==> forall b :: b in balances ==> b.asset != "USDT"
    ensures forall i :: FirstQuote(balances, i) ==> WalletBalance(balances) == Some(balances[i].walletBalance)
  {
    if balances != [] {
      var rest := balances[1..];
      WalletBalanceIsFirstQuote(rest);
      assert balances == [balances[0]] + rest;
      forall i | FirstQuote(balances, i) ensures WalletBalance(balances) == Some(balances[i].walletBalance) {
        if i > 0 {
          assert FirstQuote(rest, i - 1) by {
            assert forall j :: 0 <= j < i - 1 ==> rest[j] == balances[j + 1];
          }
        }
      }
    }
  }

  ghost function Lookup(pnls: map<string, real>, symbol: string): Option<real> {
    if symbol in pnls then Some(pnls[symbol]) else None
  }

  /** The value of a symbol's last entry; a missing one counts as zero. */
  function LastEntry(positions: seq<PositionEntry>, symbol: string): Option<real> {
    if positions == [] then None
    else
      var last := positions[|positions| - 1];
      if last.symbol != symbol then LastEntry(positions[..|positions| - 1], symbol)
      else if last.unrealizedPnl.None? then Some(0.0)
      else last.unrealizedPnl
  }

  /** Entry `i` is the symbol's last. */
  ghost predicate LastOf(positions: seq<PositionEntry>, symbol: string, i: int) {
    && 0 <= i < |positions| && positions[i].symbol == symbol
    && forall j :: i < j < |positions| ==> positions[j].symbol != symbol
  }

  /**
   * The dict holds exactly the symbols of the entries, each with what its last entry says, or zero if it says
   * nothing.
   */
  ghost predicate HoldsLastEntries(positions: seq<PositionEntry>, pnls: map<string, real>) {
    && (forall s :: s in pnls ==> exists i :: LastOf(positions, s, i))
    && (forall s, i :: LastOf(positions, s, i) ==>
          && s in pnls
          && (positions[i].unrealizedPnl.Some? ==> pnls[s] == positions[i].unrealizedPnl.value)
          && (positions[i].unrealizedPnl.None? ==> pnls[s] == 0.0))
  }

  lemma LastOfLonger(positions: seq<PositionEntry>, last: PositionEntry, s: string, i: int)
    ensures LastOf(positions + [last], s, i)
       <==> if last.symbol == s then i == |positions| else LastOf(positions, s, i)
  {
    var longer := positions + [last];
    assert longer[|positions|] == last && forall j :: 0 <= j < |positions| ==> longer[j] == positions[j];
  }

  lemma {:induction false} ParsedHoldsLastEntries(positions: seq<PositionEntry>)
    ensures HoldsLastEntries(positions, PositionPnls(positions))
  {
    if positions != [] {
      var before, last := positions[..|positions| - 1], positions[|positions| - 1];
      assert positions == before + [last];
      ParsedHoldsLastEntries(before);
      forall s, i
        ensures LastOf(positions, s, i) <==> if last.symbol == s then i == |before| else LastOf(before, s, i)
      {
        LastOfLonger(before, last, s, i);
      }
      forall s | s in PositionPnls(positions) ensures exists i :: LastOf(positions, s, i) {
        if s == last.symbol {
          assert LastOf(positions, s, |before|);
        } else {
          var i :| LastOf(before, s, i);
          assert LastOf(positions, s, i);
        }
      }
    }
  }

  /** One message's dict: per symbol what the last entry of that symbol says. */
  lemma {:induction false} ParsedIsLastEntry(positions: seq<PositionEntry>, symbol: string)
    ensures Lookup(PositionPnls(positions), symbol) == LastEntry(positions, symbol)
  {
    if positions != [] { ParsedIsLastEntry(positions[..|positions| - 1], symbol); }
  }

  // ---------------------------------------------------------------- the sum of a dict's values

  ghost function SumValues(pnls: map<string, real>): real {
    if pnls == map[] then 0.0
    else
      var s :| s in pnls;
      pnls[s] + SumValues(pnls - {s})
  }

  lemma {:induction false} SumWithout(pnls: map<string, real>, s: string)
    requires s in pnls
    ensures SumValues(pnls) == pnls[s] + SumValues(pnls - {s})
    decreases |pnls|
  {
    var t :| t in pnls && SumValues(pnls) == pnls[t] + SumValues(pnls - {t});
    if t != s {
      assert |pnls - {t}| < |pnls| && |pnls - {s}| < |pnls| by {
        assert (pnls - {t}).Keys == pnls.Keys - {t} && (pnls - {s}).Keys == pnls.Keys - {s};
      }
      SumWithout(pnls - {t}, s);
      SumWithout(pnls - {s}, t);
      assert pnls - {t} - {s} == pnls - {s} - {t};
    }
  }

  function SumAlong(pnls: map<string, real>, symbols: seq<string>): real
    requires forall s :: s in symbols ==> s in pnls
  {
    if symbols == [] then 0.0
    else SumAlong(pnls, symbols[..|symbols| - 1]) + pnls[symbols[|symbols| - 1]]
  }

  ghost predicate NoRepeats(symbols: seq<string>) {
    forall i, j :: 0 <= i < j < |symbols| ==> symbols[i] != symbols[j]
  }

  lemma {:induction false} SumAlongAgrees(a: map<string, real>, b: map<string, real>, symbols: seq<string>)
    requires forall s :: s in symbols ==> s in a && s in b && a[s] == b[s]
    ensures SumAlong(a, symbols) == SumAlong(b, symbols)
  {
    if symbols != [] { SumAlongAgrees(a, b, symbols[..|symbols| - 1]); }
  }

  /** The sum is over symbols: any listing of the dict, in any order, adds up to it. */
  lemma {:induction false} SumInAnyOrder(pnls: map<string, real>, symbols: seq<string>)
    requires NoRepeats(symbols) && forall s :: s in symbols <==> s in pnls
    ensures SumAlong(pnls, symbols) == SumValues(pnls)
    decreases |symbols|
  {
    if symbols == [] {
      assert pnls == map[];
    } else {
      var last, before := symbols[|symbols| - 1], symbols[..|symbols| - 1];
      assert last in symbols && forall s :: s in symbols <==> s in before || s == last;
      SumWithout(pnls, last);
      SumInAnyOrder(pnls - {last}, before);
      SumAlongAgrees(pnls, pnls - {last}, before);
    }
  }

  // ---------------------------------------------------------------- the stream and its coroutines

  /** Where a `_run_stream` coroutine is suspended: connecting, in `stream.recv()`, or finished. */
  datatype Phase = Connecting | Receiving | Finished

  /** A spawned coroutine: the generation it captured, and its token. */
  datatype Coroutine = Coroutine(generation: nat, tokenCancelled: bool, phase: Phase)

  datatype Stream = Stream(
    generation: nat,
    taskHandle: Option<nat>,
    unrealizedPnlBySymbol: map<string, real>,
    coroutines: seq<Coroutine>,
    samples: seq<EquitySample>)

  /** One atomic step: what happens between two suspension points. */
  datatype Step =
    | Start
    | Stop
    | Connect(i: nat)                       // the socket opened; the loop guards are read
    | Receive(i: nat, message: Option<Message>) // `stream.recv()` returned; None is an empty payload
    | Disconnect(i: nat)                    // the connection died; on to the reconnect delay
    | Abort(i: nat)                         // no credentials, or its cancellation was delivered

  const IDLE_STREAM := Stream(0, None, map[], [], [])

  /** The guard of both loops of `_run_stream`. */
  predicate MayContinue(st: Stream, i: nat)
    requires i < |st.coroutines|
  {
    !st.coroutines[i].tokenCancelled && st.coroutines[i].generation == st.generation
  }

  function WithPhase(st: Stream, i: nat, phase: Phase): Stream
    requires i < |st.coroutines|
  {
    st.(coroutines := st.coroutines[i := st.coroutines[i].(phase := phase)])
  }

  /** The PnL and equity part of handling one message. */
  ghost function Handle(st: Stream, message: Message): Stream {
    if !message.AccountUpdate? then st
    else
      var pnls := st.unrealizedPnlBySymbol + PositionPnls(message.positions);
      var balance := WalletBalance(message.balances);
      st.(unrealizedPnlBySymbol := pnls,
          samples := st.samples
                     + if balance.Some? then [EquitySample(message.capturedAt, balance.value, SumValues(pnls))] else [])
  }

  /** The check made in the same step that handles the message. */
  predicate Handles(st: Stream, i: nat, message: Option<Message>) {
    && i < |st.coroutines| && st.coroutines[i].phase == Receiving
    && message.Some? && st.coroutines[i].generation == st.generation
  }

  /** Back at the inner loop's guard. */
  function Guarded(st: Stream, i: nat): Stream
    requires i < |st.coroutines|
  {
    WithPhase(st, i, if MayContinue(st, i) then Receiving else Finished)
  }

  ghost function Next(st: Stream, step: Step): Stream {
    match step
    case Start =>
      if st.taskHandle.Some? then st
      else Stream(st.generation + 1, Some(|st.coroutines|), map[],
                  st.coroutines + [Coroutine(st.generation + 1, false, Connecting)], st.samples)
    case Stop =>
      if st.taskHandle.None? || st.taskHandle.value >= |st.coroutines| then st
      else
        var i := st.taskHandle.value;
        st.(generation := st.generation + 1, taskHandle := None,
            coroutines := st.coroutines[i := st.coroutines[i].(tokenCancelled := true)])
    case Connect(i) =>
      if i < |st.coroutines| && st.coroutines[i].phase == Connecting then Guarded(st, i) else st
    case Receive(i, message) =>
      if !(i < |st.coroutines| && st.coroutines[i].phase == Receiving) then st
      else Guarded(if Handles(st, i, message) then Handle(st, message.value) else st, i)
    case Disconnect(i) =>
      if i < |st.coroutines| && st.coroutines[i].phase == Receiving then WithPhase(st, i, Connecting) else st
    case Abort(i) =>
      if i < |st.coroutines| then WithPhase(st, i, Finished) else st
  }

  ghost function After(steps: seq<Step>): Stream {
    if steps == [] then IDLE_STREAM else Next(After(steps[..|steps| - 1]), steps[|steps| - 1])
  }

  // ---------------------------------------------------------------- the history, told without generations

  /** A session is on: the last effective Start came after the last Stop. */
  predicate Running(steps: seq<Step>) {
    steps != [] &&
    var last := steps[|steps| - 1];
    last.Start? || (!last.Stop? && Running(steps[..|steps| - 1]))
  }

  /** How many sessions were ever started; session `n` runs on coroutine `n - 1`. */
  function Sessions(steps: seq<Step>): nat {
    if steps == [] then 0
    else
      var before := steps[..|steps| - 1];
      Sessions(before) + if steps[|steps| - 1].Start? && !Running(before) then 1 else 0
  }

  /** Coroutine `i` belongs to the latest start, and no stop came since. */
  predicate Current(steps: seq<Step>, i: nat) {
    Running(steps) && Sessions(steps) == i + 1
  }

  /** The fence: exactly one coroutine carries the current generation and a live token, and only while running. */
  ghost predicate Fenced(steps: seq<Step>, st: Stream) {
    && |st.coroutines| == Sessions(steps)
    && (st.taskHandle.Some? <==> Running(steps))
    && (st.taskHandle.Some? ==> st.taskHandle.value == |st.coroutines| - 1)
    && (forall i :: 0 <= i < |st.coroutines| ==>
          && st.coroutines[i].generation <= st.generation
          && (st.coroutines[i].generation == st.generation <==> Current(steps, i))
          && (!st.coroutines[i].tokenCancelled <==> Current(steps, i)))
  }

  lemma HistoryOfLonger(before: seq<Step>, step: Step)
    ensures Running(before + [step]) <==> step.Start? || (!step.Stop? && Running(before))
    ensures Sessions(before + [step]) == Sessions(before) + if step.Start? && !Running(before) then 1 else 0
    ensures After(before + [step]) == Next(After(before), step)
  {
    assert (before + [step])[..|before|] == before;
  }

  /** Handling a message and moving between suspension points leave the fence alone. */
  lemma PhaseIsNotTheFence(st: Stream, step: Step)
    requires !step.Start? && !step.Stop?
    ensures var next := Next(st, step);
      && next.generation == st.generation && next.taskHandle == st.taskHandle && |next.coroutines| == |st.coroutines|
      && forall i :: 0 <= i < |st.coroutines| ==>
           && next.coroutines[i].generation == st.coroutines[i].generation
           && next.coroutines[i].tokenCancelled == st.coroutines[i].tokenCancelled
  {
  }

  lemma StepIsFenced(before: seq<Step>, st: Stream, step: Step)
    requires Fenced(before, st)
    ensures Fenced(before + [step], Next(st, step))
  {
    HistoryOfLonger(before, step);
    if !step.Start? && !step.Stop? {
      PhaseIsNotTheFence(st, step);
    }
    hide Running, Sessions;
  }

  lemma {:induction false} RunIsFenced(steps: seq<Step>)
    ensures Fenced(steps, After(steps))
  {
    if steps != [] {
      RunIsFenced(steps[..|steps| - 1]);
      StepIsFenced(steps[..|steps| - 1], After(steps[..|steps| - 1]), steps[|steps| - 1]);
      assert steps == steps[..|steps| - 1] + [steps[|steps| - 1]];
    }
  }

  /**
   * In every interleaving, a received message is handled exactly when its coroutine belongs to the latest
   * start and no stop came since: never by a superseded coroutine, never after a stop.
   */
  lemma OnlyTheLatestSessionHandles(steps: seq<Step>, i: nat, message: Option<Message>)
    ensures Handles(After(steps), i, message)
       <==> message.Some? && i < |After(steps).coroutines| && After(steps).coroutines[i].phase == Receiving
             && Current(steps, i)
  {
    RunIsFenced(steps);
  }

  /** A superseded coroutine that is resumed changes nothing but its own phase, and finishes at the next guard. */
  lemma SupersededCoroutinesFinish(steps: seq<Step>, i: nat, message: Option<Message>)
    requires i < |After(steps).coroutines| && !Current(steps, i)
    requires After(steps).coroutines[i].phase == Receiving
    ensures Next(After(steps), Receive(i, message)) == WithPhase(After(steps), i, Finished)
  {
    RunIsFenced(steps);
  }

  lemma StepKeepsAlive(before: seq<Step>, step: Step, i: nat)
    requires Current(before + [step], i) && step != Abort(i)
    requires Current(before, i) ==> i < |After(before).coroutines| && After(before).coroutines[i].phase != Finished
    ensures var st := After(before + [step]);
      i < |st.coroutines| && st.coroutines[i].phase != Finished
  {
    RunIsFenced(before);
    HistoryOfLonger(before, step);
    hide Running, Sessions, After, SumValues, PositionPnls, WalletBalance;
    if Current(before, i) {
      assert MayContinue(After(before), i);
    }
  }

  /** The running session's coroutine never finishes on its own: whatever the connection does, only an abort ends it. */
  lemma {:induction false} RunningSessionStaysAlive(steps: seq<Step>, i: nat)
    requires Current(steps, i) && Abort(i) !in steps
    ensures i < |After(steps).coroutines| && After(steps).coroutines[i].phase != Finished
  {
    var before, last := steps[..|steps| - 1], steps[|steps| - 1];
    assert steps == before + [last];
    if Current(before, i) {
      RunningSessionStaysAlive(before, i);
    }
    StepKeepsAlive(before, last, i);
  }

  /** After a connection died, the running session receives again once it has reconnected. */
  lemma ReconnectingResumes(steps: seq<Step>, i: nat)
    requires Current(steps, i) && i < |After(steps).coroutines| && After(steps).coroutines[i].phase == Receiving
    ensures var died := steps + [Disconnect(i)];
      && After(died).coroutines[i].phase == Connecting && Current(died + [Connect(i)], i)
      && After(died + [Connect(i)]).coroutines[i].phase == Receiving
  {
    var died := steps + [Disconnect(i)];
    RunIsFenced(steps);
    RunIsFenced(died);
    HistoryOfLonger(steps, Disconnect(i));
    HistoryOfLonger(died, Connect(i));
    hide Running, Sessions, After, Handle;
    assert Current(died, i) && Current(died + [Connect(i)], i);
    assert MayContinue(After(died), i);
  }

  // ---------------------------------------------------------------- the fold

  /** What one message says of a symbol: its last entry's value. */
  function Says(message: Message, symbol: string): Option<real> {
    if message.AccountUpdate? then LastEntry(message.positions, symbol) else None
  }

  /** Coroutine `i` is suspended in `stream.recv()`. */
  ghost predicate Awaits(steps: seq<Step>, i: nat) {
    i < |After(steps).coroutines| && After(steps).coroutines[i].phase == Receiving
  }

  /** The last value reported for a symbol by the current session's messages, since its start. */
  ghost function LastReported(steps: seq<Step>, symbol: string): Option<real> {
    if steps == [] then None
    else
      var before, step := steps[..|steps| - 1], steps[|steps| - 1];
      if step.Start? && !Running(before) then None
      else if step.Receive? && step.message.Some? && Current(before, step.i) && Awaits(before, step.i)
              && Says(step.message.value, symbol).Some?
      then Says(step.message.value, symbol)
      else LastReported(before, symbol)
  }

  lemma HandlingFolds(st: Stream, message: Message, symbol: string)
    ensures Lookup(Handle(st, message).unrealizedPnlBySymbol, symbol)
         == if Says(message, symbol).Some? then Says(message, symbol) else Lookup(st.unrealizedPnlBySymbol, symbol)
  {
    if message.AccountUpdate? {
      ParsedIsLastEntry(message.positions, symbol);
    }
  }

  /** After any run the running dict holds, per symbol, the last value reported since the latest start. */
  lemma {:induction false} PnlIsLastReported(steps: seq<Step>, symbol: string)
    ensures Lookup(After(steps).unrealizedPnlBySymbol, symbol) == LastReported(steps, symbol)
  {
    if steps != [] {
      var before, step := steps[..|steps| - 1], steps[|steps| - 1];
      PnlIsLastReported(before, symbol);
      RunIsFenced(before);
      if step.Receive? && step.message.Some? {
        OnlyTheLatestSessionHandles(before, step.i, step.message);
        HandlingFolds(After(before), step.message.value, symbol);
      }
      hide Handle, Says, Lookup, Current, Running;
    }
  }

  /** The dict whose sum a sample must carry: the last reported value of every symbol reported at all. */
  ghost predicate IsLastReported(pnls: map<string, real>, steps: seq<Step>) {
    forall s :: Lookup(pnls, s) == LastReported(steps, s)
  }

  /**
   * A step records a sample exactly when it handles an ACCOUNT_UPDATE with a quote-asset balance, and the
   * sample's unrealized PnL is the sum, over all symbols, of the last value reported since the start.
   */
  lemma SamplesSumTheLastReports(steps: seq<Step>, step: Step) returns (pnls: map<string, real>)
    ensures IsLastReported(pnls, steps + [step])
    ensures var before, after := After(steps).samples, After(steps + [step]).samples;
      if step.Receive? && Handles(After(steps), step.i, step.message) && step.message.value.AccountUpdate?
         && WalletBalance(step.message.value.balances).Some?
      then after == before + [EquitySample(step.message.value.capturedAt,
                                           WalletBalance(step.message.value.balances).value, SumValues(pnls))]
      else after == before
  {
    pnls := After(steps + [step]).unrealizedPnlBySymbol;
    forall s ensures Lookup(pnls, s) == LastReported(steps + [step], s) {
      PnlIsLastReported(steps + [step], s);
    }
    HistoryOfLonger(steps, step);
  }

  // ---------------------------------------------------------------- the object

  method ParsePositionPnls(positions: seq<PositionEntry>) returns (pnls: map<string, real>)
    ensures pnls == PositionPnls(positions) && HoldsLastEntries(positions, pnls)
  {
    ParsedHoldsLastEntries(positions);
    pnls := map[];
    for n := 0 to |positions|
      invariant pnls == PositionPnls(positions[..n])
    {
      assert positions[..n + 1][..n] == positions[..n];
      pnls := pnls[positions[n].symbol := ReportedPnl(positions[n])];
    }
    assert positions[..|positions|] == positions;
  }

  method FindWalletBalance(balances: seq<BalanceEntry>) returns (balance: Option<real>)
    ensures balance == WalletBalance(balances)
    ensures balance.None? <==> forall b :: b in balances ==> b.asset != "USDT"
    ensures forall i :: FirstQuote(balances, i) ==> balance == Some(balances[i].walletBalance)
  {
    WalletBalanceIsFirstQuote(balances);
    for n := 0 to |balances|
      invariant WalletBalance(balances) == WalletBalance(balances[n..])
    {
      if balances[n].asset == QUOTE_ASSET {
        return Some(balances[n].walletBalance);
      }
    }
    return None;
  }

  /** `sum(values, Decimal(0))`, over the dict in whatever order it holds its symbols. */
  method Total(pnls: map<string, real>) returns (total: real)
    ensures total == SumValues(pnls)
  {
    total := 0.0;
    var left := pnls;
    while left != map[]
      invariant SumValues(pnls) == total + SumValues(left)
      decreases |left|
    {
      var s :| s in left;
      SumWithout(left, s);
      total := total + left[s];
      assert (left - {s}).Keys == left.Keys - {s};
      left := left - {s};
    }
  }

  class FuturesUserDataStream {
    var generation: nat
    var taskHandle: Option<nat>
    var unrealizedPnlBySymbol: map<string, real>
    /** Every coroutine spawned for this stream so far, with its token. */
    var coroutines: seq<Coroutine>
    /** What the equity recorder was given. */
    var samples: seq<EquitySample>

    ghost function View(): Stream
      reads this
    {
      Stream(generation, taskHandle, unrealizedPnlBySymbol, coroutines, samples)
    }

    /** The handle is one of the spawned coroutines. */
    ghost predicate Valid()
      reads this
    {
      taskHandle.Some? ==> taskHandle.value < |coroutines|
    }

    constructor ()
      ensures Valid() && View() == IDLE_STREAM
    {
      generation, taskHandle, unrealizedPnlBySymbol, coroutines, samples := 0, None, map[], [], [];
    }

    method Start() returns (started: bool)
      requires Valid()
      modifies this
      ensures Valid() && View() == Next(old(View()), Step.Start)
      ensures started <==> old(taskHandle).None?
    {
      if taskHandle.Some? {
        return false;
      }
      unrealizedPnlBySymbol := map[];
      generation := generation + 1;
      taskHandle := Some(|coroutines|);
      coroutines := coroutines + [Coroutine(generation, false, Connecting)];
      return true;
    }

    method Stop() returns (stopped: bool)
      requires Valid()
      modifies this
      ensures Valid() && View() == Next(old(View()), Step.Stop)
      ensures stopped <==> old(taskHandle).Some?
    {
      if taskHandle.None? {
        return false;
      }
      generation := generation + 1;
      var i := taskHandle.value;
      coroutines := coroutines[i := coroutines[i].(tokenCancelled := true)];
      taskHandle := None;
      return true;
    }

    /** Coroutine `i` resumes from `stream.recv()`: check, handle, and back to the loop guard. */
    method Receive(i: nat, message: Option<Message>)
      requires Valid() && i < |coroutines| && coroutines[i].phase == Receiving
      modifies this
      ensures Valid() && View() == Next(old(View()), Step.Receive(i, message))
    {
      if message.Some? && coroutines[i].generation == generation {
        if message.value.AccountUpdate? {
          HandleAccountUpdate(message.value);
        }
      }
      var guard := !coroutines[i].tokenCancelled && coroutines[i].generation == generation;
      coroutines := coroutines[i := coroutines[i].(phase := if guard then Receiving else Finished)];
    }

    method HandleAccountUpdate(message: Message)
      requires message.AccountUpdate?
      modifies this`unrealizedPnlBySymbol, this`samples
      ensures View() == Handle(old(View()), message)
    {
      var reported := ParsePositionPnls(message.positions);
      unrealizedPnlBySymbol := unrealizedPnlBySymbol + reported;
      var balance := FindWalletBalance(message.balances);
      if balance.Some? {
        var total := Total(unrealizedPnlBySymbol);
        samples := samples + [EquitySample(message.capturedAt, balance.value, total)];
      }
    }
  }
}
