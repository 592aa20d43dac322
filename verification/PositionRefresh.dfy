/** The position refresher: publishes each poll as changes and closings, so that a subscriber can fold them. */
module PositionRefresh {
  import opened Prelude

  datatype Position = Position(symbol: string, amount: real, entryPrice: real, unrealizedPnl: real)

  datatype Event =
    | PositionChanged(position: Position)
    | PositionClosed(symbol: string)

  /** The positions one poll reported, by symbol; a repeated symbol's last entry stands. */
  function BySymbol(positions: seq<Position>): map<string, Position> {
    if positions == [] then map[]
    else
      var last := positions[|positions| - 1];
      BySymbol(positions[..|positions| - 1])[last.symbol := last]
  }

  /** What a subscriber that keeps one entry per symbol holds after these events. */
  function Fold(view: map<string, Position>, events: seq<Event>): map<string, Position> {
    if events == [] then view
    else
      var before := Fold(view, events[..|events| - 1]);
      match events[|events| - 1]
      case PositionChanged(position) => before[position.symbol := position]
      case PositionClosed(symbol) => before - {symbol}
  }

  function Changes(positions: seq<Position>): seq<Event> {
    seq(|positions|, i requires 0 <= i < |positions| => PositionChanged(positions[i]))
  }

  function Closings(symbols: seq<string>): seq<Event> {
    seq(|symbols|, i requires 0 <= i < |symbols| => PositionClosed(symbols[i]))
  }

  function Symbols(positions: seq<Position>): set<string> {
    set p | p in positions :: p.symbol
  }

  /** A listing of a set, each member once, in some order. */
  ghost predicate Lists(symbols: seq<string>, members: set<string>) {
    && (forall s :: s in symbols <==> s in members)
    && (forall i, j :: 0 <= i < j < |symbols| ==> symbols[i] != symbols[j])
  }

  /** What a successful poll publishes: every position, then the known symbols it no longer has, in some order. */
  ghost predicate Published(known: set<string>, positions: seq<Position>, events: seq<Event>) {
    exists closed :: Lists(closed, known - Symbols(positions)) && events == Changes(positions) + Closings(closed)
  }

  // ---------------------------------------------------------------- folding one poll

  lemma {:induction false} FoldOfLonger(view: map<string, Position>, a: seq<Event>, b: seq<Event>)
    ensures Fold(view, a + b) == Fold(Fold(view, a), b)
  {
    if b == [] {
      assert a + b == a;
    } else {
      FoldOfLonger(view, a, b[..|b| - 1]);
      assert (a + b)[..|a + b| - 1] == a + b[..|b| - 1];
    }
  }

  lemma {:induction false} ChangesOverwrite(view: map<string, Position>, positions: seq<Position>)
    ensures Fold(view, Changes(positions)) == view + BySymbol(positions)
  {
    if positions != [] {
      var before := positions[..|positions| - 1];
      ChangesOverwrite(view, before);
      assert Changes(positions)[..|positions| - 1] == Changes(before);
    }
  }

  lemma {:induction false} ClosingsRemove(view: map<string, Position>, symbols: seq<string>)
    ensures Fold(view, Closings(symbols)) == view - (set s | s in symbols)
  {
    if symbols != [] {
      var before := symbols[..|symbols| - 1];
      ClosingsRemove(view, before);
      assert Closings(symbols)[..|symbols| - 1] == Closings(before);
      assert (set s | s in symbols) == (set s | s in before) + {symbols[|symbols| - 1]};
    }
  }

  lemma {:induction false} BySymbolKeys(positions: seq<Position>)
    ensures BySymbol(positions).Keys == Symbols(positions)
  {
    if positions != [] {
      BySymbolKeys(positions[..|positions| - 1]);
      assert positions == positions[..|positions| - 1] + [positions[|positions| - 1]];
    }
  }

  /** One poll takes any subscriber that held the known symbols to exactly the polled positions. */
  lemma PollReplacesView(view: map<string, Position>, positions: seq<Position>, events: seq<Event>)
    requires Published(view.Keys, positions, events)
    ensures Fold(view, events) == BySymbol(positions)
  {
    var closed :| Lists(closed, view.Keys - Symbols(positions)) && events == Changes(positions) + Closings(closed);
    FoldOfLonger(view, Changes(positions), Closings(closed));
    ChangesOverwrite(view, positions);
    BySymbolKeys(positions);
    ClosingsRemove(view + BySymbol(positions), closed);
    assert (set s | s in closed) == view.Keys - BySymbol(positions).Keys;
  }

  // ---------------------------------------------------------------- runs

  /** One scheduler tick: whether trading was enabled, what the fetch returned, and what was published. */
  datatype Tick = Tick(enabled: bool, fetched: Option<seq<Position>>, events: seq<Event>)

  predicate Refreshes(tick: Tick) {
    tick.enabled && tick.fetched.Some?
  }

  /** The known symbols after these ticks. */
  function Known(ticks: seq<Tick>): set<string> {
    if ticks == [] then {}
    else if Refreshes(ticks[|ticks| - 1]) then Symbols(ticks[|ticks| - 1].fetched.value)
    else Known(ticks[..|ticks| - 1])
  }

  ghost predicate TickIs(known: set<string>, tick: Tick) {
    if Refreshes(tick) then Published(known, tick.fetched.value, tick.events) else tick.events == []
  }

  /** A run of the service: every tick published what `refresh_once` publishes then. */
  ghost predicate ServiceRun(ticks: seq<Tick>) {
    forall i :: 0 <= i < |ticks| ==> TickIs(Known(ticks[..i]), ticks[i])
  }

  function AllEvents(ticks: seq<Tick>): seq<Event> {
    if ticks == [] then [] else AllEvents(ticks[..|ticks| - 1]) + ticks[|ticks| - 1].events
  }

  /** The positions of the last tick that refreshed. */
  function LastRefresh(ticks: seq<Tick>): seq<Position> {
    if ticks == [] then []
    else if Refreshes(ticks[|ticks| - 1]) then ticks[|ticks| - 1].fetched.value
    else LastRefresh(ticks[..|ticks| - 1])
  }

  /**
   * With failed fetches and disabled ticks anywhere in between, a subscriber holds the last successful poll,
   * exactly.
   */
  lemma {:induction false} SubscriberConverges(ticks: seq<Tick>)
    requires ServiceRun(ticks)
    ensures Fold(map[], AllEvents(ticks)) == BySymbol(LastRefresh(ticks))
    ensures BySymbol(LastRefresh(ticks)).Keys == Known(ticks)
  {
    BySymbolKeys(LastRefresh(ticks));
    if ticks != [] {
      var n, before := |ticks| - 1, ticks[..|ticks| - 1];
      assert ServiceRun(before) by {
        assert forall i :: 0 <= i < n ==> before[..i] == ticks[..i];
      }
      SubscriberConverges(before);
      assert TickIs(Known(ticks[..n]), ticks[n]);
      FoldOfLonger(map[], AllEvents(before), ticks[n].events);
      if Refreshes(ticks[n]) {
        PollReplacesView(BySymbol(LastRefresh(before)), ticks[n].fetched.value, ticks[n].events);
      }
      hide BySymbol, Published;
    }
  }

  // ---------------------------------------------------------------- the object

  class PositionRefreshService {
    var knownSymbols: set<string>

    constructor ()
      ensures knownSymbols == {}
    {
      knownSymbols := {};
    }

    /** `refresh_once`; a fetch that raised is None. */
    method RefreshOnce(enabled: bool, fetched: Option<seq<Position>>) returns (events: seq<Event>)
      modifies this
      ensures TickIs(old(knownSymbols), Tick(enabled, fetched, events))
      ensures knownSymbols == if enabled && fetched.Some? then Symbols(fetched.value) else old(knownSymbols)
    {
      events := [];
      if !enabled || fetched.None? {
        return;
      }
      var positions := fetched.value;
      var current := set p | p in positions :: p.symbol;
      for n := 0 to |positions|
        invariant events == Changes(positions)[..n]
      {
        events := events + [PositionChanged(positions[n])];
      }
      var gone := knownSymbols - current;
      ghost var closed: seq<string> := [];
      while gone != {}
        invariant events == Changes(positions) + Closings(closed)
        invariant gone <= knownSymbols - current
        invariant Lists(closed, knownSymbols - current - gone)
        decreases |gone|
      {
        var symbol :| symbol in gone;
        events := events + [PositionClosed(symbol)];
        assert Closings(closed + [symbol]) == Closings(closed) + [PositionClosed(symbol)];
        closed := closed + [symbol];
        gone := gone - {symbol};
      }
      assert knownSymbols - current - gone == knownSymbols - current;
      assert Published(knownSymbols, positions, events);
      knownSymbols := current;
    }
  }
}
