/** A value tracked across bars, newest first, with one tentative slot for the bar still forming. */
module BarSeries {
  import opened Prelude

  const DEFAULT_HISTORY: nat := 16
  const MINIMUM_HISTORY: nat := 2

  /** A deque with `maxlen` keeps the newest entries only. */
  function Bounded<T>(newestFirst: seq<T>, maxlen: nat): seq<T> {
    if |newestFirst| > maxlen then newestFirst[..maxlen] else newestFirst
  }

  /** `provisional` is `None` while no tick has poked this bar; a poked `None` reading is `Some(None)`. */
  datatype SeriesState = SeriesState(history: nat, values: seq<Option<real>>, provisional: Option<Option<real>>) {

    predicate Valid() {
      MINIMUM_HISTORY <= history && |values| <= history
    }

    function Committed(offset: nat): Option<real> {
      if offset < |values| then values[offset] else None
    }

    function At(offset: nat): Option<real> {
      if provisional.None? then Committed(offset)
      else if offset == 0 then provisional.value
      else Committed(offset - 1)
    }

    function Push(value: Option<real>): SeriesState {
      this.(values := Bounded([value] + values, history), provisional := None)
    }

    function Poke(value: Option<real>): SeriesState {
      this.(provisional := Some(value))
    }
  }

  /** Neither operation lets the history outgrow its bound, and a poke never takes a slot of it. */
  lemma SeriesStaysValid(s: SeriesState, value: Option<real>)
    requires s.Valid()
    ensures s.Push(value).Valid() && s.Poke(value).Valid()
    ensures |s.Push(value).values| == (if |s.values| < s.history then |s.values| + 1 else s.history)
    ensures s.Poke(value).values == s.values
  {
  }

  function EmptySeries(history: nat): SeriesState {
    SeriesState(history, [], None)
  }

  function PushAll(s: SeriesState, column: seq<Option<real>>): SeriesState {
    if column == [] then s else PushAll(s, column[..|column| - 1]).Push(column[|column| - 1])
  }

  function ConstantState(value: real, history: nat): SeriesState {
    PushAll(EmptySeries(history), seq(history, _ => Some(value)))
  }

  /**
   * What a bar sees while it forms is what it will see once closed, at every offset
   * inside the history; just past it a poke still shows the bar a push would evict.
   */
  lemma PokeAgreesWithPush(s: SeriesState, value: Option<real>, offset: nat)
    requires s.Valid()
    ensures s.Poke(value).At(offset) == s.Push(value).At(offset)
       <==> (offset != s.history || s.Committed(offset - 1).None?)
    ensures s.Poke(value).Committed(offset) == s.Committed(offset)
  {
    if 0 < offset < s.history {
      assert offset - 1 < |s.values| ==> Bounded([value] + s.values, s.history)[offset] == s.values[offset - 1];
    }
  }

  lemma {:induction false} PushAllShape(history: nat, column: seq<Option<real>>)
    requires MINIMUM_HISTORY <= history
    ensures var s := PushAll(EmptySeries(history), column);
      && s.Valid() && s.history == history && s.provisional.None?
      && |s.values| == if |column| < history then |column| else history
  {
    if column != [] {
      PushAllShape(history, column[..|column| - 1]);
    }
  }

  /** However many pushes happened, offset `i` is the value pushed `i` bars ago. */
  lemma {:induction false} CommittedIsHistory(history: nat, column: seq<Option<real>>, offset: nat)
    requires MINIMUM_HISTORY <= history
    ensures PushAll(EmptySeries(history), column).Committed(offset)
         == if offset < |column| && offset < history then column[|column| - 1 - offset] else None
  {
    PushAllShape(history, column);
    if 0 < offset < |column| && offset < history {
      var earlier := column[..|column| - 1];
      PushAllShape(history, earlier);
      CommittedIsHistory(history, earlier, offset - 1);
      var before := PushAll(EmptySeries(history), earlier);
      assert before.Push(column[|column| - 1]).Committed(offset) == before.Committed(offset - 1);
    }
  }

  /** A level reads the same on every bar a cross helper looks at. */
  lemma ConstantSeriesIsFlat(value: real, history: nat, offset: nat)
    requires MINIMUM_HISTORY <= history && offset < history
    ensures ConstantState(value, history).At(offset) == Some(value)
  {
    PushAllShape(history, seq(history, _ => Some(value)));
    CommittedIsHistory(history, seq(history, _ => Some(value)), offset);
  }

  function Pair(a: SeriesState, b: SeriesState): Option<(real, real, real, real)> {
    if a.At(0).None? || b.At(0).None? || a.At(1).None? || b.At(1).None? then None
    else Some((a.At(0).value, b.At(0).value, a.At(1).value, b.At(1).value))
  }

  predicate CrossedAbove(a: SeriesState, b: SeriesState) {
    match Pair(a, b)
    case None => false
    case Some((aNow, bNow, aPrev, bPrev)) => aPrev < bPrev && aNow > bNow
  }

  predicate CrossedBelow(a: SeriesState, b: SeriesState) {
    match Pair(a, b)
    case None => false
    case Some((aNow, bNow, aPrev, bPrev)) => aPrev > bPrev && aNow < bNow
  }

  predicate IsAbove(a: SeriesState, b: SeriesState) {
    a.At(0).Some? && b.At(0).Some? && a.At(0).value > b.At(0).value
  }

  class Series {
    const history: nat
    var values: seq<Option<real>>
    var provisional: Option<Option<real>>

    function View(): SeriesState
      reads this
    {
      SeriesState(history, values, provisional)
    }

    constructor (history: nat)
      requires MINIMUM_HISTORY <= history
      ensures View() == EmptySeries(history)
    {
      this.history, values, provisional := history, [], None;
    }

    /** The public constructor: too short a history is a ValueError. */
    static method Make(history: int) returns (r: Result<Series>)
      ensures r.Success? <==> history >= MINIMUM_HISTORY
      ensures r.Success? ==> fresh(r.value) && r.value.View() == EmptySeries(history)
    {
      if history < MINIMUM_HISTORY {
        return Failure("ValueError");
      }
      var s := new Series(history);
      return Success(s);
    }

    method Push(value: Option<real>) returns (pushed: Option<real>)
      modifies this
      ensures View() == old(View()).Push(value) && pushed == value
    {
      provisional := None;
      values := Bounded([value] + values, history);
      return value;
    }

    method PokeProvisional(value: Option<real>) returns (poked: Option<real>)
      modifies this`provisional
      ensures View() == old(View()).Poke(value) && poked == value
    {
      provisional := Some(value);
      return value;
    }

    /** `s[offset]`. */
    method GetItem(offset: int) returns (r: Result<Option<real>>)
      ensures r == if offset < 0 then Failure("IndexError") else Success(View().At(offset))
    {
      if offset < 0 {
        return Failure("IndexError");
      }
      var shifted := offset;
      if provisional.Some? {
        if offset == 0 {
          return Success(provisional.value);
        }
        shifted := shifted - 1;
      }
      if shifted >= |values| {
        return Success(None);
      }
      return Success(values[shifted]);
    }

    method CommittedAt(offset: int) returns (r: Result<Option<real>>)
      ensures r == if offset < 0 then Failure("IndexError") else Success(View().Committed(offset))
    {
      if offset < 0 {
        return Failure("IndexError");
      }
      if offset >= |values| {
        return Success(None);
      }
      return Success(values[offset]);
    }
  }

  /** A Series holding one number on every bar it remembers. */
  method ConstantSeries(value: real, history: nat) returns (s: Series)
    requires MINIMUM_HISTORY <= history
    ensures fresh(s) && s.View() == ConstantState(value, history)
  {
    s := new Series(history);
    ghost var column := seq(history, _ => Some(value));
    for i := 0 to history
      invariant fresh(s) && s.View() == PushAll(EmptySeries(history), column[..i])
    {
      assert column[..i + 1][..i] == column[..i];
      var _ := s.Push(Some(value));
    }
    assert column[..history] == column;
  }
}
