/** Owner-reference-counted live stream subscriptions over one shared connection. */
module StreamSubscriptions {
  import opened Prelude

  type Owner = string

  datatype StreamKey = StreamKey(symbol: string, interval: string)

  /** A spawned stream task: the keys it was given, and whether it was told to stop. */
  datatype StreamTask = StreamTask(keys: set<StreamKey>, cancelled: bool)

  datatype Registry = Registry(
    subscriptions: map<StreamKey, set<Owner>>,
    activeKeys: set<StreamKey>,
    taskHandle: Option<nat>,
    tasks: seq<StreamTask>)

  datatype Call =
    | Subscribe(owner: Owner, symbols: seq<string>, interval: string)
    | ReleaseOwner(owner: Owner)
    | StopAll

  const EMPTY_REGISTRY := Registry(map[], {}, None, [])

  // ---------------------------------------------------------------- the registry as a value

  function Owners(subscriptions: map<StreamKey, set<Owner>>, key: StreamKey): set<Owner> {
    if key in subscriptions then subscriptions[key] else {}
  }

  predicate Holds(subscriptions: map<StreamKey, set<Owner>>, owner: Owner) {
    exists key :: key in subscriptions && owner in subscriptions[key]
  }

  /** A key survives its owner's leaving if the owner did not hold it, or someone else does. */
  predicate Survives(owners: set<Owner>, owner: Owner) {
    owner !in owners || owners - {owner} != {}
  }

  function Dropped(subscriptions: map<StreamKey, set<Owner>>, owner: Owner): map<StreamKey, set<Owner>> {
    map key | key in subscriptions && Survives(subscriptions[key], owner) :: subscriptions[key] - {owner}
  }

  function Joined(subscriptions: map<StreamKey, set<Owner>>, owner: Owner, symbols: seq<string>, interval: string)
    : map<StreamKey, set<Owner>>
  {
    if symbols == [] then subscriptions
    else
      var before := Joined(subscriptions, owner, symbols[..|symbols| - 1], interval);
      var key := StreamKey(symbols[|symbols| - 1], interval);
      before[key := Owners(before, key) + {owner}]
  }

  /** `_apply_active_set_locked`. */
  function Applied(r: Registry): Registry {
    var desired := r.subscriptions.Keys;
    if desired == r.activeKeys then r
    else
      var stopped := if r.taskHandle.Some? && r.taskHandle.value < |r.tasks|
                     then r.tasks[r.taskHandle.value := r.tasks[r.taskHandle.value].(cancelled := true)] else r.tasks;
      if desired == {} then r.(activeKeys := desired, taskHandle := None, tasks := stopped)
      else r.(activeKeys := desired, taskHandle := Some(|stopped|), tasks := stopped + [StreamTask(desired, false)])
  }

  function Next(r: Registry, call: Call): Registry {
    match call
    case Subscribe(owner, symbols, interval) =>
      Applied(r.(subscriptions := Joined(Dropped(r.subscriptions, owner), owner, symbols, interval)))
    case ReleaseOwner(owner) =>
      if Holds(r.subscriptions, owner) then Applied(r.(subscriptions := Dropped(r.subscriptions, owner))) else r
    case StopAll => Applied(r.(subscriptions := map[]))
  }

  function After(calls: seq<Call>): Registry {
    if calls == [] then EMPTY_REGISTRY else Next(After(calls[..|calls| - 1]), calls[|calls| - 1])
  }

  // ---------------------------------------------------------------- the history, told without counting

  /** The keys of an owner's last subscribe, unless it released, or everything stopped, since. */
  function Held(calls: seq<Call>, owner: Owner): set<StreamKey> {
    if calls == [] then {}
    else
      match calls[|calls| - 1]
      case Subscribe(o, symbols, interval) =>
        if o == owner then set s | s in symbols :: StreamKey(s, interval) else Held(calls[..|calls| - 1], owner)
      case ReleaseOwner(o) => if o == owner then {} else Held(calls[..|calls| - 1], owner)
      case StopAll => {}
  }

  // ---------------------------------------------------------------- the invariant

  /** No key is kept without an owner. */
  ghost predicate Counted(subscriptions: map<StreamKey, set<Owner>>) {
    forall key :: key in subscriptions ==> subscriptions[key] != {}
  }

  /**
   * The only task not cancelled is the handle's, there is one just when a key is active, and it streams the
   * active set.
   */
  ghost predicate OneStream(r: Registry) {
    && (r.taskHandle.Some? <==> r.activeKeys != {})
    && (r.taskHandle.Some? ==>
          r.taskHandle.value < |r.tasks| && r.tasks[r.taskHandle.value] == StreamTask(r.activeKeys, false))
    && (forall i :: 0 <= i < |r.tasks| && !r.tasks[i].cancelled ==> r.taskHandle == Some(i))
  }

  ghost predicate Consistent(r: Registry) {
    Counted(r.subscriptions) && r.activeKeys == r.subscriptions.Keys && OneStream(r)
  }

  lemma AppliedIsConsistent(r: Registry)
    requires Counted(r.subscriptions) && OneStream(r)
    ensures Consistent(Applied(r))
    ensures Applied(r).subscriptions == r.subscriptions
  {
  }

  lemma DroppedOwners(subscriptions: map<StreamKey, set<Owner>>, owner: Owner, key: StreamKey)
    ensures Owners(Dropped(subscriptions, owner), key) == Owners(subscriptions, key) - {owner}
    ensures Counted(subscriptions) ==> Counted(Dropped(subscriptions, owner))
  {
  }

  lemma {:induction false} JoinedOwners(subscriptions: map<StreamKey, set<Owner>>, owner: Owner, symbols: seq<string>,
                                        interval: string, key: StreamKey)
    ensures Owners(Joined(subscriptions, owner, symbols, interval), key)
         == Owners(subscriptions, key) + if key.interval == interval && key.symbol in symbols then {owner} else {}
    ensures Counted(subscriptions) ==> Counted(Joined(subscriptions, owner, symbols, interval))
  {
    if symbols != [] {
      JoinedOwners(subscriptions, owner, symbols[..|symbols| - 1], interval, key);
      assert symbols == symbols[..|symbols| - 1] + [symbols[|symbols| - 1]];
    }
  }

  lemma {:induction false} CountedJoined(subscriptions: map<StreamKey, set<Owner>>, owner: Owner,
                                         symbols: seq<string>, interval: string)
    requires Counted(subscriptions)
    ensures Counted(Joined(subscriptions, owner, symbols, interval))
  {
    if symbols != [] {
      CountedJoined(subscriptions, owner, symbols[..|symbols| - 1], interval);
    }
  }

  lemma SameStream(r: Registry, subscriptions: map<StreamKey, set<Owner>>)
    requires OneStream(r) && Counted(subscriptions)
    ensures Consistent(Applied(r.(subscriptions := subscriptions)))
    ensures Applied(r.(subscriptions := subscriptions)).subscriptions == subscriptions
  {
    AppliedIsConsistent(r.(subscriptions := subscriptions));
  }

  lemma NextIsConsistent(r: Registry, call: Call)
    requires Consistent(r)
    ensures Consistent(Next(r, call))
  {
    hide OneStream, Dropped, Joined, Applied;
    match call
    case Subscribe(owner, symbols, interval) =>
      DroppedOwners(r.subscriptions, owner, StreamKey("", interval));
      CountedJoined(Dropped(r.subscriptions, owner), owner, symbols, interval);
      SameStream(r, Joined(Dropped(r.subscriptions, owner), owner, symbols, interval));
    case ReleaseOwner(owner) =>
      DroppedOwners(r.subscriptions, owner, StreamKey("", ""));
      SameStream(r, Dropped(r.subscriptions, owner));
    case StopAll =>
      SameStream(r, map[]);
  }

  /** After any calls: one live task at most, streaming exactly the active set. */
  lemma {:induction false} AlwaysConsistent(calls: seq<Call>)
    ensures Consistent(After(calls))
  {
    if calls != [] {
      AlwaysConsistent(calls[..|calls| - 1]);
      NextIsConsistent(After(calls[..|calls| - 1]), calls[|calls| - 1]);
    }
  }

  lemma NextSubscriptions(r: Registry, call: Call)
    requires Consistent(r)
    ensures Next(r, call).subscriptions ==
      match call
      case Subscribe(owner, symbols, interval) => Joined(Dropped(r.subscriptions, owner), owner, symbols, interval)
      case ReleaseOwner(owner) =>
        if Holds(r.subscriptions, owner) then Dropped(r.subscriptions, owner) else r.subscriptions
      case StopAll => map[]
  {
  }

  lemma HoldsNothing(subscriptions: map<StreamKey, set<Owner>>, owner: Owner, key: StreamKey)
    requires !Holds(subscriptions, owner)
    ensures owner !in Owners(subscriptions, key)
  {
  }

  lemma NobodyOwns(key: StreamKey)
    ensures Owners(map[], key) == {}
  {
  }

  lemma KeyAmong(symbols: seq<string>, interval: string, key: StreamKey)
    ensures key in (set s | s in symbols :: StreamKey(s, interval))
       <==> key.interval == interval && key.symbol in symbols
  {
    assert key == StreamKey(key.symbol, key.interval);
  }

  /** After any calls, each owner is recorded at exactly the keys of its last unreleased subscribe. */
  lemma {:induction false} OwnersHoldTheirLastSubscribe(calls: seq<Call>, owner: Owner, key: StreamKey)
    ensures owner in Owners(After(calls).subscriptions, key) <==> key in Held(calls, owner)
  {
    if calls != [] {
      var before, call := calls[..|calls| - 1], calls[|calls| - 1];
      var r := After(before);
      OwnersHoldTheirLastSubscribe(before, owner, key);
      AlwaysConsistent(before);
      NextSubscriptions(r, call);
      hide Owners, Dropped, Joined, Next, Consistent, Holds;
      match call
      case Subscribe(o, symbols, interval) =>
        DroppedOwners(r.subscriptions, o, key);
        JoinedOwners(Dropped(r.subscriptions, o), o, symbols, interval, key);
        KeyAmong(symbols, interval, key);
      case ReleaseOwner(o) =>
        DroppedOwners(r.subscriptions, o, key);
        if !Holds(r.subscriptions, o) {
          HoldsNothing(r.subscriptions, o, key);
        }
      case StopAll =>
        NobodyOwns(key);
    }
  }

  /** The active set is exactly the keys some owner holds. */
  lemma ActiveSetIsTheHeldKeys(calls: seq<Call>, key: StreamKey)
    ensures key in After(calls).activeKeys <==> exists owner :: key in Held(calls, owner)
  {
    AlwaysConsistent(calls);
    var subscriptions := After(calls).subscriptions;
    if key in After(calls).activeKeys {
      var owner :| owner in subscriptions[key];
      OwnersHoldTheirLastSubscribe(calls, owner, key);
    }
    if owner :| key in Held(calls, owner) {
      OwnersHoldTheirLastSubscribe(calls, owner, key);
    }
  }

  ghost predicate RespawnedOnChange(before: Registry, after: Registry) {
    if after.activeKeys == before.activeKeys then after.tasks == before.tasks && after.taskHandle == before.taskHandle
    else && |after.tasks| == |before.tasks| + (if after.activeKeys == {} then 0 else 1)
         && (forall i :: 0 <= i < |before.tasks| ==>
               after.tasks[i].cancelled && after.tasks[i].keys == before.tasks[i].keys)
  }

  lemma AppliedTasks(r: Registry, subscriptions: map<StreamKey, set<Owner>>)
    requires Consistent(r)
    ensures RespawnedOnChange(r, Applied(r.(subscriptions := subscriptions)))
  {
  }

  /** The connection is respawned only when the active set changes; otherwise no task is touched. */
  lemma RespawnsOnlyOnChange(calls: seq<Call>, call: Call)
    ensures RespawnedOnChange(After(calls), After(calls + [call]))
  {
    AlwaysConsistent(calls);
    assert (calls + [call])[..|calls|] == calls;
    hide After;
    var r := After(calls);
    match call
    case Subscribe(owner, symbols, interval) =>
      AppliedTasks(r, Joined(Dropped(r.subscriptions, owner), owner, symbols, interval));
    case ReleaseOwner(owner) =>
      AppliedTasks(r, Dropped(r.subscriptions, owner));
    case StopAll =>
      AppliedTasks(r, map[]);
  }

  lemma SameKeyActive(calls: seq<Call>, owner: Owner, symbols: seq<string>, interval: string, key: StreamKey)
    requires Held(calls, owner) == {}
    requires forall s :: s in symbols ==> StreamKey(s, interval) in After(calls).activeKeys
    ensures key in After(calls + [Subscribe(owner, symbols, interval)]).activeKeys <==> key in After(calls).activeKeys
  {
    var longer := calls + [Subscribe(owner, symbols, interval)];
    assert longer[..|calls|] == calls;
    assert forall o :: o != owner ==> Held(longer, o) == Held(calls, o);
    assert Held(longer, owner) == set s | s in symbols :: StreamKey(s, interval);
    hide After;
    ActiveSetIsTheHeldKeys(calls, key);
    ActiveSetIsTheHeldKeys(longer, key);
    if key in After(calls).activeKeys {
      var o :| key in Held(calls, o);
      assert o != owner && key in Held(longer, o);
      assert exists x :: key in Held(longer, x);
    }
    if key in After(longer).activeKeys {
      var o :| key in Held(longer, o);
      if o == owner {
        var s :| s in symbols && key == StreamKey(s, interval);
        assert key in After(calls).activeKeys;
      } else {
        assert key in Held(calls, o);
        assert exists x :: key in Held(calls, x);
      }
    }
  }

  /** A second owner joining keys that are already streamed does not disturb the stream. */
  lemma JoiningActiveKeysIsQuiet(calls: seq<Call>, owner: Owner, symbols: seq<string>, interval: string)
    requires Held(calls, owner) == {}
    requires forall s :: s in symbols ==> StreamKey(s, interval) in After(calls).activeKeys
    ensures After(calls + [Subscribe(owner, symbols, interval)]).tasks == After(calls).tasks
  {
    var call := Subscribe(owner, symbols, interval);
    forall key ensures key in After(calls + [call]).activeKeys <==> key in After(calls).activeKeys {
      SameKeyActive(calls, owner, symbols, interval, key);
    }
    assert After(calls + [call]).activeKeys == After(calls).activeKeys;
    RespawnsOnlyOnChange(calls, call);
  }

  // ---------------------------------------------------------------- the service object

  /** The registry while `_drop_owner_locked` still has the keys `todo` to look at. */
  ghost function PartlyDropped(before: map<StreamKey, set<Owner>>, owner: Owner,
                               todo: set<StreamKey>): map<StreamKey, set<Owner>> {
    map key | key in before && (key in todo || Survives(before[key], owner)) ::
      if key in todo then before[key] else before[key] - {owner}
  }

  lemma PartlyDroppedEnds(before: map<StreamKey, set<Owner>>, owner: Owner)
    ensures PartlyDropped(before, owner, before.Keys) == before
    ensures PartlyDropped(before, owner, {}) == Dropped(before, owner)
  {
  }

  lemma PartlyDroppedStep(before: map<StreamKey, set<Owner>>, owner: Owner, todo: set<StreamKey>, key: StreamKey)
    requires key in todo && todo <= before.Keys
    ensures var now, next := PartlyDropped(before, owner, todo), PartlyDropped(before, owner, todo - {key});
      && key in now && now[key] == before[key]
      && (owner !in before[key] ==> next == now)
      && (owner in before[key] && before[key] - {owner} != {} ==> next == now[key := before[key] - {owner}])
      && (owner in before[key] && before[key] - {owner} == {} ==> next == now[key := before[key] - {owner}] - {key})
  {
    assert owner !in before[key] ==> before[key] - {owner} == before[key];
  }

  lemma NothingDropped(subscriptions: map<StreamKey, set<Owner>>, owner: Owner)
    requires !Holds(subscriptions, owner)
    ensures Dropped(subscriptions, owner) == subscriptions
  {
    assert forall key :: key in subscriptions ==> subscriptions[key] - {owner} == subscriptions[key];
  }

  class BinanceWebsocketService {
    var subscriptions: map<StreamKey, set<Owner>>
    var activeKeys: set<StreamKey>
    var taskHandle: Option<nat>
    /** Every task spawned for a stream so far, with its token. */
    var tasks: seq<StreamTask>

    ghost function View(): Registry
      reads this
    {
      Registry(subscriptions, activeKeys, taskHandle, tasks)
    }

    ghost predicate Valid()
      reads this
    {
      Consistent(View())
    }

    constructor ()
      ensures Valid() && View() == EMPTY_REGISTRY
    {
      subscriptions, activeKeys, taskHandle, tasks := map[], {}, None, [];
    }

    method Subscribe(owner: Owner, symbols: seq<string>, interval: string) returns (ok: bool)
      requires Valid()
      modifies this
      ensures Valid() && View() == Next(old(View()), Call.Subscribe(owner, symbols, interval)) && ok
    {
      NextIsConsistent(View(), Call.Subscribe(owner, symbols, interval));
      var hadAny := DropOwner(owner);
      ghost var dropped := subscriptions;
      for n := 0 to |symbols|
        invariant subscriptions == Joined(dropped, owner, symbols[..n], interval)
        invariant (activeKeys, taskHandle, tasks) == old((activeKeys, taskHandle, tasks))
      {
        assert symbols[..n + 1][..n] == symbols[..n];
        var key := StreamKey(symbols[n], interval);
        var owners := if key in subscriptions then subscriptions[key] else {};
        subscriptions := subscriptions[key := owners + {owner}];
      }
      assert symbols[..|symbols|] == symbols;
      ApplyActiveSet();
      return true;
    }

    method ReleaseOwner(owner: Owner) returns (hadAny: bool)
      requires Valid()
      modifies this
      ensures Valid() && View() == Next(old(View()), Call.ReleaseOwner(owner))
      ensures hadAny <==> old(Holds(subscriptions, owner))
    {
      NextIsConsistent(View(), Call.ReleaseOwner(owner));
      ghost var before := subscriptions;
      hadAny := DropOwner(owner);
      if hadAny {
        ApplyActiveSet();
      } else {
        NothingDropped(before, owner);
      }
    }

    method StopAll() returns (hadAny: bool)
      requires Valid()
      modifies this
      ensures Valid() && View() == Next(old(View()), Call.StopAll)
      ensures hadAny <==> old(subscriptions) != map[]
    {
      NextIsConsistent(View(), Call.StopAll);
      hadAny := subscriptions != map[];
      subscriptions := map[];
      ApplyActiveSet();
    }

    /** `_drop_owner_locked`: over a copy of the keys, since the loop deletes from the dict. */
    method DropOwner(owner: Owner) returns (hadAny: bool)
      modifies this`subscriptions
      ensures subscriptions == Dropped(old(subscriptions), owner)
      ensures hadAny <==> Holds(old(subscriptions), owner)
    {
      ghost var before := subscriptions;
      var todo := subscriptions.Keys;
      hadAny := false;
      PartlyDroppedEnds(before, owner);
      while todo != {}
        invariant todo <= before.Keys
        invariant subscriptions == PartlyDropped(before, owner, todo)
        invariant hadAny <==> exists key :: key in before && key !in todo && owner in before[key]
        decreases |todo|
      {
        var key :| key in todo;
        PartlyDroppedStep(before, owner, todo, key);
        todo := todo - {key};
        var owners := subscriptions[key];
        if owner in owners {
          subscriptions := subscriptions[key := owners - {owner}];
          hadAny := true;
          if owners - {owner} == {} {
            subscriptions := subscriptions - {key};
          }
        }
      }
    }

    /** `_apply_active_set_locked`. */
    method ApplyActiveSet()
      modifies this`activeKeys, this`taskHandle, this`tasks
      requires OneStream(View())
      ensures View() == Applied(old(View()))
    {
      var desired := subscriptions.Keys;
      if desired == activeKeys {
        return;
      }
      if taskHandle.Some? {
        tasks := tasks[taskHandle.value := tasks[taskHandle.value].(cancelled := true)];
        taskHandle := None;
      }
      activeKeys := desired;
      if desired == {} {
        return;
      }
      taskHandle := Some(|tasks|);
      tasks := tasks + [StreamTask(desired, false)];
    }
  }
}
