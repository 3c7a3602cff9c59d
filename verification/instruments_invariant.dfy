/**
  The invariant of the instrument registry, stated through a reference
  table: a well-formed registry is determined by its "_all" bucket alone.
  Every hook bucket lists, in activation order, the active instruments that
  override that hook, and a hook nobody overrides has no bucket at all.
  Activation, deactivation and dispatch keep this invariant.
 */
module InstrumentsInvariant {
  import opened Seqs
  import opened Instrumentation

  /** The instruments of `all` that override `hook`, in the order of `all`. */
  function Subscribers(all: seq<Instrument>, hook: string): (r: seq<Instrument>)
    ensures forall x | x in r :: x in all && hook in Classified(x)
    ensures forall x | x in all && hook in Classified(x) :: x in r
  {
    if all == [] then []
    else
      var init, last := all[..|all| - 1], all[|all| - 1];
      assert all == init + [last];
      Subscribers(init, hook) + (if hook in Classified(last) then [last] else [])
  }

  /** The table of a registry whose active instruments are `all`, in activation order. */
  function Table(all: seq<Instrument>): map<string, seq<Instrument>> {
    map k | k in HookNames + {AllKey} && (k == AllKey || Subscribers(all, k) != []) ::
      if k == AllKey then all else Subscribers(all, k)
  }

  /**
    The registry invariant: "_all" is present and duplicate-free, holds no
    instrument whose classification raises, and the table is the one
    `Table` builds from it.
   */
  predicate Valid(reg: Registry) {
    && AllKey in reg.data
    && NoDups(reg.data[AllKey])
    && (forall x | x in reg.data[AllKey] :: !ClassifyRaises(x))
    && reg.data == Table(reg.data[AllKey])
  }

  lemma ClassifiedAreHooks(x: Instrument)
    ensures forall h | h in Classified(x) :: h in HookNames && h != AllKey
  {
    assert IsPrivate(AllKey);
  }

  lemma SubscribersSnoc(all: seq<Instrument>, x: Instrument, hook: string)
    ensures Subscribers(all + [x], hook) == Subscribers(all, hook) + (if hook in Classified(x) then [x] else [])
  {
    assert (all + [x])[..|all|] == all;
  }

  /** Deactivating an instrument takes it out of each subscriber list, nothing else. */
  lemma {:induction false} SubscribersWithout(all: seq<Instrument>, x: Instrument, hook: string)
    ensures Subscribers(Without(all, x), hook) == Without(Subscribers(all, hook), x)
  {
    if all != [] {
      var init, last := all[..|all| - 1], all[|all| - 1];
      assert all == init + [last];
      SubscribersWithout(init, x, hook);
      PurgeSnoc(init, last, {x});
      SubscribersSnoc(init, last, hook);
      var subs := Subscribers(init, hook);
      if hook in Classified(last) {
        PurgeSnoc(subs, last, {x});
      } else {
        assert Subscribers(all, hook) == subs;
      }
      if last != x {
        assert Without(all, x) == Without(init, x) + [last];
        SubscribersSnoc(Without(init, x), last, hook);
      } else {
        assert Without(all, x) == Without(init, x);
      }
    }
  }

  lemma {:induction false} SubscribersNoDups(all: seq<Instrument>, hook: string)
    requires NoDups(all)
    ensures NoDups(Subscribers(all, hook))
  {
    if all != [] {
      var init, last := all[..|all| - 1], all[|all| - 1];
      assert all == init + [last];
      SubscribersNoDups(init, hook);
      assert last !in init;
    }
  }

  /** Filtering `all` down to one hook's subscribers keeps the order of `all`. */
  lemma {:induction false} SubscribersInOrder(all: seq<Instrument>, hook: string, gone: set<Instrument>)
    requires forall x | x in all :: x in gone <==> hook !in Classified(x)
    ensures Subscribers(all, hook) == Purge(all, gone)
  {
    if all != [] {
      var init, last := all[..|all| - 1], all[|all| - 1];
      assert all == init + [last];
      SubscribersInOrder(init, hook, gone);
      PurgeSnoc(init, last, gone);
    }
  }

  /**
    The buckets of a valid registry: every hook bucket is non-empty and
    lists active instruments, each once, in activation order.
   */
  lemma BucketOfValid(reg: Registry, hook: string)
    requires Valid(reg)
    requires hook in reg.data
    ensures NoDups(reg.data[hook])
    ensures forall x | x in reg.data[hook] :: x in reg.data[AllKey]
    ensures hook != AllKey ==> reg.data[hook] != []
    ensures hook != AllKey ==>
      reg.data[hook] == Purge(reg.data[AllKey], set x | x in reg.data[AllKey] && hook !in Classified(x))
  {
    if hook != AllKey {
      var all := reg.data[AllKey];
      SubscribersNoDups(all, hook);
      SubscribersInOrder(all, hook, set x | x in all && hook !in Classified(x));
    }
  }

  /** `{"_all": {}}`, the table `__init__` starts from, is valid. */
  lemma EmptyIsValid()
    ensures Valid(Registry(map[AllKey := []]))
  {
    var t := Table([]);
    forall k | k in HookNames
      ensures k !in t
    {
      assert Subscribers([], k) == [];
    }
    assert t == map[AllKey := []];
  }

  /** Which keys a table holds, and what each holds. */
  lemma TableAt(all: seq<Instrument>, k: string)
    ensures k in Table(all) <==> k == AllKey || (k in HookNames && Subscribers(all, k) != [])
    ensures k in Table(all) ==> Table(all)[k] == if k == AllKey then all else Subscribers(all, k)
    ensures k != AllKey ==> Get(Table(all), k) == Subscribers(all, k)
  {
  }

  /** The bucket of a hook after appending a new instrument to "_all". */
  lemma AppendedBucket(all: seq<Instrument>, inst: Instrument, k: string)
    requires inst !in all
    requires k != AllKey
    ensures k in Table(all + [inst]) <==> k in Table(all) || k in Classified(inst)
    ensures k in Classified(inst) ==> Get(Table(all + [inst]), k) == AppendIfAbsent(Get(Table(all), k), inst)
    ensures k !in Classified(inst) ==> Get(Table(all + [inst]), k) == Get(Table(all), k)
  {
    ClassifiedAreHooks(inst);
    SubscribersSnoc(all, inst, k);
    TableAt(all, k);
    TableAt(all + [inst], k);
  }

  /** The table after appending a new instrument to "_all", computed bucket by bucket. */
  lemma AppendedTable(all: seq<Instrument>, inst: Instrument, r: map<string, seq<Instrument>>)
    requires inst !in all
    requires r.Keys == Table(all).Keys + Classified(inst)
    requires AllKey in r && r[AllKey] == all + [inst]
    requires forall h | h in Classified(inst) :: r[h] == AppendIfAbsent(Get(Table(all), h), inst)
    requires forall k | k in Table(all) && k != AllKey && k !in Classified(inst) :: r[k] == Table(all)[k]
    ensures r == Table(all + [inst])
  {
    var t := Table(all + [inst]);
    forall k | k != AllKey
      ensures k in r <==> k in t
      ensures k in r ==> r[k] == t[k]
    {
      AppendedBucket(all, inst, k);
    }
    TableAt(all + [inst], AllKey);
    SameMaps(r, t);
  }

  lemma SameMaps<K, V>(a: map<K, V>, b: map<K, V>)
    requires forall k | k in a :: k in b && a[k] == b[k]
    requires forall k | k in b :: k in a
    ensures a == b
  {
  }

  /** A successful activation appends the instrument to "_all" and the table follows. */
  lemma AddMatchesTable(reg: Registry, inst: Instrument)
    requires Valid(reg)
    requires inst !in reg.data[AllKey]
    requires !ClassifyRaises(inst)
    ensures var r := AddInstrument(reg, inst);
      && r.outcome == Returned
      && r.reg.data == Table(reg.data[AllKey] + [inst])
      && Valid(r.reg)
  {
    AppendedTable(reg.data[AllKey], inst, AddInstrument(reg, inst).reg.data);
  }

  /**
    Undoing a partial classification restores the table: every bucket the
    loop created held only the instrument and is deleted again, every
    bucket it extended loses the instrument it gained at the end.
   */
  lemma RollbackRestores(data: map<string, seq<Instrument>>, inst: Instrument, hooks: set<string>)
    requires AllKey in data && AllKey !in hooks
    requires forall k | k in data :: inst !in data[k]
    requires forall k | k in data && k != AllKey :: data[k] != []
    ensures var added := WithAdded(data[AllKey := data[AllKey] + [inst]], inst, hooks);
      Prune(added[AllKey := Without(added[AllKey], inst)], inst) == data
  {
    var added := WithAdded(data[AllKey := data[AllKey] + [inst]], inst, hooks);
    var popped := added[AllKey := Without(added[AllKey], inst)];
    var pruned := Prune(popped, inst);
    forall k
      ensures k in pruned <==> k in data
      ensures k in data ==> pruned[k] == data[k]
    {
      RollbackAt(data, inst, hooks, k);
    }
    SameMaps(pruned, data);
  }

  lemma RollbackAt(data: map<string, seq<Instrument>>, inst: Instrument, hooks: set<string>, k: string)
    requires AllKey in data && AllKey !in hooks
    requires forall k | k in data :: inst !in data[k]
    requires forall k | k in data && k != AllKey :: data[k] != []
    ensures var added := WithAdded(data[AllKey := data[AllKey] + [inst]], inst, hooks);
      var pruned := Prune(added[AllKey := Without(added[AllKey], inst)], inst);
      && (k in pruned <==> k in data)
      && (k in data ==> pruned[k] == data[k])
  {
    var added := WithAdded(data[AllKey := data[AllKey] + [inst]], inst, hooks);
    var popped := added[AllKey := Without(added[AllKey], inst)];
    if k == AllKey {
      WithoutAppended(data[AllKey], inst);
      assert popped[k] == data[k];
    } else if k in hooks {
      assert popped[k] == Get(data, k) + [inst];
      WithoutAppended(Get(data, k), inst);
    } else if k in data {
      assert popped[k] == data[k];
    }
  }

  /** A failed activation leaves a valid registry exactly as it was. */
  lemma AddFailureRollsBack(reg: Registry, inst: Instrument)
    requires Valid(reg)
    requires inst !in reg.data[AllKey]
    requires ClassifyRaises(inst)
    ensures AddInstrument(reg, inst) == Step(reg, Raised(LookupFailed(inst, inst.attrs[inst.brokenAt.value])))
  {
    var all := reg.data[AllKey];
    var data := reg.data[AllKey := all + [inst]];
    var hooks := OverriddenIn(inst, 0, ClassifyEnd(inst));
    var registered := RegisterFrom(data, inst, 0);
    assert IsPrivate(AllKey);
    assert registered.data == WithAdded(data, inst, hooks);
    forall k | k in reg.data
      ensures inst !in reg.data[k]
    {
      if k != AllKey {
        assert reg.data[k] == Subscribers(all, k);
      }
    }
    RollbackRestores(reg.data, inst, hooks);
  }

  /** Activation of any instrument keeps a registry valid. */
  lemma AddKeepsValid(reg: Registry, inst: Instrument)
    requires Valid(reg)
    ensures Valid(AddInstrument(reg, inst).reg)
  {
    if inst !in reg.data[AllKey] {
      if ClassifyRaises(inst) {
        AddFailureRollsBack(reg, inst);
      } else {
        AddMatchesTable(reg, inst);
      }
    }
  }

  /** The bucket of a hook after deleting an instrument from "_all". */
  lemma RemovedBucket(all: seq<Instrument>, inst: Instrument, k: string)
    requires k != AllKey
    ensures k in Table(Without(all, inst)) <==>
      k in Table(all) && (inst !in Table(all)[k] || Without(Table(all)[k], inst) != [])
    ensures k in Table(Without(all, inst)) ==> Table(Without(all, inst))[k] == Without(Table(all)[k], inst)
  {
    SubscribersWithout(all, inst, k);
    TableAt(all, k);
    TableAt(Without(all, inst), k);
  }

  /** The table after deleting an instrument from "_all", computed bucket by bucket. */
  lemma RemovedTable(all: seq<Instrument>, inst: Instrument, r: map<string, seq<Instrument>>)
    requires r.Keys <= Table(all).Keys
    requires forall k | k in Table(all) ::
      k in r <==> k == AllKey || inst !in Table(all)[k] || Without(Table(all)[k], inst) != []
    requires forall k | k in r :: r[k] == Without(Table(all)[k], inst)
    ensures r == Table(Without(all, inst))
  {
    var t := Table(Without(all, inst));
    forall k | k != AllKey
      ensures k in r <==> k in t
      ensures k in r ==> r[k] == t[k]
    {
      RemovedBucket(all, inst, k);
    }
    TableAt(all, AllKey);
    TableAt(Without(all, inst), AllKey);
    SameMaps(r, t);
  }

  /** Deactivation deletes the instrument from "_all" and the table follows. */
  lemma RemoveMatchesTable(reg: Registry, inst: Instrument)
    requires Valid(reg)
    ensures var r := RemoveInstrument(reg, inst);
      && Valid(r.reg)
      && (r.outcome == Returned ==> r.reg.data == Table(Without(reg.data[AllKey], inst)))
  {
    var all := reg.data[AllKey];
    if inst in all {
      RemovedTable(all, inst, RemoveInstrument(reg, inst).reg.data);
      PurgeKeepsNoDups(all, {inst});
    }
  }

  /** Activating a new instrument and deactivating it again is the identity. */
  lemma AddThenRemove(reg: Registry, inst: Instrument)
    requires Valid(reg)
    requires inst !in reg.data[AllKey]
    requires !ClassifyRaises(inst)
    ensures RemoveInstrument(AddInstrument(reg, inst).reg, inst) == Step(reg, Returned)
  {
    var added := AddInstrument(reg, inst).reg;
    AddMatchesTable(reg, inst);
    RemoveMatchesTable(added, inst);
    WithoutAppended(reg.data[AllKey], inst);
  }

  /**
    A hook of a valid registry has a bucket exactly when some active
    instrument overrides it: empty buckets never linger.
   */
  lemma ListeningIffOverridden(reg: Registry, hook: string)
    requires Valid(reg)
    requires hook != AllKey
    ensures IsListening(reg, hook) <==> exists x :: x in reg.data[AllKey] && hook in Classified(x)
  {
    var subs := Subscribers(reg.data[AllKey], hook);
    if subs != [] {
      assert subs[0] in subs;
    }
    forall x | x in reg.data[AllKey] && hook in Classified(x)
      ensures IsListening(reg, hook)
    {
      ClassifiedAreHooks(x);
      assert x in subs;
    }
  }

  lemma PerformKeepsValid(reg: Registry, action: Action)
    requires Valid(reg)
    ensures Valid(Perform(reg, action).reg)
  {
    match action
    case Activate(x) => AddKeepsValid(reg, x);
    case Deactivate(x) => RemoveMatchesTable(reg, x);
  }

  lemma {:induction false} RunHookKeepsValid(reg: Registry, actions: seq<Action>, raisesAfter: bool)
    requires Valid(reg)
    ensures Valid(RunHook(reg, actions, raisesAfter).reg)
    decreases |actions|
  {
    if actions != [] {
      PerformKeepsValid(reg, actions[0]);
      var step := Perform(reg, actions[0]);
      if step.outcome == Returned {
        RunHookKeepsValid(step.reg, actions[1..], raisesAfter);
      }
    }
  }

  /** However the hooks behave, re-entrant calls included, dispatch keeps the registry valid. */
  lemma {:induction false} DispatchKeepsValid(reg: Registry, hook: string, snapshot: seq<Instrument>, behaviour: Instrument -> HookRun)
    requires Valid(reg)
    ensures Valid(DispatchFrom(reg, hook, snapshot, behaviour).reg)
    decreases |snapshot|
  {
    if snapshot != [] {
      var run := behaviour(snapshot[0]);
      RunHookKeepsValid(reg, run.actions, run.raises);
      var ran := RunHook(reg, run.actions, run.raises);
      RemoveMatchesTable(ran.reg, snapshot[0]);
      var one := Invoke(reg, hook, snapshot[0], run);
      assert Valid(one.reg);
      if one.outcome == Returned {
        DispatchKeepsValid(one.reg, hook, snapshot[1..], behaviour);
      }
    }
  }

  /** The instruments of `snapshot` whose hook raises. */
  function Faulty(snapshot: seq<Instrument>, behaviour: Instrument -> HookRun): set<Instrument> {
    set x | x in snapshot && behaviour(x).raises
  }

  /** One log record per faulty instrument of `snapshot`, in snapshot order. */
  function FaultLog(hook: string, snapshot: seq<Instrument>, behaviour: Instrument -> HookRun): seq<LogRecord> {
    if snapshot == [] then []
    else
      (if behaviour(snapshot[0]).raises then [LogRecord(hook, snapshot[0])] else [])
      + FaultLog(hook, snapshot[1..], behaviour)
  }

  lemma NoDupsTail<T>(s: seq<T>)
    requires s != [] && NoDups(s)
    ensures NoDups(s[1..])
    ensures s[0] !in s[1..]
  {
  }

  lemma FaultySplit(snapshot: seq<Instrument>, behaviour: Instrument -> HookRun)
    requires snapshot != []
    ensures Faulty(snapshot, behaviour)
      == (if behaviour(snapshot[0]).raises then {snapshot[0]} else {}) + Faulty(snapshot[1..], behaviour)
  {
    assert snapshot == [snapshot[0]] + snapshot[1..];
  }

  /** One turn of `call` for an active instrument whose hook makes no registry calls. */
  lemma InvokeWithoutReentrancy(reg: Registry, hook: string, inst: Instrument, run: HookRun)
    requires Valid(reg)
    requires inst in reg.data[AllKey]
    requires run.actions == []
    ensures var one := Invoke(reg, hook, inst, run);
      && one.outcome == Returned
      && one.invoked == [inst]
      && one.log == (if run.raises then [LogRecord(hook, inst)] else [])
      && Valid(one.reg)
      && one.reg.data[AllKey] == Purge(reg.data[AllKey], if run.raises then {inst} else {})
  {
    var one := Invoke(reg, hook, inst, run);
    assert RunHook(reg, run.actions, run.raises) == HookResult(reg, run.raises);
    if run.raises {
      var removed := RemoveInstrument(reg, inst);
      RemoveMatchesTable(reg, inst);
      assert one == Dispatch(removed.reg, [inst], [LogRecord(hook, inst)], Returned);
    } else {
      assert one == Dispatch(reg, [inst], [], Returned);
    }
  }

  /** The first turn of `call` ends normally, so the loop goes on with the rest. */
  lemma DispatchUnfold(reg: Registry, hook: string, snapshot: seq<Instrument>, behaviour: Instrument -> HookRun)
    requires AllKey in reg.data
    requires snapshot != []
    requires Invoke(reg, hook, snapshot[0], behaviour(snapshot[0])).outcome == Returned
    ensures var one := Invoke(reg, hook, snapshot[0], behaviour(snapshot[0]));
      var rest := DispatchFrom(one.reg, hook, snapshot[1..], behaviour);
      DispatchFrom(reg, hook, snapshot, behaviour) == Dispatch(rest.reg, [snapshot[0]] + rest.invoked, one.log + rest.log, rest.outcome)
  {
  }

  /**
    Fault isolation when hooks make no registry calls: every entry of the
    snapshot is invoked in order, no error leaves the dispatch, each
    faulty instrument is deactivated and logged once, and the others stay
    active in their places.
   */
  lemma {:induction false} DispatchWithoutReentrancy(reg: Registry, hook: string, snapshot: seq<Instrument>, behaviour: Instrument -> HookRun)
    requires Valid(reg)
    requires NoDups(snapshot)
    requires forall x | x in snapshot :: x in reg.data[AllKey] && behaviour(x).actions == []
    ensures var r := DispatchFrom(reg, hook, snapshot, behaviour);
      && r.outcome == Returned
      && r.invoked == snapshot
      && r.log == FaultLog(hook, snapshot, behaviour)
      && Valid(r.reg)
      && r.reg.data[AllKey] == Purge(reg.data[AllKey], Faulty(snapshot, behaviour))
    decreases |snapshot|
  {
    var all := reg.data[AllKey];
    if snapshot == [] {
      assert Faulty(snapshot, behaviour) == {};
    } else {
      var x, rest := snapshot[0], snapshot[1..];
      assert snapshot == [x] + rest;
      var gone: set<Instrument> := if behaviour(x).raises then {x} else {};
      InvokeWithoutReentrancy(reg, hook, x, behaviour(x));
      var one := Invoke(reg, hook, x, behaviour(x));
      NoDupsTail(snapshot);
      forall y | y in rest
        ensures y in one.reg.data[AllKey] && behaviour(y).actions == []
      {
        assert y in snapshot;
      }
      DispatchWithoutReentrancy(one.reg, hook, rest, behaviour);
      DispatchUnfold(reg, hook, snapshot, behaviour);
      PurgeTwice(all, gone, Faulty(rest, behaviour));
      FaultySplit(snapshot, behaviour);
    }
  }

  /** `call` on a valid registry whose hooks make no registry calls. */
  lemma CallWithoutReentrancy(reg: Registry, hook: string, behaviour: Instrument -> HookRun)
    requires Valid(reg)
    requires hook in reg.data
    requires forall x | x in reg.data[hook] :: behaviour(x).actions == []
    ensures var r := Call(reg, hook, behaviour);
      && r.outcome == Returned
      && r.invoked == reg.data[hook]
      && r.log == FaultLog(hook, reg.data[hook], behaviour)
      && Valid(r.reg)
      && r.reg.data[AllKey] == Purge(reg.data[AllKey], Faulty(reg.data[hook], behaviour))
  {
    BucketOfValid(reg, hook);
    DispatchWithoutReentrancy(reg, hook, reg.data[hook], behaviour);
  }

  /** The constructor's loop after its first `i` activations all succeeded. */
  predicate BuiltFrom(reg: Registry, incoming: seq<Instrument>, i: nat)
    requires i <= |incoming|
  {
    && Valid(reg)
    && reg.data[AllKey] == Dedup(incoming[..i])
    && forall j | 0 <= j < i :: !ClassifyRaises(incoming[j])
  }

  /** One activation of the constructor's loop. */
  lemma ActivateNext(reg: Registry, incoming: seq<Instrument>, i: nat)
    requires i < |incoming| && BuiltFrom(reg, incoming, i)
    ensures var step := AddInstrument(reg, incoming[i]);
      && (step.outcome.Raised? <==> ClassifyRaises(incoming[i]))
      && (step.outcome.Raised? ==> step.outcome.error == LookupFailed(incoming[i], incoming[i].attrs[incoming[i].brokenAt.value]))
      && (step.outcome == Returned ==> BuiltFrom(step.reg, incoming, i + 1))
  {
    var inst := incoming[i];
    TakeOneMore(incoming, i);
    assert (incoming[..i] + [inst])[..i] == incoming[..i];
    if inst !in reg.data[AllKey] {
      if ClassifyRaises(inst) {
        AddFailureRollsBack(reg, inst);
      } else {
        AddMatchesTable(reg, inst);
      }
    }
  }

  /**
    `Instruments(incoming)`: start from `{"_all": {}}` and activate each
    incoming instrument in turn. Duplicates collapse to their first
    occurrence; the first instrument whose classification raises aborts
    construction with that error.
   */
  method NewInstruments(incoming: seq<Instrument>) returns (r: Step)
    ensures r.outcome == Returned <==> forall i | 0 <= i < |incoming| :: !ClassifyRaises(incoming[i])
    ensures r.outcome == Returned ==> Valid(r.reg) && r.reg.data == Table(Dedup(incoming))
    ensures r.outcome.Raised? ==> exists i | 0 <= i < |incoming| ::
      && ClassifyRaises(incoming[i])
      && r.outcome.error == LookupFailed(incoming[i], incoming[i].attrs[incoming[i].brokenAt.value])
      && forall j | 0 <= j < i :: !ClassifyRaises(incoming[j])
  {
    var reg := Registry(map[AllKey := []]);
    EmptyIsValid();
    var i := 0;
    while i < |incoming|
      invariant i <= |incoming|
      invariant BuiltFrom(reg, incoming, i)
    {
      ActivateNext(reg, incoming, i);
      var step := AddInstrument(reg, incoming[i]);
      if step.outcome.Raised? {
        StopsAt(incoming, i, step);
        return step;
      }
      reg := step.reg;
      i := i + 1;
    }
    BuiltAll(reg, incoming);
    return Step(reg, Returned);
  }

  /** The constructor stops at the first instrument whose classification raises. */
  lemma StopsAt(incoming: seq<Instrument>, i: nat, step: Step)
    requires i < |incoming| && ClassifyRaises(incoming[i])
    requires forall j | 0 <= j < i :: !ClassifyRaises(incoming[j])
    requires step.outcome == Raised(LookupFailed(incoming[i], incoming[i].attrs[incoming[i].brokenAt.value]))
    ensures !(forall j | 0 <= j < |incoming| :: !ClassifyRaises(incoming[j]))
    ensures exists k | 0 <= k < |incoming| ::
      && ClassifyRaises(incoming[k])
      && step.outcome.error == LookupFailed(incoming[k], incoming[k].attrs[incoming[k].brokenAt.value])
      && forall j | 0 <= j < k :: !ClassifyRaises(incoming[j])
  {
  }

  /** The constructor's loop after every activation succeeded. */
  lemma BuiltAll(reg: Registry, incoming: seq<Instrument>)
    requires BuiltFrom(reg, incoming, |incoming|)
    ensures Valid(reg) && reg.data == Table(Dedup(incoming))
    ensures forall j | 0 <= j < |incoming| :: !ClassifyRaises(incoming[j])
  {
    assert incoming[..|incoming|] == incoming;
  }
}
