/**
  The instrument registry of Trio's run loop (`Instruments` in
  src/trio/_core/_instrumentation.py).

  The registry is a dict from key to an insertion-ordered set of
  instruments. The reserved key "_all" holds every active instrument; every
  other key is a hook name whose bucket holds the active instruments that
  override that hook, in the order they were activated. Python's dict-as-set
  is modelled as a duplicate-free sequence (see module Seqs).

  Python reflection is replaced by data carried by each instrument: the
  names `dir()` lists, which of them are not inherited unchanged from the
  base `Instrument` class, and at which of them the attribute lookup raises.
  A hook's execution is an oracle: the registry calls it may make
  re-entrantly, and whether it raises afterwards.
 */
module Instrumentation {
  import opened Wrappers
  import opened Seqs

  /** The reserved key of the bucket holding every active instrument. */
  const AllKey: string := "_all"

  /** The hooks the base `Instrument` class declares (one method each). */
  const HookNames: set<string> := {
    "before_run", "after_run",
    "task_spawned", "task_scheduled", "task_exited",
    "before_task_step", "after_task_step",
    "before_io_wait", "after_io_wait"
  }

  /**
    An instrument object. Identity is the whole value; `id` tells apart two
    instruments that behave alike.
    - `attrs`: the names `dir(instrument)` lists, in that order;
    - `custom`: the names whose attribute is not the base class's method
      inherited unchanged (overrides, and attributes the base lacks);
    - `brokenAt`: `Some(i)` when looking up attribute `attrs[i]` on the
      instrument raises.
   */
  datatype Instrument = Instrument(id: nat, attrs: seq<string>, custom: set<string>, brokenAt: Option<nat>)

  datatype Registry = Registry(data: map<string, seq<Instrument>>)

  datatype Error =
    | NotActive(inst: Instrument)                  // KeyError from `pop`
    | LookupFailed(inst: Instrument, name: string) // raised while classifying

  /** How a Python call ended: it returned, or it raised. */
  datatype Outcome = Returned | Raised(error: Error)

  /** The registry after an operation, and how the operation ended. */
  datatype Step = Step(reg: Registry, outcome: Outcome)

  predicate IsPrivate(name: string) {
    |name| > 0 && name[0] == '_'
  }

  /** A name that passes both filters of the classification loop. */
  predicate IsHookName(name: string) {
    !IsPrivate(name) && name in HookNames
  }

  /** The instrument registers under `name`: a hook it does not inherit unchanged. */
  predicate Overrides(inst: Instrument, name: string) {
    IsHookName(name) && name in inst.custom
  }

  /** The classification loop reaches the broken attribute and raises. */
  predicate ClassifyRaises(inst: Instrument) {
    && inst.brokenAt.Some?
    && inst.brokenAt.value < |inst.attrs|
    && IsHookName(inst.attrs[inst.brokenAt.value])
  }

  /** The index at which the classification loop stops. */
  function ClassifyEnd(inst: Instrument): (r: nat)
    ensures r <= |inst.attrs|
  {
    if ClassifyRaises(inst) then inst.brokenAt.value else |inst.attrs|
  }

  /** The hook names registered while the loop visits `attrs[lo..hi]`. */
  function OverriddenIn(inst: Instrument, lo: nat, hi: nat): set<string> {
    set j | lo <= j < hi && j < |inst.attrs| && Overrides(inst, inst.attrs[j]) :: inst.attrs[j]
  }

  /** The buckets an instrument joins when its classification succeeds. */
  function Classified(inst: Instrument): set<string> {
    OverriddenIn(inst, 0, |inst.attrs|)
  }

  /** `dict.get(key, {})`, as `setdefault` sees it. */
  function Get(data: map<string, seq<Instrument>>, key: string): seq<Instrument> {
    if key in data then data[key] else []
  }

  /** `data` after `data.setdefault(h, {})[inst] = None` for every `h` in `hooks`. */
  function WithAdded(data: map<string, seq<Instrument>>, inst: Instrument, hooks: set<string>): map<string, seq<Instrument>> {
    map k | k in data.Keys + hooks :: if k in hooks then AppendIfAbsent(Get(data, k), inst) else data[k]
  }

  datatype Registration = Registration(data: map<string, seq<Instrument>>, raised: bool)

  /**
    The classification loop of `add_instrument`, from `attrs[i]` on: skip
    private names and names the base class lacks, look the attribute up
    (which may raise), skip methods inherited unchanged, and register the
    instrument under the rest.
   */
  function RegisterFrom(data: map<string, seq<Instrument>>, inst: Instrument, i: nat): (r: Registration)
    requires i <= ClassifyEnd(inst)
    ensures r.raised == ClassifyRaises(inst)
    ensures r.data == WithAdded(data, inst, OverriddenIn(inst, i, ClassifyEnd(inst)))
    decreases |inst.attrs| - i
  {
    if i == |inst.attrs| then
      assert OverriddenIn(inst, i, ClassifyEnd(inst)) == {};
      assert WithAdded(data, inst, {}) == data;
      Registration(data, false)
    else
      var name := inst.attrs[i];
      if IsPrivate(name) || name !in HookNames then
        SkipOne(inst, i);
        RegisterFrom(data, inst, i + 1)
      else if inst.brokenAt == Some(i) then
        assert OverriddenIn(inst, i, ClassifyEnd(inst)) == {};
        assert WithAdded(data, inst, {}) == data;
        Registration(data, true)
      else if name !in inst.custom then
        SkipOne(inst, i);
        RegisterFrom(data, inst, i + 1)
      else
        TakeOne(inst, i);
        AddedOne(data, inst, name, OverriddenIn(inst, i + 1, ClassifyEnd(inst)));
        RegisterFrom(data[name := AppendIfAbsent(Get(data, name), inst)], inst, i + 1)
  }

  lemma SkipOne(inst: Instrument, i: nat)
    requires i < ClassifyEnd(inst)
    requires !Overrides(inst, inst.attrs[i])
    ensures OverriddenIn(inst, i, ClassifyEnd(inst)) == OverriddenIn(inst, i + 1, ClassifyEnd(inst))
  {
  }

  lemma TakeOne(inst: Instrument, i: nat)
    requires i < ClassifyEnd(inst)
    requires Overrides(inst, inst.attrs[i])
    ensures OverriddenIn(inst, i, ClassifyEnd(inst)) == {inst.attrs[i]} + OverriddenIn(inst, i + 1, ClassifyEnd(inst))
  {
  }

  lemma AddedOne(data: map<string, seq<Instrument>>, inst: Instrument, name: string, hooks: set<string>)
    ensures WithAdded(data[name := AppendIfAbsent(Get(data, name), inst)], inst, hooks) == WithAdded(data, inst, {name} + hooks)
  {
  }

  /**
    `add_instrument`: a no-op for an active instrument; otherwise put it into
    "_all", classify it, and on an error roll back with `remove_instrument`
    and re-raise.
   */
  function AddInstrument(reg: Registry, inst: Instrument): (r: Step)
    requires AllKey in reg.data
    ensures AllKey in r.reg.data
    ensures inst in reg.data[AllKey] ==> r == Step(reg, Returned)
    ensures inst !in reg.data[AllKey] ==> (r.outcome == Returned <==> !ClassifyRaises(inst))
    ensures r.outcome == Returned ==> inst in r.reg.data[AllKey]
    ensures r.outcome == Returned && inst !in reg.data[AllKey] ==>
      && r.reg.data[AllKey] == reg.data[AllKey] + [inst]
      && r.reg.data.Keys == reg.data.Keys + Classified(inst)
      && (forall h | h in Classified(inst) :: r.reg.data[h] == AppendIfAbsent(Get(reg.data, h), inst))
      && (forall k | k in reg.data && k != AllKey && k !in Classified(inst) :: r.reg.data[k] == reg.data[k])
    ensures r.outcome.Raised? ==>
      && ClassifyRaises(inst)
      && r.outcome.error == LookupFailed(inst, inst.attrs[inst.brokenAt.value])
      && (forall k | k in r.reg.data :: inst !in r.reg.data[k])
  {
    if inst in reg.data[AllKey] then Step(reg, Returned)
    else
      var data := reg.data[AllKey := reg.data[AllKey] + [inst]];
      var registered := RegisterFrom(data, inst, 0);
      assert AllKey !in OverriddenIn(inst, 0, ClassifyEnd(inst));
      if !registered.raised then
        Step(Registry(registered.data), Returned)
      else
        // The pop inside the rollback finds the instrument: it went into
        // "_all" above and the loop only touches hook buckets.
        var rollback := RemoveInstrument(Registry(registered.data), inst);
        Step(rollback.reg, Raised(LookupFailed(inst, inst.attrs[inst.brokenAt.value])))
  }

  /** Every bucket after `del bucket[inst]`, dropping each hook bucket this empties. */
  function Prune(data: map<string, seq<Instrument>>, inst: Instrument): map<string, seq<Instrument>> {
    map k | k in data && (inst !in data[k] || Without(data[k], inst) != []) ::
      if inst in data[k] then Without(data[k], inst) else data[k]
  }

  /**
    `remove_instrument`: `KeyError` when the instrument is not active;
    otherwise take it out of "_all" and of every bucket, deleting the
    buckets that become empty.
   */
  function RemoveInstrument(reg: Registry, inst: Instrument): (r: Step)
    requires AllKey in reg.data
    ensures AllKey in r.reg.data
    ensures r.outcome.Raised? <==> inst !in reg.data[AllKey]
    ensures r.outcome.Raised? ==> r == Step(reg, Raised(NotActive(inst)))
    ensures r.outcome == Returned ==>
      && r.reg.data.Keys <= reg.data.Keys
      && (forall k | k in reg.data ::
            k in r.reg.data <==> k == AllKey || inst !in reg.data[k] || Without(reg.data[k], inst) != [])
      && (forall k | k in r.reg.data :: inst !in r.reg.data[k] && r.reg.data[k] == Without(reg.data[k], inst))
  {
    if inst !in reg.data[AllKey] then Step(reg, Raised(NotActive(inst)))
    else Step(Registry(Prune(reg.data[AllKey := Without(reg.data[AllKey], inst)], inst)), Returned)
  }

  /** `"hook" in instruments`: the run loop's check before paying for a call. */
  predicate IsListening(reg: Registry, hook: string) {
    hook in reg.data
  }

  /** A registry call a hook makes re-entrantly while it runs. */
  datatype Action = Activate(inst: Instrument) | Deactivate(inst: Instrument)

  /**
    What one hook invocation does: the registry calls it makes, in order,
    and whether it raises after them. An error from one of those calls
    propagates out of the hook.
   */
  datatype HookRun = HookRun(actions: seq<Action>, raises: bool)

  datatype HookResult = HookResult(reg: Registry, raised: bool)

  function Perform(reg: Registry, action: Action): (r: Step)
    requires AllKey in reg.data
    ensures AllKey in r.reg.data
  {
    match action
    case Activate(x) => AddInstrument(reg, x)
    case Deactivate(x) => RemoveInstrument(reg, x)
  }

  function RunHook(reg: Registry, actions: seq<Action>, raisesAfter: bool): (r: HookResult)
    requires AllKey in reg.data
    ensures AllKey in r.reg.data
    ensures actions == [] ==> r == HookResult(reg, raisesAfter)
    decreases |actions|
  {
    if actions == [] then HookResult(reg, raisesAfter)
    else
      var step := Perform(reg, actions[0]);
      if step.outcome.Raised? then HookResult(step.reg, true)
      else RunHook(step.reg, actions[1..], raisesAfter)
  }

  /** What `INSTRUMENT_LOGGER.exception` records when it disables an instrument. */
  datatype LogRecord = LogRecord(hook: string, inst: Instrument)

  /** The state after a `call`, the instruments whose hook ran, and the log. */
  datatype Dispatch = Dispatch(reg: Registry, invoked: seq<Instrument>, log: seq<LogRecord>, outcome: Outcome)

  /**
    One turn of the loop of `call`: run the hook of `inst`; if it raises,
    remove the instrument and log it. A `KeyError` from that removal
    escapes before the log line.
   */
  function Invoke(reg: Registry, hook: string, inst: Instrument, run: HookRun): (r: Dispatch)
    requires AllKey in reg.data
    ensures AllKey in r.reg.data
    ensures r.invoked == [inst]
    ensures r.log == [] || r.log == [LogRecord(hook, inst)]
    ensures r.outcome.Raised? ==> r.outcome.error == NotActive(inst) && r.log == []
  {
    var ran := RunHook(reg, run.actions, run.raises);
    if !ran.raised then Dispatch(ran.reg, [inst], [], Returned)
    else
      var removed := RemoveInstrument(ran.reg, inst);
      if removed.outcome.Raised? then Dispatch(removed.reg, [inst], [], removed.outcome)
      else Dispatch(removed.reg, [inst], [LogRecord(hook, inst)], Returned)
  }

  /**
    The fault path of one turn, with re-entrant hooks: a turn whose hook
    returns logs nothing and leaves the registry as the hook left it; a
    turn whose hook raises removes the instrument from every bucket and
    logs it, unless the hook's own registry calls already deactivated it,
    in which case the removal's `KeyError` is the outcome and nothing is
    logged.
   */
  lemma InvokeFaultPath(reg: Registry, hook: string, inst: Instrument, run: HookRun)
    requires AllKey in reg.data
    ensures var ran, r := RunHook(reg, run.actions, run.raises), Invoke(reg, hook, inst, run);
      && (!ran.raised ==> r.log == [] && r.outcome == Returned && r.reg == ran.reg)
      && (r.log != [] ==> ran.raised && forall k | k in r.reg.data :: inst !in r.reg.data[k])
      && (r.outcome.Raised? <==> ran.raised && inst !in ran.reg.data[AllKey])
      && (ran.raised && inst in ran.reg.data[AllKey] ==> r.log == [LogRecord(hook, inst)])
  {
  }

  /**
    The loop of `call` over the rest of its snapshot. An instrument whose
    hook raises is removed and logged, and the loop goes on. When that
    removal raises `KeyError` (something already removed the instrument),
    the `KeyError` leaves `call` and the remaining entries are not visited.
   */
  function DispatchFrom(reg: Registry, hook: string, snapshot: seq<Instrument>, behaviour: Instrument -> HookRun): (r: Dispatch)
    requires AllKey in reg.data
    ensures AllKey in r.reg.data
    ensures r.invoked <= snapshot
    ensures r.outcome == Returned ==> r.invoked == snapshot
    ensures r.outcome.Raised? ==> |r.invoked| > 0 && r.outcome.error == NotActive(r.invoked[|r.invoked| - 1])
    ensures forall i | 0 <= i < |r.log| :: r.log[i].hook == hook && r.log[i].inst in r.invoked
    decreases |snapshot|
  {
    if snapshot == [] then Dispatch(reg, [], [], Returned)
    else
      var one := Invoke(reg, hook, snapshot[0], behaviour(snapshot[0]));
      if one.outcome.Raised? then one
      else
        var rest := DispatchFrom(one.reg, hook, snapshot[1..], behaviour);
        TurnThenRest(hook, snapshot, one, rest);
        Dispatch(rest.reg, one.invoked + rest.invoked, one.log + rest.log, rest.outcome)
  }

  /** A completed first turn followed by the loop over the rest of the snapshot. */
  lemma TurnThenRest(hook: string, snapshot: seq<Instrument>, one: Dispatch, rest: Dispatch)
    requires snapshot != [] && one.invoked == [snapshot[0]]
    requires forall i | 0 <= i < |one.log| :: one.log[i].hook == hook && one.log[i].inst in one.invoked
    requires rest.invoked <= snapshot[1..]
    requires rest.outcome == Returned ==> rest.invoked == snapshot[1..]
    requires rest.outcome.Raised? ==> |rest.invoked| > 0 && rest.outcome.error == NotActive(rest.invoked[|rest.invoked| - 1])
    requires forall i | 0 <= i < |rest.log| :: rest.log[i].hook == hook && rest.log[i].inst in rest.invoked
    ensures var r := Dispatch(rest.reg, one.invoked + rest.invoked, one.log + rest.log, rest.outcome);
      && r.invoked <= snapshot
      && (r.outcome == Returned ==> r.invoked == snapshot)
      && (r.outcome.Raised? ==> |r.invoked| > 0 && r.outcome.error == NotActive(r.invoked[|r.invoked| - 1]))
      && forall i | 0 <= i < |r.log| :: r.log[i].hook == hook && r.log[i].inst in r.invoked
  {
    var invoked := one.invoked + rest.invoked;
    assert snapshot == [snapshot[0]] + snapshot[1..];
    if rest.outcome.Raised? {
      assert invoked[|invoked| - 1] == rest.invoked[|rest.invoked| - 1];
    }
    var log := one.log + rest.log;
    forall i | 0 <= i < |log|
      ensures log[i].hook == hook && log[i].inst in invoked
    {
      if i < |one.log| {
        assert log[i] == one.log[i];
      } else {
        assert log[i] == rest.log[i - |one.log|];
      }
    }
  }

  /**
    `call(hookname, *args)`: run the hook of every instrument of a snapshot
    of the bucket, in order. Indexing the bucket needs it to exist.
   */
  function Call(reg: Registry, hook: string, behaviour: Instrument -> HookRun): (r: Dispatch)
    requires AllKey in reg.data
    requires hook in reg.data
    ensures AllKey in r.reg.data
    ensures r.outcome == Returned ==> r.invoked == reg.data[hook]
    ensures r.invoked <= reg.data[hook]
    ensures r.outcome.Raised? ==> r.outcome.error.NotActive? && r.outcome.error.inst in reg.data[hook]
  {
    DispatchFrom(reg, hook, reg.data[hook], behaviour)
  }
}
