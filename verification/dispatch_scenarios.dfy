/**
  Two concrete dispatches on a registry where instruments `a` and `b` both
  override `before_task_step`, and `a`'s hook deactivates `b`.
  - If `b`'s hook then runs normally, `b` is still invoked: `call` walks a
    snapshot of the bucket taken before the loop.
  - If `b`'s hook raises, the removal of `b` on the fault path raises
    `KeyError`, which leaves `call`.
 */
module DispatchScenarios {
  import opened Wrappers
  import opened Seqs
  import opened Instrumentation
  import opened InstrumentsInvariant

  const BeforeTaskStep: string := "before_task_step"

  function A(): Instrument {
    Instrument(1, [BeforeTaskStep], {BeforeTaskStep}, None)
  }

  function B(): Instrument {
    Instrument(2, [BeforeTaskStep], {BeforeTaskStep}, None)
  }

  /** The registry after activating `a` and then `b`. */
  function Both(): Registry {
    Registry(map[AllKey := [A(), B()], BeforeTaskStep := [A(), B()]])
  }

  /** The registry after `a`'s hook has deactivated `b`. */
  function OnlyA(): Registry {
    Registry(map[AllKey := [A()], BeforeTaskStep := [A()]])
  }

  lemma ClassifiedStep(x: Instrument)
    requires x == A() || x == B()
    ensures Classified(x) == {BeforeTaskStep}
  {
    assert x.attrs[0] == BeforeTaskStep;
    assert BeforeTaskStep in Classified(x);
  }

  lemma SubscribersOfBoth(k: string)
    ensures Subscribers([A(), B()], k) == if k == BeforeTaskStep then [A(), B()] else []
  {
    ClassifiedStep(A());
    ClassifiedStep(B());
    assert [A(), B()] == [A()] + [B()];
    assert [A()] == [] + [A()];
    SubscribersSnoc([A()], B(), k);
    SubscribersSnoc([], A(), k);
  }

  lemma TableOfBoth()
    ensures Table([A(), B()]) == Both().data
  {
    var t := Table([A(), B()]);
    forall k | k != AllKey
      ensures k in t <==> k in Both().data
      ensures k in t ==> t[k] == Both().data[k]
    {
      SubscribersOfBoth(k);
      TableAt([A(), B()], k);
    }
    TableAt([A(), B()], AllKey);
    SameMaps(t, Both().data);
  }

  /** The example registry is well-formed. */
  lemma BothIsValid()
    ensures Valid(Both())
  {
    TableOfBoth();
  }

  lemma ActivateA()
    ensures var r := AddInstrument(Registry(map[AllKey := []]), A()).reg;
      Valid(r) && r.data[AllKey] == [A()]
  {
    EmptyIsValid();
    AddMatchesTable(Registry(map[AllKey := []]), A());
  }

  lemma ActivateB(one: Registry)
    requires Valid(one) && one.data[AllKey] == [A()]
    ensures AddInstrument(one, B()).reg == Both()
  {
    AddMatchesTable(one, B());
    assert [A()] + [B()] == [A(), B()];
    TableOfBoth();
  }

  /** The example registry is what activating `a` and then `b` produces. */
  lemma BothIsReachable()
    ensures Both() == AddInstrument(AddInstrument(Registry(map[AllKey := []]), A()).reg, B()).reg
  {
    ActivateA();
    ActivateB(AddInstrument(Registry(map[AllKey := []]), A()).reg);
  }

  /** `a`'s hook deactivates `b`; `b`'s hook returns or raises as told. */
  function Behaviour(bRaises: bool): Instrument -> HookRun {
    (x: Instrument) => if x == A() then HookRun([Deactivate(B())], false) else HookRun([], bRaises)
  }

  lemma WithoutSecond(a: Instrument, b: Instrument)
    requires a != b
    ensures Without([a, b], b) == [a]
  {
    PurgeSnoc([a], b, {b});
    PurgeSnoc([], a, {b});
    assert [a] == [] + [a];
    assert [a, b] == [a] + [b];
  }

  /** `remove_instrument(b)` where `a` and `b` are active and share one hook. */
  lemma RemoveSecond(a: Instrument, b: Instrument, hook: string)
    requires a != b && hook != AllKey
    ensures RemoveInstrument(Registry(map[AllKey := [a, b], hook := [a, b]]), b)
      == Step(Registry(map[AllKey := [a], hook := [a]]), Returned)
  {
    WithoutSecond(a, b);
    var before := map[AllKey := [a, b], hook := [a, b]];
    var after := map[AllKey := [a], hook := [a]];
    var r := RemoveInstrument(Registry(before), b).reg.data;
    assert forall k | k in r :: k in after && r[k] == after[k];
    assert hook in r && AllKey in r;
    SameMaps(r, after);
  }

  lemma RemoveBFromBoth()
    ensures RemoveInstrument(Both(), B()) == Step(OnlyA(), Returned)
  {
    assert AllKey != BeforeTaskStep by {
      assert |AllKey| != |BeforeTaskStep|;
    }
    RemoveSecond(A(), B(), BeforeTaskStep);
  }

  /** A hook whose only effect is deactivating `b`, which is active. */
  lemma DeactivatingTurn(reg: Registry, hook: string, a: Instrument, b: Instrument, after: Registry)
    requires AllKey in reg.data
    requires RemoveInstrument(reg, b) == Step(after, Returned)
    ensures Invoke(reg, hook, a, HookRun([Deactivate(b)], false)) == Dispatch(after, [a], [], Returned)
  {
    assert [Deactivate(b)][1..] == [];
    assert RunHook(reg, [Deactivate(b)], false) == HookResult(after, false);
  }

  lemma FirstTurn(bRaises: bool)
    ensures Invoke(Both(), BeforeTaskStep, A(), Behaviour(bRaises)(A())) == Dispatch(OnlyA(), [A()], [], Returned)
  {
    assert Behaviour(bRaises)(A()) == HookRun([Deactivate(B())], false);
    RemoveBFromBoth();
    DeactivatingTurn(Both(), BeforeTaskStep, A(), B(), OnlyA());
  }

  /** The loop reaches an instrument that is no longer active. */
  lemma InactiveTurn(reg: Registry, hook: string, b: Instrument, behaviour: Instrument -> HookRun)
    requires AllKey in reg.data && b !in reg.data[AllKey]
    requires behaviour(b).actions == []
    ensures DispatchFrom(reg, hook, [b], behaviour)
      == Dispatch(reg, [b], [], if behaviour(b).raises then Raised(NotActive(b)) else Returned)
  {
    assert [b][1..] == [];
    assert RunHook(reg, [], behaviour(b).raises) == HookResult(reg, behaviour(b).raises);
  }

  lemma SecondTurn(bRaises: bool)
    ensures DispatchFrom(OnlyA(), BeforeTaskStep, [B()], Behaviour(bRaises))
      == Dispatch(OnlyA(), [B()], [], if bRaises then Raised(NotActive(B())) else Returned)
  {
    assert B() !in OnlyA().data[AllKey];
    assert Behaviour(bRaises)(B()) == HookRun([], bRaises);
    InactiveTurn(OnlyA(), BeforeTaskStep, B(), Behaviour(bRaises));
  }

  /** A two-entry snapshot whose first turn completes without logging. */
  lemma TwoTurns(reg: Registry, hook: string, a: Instrument, b: Instrument, behaviour: Instrument -> HookRun, mid: Registry, last: Dispatch)
    requires AllKey in reg.data && AllKey in mid.data
    requires Invoke(reg, hook, a, behaviour(a)) == Dispatch(mid, [a], [], Returned)
    requires DispatchFrom(mid, hook, [b], behaviour) == last
    ensures DispatchFrom(reg, hook, [a, b], behaviour) == Dispatch(last.reg, [a] + last.invoked, last.log, last.outcome)
  {
    assert [a, b][1..] == [b];
  }

  /** Snapshot stability: `b` is invoked although `a` deactivated it first. */
  lemma DeactivatedEntryStillInvoked()
    ensures Call(Both(), BeforeTaskStep, Behaviour(false)) == Dispatch(OnlyA(), [A(), B()], [], Returned)
  {
    FirstTurn(false);
    SecondTurn(false);
    TwoTurns(Both(), BeforeTaskStep, A(), B(), Behaviour(false), OnlyA(), Dispatch(OnlyA(), [B()], [], Returned));
  }

  /**
    The `KeyError` of the fault path escapes `call`: `b` raises after `a`
    already deactivated it, so `remove_instrument(b)` fails.
   */
  lemma KeyErrorEscapesCall()
    ensures Call(Both(), BeforeTaskStep, Behaviour(true)) == Dispatch(OnlyA(), [A(), B()], [], Raised(NotActive(B())))
  {
    FirstTurn(true);
    SecondTurn(true);
    TwoTurns(Both(), BeforeTaskStep, A(), B(), Behaviour(true), OnlyA(), Dispatch(OnlyA(), [B()], [], Raised(NotActive(B()))));
  }
}
