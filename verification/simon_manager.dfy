/**
  The `SimonManager` facade: a static entry point that holds one piece of
  state, the manager every call is forwarded to. That manager is either the
  enabled one (real Simons) or the disabled one (Simons that do nothing);
  `enable` and `disable` switch between them and `isEnabled` tells which is
  current.

  What the two managers do with a forwarded call (the registry, the
  hierarchy, replacing Unknown Simons) is code outside this model: each
  manager is a `Backend`, a function value from its own state and a call to
  its next state and its answer. The properties below hold for any pair of
  backends.
 */
module SimonManager {

  /** Separator between the levels of a hierarchical Simon name. */
  const HierarchyDelimiter: string := "."

  /** Name of the root of the hierarchy. */
  const RootSimonName: string := ""

  /** Which implementation the facade points at. */
  datatype Manager = Enabled | Disabled

  /** The calls the facade forwards. */
  datatype Call =
    | GetSimon(name: string)
    | DestroySimon(name: string)
    | GetCounter(name: string)
    | GetStopwatch(name: string)
    | GetUnknown(name: string)
    | GetRootSimon
    | SimonNames
    | Clear

  /** One manager implementation: its state and a call give its next state
      and the value the call returns. */
  type Backend<!S, A> = (S, Call) -> (S, A)

  /** The facade's switch together with the state of the two managers. */
  datatype World<S> = World(current: Manager, enabledState: S, disabledState: S)

  /** One action on the facade. */
  datatype Op = OpEnable | OpDisable | OpCall(call: Call)

  /** `isEnabled()`: the current manager is the enabled one; the switch has
      no state besides these two. */
  function IsEnabled<S>(w: World<S>): (enabled: bool)
    ensures enabled <==> w.current != Disabled
  {
    w.current == Enabled
  }

  /** The world right after class initialisation: the enabled manager. */
  function Initial<S>(enabledState: S, disabledState: S): (w: World<S>)
    ensures IsEnabled(w)
    ensures w.enabledState == enabledState && w.disabledState == disabledState
  {
    World(Enabled, enabledState, disabledState)
  }

  /** `enable()`: only the switch changes. */
  function Enable<S>(w: World<S>): (r: World<S>)
    ensures IsEnabled(r)
    ensures r.enabledState == w.enabledState && r.disabledState == w.disabledState
  {
    w.(current := Enabled)
  }

  /** `disable()`: only the switch changes. */
  function Disable<S>(w: World<S>): (r: World<S>)
    ensures !IsEnabled(r)
    ensures r.enabledState == w.enabledState && r.disabledState == w.disabledState
  {
    w.(current := Disabled)
  }

  /** A forwarded call: answered by the current manager alone, which is the
      only state that changes; the switch itself is never touched. */
  function Forward<S, A>(w: World<S>, c: Call, enabled: Backend<S, A>, disabled: Backend<S, A>)
    : (res: (World<S>, A))
    ensures res.0.current == w.current
    ensures IsEnabled(w) ==>
              (res.0.enabledState, res.1) == enabled(w.enabledState, c)
              && res.0.disabledState == w.disabledState
    ensures !IsEnabled(w) ==>
              (res.0.disabledState, res.1) == disabled(w.disabledState, c)
              && res.0.enabledState == w.enabledState
  {
    match w.current
    case Enabled =>
      var (s, a) := enabled(w.enabledState, c);
      (w.(enabledState := s), a)
    case Disabled =>
      var (s, a) := disabled(w.disabledState, c);
      (w.(disabledState := s), a)
  }

  /** One action; a forwarded call contributes its answer. */
  function Step<S, A>(w: World<S>, op: Op, enabled: Backend<S, A>, disabled: Backend<S, A>)
    : (World<S>, seq<A>)
  {
    match op
    case OpEnable => (Enable(w), [])
    case OpDisable => (Disable(w), [])
    case OpCall(c) => var (w', a) := Forward(w, c, enabled, disabled); (w', [a])
  }

  /** A sequence of actions, first to last, with the answers in order. */
  function Run<S, A>(w: World<S>, ops: seq<Op>, enabled: Backend<S, A>, disabled: Backend<S, A>)
    : (World<S>, seq<A>)
    decreases |ops|
  {
    if ops == [] then (w, [])
    else
      var (w1, as1) := Step(w, ops[0], enabled, disabled);
      var (w2, as2) := Run(w1, ops[1..], enabled, disabled);
      (w2, as1 + as2)
  }

  predicate AllCalls(ops: seq<Op>) {
    forall k :: 0 <= k < |ops| ==> ops[k].OpCall?
  }

  /** `enable` and `disable` are idempotent and the later one wins. */
  lemma SwitchLastCallWins<S>(w: World<S>)
    ensures Enable(Enable(w)) == Enable(w) && Disable(Disable(w)) == Disable(w)
    ensures Enable(Disable(w)) == Enable(w) && Disable(Enable(w)) == Disable(w)
    ensures Enable(w) == w <==> IsEnabled(w)
    ensures Disable(w) == w <==> !IsEnabled(w)
  {
  }

  /** Running two sequences one after the other is running their
      concatenation. */
  lemma {:induction false} RunAppend<S, A>(w: World<S>, a: seq<Op>, b: seq<Op>,
                                          enabled: Backend<S, A>, disabled: Backend<S, A>)
    ensures Run(w, a + b, enabled, disabled).0 == Run(Run(w, a, enabled, disabled).0, b, enabled, disabled).0
    ensures Run(w, a + b, enabled, disabled).1
            == Run(w, a, enabled, disabled).1 + Run(Run(w, a, enabled, disabled).0, b, enabled, disabled).1
    decreases |a|
  {
    if a == [] {
      assert a + b == b;
    } else {
      assert (a + b)[0] == a[0];
      assert (a + b)[1..] == a[1..] + b;
      var st := Step(w, a[0], enabled, disabled);
      RunAppend(st.0, a[1..], b, enabled, disabled);
      var tail := Run(st.0, a[1..], enabled, disabled);
      var rest := Run(tail.0, b, enabled, disabled);
      assert Run(w, a, enabled, disabled) == (tail.0, st.1 + tail.1);
      assert Run(w, a + b, enabled, disabled) == (rest.0, st.1 + (tail.1 + rest.1));
      assert st.1 + (tail.1 + rest.1) == (st.1 + tail.1) + rest.1;
    }
  }

  /** Forwarded calls never move the switch, and each yields one answer. */
  lemma {:induction false} CallsKeepSwitch<S, A>(w: World<S>, ops: seq<Op>,
                                                enabled: Backend<S, A>, disabled: Backend<S, A>)
    requires AllCalls(ops)
    ensures Run(w, ops, enabled, disabled).0.current == w.current
    ensures |Run(w, ops, enabled, disabled).1| == |ops|
    decreases |ops|
  {
    if ops != [] {
      assert AllCalls(ops[1..]) by {
        forall k | 0 <= k < |ops| - 1 ensures ops[1..][k].OpCall? {
          assert ops[1..][k] == ops[k + 1];
        }
      }
      CallsKeepSwitch(Step(w, ops[0], enabled, disabled).0, ops[1..], enabled, disabled);
    }
  }

  /** Whatever came before, the last `enable` or `disable` decides
      `isEnabled`, however many calls follow it. */
  lemma LastSwitchWins<S, A>(w: World<S>, before: seq<Op>, switch: Op, after: seq<Op>,
                             enabled: Backend<S, A>, disabled: Backend<S, A>)
    requires !switch.OpCall?
    requires AllCalls(after)
    ensures IsEnabled(Run(w, before + [switch] + after, enabled, disabled).0) <==> switch == OpEnable
  {
    RunAppend(w, before + [switch], after, enabled, disabled);
    RunAppend(w, before, [switch], enabled, disabled);
    var w1 := Run(w, before + [switch], enabled, disabled).0;
    CallsKeepSwitch(w1, after, enabled, disabled);
  }

  /** Without any `enable` or `disable`, the facade stays on the enabled
      manager it starts with. */
  lemma InitiallyEnabled<S, A>(e: S, d: S, ops: seq<Op>, enabled: Backend<S, A>, disabled: Backend<S, A>)
    requires AllCalls(ops)
    ensures IsEnabled(Run(Initial(e, d), ops, enabled, disabled).0)
  {
    CallsKeepSwitch(Initial(e, d), ops, enabled, disabled);
  }

  /** While the facade is disabled, no call through the facade (`clear`
      included) reaches the enabled manager, so its state after `enable` is
      the state it had before. */
  lemma {:induction false} DisabledCallsLeaveEnabledManager<S, A>(w: World<S>, ops: seq<Op>,
                                                                 enabled: Backend<S, A>, disabled: Backend<S, A>)
    requires !IsEnabled(w)
    requires AllCalls(ops)
    ensures Run(w, ops, enabled, disabled).0.enabledState == w.enabledState
    ensures Enable(Run(w, ops, enabled, disabled).0).enabledState == w.enabledState
    decreases |ops|
  {
    if ops != [] {
      assert AllCalls(ops[1..]) by {
        forall k | 0 <= k < |ops| - 1 ensures ops[1..][k].OpCall? {
          assert ops[1..][k] == ops[k + 1];
        }
      }
      DisabledCallsLeaveEnabledManager(Step(w, ops[0], enabled, disabled).0, ops[1..], enabled, disabled);
    }
  }

  /** `disable(); clear(); enable()` leaves the enabled manager's state as it
      was; only the disabled manager sees the `clear`. */
  lemma ClearWhileDisabledIsIgnored<S, A>(w: World<S>, enabled: Backend<S, A>, disabled: Backend<S, A>)
    ensures Enable(Forward(Disable(w), Clear, enabled, disabled).0) == w.(current := Enabled, disabledState := disabled(w.disabledState, Clear).0)
  {
  }
}
