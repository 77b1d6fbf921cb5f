// The generic state machine: states registered with enter, exit and process callbacks,
// guarded transitions per state, and a `Process` step that fires transitions and then
// runs the process callback of the state it ends in.
//
// Callbacks are closures supplied by the owner; the model identifies each by a number and
// records, in `calls`, every callback the machine runs, in order. What a guard returns is
// an input to `Process`.
module StateMachines {
  import opened Common

  datatype Transition<State> = Transition(guard: Callback, target: State, name: string)

  datatype StateStruct<State> =
    StateStruct(enter: Callback, exit: Callback, process: Callback, transitions: seq<Transition<State>>)

  /** A callback run by the machine: a guard, enter or exit callback, or a process callback with its time step. */
  datatype Event = Call(cb: Callback) | Tick(cb: Callback, dt: real)

  /** Every transition that fires leads to a registered state. */
  ghost predicate TargetsRegistered<State>(m: map<State, StateStruct<State>>, ts: seq<Transition<State>>, fired: seq<bool>)
    requires |fired| == |ts|
  {
    forall k :: 0 <= k < |ts| && fired[k] ==> ts[k].target in m
  }

  datatype Outcome<State> = Outcome(state: State, calls: seq<Event>)

  /**
   * The state and the callbacks run after testing the first `k` transitions of `ts` in
   * order, starting in `start`: each guard is called, and a guard that returns true
   * (`fired`) changes state, calling the exit callback of the state left and the enter
   * callback of the state entered.
   */
  function Fire<State>(m: map<State, StateStruct<State>>, start: State, ts: seq<Transition<State>>,
                       fired: seq<bool>, k: nat): (o: Outcome<State>)
    requires start in m && |fired| == |ts| && k <= |ts| && TargetsRegistered(m, ts, fired)
    ensures o.state in m
  {
    if k == 0 then Outcome(start, [])
    else
      var prev := Fire(m, start, ts, fired, k - 1);
      var t := ts[k - 1];
      if fired[k - 1] then
        Outcome(t.target, prev.calls + [Call(t.guard), Call(m[prev.state].exit), Call(m[t.target].enter)])
      else
        Outcome(prev.state, prev.calls + [Call(t.guard)])
  }

  /** Number of true entries among the first `k`. */
  function CountFired(fired: seq<bool>, k: nat): nat
    requires k <= |fired|
  {
    if k == 0 then 0 else CountFired(fired, k - 1) + (if fired[k - 1] then 1 else 0)
  }

  /** Every guard is called once, and every firing adds one exit and one enter call. */
  lemma {:induction false} FireCallCount<State>(m: map<State, StateStruct<State>>, start: State,
                                                 ts: seq<Transition<State>>, fired: seq<bool>, k: nat)
    requires start in m && |fired| == |ts| && k <= |ts| && TargetsRegistered(m, ts, fired)
    ensures |Fire(m, start, ts, fired, k).calls| == k + 2 * CountFired(fired, k)
  {
    if k != 0 {
      FireCallCount(m, start, ts, fired, k - 1);
    }
  }

  /** When no guard fires the machine stays where it started. */
  lemma {:induction false} FireNone<State>(m: map<State, StateStruct<State>>, start: State,
                                            ts: seq<Transition<State>>, fired: seq<bool>, k: nat)
    requires start in m && |fired| == |ts| && k <= |ts| && TargetsRegistered(m, ts, fired)
    requires forall i :: 0 <= i < k ==> !fired[i]
    ensures Fire(m, start, ts, fired, k).state == start
  {
    if k != 0 {
      FireNone(m, start, ts, fired, k - 1);
    }
  }

  /** Several transitions may fire in one step; the machine ends in the target of the last one. */
  lemma {:induction false} FireLast<State>(m: map<State, StateStruct<State>>, start: State,
                                            ts: seq<Transition<State>>, fired: seq<bool>, k: nat, j: nat)
    requires start in m && |fired| == |ts| && k <= |ts| && TargetsRegistered(m, ts, fired)
    requires j < k && fired[j] && forall i :: j < i < k ==> !fired[i]
    ensures Fire(m, start, ts, fired, k).state == ts[j].target
  {
    if k - 1 != j {
      FireLast(m, start, ts, fired, k - 1, j);
    }
  }

  class StateMachine<State(==)> {
    var state: State
    var stateStructMap: map<State, StateStruct<State>>
    var stateNameMap: map<State, string>
    var debug: bool
    /** Every callback run so far, in order. */
    var calls: seq<Event>

    /** Every registered state has a name. */
    ghost predicate Valid()
      reads this
    {
      stateStructMap.Keys == stateNameMap.Keys
    }

    /** Starts in `defaultState`, with no state registered and logging off. */
    constructor(defaultState: State)
      ensures Valid()
      ensures state == defaultState && stateStructMap == map[] && stateNameMap == map[]
      ensures !debug && calls == []
    {
      state := defaultState;
      stateStructMap := map[];
      stateNameMap := map[];
      debug := false;
      calls := [];
    }

    /** Registers a state with no transitions; a state already registered keeps its first registration. */
    method AddState(s: State, name: string, enter: Callback, exit: Callback, process: Callback)
      requires Valid()
      modifies this`stateStructMap, this`stateNameMap
      ensures Valid()
      ensures stateStructMap == MapInsert(old(stateStructMap), s, StateStruct(enter, exit, process, []))
      ensures stateNameMap == MapInsert(old(stateNameMap), s, name)
    {
      stateStructMap := MapInsert(stateStructMap, s, StateStruct(enter, exit, process, []));
      stateNameMap := MapInsert(stateNameMap, s, name);
    }

    /** Appends a transition to the list of registered state `s`; `newState` need not be registered yet. */
    method AddTransition(s: State, newState: State, name: string, transitionCb: Callback)
      requires s in stateStructMap
      modifies this`stateStructMap
      ensures stateStructMap.Keys == old(stateStructMap).Keys
      ensures forall q :: q in stateStructMap && q != s ==> stateStructMap[q] == old(stateStructMap)[q]
      ensures var before := old(stateStructMap)[s];
        stateStructMap[s] == before.(transitions := before.transitions + [Transition(transitionCb, newState, name)])
    {
      var st := stateStructMap[s];
      stateStructMap := stateStructMap[s := st.(transitions := st.transitions + [Transition(transitionCb, newState, name)])];
    }

    /** Runs the exit callback of the current state, then the enter callback of `newState`, and switches. */
    method ChangeState(newState: State, reason: string)
      requires Valid() && state in stateStructMap && newState in stateStructMap
      modifies this`state, this`calls
      ensures state == newState
      ensures calls == old(calls) + [Call(stateStructMap[old(state)].exit), Call(stateStructMap[newState].enter)]
    {
      calls := calls + [Call(stateStructMap[state].exit)];
      calls := calls + [Call(stateStructMap[newState].enter)];
      state := newState;
    }

    /**
     * Tests the transitions of the current state in order, firing each whose guard returns
     * true (`fired[k]` is what guard `k` returns), then runs the process callback of the
     * state reached.
     */
    method Process(dt: real, fired: seq<bool>)
      requires Valid() && state in stateStructMap
      requires |fired| == |stateStructMap[state].transitions|
      requires TargetsRegistered(stateStructMap, stateStructMap[state].transitions, fired)
      modifies this`state, this`calls
      ensures var o := Fire(stateStructMap, old(state), stateStructMap[old(state)].transitions, fired, |fired|);
        state == o.state && calls == old(calls) + o.calls + [Tick(stateStructMap[o.state].process, dt)]
    {
      var ts := stateStructMap[state].transitions;
      ghost var start, before := state, calls;
      var k := 0;
      while k < |ts|
        invariant 0 <= k <= |ts|
        invariant state == Fire(stateStructMap, start, ts, fired, k).state
        invariant calls == before + Fire(stateStructMap, start, ts, fired, k).calls
      {
        calls := calls + [Call(ts[k].guard)];
        if fired[k] {
          ChangeState(ts[k].target, ts[k].name);
        }
        k := k + 1;
      }
      calls := calls + [Tick(stateStructMap[state].process, dt)];
    }

    method SetDebug(debugIn: bool)
      modifies this`debug
      ensures debug == debugIn
    {
      debug := debugIn;
    }
  }
}
