// The older copy of the OpenXR wrapper. Its path cache, extension check, action getters
// and frame gating are the same code as the newer copy and are modelled there; what
// differs is modelled here: the constructor checks one extension and enables no optional
// one, `PollEvents` keeps no ready flag, and the swapchain format is always the first one
// the runtime offers.
module LegacyXr {
  import opened Common
  import opened XrSession

  /** The format the older copy uses: the first offered, with no search. */
  function LegacySwapchainFormat(formats: seq<int>): (f: int)
    requires |formats| > 0
    ensures f in formats
  {
    formats[0]
  }

  /** When the runtime offers none of the desired formats, both copies choose the same format. */
  lemma LegacyFormatAgreesWithoutDesired(formats: seq<int>)
    requires |formats| > 0
    requires forall k :: 0 <= k < |DesiredFormats| ==> DesiredFormats[k] !in formats
    ensures LegacySwapchainFormat(formats) == SwapchainFormatAsWritten(formats)
    ensures LegacySwapchainFormat(formats) == SwapchainFormat(formats)
  {
    SwapchainFormatPrefersDesired(formats);
    SwapchainFormatAsWrittenChoice(formats);
  }

  /** The session as the older copy keeps it: the state and the session calls, with no ready flag. */
  datatype LegacySession = LegacySession(state: SessionState, calls: seq<SessionCall>)
  datatype LegacyPolled = LegacyPolled(session: LegacySession, ok: bool)

  /** One event: a state change is stored; READY begins and STOPPING ends the session, and a failed call stops polling. */
  function LegacyHandleEvent(s: LegacySession, e: XrEvent, callOk: bool): (p: LegacyPolled)
    ensures p.ok <==> !NeedsCall(e) || callOk
    ensures p.session.state == (if e.SessionStateChanged? then e.newState else s.state)
    ensures |p.session.calls| == |s.calls| + (if NeedsCall(e) then 1 else 0)
  {
    match e
    case SessionStateChanged(st) =>
      if st == Ready then
        LegacyPolled(LegacySession(st, s.calls + [BeginSession]), callOk)
      else if st == Stopping then
        LegacyPolled(LegacySession(st, s.calls + [EndSession]), callOk)
      else
        LegacyPolled(s.(state := st), true)
    case _ => LegacyPolled(s, true)
  }

  /** The session after the first `k` queued events; handling stops at the first failed call. */
  function LegacyPollAll(s: LegacySession, events: seq<XrEvent>, results: seq<bool>, k: nat): LegacyPolled
    requires |results| == |events| && k <= |events|
  {
    if k == 0 then LegacyPolled(s, true)
    else
      var p := LegacyPollAll(s, events, results, k - 1);
      if !p.ok then p else LegacyHandleEvent(p.session, events[k - 1], results[k - 1])
  }

  /** Both copies store the same states, make the same session calls and stop at the same event. */
  lemma {:induction false} LegacyPollAgrees(s: Session, events: seq<XrEvent>, results: seq<bool>, k: nat)
    requires |results| == |events| && k <= |events|
    ensures var p := PollAll(s, events, results, k);
      LegacyPollAll(LegacySession(s.state, s.calls), events, results, k) ==
        LegacyPolled(LegacySession(p.session.state, p.session.calls), p.ok)
  {
    if k != 0 {
      LegacyPollAgrees(s, events, results, k - 1);
    }
  }

  class XrBuddy {
    var constructorSucceded: bool
    var state: SessionState
    /** Every session call made on the runtime, in order. */
    var sessionCalls: seq<SessionCall>

    /**
     * `extensions` is what `xrEnumerateInstanceExtensionProperties` reports (`None` when it
     * fails); `platformOk` is whether the later layer, instance, system and
     * view-configuration calls all succeed.
     */
    constructor(extensions: Option<seq<string>>, platformOk: bool)
      ensures constructorSucceded <==> extensions.Some? && OpenGLEnable in extensions.value && platformOk
      ensures state == Unknown && sessionCalls == []
    {
      state := Unknown;
      sessionCalls := [];
      constructorSucceded := false;
      if extensions.Some? {
        var supported := ExtensionSupported(extensions.value, OpenGLEnable);
        if supported && platformOk {
          constructorSucceded := true;
        }
      }
    }

    /** `Init` fails at once when the constructor did not finish; `setupOk` is whether the later creation steps succeed. */
    method Init(setupOk: bool) returns (ok: bool)
      ensures ok <==> constructorSucceded && setupOk
      ensures !constructorSucceded ==> !ok
    {
      if !constructorSucceded {
        return false;
      }
      ok := setupOk;
    }

    /** One event of the `PollEvents` loop. */
    method HandleXrEvent(e: XrEvent, callOk: bool) returns (ok: bool)
      modifies this`state, this`sessionCalls
      ensures var p := LegacyHandleEvent(LegacySession(old(state), old(sessionCalls)), e, callOk);
        LegacySession(state, sessionCalls) == p.session && ok == p.ok
    {
      ok := true;
      if e.SessionStateChanged? {
        state := e.newState;
        if state == Ready {
          sessionCalls := sessionCalls + [BeginSession];
          if !callOk {
            return false;
          }
        } else if state == Stopping {
          sessionCalls := sessionCalls + [EndSession];
          if !callOk {
            return false;
          }
        }
      }
    }

    /** `PollEvents`: drains the queued `events`; `results[k]` is what the call made for event `k` returns. */
    method PollEvents(events: seq<XrEvent>, results: seq<bool>) returns (ok: bool)
      requires |results| == |events|
      modifies this`state, this`sessionCalls
      ensures var p := LegacyPollAll(LegacySession(old(state), old(sessionCalls)), events, results, |events|);
        LegacySession(state, sessionCalls) == p.session && ok == p.ok
    {
      ghost var start := LegacySession(state, sessionCalls);
      var k := 0;
      while k < |events|
        invariant 0 <= k <= |events|
        invariant LegacyPollAll(start, events, results, k) == LegacyPolled(LegacySession(state, sessionCalls), true)
      {
        ok := HandleXrEvent(events[k], results[k]);
        if !ok {
          LegacyPollStops(start, events, results, k + 1, |events|);
          return;
        }
        k := k + 1;
      }
      ok := true;
    }
  }

  /** Once a call fails, later events are left in the queue. */
  lemma {:induction false} LegacyPollStops(s: LegacySession, events: seq<XrEvent>, results: seq<bool>, k: nat, k': nat)
    requires |results| == |events| && k <= k' <= |events|
    requires !LegacyPollAll(s, events, results, k).ok
    ensures LegacyPollAll(s, events, results, k') == LegacyPollAll(s, events, results, k)
  {
    if k' != k {
      LegacyPollStops(s, events, results, k, k' - 1);
    }
  }
}
