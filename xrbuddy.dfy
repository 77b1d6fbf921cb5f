// The OpenXR session wrapper: the path cache used while creating actions, the extension
// check made by the constructor, the swapchain format choice, the session flags that
// `PollEvents` keeps, the action getters, the gating of `RenderFrame` and the colour-space
// cycle.
//
// Calls into the OpenXR runtime are inputs: what `xrStringToPath` yields is the function
// `toPath`, the runtime's extension list is a sequence of names, and whether
// `xrBeginSession`, `xrEndSession` and the frame calls succeed is passed in. Calls the
// wrapper makes on the runtime are recorded in sequence fields.
module XrSession {
  import opened Common
  import opened Quat

  // ---------------------------------------------------------------------------------
  // Path cache.

  /** An `XrPath` handle; 0 is XR_NULL_PATH. */
  type Path = nat

  /** No element occurs twice. */
  predicate Distinct<T(==)>(s: seq<T>)
  {
    forall i, j :: 0 <= i < j < |s| ==> s[i] != s[j]
  }

  /** In a sequence without repetitions every element occurs at most once. */
  lemma {:induction false} DistinctOccursOnce<T>(s: seq<T>, x: T)
    requires Distinct(s)
    ensures multiset(s)[x] <= 1
  {
    if s != [] {
      var init := s[..|s| - 1];
      assert s == init + [s[|s| - 1]];
      assert Distinct(init);
      DistinctOccursOnce(init, x);
      if x == s[|s| - 1] {
        assert x !in init;
      }
    }
  }

  /** Interns path strings: each key is converted by the runtime once and then served from `pathMap`. */
  class PathCache {
    /** What `xrStringToPath` writes for a key (XR_NULL_PATH when it fails). */
    const toPath: string -> Path
    var pathMap: map<string, Path>
    /** Every key handed to `xrStringToPath`, in order. */
    var resolved: seq<string>

    /** Cached paths are the runtime's, and exactly the keys converted so far are cached, each converted once. */
    ghost predicate Valid()
      reads this
    {
      && (forall k :: k in pathMap ==> pathMap[k] == toPath(k))
      && (forall k :: k in pathMap <==> k in resolved)
      && Distinct(resolved)
    }

    constructor(toPathIn: string -> Path)
      ensures Valid()
      ensures toPath == toPathIn && pathMap == map[] && resolved == []
    {
      toPath := toPathIn;
      pathMap := map[];
      resolved := [];
    }

    /** `operator[]`: a cached key is answered from the map; a new one is converted and inserted. */
    method Get(key: string) returns (path: Path)
      requires Valid()
      modifies this`pathMap, this`resolved
      ensures Valid()
      ensures path == toPath(key)
      ensures key in old(pathMap) ==> pathMap == old(pathMap) && resolved == old(resolved)
      ensures key !in old(pathMap) ==>
        pathMap == MapInsert(old(pathMap), key, path) && resolved == old(resolved) + [key]
    {
      if key in pathMap {
        path := pathMap[key];
      } else {
        path := toPath(key);
        resolved := resolved + [key];
        pathMap := MapInsert(pathMap, key, path);
      }
    }
  }

  // ---------------------------------------------------------------------------------
  // Extensions.

  /** `ExtensionSupported`: scans the whole list, without stopping at a match. */
  method ExtensionSupported(extensions: seq<string>, extensionName: string) returns (supported: bool)
    ensures supported <==> extensionName in extensions
  {
    supported := false;
    for i := 0 to |extensions|
      invariant supported <==> extensionName in extensions[..i]
    {
      assert extensions[..i + 1] == extensions[..i] + [extensions[i]];
      if extensionName == extensions[i] {
        supported := true;
      }
    }
    assert extensions[..|extensions|] == extensions;
  }

  /** The names of `wanted` that the runtime lists, in order. */
  function SupportedOf(wanted: seq<string>, extensions: seq<string>): (r: seq<string>)
    ensures forall e :: e in r <==> e in wanted && e in extensions
    ensures |r| <= |wanted|
  {
    if wanted == [] then []
    else
      var init := wanted[..|wanted| - 1];
      var last := wanted[|wanted| - 1];
      assert wanted == init + [last];
      SupportedOf(init, extensions) + (if last in extensions then [last] else [])
  }

  /**
   * The constructor's two extension loops: every required extension must be listed (the
   * first missing one aborts), and the optional ones that are listed are added after them.
   */
  method EnableExtensions(extensions: seq<string>, required: seq<string>, optional: seq<string>)
    returns (ok: bool, enabled: seq<string>)
    ensures ok <==> forall r :: r in required ==> r in extensions
    ensures ok ==> enabled == required + SupportedOf(optional, extensions)
    ensures !ok ==> |enabled| < |required| && enabled == required[..|enabled|] && required[|enabled|] !in extensions
    ensures forall e :: e in enabled ==> e in extensions
  {
    enabled := [];
    var i := 0;
    while i < |required|
      invariant 0 <= i <= |required|
      invariant enabled == required[..i]
      invariant forall j :: 0 <= j < i ==> required[j] in extensions
    {
      var supported := ExtensionSupported(extensions, required[i]);
      if !supported {
        ok := false;
        return;
      }
      enabled := enabled + [required[i]];
      i := i + 1;
    }
    ok := true;
    var chosen := [];
    for k := 0 to |optional|
      invariant chosen == SupportedOf(optional[..k], extensions)
    {
      assert optional[..k + 1][..k] == optional[..k];
      var supported := ExtensionSupported(extensions, optional[k]);
      if supported {
        chosen := chosen + [optional[k]];
      }
    }
    assert optional[..|optional|] == optional;
    enabled := enabled + chosen;
  }

  /** XR_KHR_OPENGL_ENABLE_EXTENSION_NAME, the one required extension. */
  const OpenGLEnable: string := "XR_KHR_opengl_enable"
  /** XR_FB_COLOR_SPACE_EXTENSION_NAME, the one optional extension. */
  const ColorSpaceExtension: string := "XR_FB_color_space"

  // ---------------------------------------------------------------------------------
  // Swapchain format.

  const GlR11fG11fB10f: int := 0x8C3A
  const GlRgb16f: int := 0x881B
  const GlRgba: int := 0x1908
  /** The formats wanted, best first. */
  const DesiredFormats: seq<int> := [GlR11fG11fB10f, GlRgb16f, GlRgba]

  /**
   * The inner search as written: it starts at index `i` and, because the loop body
   * increments `i` a second time, looks only at every other index.
   */
  function ScanEven(formats: seq<int>, f: int, i: nat): (r: nat)
    requires i % 2 == 0
    ensures r == |formats| || (i <= r < |formats| && r % 2 == 0 && formats[r] == f)
    ensures forall j :: i <= j < |formats| && j < r && j % 2 == 0 ==> formats[j] != f
    decreases |formats| + 1 - i
  {
    if i >= |formats| then |formats|
    else if formats[i] == f then i
    else ScanEven(formats, f, i + 2)
  }

  /**
   * The outer search as written: the index found for the first of `desired[d..]` that sits
   * at an even index, or `|formats|`.
   */
  function FindEven(formats: seq<int>, desired: seq<int>, d: nat): (r: nat)
    requires d <= |desired|
    ensures r == |formats| ==>
      forall k, j :: d <= k < |desired| && 0 <= j < |formats| && j % 2 == 0 ==> formats[j] != desired[k]
    ensures r != |formats| ==>
      (r < |formats| && r % 2 == 0 &&
       exists k :: d <= k < |desired| && formats[r] == desired[k] &&
         forall k', j :: d <= k' < k && 0 <= j < |formats| && j % 2 == 0 ==> formats[j] != desired[k'])
    decreases |desired| - d
  {
    if d == |desired| then |formats|
    else
      var i := ScanEven(formats, desired[d], 0);
      if i != |formats| then i else FindEven(formats, desired, d + 1)
  }

  /** The format the code as written chooses; with no desired format found it uses the first one offered. */
  function SwapchainFormatAsWritten(formats: seq<int>): int
    requires |formats| > 0
  {
    var found := FindEven(formats, DesiredFormats, 0);
    if found == |formats| then formats[0] else formats[found]
  }

  /** The format selection in `CreateSwapchains`, with its nested loops as written. */
  method SelectSwapchainFormat(formats: seq<int>) returns (format: int)
    requires |formats| > 0
    ensures format == SwapchainFormatAsWritten(formats)
  {
    var foundFormatIndex := |formats|;
    var d := 0;
    while d < |DesiredFormats|
      invariant 0 <= d <= |DesiredFormats|
      invariant FindEven(formats, DesiredFormats, d) == FindEven(formats, DesiredFormats, 0)
      invariant foundFormatIndex == |formats|
    {
      foundFormatIndex := |formats|;
      var i := 0;
      while i < |formats|
        invariant 0 <= i && i % 2 == 0
        invariant ScanEven(formats, DesiredFormats[d], i) == ScanEven(formats, DesiredFormats[d], 0)
        invariant foundFormatIndex == |formats|
      {
        if formats[i] == DesiredFormats[d] {
          foundFormatIndex := i;
          break;
        }
        i := i + 1;
        i := i + 1;
      }
      assert foundFormatIndex == ScanEven(formats, DesiredFormats[d], 0);
      if foundFormatIndex != |formats| {
        break;
      }
      d := d + 1;
    }
    assert foundFormatIndex == FindEven(formats, DesiredFormats, 0);
    if foundFormatIndex == |formats| {
      format := formats[0];
    } else {
      format := formats[foundFormatIndex];
    }
  }

  /** The chosen format is one offered; a desired format is chosen only from an even index, and otherwise the first offered is used. */
  lemma SwapchainFormatAsWrittenChoice(formats: seq<int>)
    requires |formats| > 0
    ensures SwapchainFormatAsWritten(formats) in formats
    ensures (forall k, j :: 0 <= k < |DesiredFormats| && 0 <= j < |formats| && j % 2 == 0 ==> formats[j] != DesiredFormats[k])
            ==> SwapchainFormatAsWritten(formats) == formats[0]
    ensures SwapchainFormatAsWritten(formats) != formats[0] ==>
      exists j :: 0 <= j < |formats| && j % 2 == 0 && formats[j] == SwapchainFormatAsWritten(formats) &&
        SwapchainFormatAsWritten(formats) in DesiredFormats
  {
  }

  /** The search over every index, as evidently intended. */
  function Scan(formats: seq<int>, f: int, i: nat): (r: nat)
    ensures r == |formats| || (i <= r < |formats| && formats[r] == f)
    ensures forall j :: i <= j < |formats| && j < r ==> formats[j] != f
    decreases |formats| - i
  {
    if i >= |formats| then |formats|
    else if formats[i] == f then i
    else Scan(formats, f, i + 1)
  }

  /** The index of the first of `desired[d..]` offered anywhere, or `|formats|`. */
  function FindFirst(formats: seq<int>, desired: seq<int>, d: nat): (r: nat)
    requires d <= |desired|
    ensures r == |formats| ==> forall k :: d <= k < |desired| ==> desired[k] !in formats
    ensures r != |formats| ==>
      (r < |formats| &&
       exists k :: d <= k < |desired| && formats[r] == desired[k] &&
         forall k' :: d <= k' < k ==> desired[k'] !in formats)
    decreases |desired| - d
  {
    if d == |desired| then |formats|
    else
      var i := Scan(formats, desired[d], 0);
      if i != |formats| then i else FindFirst(formats, desired, d + 1)
  }

  /** The format chosen when every index is searched. */
  function SwapchainFormat(formats: seq<int>): int
    requires |formats| > 0
  {
    var found := FindFirst(formats, DesiredFormats, 0);
    if found == |formats| then formats[0] else formats[found]
  }

  /** The best desired format offered anywhere is chosen; with none offered, the first offered format. */
  lemma SwapchainFormatPrefersDesired(formats: seq<int>)
    requires |formats| > 0
    ensures (forall k :: 0 <= k < |DesiredFormats| ==> DesiredFormats[k] !in formats) ==>
      SwapchainFormat(formats) == formats[0]
    ensures forall k :: 0 <= k < |DesiredFormats| && DesiredFormats[k] in formats ==>
      (exists k' :: 0 <= k' <= k && SwapchainFormat(formats) == DesiredFormats[k'] &&
        forall k'' :: 0 <= k'' < k' ==> DesiredFormats[k''] !in formats)
  {
    var found := FindFirst(formats, DesiredFormats, 0);
    forall k | 0 <= k < |DesiredFormats| && DesiredFormats[k] in formats
      ensures exists k' :: (0 <= k' <= k && SwapchainFormat(formats) == DesiredFormats[k'] &&
                            forall k'' :: 0 <= k'' < k' ==> DesiredFormats[k''] !in formats)
    {
      var k' :| 0 <= k' < |DesiredFormats| && formats[found] == DesiredFormats[k'] &&
        forall k'' :: 0 <= k'' < k' ==> DesiredFormats[k''] !in formats;
    }
  }

  /** The even-index search misses RGB16F offered at index 1 and falls back to the first format. */
  lemma EvenSearchMissesOddIndex()
    ensures SwapchainFormatAsWritten([0x8C43, GlRgb16f]) == 0x8C43
    ensures SwapchainFormat([0x8C43, GlRgb16f]) == GlRgb16f
  {
    var formats := [0x8C43, GlRgb16f];
    assert ScanEven(formats, GlR11fG11fB10f, 0) == 2;
    assert ScanEven(formats, GlRgb16f, 0) == 2;
    assert ScanEven(formats, GlRgba, 0) == 2;
    assert Scan(formats, GlR11fG11fB10f, 0) == 2;
    assert Scan(formats, GlRgb16f, 1) == 1;
    assert Scan(formats, GlRgb16f, 0) == 1;
    assert FindFirst(formats, DesiredFormats, 1) == 1;
    assert FindFirst(formats, DesiredFormats, 0) == 1;
  }

  // ---------------------------------------------------------------------------------
  // Session state.

  /** `XrSessionState`. */
  datatype SessionState = Unknown | Idle | Ready | Synchronized | Visible | Focused | Stopping | LossPending | Exiting

  /** The events `xrPollEvent` delivers, reduced to what `PollEvents` looks at. */
  datatype XrEvent =
    | InstanceLossPending
    | SessionStateChanged(newState: SessionState)
    | ReferenceSpaceChangePending
    | EventsLost
    | InteractionProfileChanged
    | OtherEvent

  /** A session call `PollEvents` makes on the runtime. */
  datatype SessionCall = BeginSession | EndSession

  datatype Session = Session(state: SessionState, ready: bool, calls: seq<SessionCall>)
  /** The session after some events, and whether polling goes on (false: `PollEvents` returned false). */
  datatype Polled = Polled(session: Session, ok: bool)

  /** The event makes `PollEvents` call `xrBeginSession` or `xrEndSession`. */
  predicate NeedsCall(e: XrEvent)
  {
    e == SessionStateChanged(Ready) || e == SessionStateChanged(Stopping)
  }

  /**
   * One event: a state change is stored; READY begins the session and STOPPING ends it,
   * `callOk` being what that call returns, and the ready flag changes only when it succeeds.
   */
  function HandleEvent(s: Session, e: XrEvent, callOk: bool): (p: Polled)
    ensures p.ok <==> !NeedsCall(e) || callOk
    ensures p.session.state == (if e.SessionStateChanged? then e.newState else s.state)
    ensures p.session.ready == (if NeedsCall(e) && callOk then e.newState == Ready else s.ready)
  {
    match e
    case SessionStateChanged(st) =>
      if st == Ready then
        Polled(Session(st, if callOk then true else s.ready, s.calls + [BeginSession]), callOk)
      else if st == Stopping then
        Polled(Session(st, if callOk then false else s.ready, s.calls + [EndSession]), callOk)
      else
        Polled(s.(state := st), true)
    case _ => Polled(s, true)
  }

  /** The session after the first `k` queued events; handling stops at the first failed call. */
  function PollAll(s: Session, events: seq<XrEvent>, results: seq<bool>, k: nat): Polled
    requires |results| == |events| && k <= |events|
  {
    if k == 0 then Polled(s, true)
    else
      var p := PollAll(s, events, results, k - 1);
      if !p.ok then p else HandleEvent(p.session, events[k - 1], results[k - 1])
  }

  /** Polling succeeds exactly when every begin or end call made succeeds. */
  lemma {:induction false} PollOkIffCallsOk(s: Session, events: seq<XrEvent>, results: seq<bool>, k: nat)
    requires |results| == |events| && k <= |events|
    ensures PollAll(s, events, results, k).ok <==> forall j :: 0 <= j < k && NeedsCall(events[j]) ==> results[j]
  {
    if k != 0 {
      PollOkIffCallsOk(s, events, results, k - 1);
    }
  }

  /** Once a call fails, later events are left in the queue: the session no longer changes. */
  lemma {:induction false} PollStops(s: Session, events: seq<XrEvent>, results: seq<bool>, k: nat, k': nat)
    requires |results| == |events| && k <= k' <= |events|
    requires !PollAll(s, events, results, k).ok
    ensures PollAll(s, events, results, k') == PollAll(s, events, results, k)
  {
    if k' != k {
      PollStops(s, events, results, k, k' - 1);
    }
  }

  /** The session becomes ready only through a successful `xrBeginSession` on READY. */
  lemma {:induction false} ReadyOnlyAfterBegin(s: Session, events: seq<XrEvent>, results: seq<bool>, k: nat)
    requires |results| == |events| && k <= |events|
    requires !s.ready && PollAll(s, events, results, k).session.ready
    ensures exists j :: 0 <= j < k && events[j] == SessionStateChanged(Ready) && results[j]
  {
    var p := PollAll(s, events, results, k - 1);
    if p.session.ready {
      ReadyOnlyAfterBegin(s, events, results, k - 1);
    } else {
      assert events[k - 1] == SessionStateChanged(Ready) && results[k - 1];
    }
  }

  /** A ready session stops being ready only through a successful `xrEndSession` on STOPPING. */
  lemma {:induction false} NotReadyOnlyAfterEnd(s: Session, events: seq<XrEvent>, results: seq<bool>, k: nat)
    requires |results| == |events| && k <= |events|
    requires s.ready && !PollAll(s, events, results, k).session.ready
    ensures exists j :: 0 <= j < k && events[j] == SessionStateChanged(Stopping) && results[j]
  {
    var p := PollAll(s, events, results, k - 1);
    if !p.session.ready {
      NotReadyOnlyAfterEnd(s, events, results, k - 1);
    } else {
      assert events[k - 1] == SessionStateChanged(Stopping) && results[k - 1];
    }
  }

  /** When every call succeeds, the stored state is the one carried by the last state change. */
  lemma {:induction false} LastStateKept(s: Session, events: seq<XrEvent>, results: seq<bool>, k: nat, j: nat)
    requires |results| == |events| && k <= |events|
    requires PollAll(s, events, results, k).ok
    requires j < k && events[j].SessionStateChanged? && forall i :: j < i < k ==> !events[i].SessionStateChanged?
    ensures PollAll(s, events, results, k).session.state == events[j].newState
  {
    if k - 1 != j {
      LastStateKept(s, events, results, k - 1, j);
    }
  }

  // ---------------------------------------------------------------------------------
  // Frame gating.

  /** The four states in which the frame loop runs. */
  predicate Running(state: SessionState)
  {
    state == Ready || state == Synchronized || state == Visible || state == Focused
  }

  /** A frame call made on the runtime; `EndFrame` carries the number of layers submitted. */
  datatype FrameCall = WaitFrame | BeginFrame | LocateSpaces | RenderLayer | EndFrame(layerCount: nat)

  /** What the frame calls return, and whether the runtime says the frame should be rendered. */
  datatype FrameResults = FrameResults(waitOk: bool, beginOk: bool, shouldRender: bool, locateOk: bool,
                                       layerOk: bool, endOk: bool)

  datatype FrameOutcome = FrameOutcome(ok: bool, calls: seq<FrameCall>)

  /** `RenderFrame`: wait, begin, locate and render when asked to, then end the frame; nothing outside the running states. */
  function RenderFrame(state: SessionState, fr: FrameResults): (o: FrameOutcome)
    ensures !Running(state) ==> o == FrameOutcome(true, [])
    ensures Running(state) ==> |o.calls| > 0 && o.calls[0] == WaitFrame
  {
    if !Running(state) then FrameOutcome(true, [])
    else if !fr.waitOk then FrameOutcome(false, [WaitFrame])
    else if !fr.beginOk then FrameOutcome(false, [WaitFrame, BeginFrame])
    else if fr.shouldRender && !fr.locateOk then FrameOutcome(false, [WaitFrame, BeginFrame, LocateSpaces])
    else
      var rendered := if fr.shouldRender then [LocateSpaces, RenderLayer] else [];
      var layers := if fr.shouldRender && fr.layerOk then 1 else 0;
      FrameOutcome(fr.endOk, [WaitFrame, BeginFrame] + rendered + [EndFrame(layers)])
  }

  /** The frame is ended exactly when it runs and the earlier calls succeed; it succeeds exactly when every call made does; one layer is submitted exactly when one was rendered. */
  lemma RenderFrameOutcome(state: SessionState, fr: FrameResults)
    ensures var o := RenderFrame(state, fr);
      (exists n :: EndFrame(n) in o.calls) <==> Running(state) && fr.waitOk && fr.beginOk && (!fr.shouldRender || fr.locateOk)
    ensures var o := RenderFrame(state, fr);
      o.ok <==> !Running(state) || (fr.waitOk && fr.beginOk && (!fr.shouldRender || fr.locateOk) && fr.endOk)
    ensures EndFrame(1) in RenderFrame(state, fr).calls <==>
      Running(state) && fr.waitOk && fr.beginOk && fr.shouldRender && fr.locateOk && fr.layerOk
  {
    var o := RenderFrame(state, fr);
    if Running(state) && fr.waitOk && fr.beginOk && (!fr.shouldRender || fr.locateOk) {
      assert o.calls[|o.calls| - 1] == EndFrame(if fr.shouldRender && fr.layerOk then 1 else 0);
    }
  }

  // ---------------------------------------------------------------------------------
  // Action getters.

  datatype ActionType = BooleanInput | FloatInput | Vector2fInput | PoseInput | VibrationOutput

  datatype DigitalState = DigitalState(currentState: bool, changedSinceLastSync: bool, isActive: bool)
  datatype AnalogState = AnalogState(currentState: real, changedSinceLastSync: bool, isActive: bool)
  datatype StickState = StickState(currentState: Vec2, changedSinceLastSync: bool, isActive: bool)

  /** `XrSpaceLocation`: flag bits, position and orientation. */
  datatype SpaceLocation = SpaceLocation(locationFlags: bv64, position: Vec3, orientation: Quaternion)
  /** `XrSpaceVelocity`: flag bits and the two velocities. */
  datatype SpaceVelocity = SpaceVelocity(velocityFlags: bv64, linearVelocity: Vec3, angularVelocity: Vec3)

  const OrientationValidBit: bv64 := 0x1
  const PositionValidBit: bv64 := 0x2
  const OrientationTrackedBit: bv64 := 0x4
  const PositionTrackedBit: bv64 := 0x8
  const LinearValidBit: bv64 := 0x1
  const AngularValidBit: bv64 := 0x2

  predicate HasBit(flags: bv64, bit: bv64)
  {
    flags & bit != 0
  }

  /** `ActionInfo`: the action's type and the last states read for it. */
  datatype ActionInfo = ActionInfo(kind: ActionType, boolState: DigitalState, floatState: AnalogState,
                                   vec2State: StickState, poseActive: bool,
                                   spaceLocation: SpaceLocation, spaceVelocity: SpaceVelocity)

  /** A digital or analog reading: the value and its valid and changed flags. */
  datatype Reading<T> = Reading(value: T, valid: bool, changed: bool)
  /** A pose reading: the value and its valid and tracked flags. */
  datatype PoseReading<T> = PoseReading(value: T, valid: bool, tracked: bool)
  datatype VelocityReading = VelocityReading(value: Vec3, valid: bool)

  /** The action exists and has the given type. */
  predicate HasAction(actions: map<string, ActionInfo>, name: string, kind: ActionType)
  {
    name in actions && actions[name].kind == kind
  }

  const HeadPose: string := "head_pose"
  const IdentityQuat: Quaternion := Quaternion(1.0, 0.0, 0.0, 0.0)

  /** `GetActionBool`; `None` is a false return with the outputs untouched. */
  function GetActionBool(actions: map<string, ActionInfo>, state: SessionState, name: string): (r: Option<Reading<bool>>)
    ensures r.None? <==> !HasAction(actions, name, BooleanInput)
    ensures r.Some? && state != Focused ==> r.value == Reading(false, false, false)
    ensures r.Some? && state == Focused ==>
      var b := actions[name].boolState;
      r.value == Reading(b.currentState, b.isActive, b.changedSinceLastSync)
  {
    if !HasAction(actions, name, BooleanInput) then None
    else if state != Focused then Some(Reading(false, false, false))
    else
      var b := actions[name].boolState;
      Some(Reading(b.currentState, b.isActive, b.changedSinceLastSync))
  }

  /** `GetActionFloat`. */
  function GetActionFloat(actions: map<string, ActionInfo>, state: SessionState, name: string): (r: Option<Reading<real>>)
    ensures r.None? <==> !HasAction(actions, name, FloatInput)
    ensures r.Some? && state != Focused ==> r.value == Reading(0.0, false, false)
    ensures r.Some? && state == Focused ==>
      var f := actions[name].floatState;
      r.value == Reading(f.currentState, f.isActive, f.changedSinceLastSync)
  {
    if !HasAction(actions, name, FloatInput) then None
    else if state != Focused then Some(Reading(0.0, false, false))
    else
      var f := actions[name].floatState;
      Some(Reading(f.currentState, f.isActive, f.changedSinceLastSync))
  }

  /** `GetActionVec2`. */
  function GetActionVec2(actions: map<string, ActionInfo>, state: SessionState, name: string): (r: Option<Reading<Vec2>>)
    ensures r.None? <==> !HasAction(actions, name, Vector2fInput)
    ensures r.Some? && state != Focused ==> r.value == Reading(Vec2(0.0, 0.0), false, false)
    ensures r.Some? && state == Focused ==>
      var v := actions[name].vec2State;
      r.value == Reading(v.currentState, v.isActive, v.changedSinceLastSync)
  {
    if !HasAction(actions, name, Vector2fInput) then None
    else if state != Focused then Some(Reading(Vec2(0.0, 0.0), false, false))
    else
      var v := actions[name].vec2State;
      Some(Reading(v.currentState, v.isActive, v.changedSinceLastSync))
  }

  /** The pose of a pose action can be read: the session is focused and the pose is active. */
  predicate PoseLive(actions: map<string, ActionInfo>, state: SessionState, name: string)
    requires name in actions
  {
    state == Focused && actions[name].poseActive
  }

  /** `GetActionPosition`: "head_pose" reads the view space; any other name must be a pose action. */
  function GetActionPosition(actions: map<string, ActionInfo>, state: SessionState, view: SpaceLocation,
                             name: string): (r: Option<PoseReading<Vec3>>)
    ensures name == HeadPose ==>
      r == Some(PoseReading(view.position, HasBit(view.locationFlags, PositionValidBit), HasBit(view.locationFlags, PositionTrackedBit)))
    ensures name != HeadPose ==> (r.None? <==> !HasAction(actions, name, PoseInput))
    ensures name != HeadPose && r.Some? && !PoseLive(actions, state, name) ==> r.value == PoseReading(Zero3, false, false)
  {
    if name == HeadPose then
      Some(PoseReading(view.position, HasBit(view.locationFlags, PositionValidBit), HasBit(view.locationFlags, PositionTrackedBit)))
    else if !HasAction(actions, name, PoseInput) then None
    else if !PoseLive(actions, state, name) then Some(PoseReading(Zero3, false, false))
    else
      var loc := actions[name].spaceLocation;
      Some(PoseReading(loc.position, HasBit(loc.locationFlags, PositionValidBit), HasBit(loc.locationFlags, PositionTrackedBit)))
  }

  /** `GetActionOrientation`: as `GetActionPosition`, with the identity rotation when the pose cannot be read. */
  function GetActionOrientation(actions: map<string, ActionInfo>, state: SessionState, view: SpaceLocation,
                                name: string): (r: Option<PoseReading<Quaternion>>)
    ensures name == HeadPose ==>
      r == Some(PoseReading(view.orientation, HasBit(view.locationFlags, OrientationValidBit),
                            HasBit(view.locationFlags, OrientationTrackedBit)))
    ensures name != HeadPose ==> (r.None? <==> !HasAction(actions, name, PoseInput))
    ensures name != HeadPose && r.Some? && !PoseLive(actions, state, name) ==> r.value == PoseReading(IdentityQuat, false, false)
  {
    if name == HeadPose then
      Some(PoseReading(view.orientation, HasBit(view.locationFlags, OrientationValidBit), HasBit(view.locationFlags, OrientationTrackedBit)))
    else if !HasAction(actions, name, PoseInput) then None
    else if !PoseLive(actions, state, name) then Some(PoseReading(IdentityQuat, false, false))
    else
      var loc := actions[name].spaceLocation;
      Some(PoseReading(loc.orientation, HasBit(loc.locationFlags, OrientationValidBit), HasBit(loc.locationFlags, OrientationTrackedBit)))
  }

  /** `GetActionLinearVelocity`. */
  function GetActionLinearVelocity(actions: map<string, ActionInfo>, state: SessionState, view: SpaceVelocity,
                                   name: string): (r: Option<VelocityReading>)
    ensures name == HeadPose ==> r == Some(VelocityReading(view.linearVelocity, HasBit(view.velocityFlags, LinearValidBit)))
    ensures name != HeadPose ==> (r.None? <==> !HasAction(actions, name, PoseInput))
    ensures name != HeadPose && r.Some? && !PoseLive(actions, state, name) ==> r.value == VelocityReading(Zero3, false)
  {
    if name == HeadPose then Some(VelocityReading(view.linearVelocity, HasBit(view.velocityFlags, LinearValidBit)))
    else if !HasAction(actions, name, PoseInput) then None
    else if !PoseLive(actions, state, name) then Some(VelocityReading(Zero3, false))
    else
      var vel := actions[name].spaceVelocity;
      Some(VelocityReading(vel.linearVelocity, HasBit(vel.velocityFlags, LinearValidBit)))
  }

  /** `GetActionAngularVelocity`. */
  function GetActionAngularVelocity(actions: map<string, ActionInfo>, state: SessionState, view: SpaceVelocity,
                                    name: string): (r: Option<VelocityReading>)
    ensures name == HeadPose ==> r == Some(VelocityReading(view.angularVelocity, HasBit(view.velocityFlags, AngularValidBit)))
    ensures name != HeadPose ==> (r.None? <==> !HasAction(actions, name, PoseInput))
    ensures name != HeadPose && r.Some? && !PoseLive(actions, state, name) ==> r.value == VelocityReading(Zero3, false)
  {
    if name == HeadPose then Some(VelocityReading(view.angularVelocity, HasBit(view.velocityFlags, AngularValidBit)))
    else if !HasAction(actions, name, PoseInput) then None
    else if !PoseLive(actions, state, name) then Some(VelocityReading(Zero3, false))
    else
      var vel := actions[name].spaceVelocity;
      Some(VelocityReading(vel.angularVelocity, HasBit(vel.velocityFlags, AngularValidBit)))
  }

  /** Outside FOCUSED no action reports a valid, changed or tracked value; only the head pose can. */
  lemma UnfocusedReadsNothing(actions: map<string, ActionInfo>, state: SessionState, view: SpaceLocation,
                              vel: SpaceVelocity, name: string)
    requires state != Focused && name != HeadPose
    ensures GetActionBool(actions, state, name).Some? ==> !GetActionBool(actions, state, name).value.valid
    ensures GetActionFloat(actions, state, name).Some? ==> !GetActionFloat(actions, state, name).value.valid
    ensures GetActionVec2(actions, state, name).Some? ==> !GetActionVec2(actions, state, name).value.valid
    ensures GetActionPosition(actions, state, view, name).Some? ==>
      !GetActionPosition(actions, state, view, name).value.valid && !GetActionPosition(actions, state, view, name).value.tracked
    ensures GetActionOrientation(actions, state, view, name).Some? ==>
      !GetActionOrientation(actions, state, view, name).value.valid
    ensures GetActionLinearVelocity(actions, state, vel, name).Some? ==>
      !GetActionLinearVelocity(actions, state, vel, name).value.valid
    ensures GetActionAngularVelocity(actions, state, vel, name).Some? ==>
      !GetActionAngularVelocity(actions, state, vel, name).value.valid
  {
  }

  /** The head pose is read from the view space whatever the session state and the action map, even a "head_pose" action. */
  lemma HeadPoseIgnoresState(a1: map<string, ActionInfo>, s1: SessionState, a2: map<string, ActionInfo>,
                             s2: SessionState, view: SpaceLocation, vel: SpaceVelocity)
    ensures GetActionPosition(a1, s1, view, HeadPose) == GetActionPosition(a2, s2, view, HeadPose)
    ensures GetActionOrientation(a1, s1, view, HeadPose) == GetActionOrientation(a2, s2, view, HeadPose)
    ensures GetActionLinearVelocity(a1, s1, vel, HeadPose) == GetActionLinearVelocity(a2, s2, vel, HeadPose)
    ensures GetActionAngularVelocity(a1, s1, vel, HeadPose) == GetActionAngularVelocity(a2, s2, vel, HeadPose)
    ensures GetActionPosition(a1, s1, view, HeadPose).Some?
  {
  }

  /** A name answers at most one of the digital, analog and stick getters, and never one of those and a pose getter. */
  lemma GettersExclusive(actions: map<string, ActionInfo>, state: SessionState, view: SpaceLocation, name: string)
    requires name != HeadPose
    ensures GetActionBool(actions, state, name).Some? ==>
      GetActionFloat(actions, state, name).None? && GetActionVec2(actions, state, name).None? &&
      GetActionPosition(actions, state, view, name).None?
    ensures GetActionFloat(actions, state, name).Some? ==>
      GetActionVec2(actions, state, name).None? && GetActionPosition(actions, state, view, name).None?
    ensures GetActionVec2(actions, state, name).Some? ==> GetActionPosition(actions, state, view, name).None?
  {
  }

  // ---------------------------------------------------------------------------------
  // Colour space.

  /** XR_COLOR_SPACE_ADOBE_RGB_FB + 1: the number of `XrColorSpaceFB` values cycled through. */
  const ColorSpaceCount: int := 8

  function NextColorSpace(i: int): int
  {
    (i + 1) % ColorSpaceCount
  }

  /** The colour space selected by the `n`-th call to `CycleColorSpace`, counting from 0. */
  function ColorSpaceAfter(n: nat): (c: int)
  {
    if n == 0 then 0 else NextColorSpace(ColorSpaceAfter(n - 1))
  }

  /** The `n`-th call selects colour space `n mod 8`: every value from 0 to 7 in turn, then again. */
  lemma {:induction false} ColorSpaceCycles(n: nat)
    ensures ColorSpaceAfter(n) == n % ColorSpaceCount
    ensures 0 <= ColorSpaceAfter(n) < ColorSpaceCount
  {
    if n != 0 {
      ColorSpaceCycles(n - 1);
      var q := (n - 1) / ColorSpaceCount;
      var r := (n - 1) % ColorSpaceCount;
      assert n - 1 == q * ColorSpaceCount + r;
      if r + 1 == ColorSpaceCount {
        assert n == (q + 1) * ColorSpaceCount;
      } else {
        assert n == q * ColorSpaceCount + (r + 1);
      }
    }
  }

  // ---------------------------------------------------------------------------------
  // The wrapper object.

  class XrBuddy {
    var constructorSucceded: bool
    var state: SessionState
    var sessionReady: bool
    /** Every session call made on the runtime, in order. */
    var sessionCalls: seq<SessionCall>
    /**
     * The counter `CycleColorSpace` keeps. In the program it is a function-level static,
     * shared by every instance; one instance exists.
     */
    var colorSpaceIndex: int
    /** Every colour space set by `CycleColorSpace`, in order. */
    var colorSpaceCalls: seq<int>

    ghost predicate Valid()
      reads this
    {
      0 <= colorSpaceIndex < ColorSpaceCount
    }

    /**
     * `extensions` is what `xrEnumerateInstanceExtensionProperties` reports (`None` when it
     * fails); `platformOk` is whether the later instance, system and view-configuration
     * calls all succeed.
     */
    constructor(extensions: Option<seq<string>>, platformOk: bool)
      ensures Valid()
      ensures constructorSucceded <==> extensions.Some? && OpenGLEnable in extensions.value && platformOk
      ensures state == Unknown && !sessionReady && sessionCalls == []
      ensures colorSpaceIndex == 0 && colorSpaceCalls == []
    {
      state := Unknown;
      sessionReady := false;
      sessionCalls := [];
      colorSpaceIndex := 0;
      colorSpaceCalls := [];
      constructorSucceded := false;
      if extensions.Some? {
        var ok, enabled := EnableExtensions(extensions.value, [OpenGLEnable], [ColorSpaceExtension]);
        assert ok <==> OpenGLEnable in extensions.value;
        if ok && platformOk {
          constructorSucceded := true;
        }
      }
    }

    /** `Init` fails at once when the constructor did not finish; `setupOk` is whether session, action, space, framebuffer and swapchain creation succeed. */
    method Init(setupOk: bool) returns (ok: bool)
      ensures ok <==> constructorSucceded && setupOk
      ensures !constructorSucceded ==> !ok
    {
      if !constructorSucceded {
        return false;
      }
      ok := setupOk;
    }

    /** One event of the `PollEvents` loop. */
    method HandleXrEvent(e: XrEvent, callOk: bool) returns (ok: bool)
      modifies this`state, this`sessionReady, this`sessionCalls
      ensures var p := HandleEvent(Session(old(state), old(sessionReady), old(sessionCalls)), e, callOk);
        Session(state, sessionReady, sessionCalls) == p.session && ok == p.ok
    {
      ok := true;
      if e.SessionStateChanged? {
        state := e.newState;
        if state == Ready {
          sessionCalls := sessionCalls + [BeginSession];
          if !callOk {
            return false;
          }
          sessionReady := true;
        } else if state == Stopping {
          sessionCalls := sessionCalls + [EndSession];
          if !callOk {
            return false;
          }
          sessionReady := false;
        }
      }
    }

    /**
     * `PollEvents` drains the queued `events`; `results[k]` is what the begin or end call
     * made for event `k` returns. A failed call returns false at once.
     */
    method PollEvents(events: seq<XrEvent>, results: seq<bool>) returns (ok: bool)
      requires |results| == |events|
      modifies this`state, this`sessionReady, this`sessionCalls
      ensures var p := PollAll(Session(old(state), old(sessionReady), old(sessionCalls)), events, results, |events|);
        Session(state, sessionReady, sessionCalls) == p.session && ok == p.ok
    {
      ghost var start := Session(state, sessionReady, sessionCalls);
      var k := 0;
      while k < |events|
        invariant 0 <= k <= |events|
        invariant PollAll(start, events, results, k) == Polled(Session(state, sessionReady, sessionCalls), true)
      {
        ok := HandleXrEvent(events[k], results[k]);
        if !ok {
          PollStops(start, events, results, k + 1, |events|);
          return;
        }
        k := k + 1;
      }
      ok := true;
    }

    /** `CycleColorSpace`: sets the current colour space, then advances the counter modulo 8. */
    method CycleColorSpace()
      requires Valid()
      modifies this`colorSpaceIndex, this`colorSpaceCalls
      ensures Valid()
      ensures colorSpaceCalls == old(colorSpaceCalls) + [old(colorSpaceIndex)]
      ensures colorSpaceIndex == NextColorSpace(old(colorSpaceIndex))
    {
      colorSpaceCalls := colorSpaceCalls + [colorSpaceIndex];
      colorSpaceIndex := (colorSpaceIndex + 1) % ColorSpaceCount;
    }
  }
}
