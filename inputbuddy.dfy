// Input dispatch: key events go to the callback registered for the key, window and mouse
// events to their single callbacks, and joystick events update the state of one xbox-style
// joypad. SDL itself is not modelled: an event is given as a value, and each callback the
// dispatcher runs is recorded, with its arguments, in `calls`.
module Input {
  import opened Common

  /** The four directions of the hat. */
  datatype DPad = DPad(down: bool, up: bool, left: bool, right: bool)

  /** The ten buttons of an xbox-style controller. */
  datatype Buttons = Buttons(view: bool, menu: bool, rs: bool, ls: bool, lb: bool, rb: bool,
                             a: bool, b: bool, x: bool, y: bool)

  /**
   * The joypad state: two sticks, two triggers, the hat and the buttons. The source keeps
   * the hat directions and the buttons as flat bit fields of one struct; here they are
   * grouped, with the same names.
   */
  datatype Joypad = Joypad(leftStick: Vec2, rightStick: Vec2, leftTrigger: real, rightTrigger: real,
                           dpad: DPad, buttons: Buttons)

  /** The joypad at rest, as the constructor zero-fills it. */
  function RestJoypad(): Joypad
  {
    Joypad(Vec2(0.0, 0.0), Vec2(0.0, 0.0), 0.0, 0.0, DPad(false, false, false, false),
           Buttons(false, false, false, false, false, false, false, false, false, false))
  }

  /** The events the dispatcher reacts to; `Other` stands for every event type it ignores. */
  datatype Event =
    | Quit
    | Key(down: bool, keycode: int, mod: nat, repeat: bool)
    | JoyAxis(which: int, axis: nat, value: int)
    | JoyHat(which: int, hat: nat, hatValue: bv8)
    | JoyButton(which: int, button: nat, state: nat)
    | Window(resized: bool, data1: int, data2: int)
    | MouseButton(clicks: nat, button: nat, pressed: bool, mouseX: int, mouseY: int)
    | MouseMotion(posX: int, posY: int, relX: int, relY: int)
    | Other

  /** A callback run by the dispatcher, with the arguments it was given. */
  datatype Invocation =
    | QuitCalled(cb: Callback)
    | KeyCalled(cb: Callback, isDown: bool, modifiers: nat)
    | ResizeCalled(cb: Callback, width: int, height: int)
    | MouseButtonCalled(cb: Callback, mouseButton: nat, isPressed: bool, x: int, y: int)
    | MouseMotionCalled(cb: Callback, x: int, y: int, dx: int, dy: int)

  /** The callbacks registered with the dispatcher; `None` is a callback never set. */
  datatype Callbacks = Callbacks(
    keys: map<int, Callback>, quit: Option<Callback>, resize: Option<Callback>,
    mouseButton: Option<Callback>, mouseMotion: Option<Callback>)

  /** The event needs no callback, or the one it needs is set. */
  predicate CanDispatch(cbs: Callbacks, e: Event)
  {
    match e
    case Quit => cbs.quit.Some?
    case Window(resized, _, _) => resized ==> cbs.resize.Some?
    case MouseButton(clicks, _, _, _, _) => clicks == 1 ==> cbs.mouseButton.Some?
    case MouseMotion(_, _, _, _) => cbs.mouseMotion.Some?
    case _ => true
  }

  /** The callbacks run for event `e`. */
  function Dispatched(cbs: Callbacks, e: Event): seq<Invocation>
    requires CanDispatch(cbs, e)
  {
    match e
    case Quit => [QuitCalled(cbs.quit.value)]
    case Key(down, keycode, mod, repeat) =>
      if keycode in cbs.keys && !repeat then [KeyCalled(cbs.keys[keycode], down, mod)] else []
    case Window(resized, w, h) => if resized then [ResizeCalled(cbs.resize.value, w, h)] else []
    case MouseButton(clicks, button, pressed, mx, my) =>
      if clicks == 1 then [MouseButtonCalled(cbs.mouseButton.value, button, pressed, mx, my)] else []
    case MouseMotion(px, py, rx, ry) => [MouseMotionCalled(cbs.mouseMotion.value, px, py, rx, ry)]
    case _ => []
  }

  /**
   * A key event runs exactly one callback, the one registered for its key, when such a
   * callback exists and the event is not a repeat; it is told whether the key went down.
   */
  lemma KeyDispatch(cbs: Callbacks, down: bool, keycode: int, mod: nat, repeat: bool)
    ensures var calls := Dispatched(cbs, Key(down, keycode, mod, repeat));
      (|calls| == 1 <==> keycode in cbs.keys && !repeat) && (calls == [] <==> keycode !in cbs.keys || repeat) &&
      (|calls| == 1 ==> calls[0] == KeyCalled(cbs.keys[keycode], down, mod))
  {
  }

  /** Joystick events run no callback. */
  lemma JoystickEventsCallNothing(cbs: Callbacks, e: Event)
    requires e.JoyAxis? || e.JoyHat? || e.JoyButton?
    ensures Dispatched(cbs, e) == []
  {
  }

  /** The joystick range maximum, `SDL_JOYSTICK_AXIS_MAX`. */
  const AxisMax: real := 32767.0

  /** Stick readings whose magnitude is at most this are treated as zero. */
  const DeadspotLimit: real := 0.15

  function Abs(v: real): real { if v < 0.0 then -v else v }

  /** The dead zone of a stick: zero near the centre, the reading itself outside it. */
  function Deadspot(v: real): (r: real)
    ensures r == v || r == 0.0
    ensures r == 0.0 <==> Abs(v) <= DeadspotLimit
  {
    if Abs(v) > DeadspotLimit then v else 0.0
  }

  /** The dead zone is idempotent and symmetric about zero. */
  lemma DeadspotIdempotentOdd(v: real)
    ensures Deadspot(Deadspot(v)) == Deadspot(v)
    ensures Deadspot(-v) == -Deadspot(v)
  {
  }

  /** A trigger reading, rescaled from the axis range to about [0, 1]. */
  function TriggerValue(value: int): real
  {
    (value as real / AxisMax) * 0.5 + 0.5
  }

  /**
   * Over the signed 16-bit axis range a trigger lies in [-1/65534, 1]: it is 1 at full
   * press, and it dips just below 0 only at the most negative reading.
   */
  lemma TriggerRange(value: int)
    requires -32768 <= value <= 32767
    ensures -1.0 / 65534.0 <= TriggerValue(value) <= 1.0
    ensures TriggerValue(value) < 0.0 <==> value == -32768
    ensures TriggerValue(32767) == 1.0
  {
  }

  /** Axis `axis` of the joypad: 0, 1 the left stick, 2, 3 the right stick, 4, 5 the triggers. */
  function AxisField(j: Joypad, axis: nat): real
    requires axis <= 5
  {
    match axis
    case 0 => j.leftStick.x
    case 1 => j.leftStick.y
    case 2 => j.rightStick.x
    case 3 => j.rightStick.y
    case 4 => j.leftTrigger
    case 5 => j.rightTrigger
  }

  /** The new value of axis `axis` for a reading: stick y axes are flipped so that up is positive. */
  function AxisReading(axis: nat, value: int): real
    requires axis <= 5
  {
    match axis
    case 0 => Deadspot(value as real / AxisMax)
    case 1 => Deadspot(-value as real / AxisMax)
    case 2 => Deadspot(value as real / AxisMax)
    case 3 => Deadspot(-value as real / AxisMax)
    case 4 => TriggerValue(value)
    case 5 => TriggerValue(value)
  }

  /** The joypad after an axis event: only the named axis of the first joystick takes the reading. */
  function AxisUpdated(j: Joypad, which: int, axis: nat, value: int): Joypad
  {
    if which != 0 || axis > 5 then j
    else
      j.(leftStick := Vec2(if axis == 0 then AxisReading(0, value) else j.leftStick.x,
                           if axis == 1 then AxisReading(1, value) else j.leftStick.y),
         rightStick := Vec2(if axis == 2 then AxisReading(2, value) else j.rightStick.x,
                            if axis == 3 then AxisReading(3, value) else j.rightStick.y),
         leftTrigger := if axis == 4 then AxisReading(4, value) else j.leftTrigger,
         rightTrigger := if axis == 5 then AxisReading(5, value) else j.rightTrigger)
  }

  /** The hat and the buttons agree in the two joypads. */
  predicate SameDigital(j: Joypad, k: Joypad)
  {
    j.dpad == k.dpad && j.buttons == k.buttons
  }

  /** The sticks and the triggers agree in the two joypads. */
  predicate SameAnalog(j: Joypad, k: Joypad)
  {
    j.leftStick == k.leftStick && j.rightStick == k.rightStick &&
    j.leftTrigger == k.leftTrigger && j.rightTrigger == k.rightTrigger
  }

  /**
   * An axis event of the first joystick on axes 0 to 5 sets that one axis to its reading
   * and leaves the hat and the buttons alone ...
   */
  lemma AxisUpdatesOne(j: Joypad, axis: nat, value: int)
    requires axis <= 5
    ensures AxisField(AxisUpdated(j, 0, axis, value), axis) == AxisReading(axis, value)
    ensures SameDigital(AxisUpdated(j, 0, axis, value), j)
  {
  }

  /** ... and every other axis keeps its value. */
  lemma AxisKeepsOthers(j: Joypad, axis: nat, other: nat, value: int)
    requires axis <= 5 && other <= 5 && other != axis
    ensures AxisField(AxisUpdated(j, 0, axis, value), other) == AxisField(j, other)
  {
  }

  /** Any other axis, and any axis of another joystick, changes nothing. */
  lemma AxisIgnored(j: Joypad, which: int, axis: nat, value: int)
    requires which != 0 || axis > 5
    ensures AxisUpdated(j, which, axis, value) == j
  {
  }

  /** The `SDL_HAT_*` bits. */
  const HatUp: bv8 := 1
  const HatRight: bv8 := 2
  const HatDown: bv8 := 4
  const HatLeft: bv8 := 8

  /** The joypad after a hat event: only hat 0 of the first joystick is read. */
  function HatUpdated(j: Joypad, which: int, hat: nat, value: bv8): Joypad
  {
    if which != 0 || hat != 0 then j
    else j.(dpad := DPad(down := value & HatDown != 0, up := value & HatUp != 0,
                         left := value & HatLeft != 0, right := value & HatRight != 0))
  }

  /** The hat value that reports the given directions. */
  function HatValue(up: bool, right: bool, down: bool, left: bool): bv8
  {
    (if up then HatUp else 0) | (if right then HatRight else 0) |
    (if down then HatDown else 0) | (if left then HatLeft else 0)
  }

  /**
   * Each direction is read from its own bit, independently of the others: a hat value
   * built from any four directions reads back as exactly those directions, and the sticks,
   * triggers and buttons are left alone.
   */
  lemma HatDirectionsIndependent(j: Joypad, up: bool, right: bool, down: bool, left: bool)
    ensures var k := HatUpdated(j, 0, 0, HatValue(up, right, down, left));
      k.dpad == DPad(down, up, left, right) && SameAnalog(k, j) && k.buttons == j.buttons
  {
  }

  /** Another hat, or a hat of another joystick, changes nothing. */
  lemma HatIgnored(j: Joypad, which: int, hat: nat, value: bv8)
    requires which != 0 || hat != 0
    ensures HatUpdated(j, which, hat, value) == j
  {
  }

  /** Button `button` of the joypad, in SDL's numbering of an xbox controller (0 is A, 9 the right stick). */
  function ButtonField(j: Joypad, button: nat): bool
    requires button <= 9
  {
    match button
    case 0 => j.buttons.a
    case 1 => j.buttons.b
    case 2 => j.buttons.x
    case 3 => j.buttons.y
    case 4 => j.buttons.lb
    case 5 => j.buttons.rb
    case 6 => j.buttons.menu
    case 7 => j.buttons.view
    case 8 => j.buttons.ls
    case 9 => j.buttons.rs
  }

  /** The buttons after button `button` is set to `pressed`; a number above 9 names no button. */
  function ButtonsUpdated(bs: Buttons, button: nat, pressed: bool): Buttons
  {
    bs.(a := if button == 0 then pressed else bs.a,
        b := if button == 1 then pressed else bs.b,
        x := if button == 2 then pressed else bs.x,
        y := if button == 3 then pressed else bs.y,
        lb := if button == 4 then pressed else bs.lb,
        rb := if button == 5 then pressed else bs.rb,
        menu := if button == 6 then pressed else bs.menu,
        view := if button == 7 then pressed else bs.view,
        ls := if button == 8 then pressed else bs.ls,
        rs := if button == 9 then pressed else bs.rs)
  }

  /** The joypad after a button event: only the named button of the first joystick changes. */
  function ButtonUpdated(j: Joypad, which: int, button: nat, state: nat): Joypad
  {
    if which != 0 then j else j.(buttons := ButtonsUpdated(j.buttons, button, state != 0))
  }

  /**
   * A button event of the first joystick for a mapped button sets that one button to
   * whether the state is non-zero, and leaves the hat, the sticks and the triggers alone ...
   */
  lemma ButtonUpdatesOne(j: Joypad, button: nat, state: nat)
    requires button <= 9
    ensures ButtonField(ButtonUpdated(j, 0, button, state), button) == (state != 0)
    ensures SameAnalog(ButtonUpdated(j, 0, button, state), j)
    ensures ButtonUpdated(j, 0, button, state).dpad == j.dpad
  {
  }

  /** ... and every other button keeps its state. */
  lemma ButtonKeepsOthers(j: Joypad, button: nat, other: nat, state: nat)
    requires button <= 9 && other <= 9 && other != button
    ensures ButtonField(ButtonUpdated(j, 0, button, state), other) == ButtonField(j, other)
  {
  }

  /** An unmapped button, or a button of another joystick, changes nothing. */
  lemma ButtonIgnored(j: Joypad, which: int, button: nat, state: nat)
    requires which != 0 || button > 9
    ensures ButtonUpdated(j, which, button, state) == j
  {
  }

  /** The joypad after any event: only the three joystick events touch it. */
  function JoypadAfter(j: Joypad, e: Event): Joypad
  {
    match e
    case JoyAxis(which, axis, value) => AxisUpdated(j, which, axis, value)
    case JoyHat(which, hat, value) => HatUpdated(j, which, hat, value)
    case JoyButton(which, button, state) => ButtonUpdated(j, which, button, state)
    case _ => j
  }

  /** Events of a joystick other than the first one never change the joypad. */
  lemma OtherJoysticksIgnored(j: Joypad, e: Event)
    requires (e.JoyAxis? || e.JoyHat? || e.JoyButton?) && e.which != 0
    ensures JoypadAfter(j, e) == j
  {
  }

  class InputBuddy {
    var keyCallbackMap: map<int, Callback>
    var quitCallback: Option<Callback>
    var resizeCallback: Option<Callback>
    var mouseButtonCallback: Option<Callback>
    var mouseMotionCallback: Option<Callback>
    var joypad: Joypad
    /** Every callback run so far, in order. */
    var calls: seq<Invocation>

    /** The registered callbacks. */
    function Registered(): Callbacks
      reads this
    {
      Callbacks(keyCallbackMap, quitCallback, resizeCallback, mouseButtonCallback, mouseMotionCallback)
    }

    /** Starts with no callbacks and the joypad at rest. */
    constructor()
      ensures keyCallbackMap == map[] && quitCallback.None? && resizeCallback.None?
      ensures mouseButtonCallback.None? && mouseMotionCallback.None?
      ensures joypad == RestJoypad() && calls == []
    {
      keyCallbackMap := map[];
      quitCallback, resizeCallback := None, None;
      mouseButtonCallback, mouseMotionCallback := None, None;
      joypad := RestJoypad();
      calls := [];
    }

    /** Registers a key callback; a key that already has one keeps its first callback. */
    method OnKey(key: int, cb: Callback)
      modifies this`keyCallbackMap
      ensures keyCallbackMap == MapInsert(old(keyCallbackMap), key, cb)
    {
      keyCallbackMap := MapInsert(keyCallbackMap, key, cb);
    }

    method OnQuit(cb: Callback)
      modifies this`quitCallback
      ensures quitCallback == Some(cb)
    {
      quitCallback := Some(cb);
    }

    method OnResize(cb: Callback)
      modifies this`resizeCallback
      ensures resizeCallback == Some(cb)
    {
      resizeCallback := Some(cb);
    }

    method OnMouseButton(cb: Callback)
      modifies this`mouseButtonCallback
      ensures mouseButtonCallback == Some(cb)
    {
      mouseButtonCallback := Some(cb);
    }

    method OnMouseMotion(cb: Callback)
      modifies this`mouseMotionCallback
      ensures mouseMotionCallback == Some(cb)
    {
      mouseMotionCallback := Some(cb);
    }

    method UpdateJoypadAxis(which: int, axis: nat, value: int)
      modifies this`joypad
      ensures joypad == AxisUpdated(old(joypad), which, axis, value)
    {
      if which != 0 {
        return;
      }
      if axis == 0 {
        joypad := joypad.(leftStick := joypad.leftStick.(x := Deadspot(value as real / AxisMax)));
      } else if axis == 1 {
        joypad := joypad.(leftStick := joypad.leftStick.(y := Deadspot(-value as real / AxisMax)));
      } else if axis == 2 {
        joypad := joypad.(rightStick := joypad.rightStick.(x := Deadspot(value as real / AxisMax)));
      } else if axis == 3 {
        joypad := joypad.(rightStick := joypad.rightStick.(y := Deadspot(-value as real / AxisMax)));
      } else if axis == 4 {
        joypad := joypad.(leftTrigger := (value as real / AxisMax) * 0.5 + 0.5);
      } else if axis == 5 {
        joypad := joypad.(rightTrigger := (value as real / AxisMax) * 0.5 + 0.5);
      }
    }

    method UpdateJoypadHat(which: int, hat: nat, value: bv8)
      modifies this`joypad
      ensures joypad == HatUpdated(old(joypad), which, hat, value)
    {
      if which != 0 {
        return;
      }
      if hat == 0 {
        joypad := joypad.(dpad := joypad.dpad.(up := value & HatUp != 0));
        joypad := joypad.(dpad := joypad.dpad.(right := value & HatRight != 0));
        joypad := joypad.(dpad := joypad.dpad.(down := value & HatDown != 0));
        joypad := joypad.(dpad := joypad.dpad.(left := value & HatLeft != 0));
      }
    }

    method UpdateJoypadButton(which: int, button: nat, state: nat)
      modifies this`joypad
      ensures joypad == ButtonUpdated(old(joypad), which, button, state)
    {
      if which != 0 {
        return;
      }
      var pressed := state != 0;
      var bs := joypad.buttons;
      ghost var target := ButtonsUpdated(bs, button, pressed);
      if button == 0 {
        bs := bs.(a := pressed);
      } else if button == 1 {
        bs := bs.(b := pressed);
      } else if button == 2 {
        bs := bs.(x := pressed);
      } else if button == 3 {
        bs := bs.(y := pressed);
      } else if button == 4 {
        bs := bs.(lb := pressed);
      } else if button == 5 {
        bs := bs.(rb := pressed);
      } else if button == 6 {
        bs := bs.(menu := pressed);
      } else if button == 7 {
        bs := bs.(view := pressed);
      } else if button == 8 {
        bs := bs.(ls := pressed);
      } else if button == 9 {
        bs := bs.(rs := pressed);
      }
      assert bs == target;
      joypad := joypad.(buttons := bs);
    }

    /**
     * Handles one event: runs the callbacks it calls for and updates the joypad. A callback
     * the event calls for must have been set.
     */
    method ProcessEvent(e: Event)
      requires CanDispatch(Registered(), e)
      modifies this`joypad, this`calls
      ensures joypad == JoypadAfter(old(joypad), e)
      ensures calls == old(calls) + Dispatched(Registered(), e)
    {
      match e {
        case Quit =>
          calls := calls + [QuitCalled(quitCallback.value)];
        case Key(down, keycode, mod, repeat) =>
          if keycode in keyCallbackMap && !repeat {
            calls := calls + [KeyCalled(keyCallbackMap[keycode], down, mod)];
          }
        case JoyAxis(which, axis, value) =>
          UpdateJoypadAxis(which, axis, value);
        case JoyHat(which, hat, value) =>
          UpdateJoypadHat(which, hat, value);
        case JoyButton(which, button, state) =>
          UpdateJoypadButton(which, button, state);
        case Window(resized, w, h) =>
          if resized {
            calls := calls + [ResizeCalled(resizeCallback.value, w, h)];
          }
        case MouseButton(clicks, button, pressed, mx, my) =>
          if clicks == 1 {
            calls := calls + [MouseButtonCalled(mouseButtonCallback.value, button, pressed, mx, my)];
          }
        case MouseMotion(px, py, rx, ry) =>
          calls := calls + [MouseMotionCalled(mouseMotionCallback.value, px, py, rx, ry)];
        case Other =>
      }
    }
  }
}
