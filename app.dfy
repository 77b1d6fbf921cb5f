// The application shell: command-line parsing into options and a data directory, and the
// state changes made by the keyboard handlers (camera cycling, display toggles, and the
// virtual sticks driven from the keyboard).
module Application {
  import opened Common

  datatype Options = Options(vrMode: bool, fullscreen: bool, drawCarpet: bool, drawPointCloud: bool,
                             drawDebug: bool, debugLogging: bool, drawFps: bool)

  /** The options before any argument is parsed. */
  function DefaultOptions(): Options
  {
    Options(vrMode := false, fullscreen := false, drawCarpet := false, drawPointCloud := false,
            drawDebug := true, debugLogging := false, drawFps := true)
  }

  predicate IsVrFlag(arg: string) { arg == "-v" || arg == "--openxr" }
  predicate IsFullscreenFlag(arg: string) { arg == "-f" || arg == "--fullscreen" }
  predicate IsDebugFlag(arg: string) { arg == "-d" || arg == "--debug" }

  /** The options after one argument: a recognised flag sets its option, anything else is ignored. */
  function ApplyFlag(o: Options, arg: string): Options
  {
    if IsVrFlag(arg) then o.(vrMode := true)
    else if IsFullscreenFlag(arg) then o.(fullscreen := true)
    else if IsDebugFlag(arg) then o.(debugLogging := true)
    else o
  }

  /** The options after scanning `argv[1..k]`; `argv[0]`, the program name, is never scanned. */
  function Scanned(o: Options, argv: seq<string>, k: nat): Options
    requires 1 <= k <= |argv|
  {
    if k == 1 then o else ApplyFlag(Scanned(o, argv, k - 1), argv[k - 1])
  }

  /** Some argument among `argv[1..k]` satisfies `flag`. */
  predicate Given(argv: seq<string>, k: nat, flag: string -> bool)
    requires k <= |argv|
  {
    exists i :: 1 <= i < k && flag(argv[i])
  }

  /**
   * After scanning, an option is set exactly when it was set before or one of its two
   * spellings occurs among the scanned arguments ...
   */
  lemma {:induction false} ScannedFlags(o: Options, argv: seq<string>, k: nat)
    requires 1 <= k <= |argv|
    ensures Scanned(o, argv, k).vrMode <==> o.vrMode || Given(argv, k, IsVrFlag)
    ensures Scanned(o, argv, k).fullscreen <==> o.fullscreen || Given(argv, k, IsFullscreenFlag)
    ensures Scanned(o, argv, k).debugLogging <==> o.debugLogging || Given(argv, k, IsDebugFlag)
  {
    if k > 1 {
      ScannedFlags(o, argv, k - 1);
      assert Given(argv, k, IsVrFlag) <==> Given(argv, k - 1, IsVrFlag) || IsVrFlag(argv[k - 1]);
      assert Given(argv, k, IsFullscreenFlag) <==> Given(argv, k - 1, IsFullscreenFlag) || IsFullscreenFlag(argv[k - 1]);
      assert Given(argv, k, IsDebugFlag) <==> Given(argv, k - 1, IsDebugFlag) || IsDebugFlag(argv[k - 1]);
    }
  }

  /** ... and the display options are untouched by the command line. */
  lemma {:induction false} ScanKeepsDisplay(o: Options, argv: seq<string>, k: nat)
    requires 1 <= k <= |argv|
    ensures var r := Scanned(o, argv, k);
      r.drawCarpet == o.drawCarpet && r.drawPointCloud == o.drawPointCloud &&
      r.drawDebug == o.drawDebug && r.drawFps == o.drawFps
  {
    if k > 1 {
      ScanKeepsDisplay(o, argv, k - 1);
      ApplyFlagKeepsDisplay(Scanned(o, argv, k - 1), argv[k - 1]);
    }
  }

  lemma ApplyFlagKeepsDisplay(o: Options, arg: string)
    ensures var r := ApplyFlag(o, arg);
      r.drawCarpet == o.drawCarpet && r.drawPointCloud == o.drawPointCloud &&
      r.drawDebug == o.drawDebug && r.drawFps == o.drawFps
  {
    if IsVrFlag(arg) {
    } else if IsFullscreenFlag(arg) {
    } else if IsDebugFlag(arg) {
    }
  }

  /** The directory with a path separator at its end: a `/` is appended when it ends in neither `/` nor `\`. */
  function WithSlash(dir: string): string
    requires dir != []
  {
    if dir[|dir| - 1] == '/' || dir[|dir| - 1] == '\\' then dir else dir + "/"
  }

  /**
   * The result ends with a separator and starts with the directory, one character longer at
   * most, and adding a separator twice changes nothing.
   */
  lemma WithSlashEnds(dir: string)
    requires dir != []
    ensures var r := WithSlash(dir);
      r[|r| - 1] in {'/', '\\'} && dir <= r && |r| <= |dir| + 1 && WithSlash(r) == r
    ensures dir[|dir| - 1] in {'/', '\\'} <==> WithSlash(dir) == dir
  {
  }

  /** Options changed by a key press. */
  datatype ToggleKey = KeyC | KeyF | KeyF1

  /** The options after a toggle key event: a press flips its option, a release changes nothing. */
  function Toggled(o: Options, key: ToggleKey, down: bool): Options
  {
    if !down then o
    else match key
      case KeyC => o.(drawPointCloud := !o.drawPointCloud)
      case KeyF => o.(drawCarpet := !o.drawCarpet)
      case KeyF1 => o.(drawFps := !o.drawFps)
  }

  /** Pressing a toggle key twice restores the options; only its own option ever changes. */
  lemma ToggleTwice(o: Options, key: ToggleKey)
    ensures Toggled(Toggled(o, key, true), key, true) == o
    ensures Toggled(o, key, true) != o
    ensures Toggled(o, key, true).vrMode == o.vrMode && Toggled(o, key, true).debugLogging == o.debugLogging
  {
  }

  /** The camera selected by the "next camera" key. */
  function NextCamera(i: int, n: nat): int
    requires 0 <= i && 0 < n
  {
    (i + 1) % n
  }

  /** The "previous camera" key as written: `cameraIndex - 1` taken as a 64-bit `size_t` before the remainder. */
  function PrevCameraAsWritten(i: int, n: nat): (r: int)
    requires 0 <= i && 0 < n
    ensures 0 <= r < n
  {
    ((i - 1) % TwoTo64) % n
  }

  /** The previous camera, wrapping from the first to the last. */
  function PrevCamera(i: int, n: nat): int
    requires 0 <= i && 0 < n
  {
    (i + n - 1) % n
  }

  /** Euclidean division is unique: a quotient and remainder in range are the ones `/` and `%` give. */
  lemma ModUnique(a: int, n: nat, q: int, r: int)
    requires 0 < n && a == q * n + r && 0 <= r < n
    ensures a % n == r && a / n == q
  {
    var q', r' := a / n, a % n;
    assert q' * n + r' == q * n + r;
    if q' != q {
      if q' > q {
        MulMonotone(q' - q, n);
      } else {
        MulMonotone(q - q', n);
      }
      assert false;
    }
  }

  lemma MulMonotone(k: int, n: nat)
    requires 1 <= k
    ensures k * n >= n
  {
  }

  /** The next camera is in range, and the previous camera undoes it: the keys cycle through all `n` cameras. */
  lemma CameraCycle(i: int, n: nat)
    requires 0 <= i < n
    ensures NextCamera(i, n) == (if i == n - 1 then 0 else i + 1)
    ensures PrevCamera(i, n) == (if i == 0 then n - 1 else i - 1)
    ensures PrevCamera(NextCamera(i, n), n) == i && NextCamera(PrevCamera(i, n), n) == i
  {
    StepMod(i + 1, n);
    StepMod(i + n - 1, n);
    var next := if i == n - 1 then 0 else i + 1;
    var prev := if i == 0 then n - 1 else i - 1;
    StepMod(next + n - 1, n);
    StepMod(prev + 1, n);
  }

  /** A value in [0, 2n) reduces modulo `n` by at most one subtraction. */
  lemma StepMod(a: int, n: nat)
    requires 0 < n && 0 <= a < 2 * n
    ensures a % n == (if a < n then a else a - n)
  {
    if a < n {
      ModUnique(a, n, 0, a);
    } else {
      ModUnique(a, n, 1, a - n);
    }
  }

  /** Away from the first camera the code as written agrees with the intended step back. */
  lemma PrevCameraAgreesAboveZero(i: int, n: nat)
    requires 0 < i < n <= TwoTo64
    ensures PrevCameraAsWritten(i, n) == PrevCamera(i, n) == i - 1
  {
    ModUnique(i - 1, TwoTo64, 0, i - 1);
    StepMod(i - 1, n);
    StepMod(i + n - 1, n);
  }

  /** From the first of three cameras the code as written stays on the first, not the last. */
  lemma PrevCameraWrapMisses()
    ensures PrevCameraAsWritten(0, 3) == 0
    ensures PrevCamera(0, 3) == 2
  {
    ModUnique(-1, TwoTo64, -1, TwoTo64 - 1);
    ModUnique(TwoTo64 - 1, 3, (TwoTo64 - 1) / 3, 0);
  }

  /** From the first camera, the code as written reaches the last one only when `n` divides 2^64. */
  lemma PrevCameraFromZero(n: nat)
    requires 0 < n
    ensures PrevCameraAsWritten(0, n) == n - 1 <==> TwoTo64 % n == 0
  {
    ModUnique(-1, TwoTo64, -1, TwoTo64 - 1);
    var q, r := (TwoTo64 - 1) / n, (TwoTo64 - 1) % n;
    assert TwoTo64 == q * n + (r + 1);
    if r == n - 1 {
      ModUnique(TwoTo64, n, q + 1, 0);
    } else {
      ModUnique(TwoTo64, n, q, r + 1);
    }
  }

  /** The keys driving the virtual sticks and the virtual roll. */
  datatype StickKey = KeyA | KeyD | KeyW | KeyS | KeyLeft | KeyRight | KeyUp | KeyDown | KeyQ | KeyE

  /** The keyboard's contribution to the sticks and the roll. */
  datatype Sticks = Sticks(left: Vec2, right: Vec2, roll: real)

  /** The direction a key pushes: +1 or -1 on press, the opposite on release. */
  function Push(key: StickKey, down: bool): real
  {
    var positive := key in {KeyD, KeyW, KeyRight, KeyUp, KeyE};
    if down == positive then 1.0 else -1.0
  }

  /** The sticks after a stick key event. */
  function StickMoved(s: Sticks, key: StickKey, down: bool): Sticks
  {
    var d := Push(key, down);
    match key
    case KeyA | KeyD => s.(left := s.left.(x := s.left.x + d))
    case KeyW | KeyS => s.(left := s.left.(y := s.left.y + d))
    case KeyLeft | KeyRight => s.(right := s.right.(x := s.right.x + d))
    case KeyUp | KeyDown => s.(right := s.right.(y := s.right.y + d))
    case KeyQ | KeyE => s.(roll := s.roll + d)
  }

  /**
   * A press followed by a release of the same key leaves the sticks as they were, and so
   * does a press of a key followed by a press of its opposite.
   */
  lemma PressReleaseCancels(s: Sticks, key: StickKey)
    ensures StickMoved(StickMoved(s, key, true), key, false) == s
    ensures StickMoved(StickMoved(s, key, false), key, true) == s
    ensures StickMoved(StickMoved(s, key, true), Opposite(key), true) == s
  {
  }

  function Opposite(key: StickKey): StickKey
  {
    match key
    case KeyA => KeyD
    case KeyD => KeyA
    case KeyW => KeyS
    case KeyS => KeyW
    case KeyLeft => KeyRight
    case KeyRight => KeyLeft
    case KeyUp => KeyDown
    case KeyDown => KeyUp
    case KeyQ => KeyE
    case KeyE => KeyQ
  }

  class App {
    var opt: Options
    var dataDir: string
    var cameraIndex: int
    /** The number of cameras in the loaded camera configuration, if one was loaded. */
    var numCameras: Option<nat>
    var shouldQuit: bool
    var virtualLeftStick: Vec2
    var virtualRightStick: Vec2
    var virtualRoll: real

    function KeyboardSticks(): Sticks
      reads this
    {
      Sticks(virtualLeftStick, virtualRightStick, virtualRoll)
    }

    constructor()
      ensures opt == DefaultOptions() && cameraIndex == 0 && !shouldQuit && numCameras.None?
      ensures KeyboardSticks() == Sticks(Vec2(0.0, 0.0), Vec2(0.0, 0.0), 0.0)
    {
      opt := DefaultOptions();
      dataDir := "";
      numCameras := None;
      cameraIndex := 0;
      shouldQuit := false;
      virtualLeftStick := Vec2(0.0, 0.0);
      virtualRightStick := Vec2(0.0, 0.0);
      virtualRoll := 0.0;
    }

    /**
     * Parses the command line `argv` (with the program name first). It fails without a data
     * directory argument; otherwise every argument between the first and the last is
     * scanned for flags, the last is the data directory, and the result says whether that
     * directory exists (`dirExists` stands for the file system).
     */
    method ParseArguments(argv: seq<string>, dirExists: string -> bool) returns (ok: bool)
      requires |argv| >= 2 ==> argv[|argv| - 1] != []
      modifies this`opt, this`dataDir
      ensures |argv| < 2 ==> !ok && opt == old(opt) && dataDir == old(dataDir)
      ensures |argv| >= 2 ==>
        opt == Scanned(old(opt), argv, |argv| - 1) && dataDir == WithSlash(argv[|argv| - 1]) &&
        (ok <==> dirExists(dataDir))
    {
      if |argv| < 2 {
        return false;
      }
      var i := 1;
      while i < |argv| - 1
        invariant 1 <= i <= |argv| - 1
        invariant opt == Scanned(old(opt), argv, i)
      {
        if argv[i] == "-v" || argv[i] == "--openxr" {
          opt := opt.(vrMode := true);
        } else if argv[i] == "-f" || argv[i] == "--fullscreen" {
          opt := opt.(fullscreen := true);
        } else if argv[i] == "-d" || argv[i] == "--debug" {
          opt := opt.(debugLogging := true);
        }
        i := i + 1;
      }
      dataDir := argv[|argv| - 1];
      if !(dataDir[|dataDir| - 1] == '/' || dataDir[|dataDir| - 1] == '\\') {
        dataDir := dataDir + "/";
      }
      ok := dirExists(dataDir);
    }

    /** The escape key asks the application to quit, on press and on release. */
    method EscapeKey(down: bool)
      modifies this`shouldQuit
      ensures shouldQuit
    {
      shouldQuit := true;
    }

    method ToggleKeyEvent(key: ToggleKey, down: bool)
      modifies this`opt
      ensures opt == Toggled(old(opt), key, down)
    {
      if down {
        match key {
          case KeyC => opt := opt.(drawPointCloud := !opt.drawPointCloud);
          case KeyF => opt := opt.(drawCarpet := !opt.drawCarpet);
          case KeyF1 => opt := opt.(drawFps := !opt.drawFps);
        }
      }
    }

    /** The "next camera" key: on press, with a camera configuration, selects the next camera. */
    method NextCameraKey(down: bool)
      requires 0 <= cameraIndex && numCameras != Some(0)
      modifies this`cameraIndex
      ensures down && old(numCameras).Some? ==> cameraIndex == NextCamera(old(cameraIndex), numCameras.value)
      ensures !(down && old(numCameras).Some?) ==> cameraIndex == old(cameraIndex)
      ensures numCameras.Some? && down ==> 0 <= cameraIndex < numCameras.value
    {
      if down && numCameras.Some? {
        cameraIndex := (cameraIndex + 1) % numCameras.value;
      }
    }

    /**
     * The "previous camera" key as written: on press, with a camera configuration, takes
     * `cameraIndex - 1` as an unsigned 64-bit value before the remainder. The index it
     * selects is always a valid camera.
     */
    method PrevCameraKey(down: bool)
      requires 0 <= cameraIndex && numCameras != Some(0)
      modifies this`cameraIndex
      ensures down && old(numCameras).Some? ==> cameraIndex == PrevCameraAsWritten(old(cameraIndex), numCameras.value)
      ensures !(down && old(numCameras).Some?) ==> cameraIndex == old(cameraIndex)
      ensures numCameras.Some? && down ==> 0 <= cameraIndex < numCameras.value
    {
      if down && numCameras.Some? {
        var asSize := (cameraIndex - 1) % TwoTo64;
        cameraIndex := asSize % numCameras.value;
      }
    }

    method StickKeyEvent(key: StickKey, down: bool)
      modifies this`virtualLeftStick, this`virtualRightStick, this`virtualRoll
      ensures KeyboardSticks() == StickMoved(old(KeyboardSticks()), key, down)
    {
      match key {
        case KeyA => virtualLeftStick := virtualLeftStick.(x := virtualLeftStick.x + (if down then -1.0 else 1.0));
        case KeyD => virtualLeftStick := virtualLeftStick.(x := virtualLeftStick.x + (if down then 1.0 else -1.0));
        case KeyW => virtualLeftStick := virtualLeftStick.(y := virtualLeftStick.y + (if down then 1.0 else -1.0));
        case KeyS => virtualLeftStick := virtualLeftStick.(y := virtualLeftStick.y + (if down then -1.0 else 1.0));
        case KeyLeft => virtualRightStick := virtualRightStick.(x := virtualRightStick.x + (if down then -1.0 else 1.0));
        case KeyRight => virtualRightStick := virtualRightStick.(x := virtualRightStick.x + (if down then 1.0 else -1.0));
        case KeyUp => virtualRightStick := virtualRightStick.(y := virtualRightStick.y + (if down then 1.0 else -1.0));
        case KeyDown => virtualRightStick := virtualRightStick.(y := virtualRightStick.y + (if down then -1.0 else 1.0));
        case KeyQ => virtualRoll := virtualRoll + (if down then -1.0 else 1.0);
        case KeyE => virtualRoll := virtualRoll + (if down then 1.0 else -1.0);
      }
    }
  }
}
