/**
  The instrument: two Hydra wands read once per tick and turned into a
  new instrument state and a list of note events.

  `Update` is the per-tick transition. The source mutates the current
  state in place and appends to the caller's event vector; here it takes
  the current state, the previous state, the controller frames and the
  events so far, and returns the new state with the extended events.
  The Hydra button masks and hand codes come from a driver binding that
  is not part of this model; they are the `ButtonLayout` parameter. The
  floating-point library is the `Numerics` parameter.
 */
module Zgicabra {
  import opened Ints
  import opened Tools

  /** Below this stick deflection no direction is read. */
  const JoystickDeadzone: real := 0.15

  /** The raw button bit of a stick click. */
  const StickClickMask: bv32 := 0x100

  datatype Voice = Classic | Eternal | Pennysack | Submission

  datatype Hand = Neither | Left | Right

  datatype Direction = None | Left | UpLeft | Up | UpRight | Right | DownRight | Down | DownLeft

  /** A unit quaternion as the driver reports it, `[f32; 4]`. */
  datatype Quat = Quat(q0: real, q1: real, q2: real, q3: real)

  /** The four face buttons of a wand, in the instrument's own order. */
  type Buttons = s: seq<bool> | |s| == 4 witness [false, false, false, false]

  datatype Joystick = Joystick(
    x: real, y: real, r: real, theta: real,
    quadrant: Direction, octant: Direction, clicked: bool)

  datatype Wand = Wand(
    pos: Vec3, rot: Quat, vel: Vec3, acc: Vec3, jerk: Vec3,
    pitch: real, twist: real,
    scalarVel: real, scalarAcc: real, scalarJerk: real,
    trigger: real, bumper: bool, home: bool, buttons: Buttons,
    stick: Joystick, hand: Hand)

  datatype NoteState = NoteState(on: bool, root: uint8, bend: real, current: uint8)

  datatype SignalState = SignalState(
    filter: real, fuzz: real, width: real, thump: real,
    velocity: real, acceleration: real, jerk: real)

  /** What changed during a tick, for the synthesiser to act on. */
  datatype DeltaEvent =
    | NoteStart(note: uint8)
    | NoteChange(previous: uint8, next: uint8)
    | NoteEnd(note: uint8)
    | FilterLevel(level: real)
    | FuzzLevel(level: real)
    | WidthLevel(level: real)
    | PitchBend(amount: real)
    | VoiceChange(voice: Voice)
    | TuneUp
    | TuneDown
    | NextVoice
    | PrevVoice
    | ThumpToggle
    | FuzzToggle
    | Panic

  datatype Zgicabra = Zgicabra(
    left: Wand, right: Wand, separation: real, docked: bool, level: real,
    sequenceNumber: uint8, note: NoteState, signal: SignalState, voice: Voice)

  const NewJoystick: Joystick := Joystick(0.0, 0.0, 0.0, 0.0, Direction.None, Direction.None, false)

  const NewWand: Wand := Wand(
    Origin, Quat(0.0, 0.0, 0.0, 0.0), Origin, Origin, Origin, 0.0, 0.0, 0.0, 0.0, 0.0,
    0.0, false, false, [false, false, false, false], NewJoystick, Hand.Neither)

  /** A silent note state whose root is MIDI note 42. */
  const NewNoteState: NoteState := NoteState(false, 42, 0.0, 0)

  const NewSignalState: SignalState := SignalState(0.0, 0.0, 0.0, 0.0, 0.0, 0.0, 0.0)

  const NewZgicabra: Zgicabra :=
    Zgicabra(NewWand, NewWand, 0.0, false, 0.0, 0, NewNoteState, NewSignalState, Voice.Classic)

  /** The fields of a driver frame the instrument reads. */
  datatype ControllerFrame = ControllerFrame(
    pos: Vec3, joystickX: real, joystickY: real, trigger: real, buttons: bv32,
    sequenceNumber: uint8, rotQuat: Quat, isDocked: uint8, whichHand: uint8)

  /** A frame of all zeroes. */
  const BlankFrame: ControllerFrame :=
    ControllerFrame(Origin, 0.0, 0.0, 0.0, 0, 0, Quat(0.0, 0.0, 0.0, 0.0), 0, 0)

  /** Both controllers' frames and the time since the last tick, in whole milliseconds. */
  datatype HydraState = HydraState(controller0: ControllerFrame, controller1: ControllerFrame, timedeltaMillis: nat)

  /** The driver's button masks and hand codes. */
  datatype ButtonLayout = ButtonLayout(
    button1: bv32, button2: bv32, button3: bv32, button4: bv32,
    bumper: bv32, home: bv32, leftHand: uint8, rightHand: uint8)

  predicate SingleBit(m: bv32) {
    m != 0 && m & (m - 1) == 0
  }

  /** Masks of one bit each, no two buttons sharing a bit, and two distinct hand codes. */
  predicate ValidLayout(l: ButtonLayout) {
    && SingleBit(l.button1) && SingleBit(l.button2) && SingleBit(l.button3) && SingleBit(l.button4)
    && l.button1 != l.button2 && l.button1 != l.button3 && l.button1 != l.button4
    && l.button2 != l.button3 && l.button2 != l.button4 && l.button3 != l.button4
    && l.leftHand != l.rightHand
  }

  /** The per-tick result: the new state and the event list with this tick's events appended. */
  datatype Tick = Tick(state: Zgicabra, deltas: seq<DeltaEvent>)

  // ------------------------------------------------------------------
  // Copying a frame into a wand
  // ------------------------------------------------------------------

  /** The hand a frame says it comes from; an unknown code is neither. */
  function WhichHand(l: ButtonLayout, code: uint8): (h: Hand)
    ensures h == Hand.Left <==> code == l.leftHand
    ensures h == Hand.Right <==> code == l.rightHand && code != l.leftHand
  {
    if code == l.leftHand then Hand.Left
    else if code == l.rightHand then Hand.Right
    else Hand.Neither
  }

  /**
    The physical button read into slot `k` of a wand held in `hand`:
    the left hand reads 4, 2, 1, 3 and the right hand 3, 1, 2, 4, so
    that the two hands mirror each other.
   */
  function PhysicalButton(hand: Hand, k: nat): (b: nat)
    requires hand != Hand.Neither && k < 4
    ensures 1 <= b <= 4
  {
    if hand == Hand.Left then [4, 2, 1, 3][k] else [3, 1, 2, 4][k]
  }

  function ButtonBit(l: ButtonLayout, b: nat): bv32
    requires 1 <= b <= 4
  {
    if b == 1 then l.button1 else if b == 2 then l.button2 else if b == 3 then l.button3 else l.button4
  }

  /**
    The face buttons of a wand after reading `raw`: reordered per hand,
    and left as they were when the hand is unknown.
   */
  function RemapButtons(l: ButtonLayout, hand: Hand, raw: bv32, kept: Buttons): (b: Buttons)
    ensures hand == Hand.Neither ==> b == kept
    ensures hand != Hand.Neither ==>
      forall k :: 0 <= k < 4 ==> b[k] == ButtonMask(raw, ButtonBit(l, PhysicalButton(hand, k)))
  {
    match hand
    case Neither => kept
    case Left => [ButtonMask(raw, l.button4), ButtonMask(raw, l.button2), ButtonMask(raw, l.button1), ButtonMask(raw, l.button3)]
    case Right => [ButtonMask(raw, l.button3), ButtonMask(raw, l.button1), ButtonMask(raw, l.button2), ButtonMask(raw, l.button4)]
  }

  /** Two squares sum to a non-negative number, zero only when both roots are. */
  lemma TwoSquares(x: real, y: real)
    ensures 0.0 <= x * x + y * y
    ensures x * x + y * y == 0.0 <==> x == 0.0 && y == 0.0
  {
    SumSquaresZero(Vec3(x, y, 0.0));
    assert x * x + y * y + 0.0 * 0.0 == x * x + y * y;
  }

  /** `copy_joystick_to_wand`: polar coordinates, compass readings and the click bit. */
  function CopyJoystick(m: Numerics, frame: ControllerFrame): (s: Joystick)
    requires m.Lawful()
    ensures 0.0 <= s.r && s.r * s.r == s.x * s.x + s.y * s.y
    ensures s.r == 0.0 <==> s.x == 0.0 && s.y == 0.0
    ensures 0.0 < s.theta <= 1.0
    ensures s.clicked <==> BitSet(frame.buttons, 8)
    ensures s.x == frame.joystickX && s.y == frame.joystickY
  {
    var x, y := frame.joystickX, frame.joystickY;
    TwoSquares(x, y);
    var r := m.sqrt(x * x + y * y);
    var theta := RadToCycles(m.pi, m.atan2(y, x));
    ButtonMaskSingleBit(frame.buttons, 8);
    Joystick(x, y, r, theta, JoystickQuadrant(r, theta), JoystickOctant(r, theta), ButtonMask(frame.buttons, StickClickMask))
  }

  /**
    `copy_frame_to_wand`: the position is averaged with the previous
    tick's, the rotation, pitch, twist, trigger and buttons are taken
    from the frame, and the stick is read. Motion fields are left for
    the caller to fill in.
   */
  function CopyFrameToWand(m: Numerics, l: ButtonLayout, frame: ControllerFrame, wand: Wand, prev: Wand): (w: Wand)
    requires m.Lawful()
    ensures w.pos.x - prev.pos.x == frame.pos.x - w.pos.x
    ensures w.pos.y - prev.pos.y == frame.pos.y - w.pos.y
    ensures w.pos.z - prev.pos.z == frame.pos.z - w.pos.z
    ensures w.hand == WhichHand(l, frame.whichHand)
    ensures w.bumper == ButtonMask(frame.buttons, l.bumper) && w.home == ButtonMask(frame.buttons, l.home)
    ensures w.buttons == RemapButtons(l, w.hand, frame.buttons, wand.buttons)
    ensures w.stick == CopyJoystick(m, frame)
    ensures w.trigger == frame.trigger && w.pitch == frame.rotQuat.q1 && w.twist == 2.0 * frame.rotQuat.q2
    ensures w.rot == frame.rotQuat
    ensures w.vel == wand.vel && w.acc == wand.acc && w.jerk == wand.jerk
    ensures w.scalarVel == wand.scalarVel && w.scalarAcc == wand.scalarAcc && w.scalarJerk == wand.scalarJerk
  {
    var pos := Vec3((frame.pos.x + prev.pos.x) / 2.0, (frame.pos.y + prev.pos.y) / 2.0, (frame.pos.z + prev.pos.z) / 2.0);
    var hand := WhichHand(l, frame.whichHand);
    wand.(
      pos := pos,
      rot := frame.rotQuat,
      pitch := frame.rotQuat.q1,
      twist := frame.rotQuat.q2 * 2.0,
      trigger := frame.trigger,
      bumper := ButtonMask(frame.buttons, l.bumper),
      home := ButtonMask(frame.buttons, l.home),
      hand := hand,
      buttons := RemapButtons(l, hand, frame.buttons, wand.buttons),
      stick := CopyJoystick(m, frame))
  }

  // ------------------------------------------------------------------
  // Stick readings
  // ------------------------------------------------------------------

  /**
    `joystick_quadrant`: inside the deadzone nothing; otherwise the
    eighth-turn count `t = 8 theta` picks a quarter centred on each
    axis, each quarter closed at its upper end. `t` outside (0, 8] reads
    as nothing.
   */
  function JoystickQuadrant(r: real, theta: real): (d: Direction)
    ensures d in {Direction.None, Direction.Up, Direction.Right, Direction.Down, Direction.Left}
    ensures r < JoystickDeadzone ==> d == Direction.None
  {
    if r < JoystickDeadzone then Direction.None
    else
      var t := theta * 8.0;
      if 0.0 < t <= 1.0 then Direction.Up
      else if 1.0 < t <= 3.0 then Direction.Right
      else if 3.0 < t <= 5.0 then Direction.Down
      else if 5.0 < t <= 7.0 then Direction.Left
      else if 7.0 < t <= 8.0 then Direction.Up
      else Direction.None
  }

  /** `joystick_octant`: as the quadrant, with eight sectors centred on the axes and diagonals. */
  function JoystickOctant(r: real, theta: real): (d: Direction)
    ensures r < JoystickDeadzone ==> d == Direction.None
  {
    if r < JoystickDeadzone then Direction.None
    else
      var t := theta * 8.0;
      if 0.0 < t <= 0.5 then Direction.Up
      else if 0.5 < t <= 1.5 then Direction.UpRight
      else if 1.5 < t <= 2.5 then Direction.Right
      else if 2.5 < t <= 3.5 then Direction.DownRight
      else if 3.5 < t <= 4.5 then Direction.Down
      else if 4.5 < t <= 5.5 then Direction.DownLeft
      else if 5.5 < t <= 6.5 then Direction.Left
      else if 6.5 < t <= 7.5 then Direction.UpLeft
      else if 7.5 < t <= 8.0 then Direction.Up
      else Direction.None
  }

  /** `stick_to_note_offset`: the left stick picks a scale step above the root. */
  function Offset(d: Direction): (o: int8)
    ensures -4 <= o <= 10
    ensures o == 0 <==> d == Direction.None
  {
    match d
    case Left => -4
    case UpLeft => -2
    case Up => 2
    case UpRight => 3
    case Right => 5
    case DownRight => 7
    case Down => 8
    case DownLeft => 10
    case None => 0
  }

  /** `stick_to_note_modifier`: the right stick shifts by a semitone, an octave or both. */
  function Modifier(d: Direction): (o: int8)
    ensures -13 <= o <= 13
    ensures o == 0 <==> d == Direction.None
  {
    match d
    case Left => 1
    case Right => -1
    case Up => 12
    case Down => -12
    case UpLeft => 13
    case UpRight => 11
    case DownLeft => -11
    case DownRight => -13
    case None => 0
  }

  // ------------------------------------------------------------------
  // Motion
  // ------------------------------------------------------------------

  /** `derivative_r3`: the componentwise difference quotient over `dt`. */
  function DerivativeR3(a: Vec3, b: Vec3, dt: real): (d: Vec3)
    requires dt != 0.0
    ensures b.x + d.x * dt == a.x && b.y + d.y * dt == a.y && b.z + d.z * dt == a.z
    ensures a == b ==> d == Origin
  {
    QuotientInverse(a.x - b.x, dt);
    QuotientInverse(a.y - b.y, dt);
    QuotientInverse(a.z - b.z, dt);
    Vec3((a.x - b.x) / dt, (a.y - b.y) / dt, (a.z - b.z) / dt)
  }

  lemma QuotientInverse(a: real, dt: real)
    requires dt != 0.0
    ensures (a / dt) * dt == a
  {
  }

  /**
    The motion fields of a wand: velocity, acceleration and jerk as
    successive difference quotients against the previous tick, and their
    magnitudes averaged with the previous tick's magnitudes.
   */
  function Differentiate(m: Numerics, w: Wand, prev: Wand, dt: real): (w': Wand)
    requires m.Lawful() && dt != 0.0
    ensures w'.vel == DerivativeR3(w.pos, prev.pos, dt)
    ensures w'.acc == DerivativeR3(w'.vel, prev.vel, dt)
    ensures w'.jerk == DerivativeR3(w'.acc, prev.acc, dt)
    ensures 2.0 * w'.scalarVel - prev.scalarVel == Hyp(m, w'.vel)
    ensures 2.0 * w'.scalarAcc - prev.scalarAcc == Hyp(m, w'.acc)
    ensures 2.0 * w'.scalarJerk - prev.scalarJerk == Hyp(m, w'.jerk)
    ensures w' == w.(vel := w'.vel, acc := w'.acc, jerk := w'.jerk,
                     scalarVel := w'.scalarVel, scalarAcc := w'.scalarAcc, scalarJerk := w'.scalarJerk)
    ensures 0.0 <= prev.scalarVel ==> 0.0 <= w'.scalarVel
    ensures 0.0 <= prev.scalarAcc ==> 0.0 <= w'.scalarAcc
    ensures 0.0 <= prev.scalarJerk ==> 0.0 <= w'.scalarJerk
  {
    var vel := DerivativeR3(w.pos, prev.pos, dt);
    var acc := DerivativeR3(vel, prev.vel, dt);
    var jerk := DerivativeR3(acc, prev.acc, dt);
    w.(vel := vel, acc := acc, jerk := jerk,
       scalarVel := (Hyp(m, vel) + prev.scalarVel) / 2.0,
       scalarAcc := (Hyp(m, acc) + prev.scalarAcc) / 2.0,
       scalarJerk := (Hyp(m, jerk) + prev.scalarJerk) / 2.0)
  }

  // ------------------------------------------------------------------
  // Two-handed values
  // ------------------------------------------------------------------

  /** Rust's `f32::clamp` with constant, ordered bounds. */
  function Clamp(x: real, lo: real, hi: real): (r: real)
    requires lo <= hi
    ensures lo <= r <= hi
    ensures lo <= x <= hi ==> r == x
    ensures x < lo ==> r == lo
    ensures hi < x ==> r == hi
  {
    if x < lo then lo else if hi < x then hi else x
  }

  /** The pitch bend: the cube of the twist difference, clamped to [-2, 2] and halved. */
  function Bend(leftTwist: real, rightTwist: real): (b: real)
    ensures -1.0 <= b <= 1.0
    ensures leftTwist == rightTwist ==> b == 0.0
  {
    var d := leftTwist - rightTwist;
    Clamp(d * d * d, -2.0, 2.0) * 0.5
  }

  /** The note level: the two triggers summed, clamped to [0, 1] and eased. */
  function Level(leftTrigger: real, rightTrigger: real): (v: real)
    ensures 0.0 <= v <= 1.0
    ensures leftTrigger + rightTrigger <= 0.0 ==> v == 0.0
    ensures 1.0 <= leftTrigger + rightTrigger ==> v == 1.0
  {
    var s := Clamp(leftTrigger + rightTrigger, 0.0, 1.0);
    Smoothstep(0.0, 1.0, s)
  }

  /** The distance between the two wands along the first axis. */
  function Separation(left: Vec3, right: Vec3): (s: real)
    ensures 0.0 <= s
    ensures s == left.x - right.x || s == right.x - left.x
  {
    if left.x - right.x < 0.0 then -(left.x - right.x) else left.x - right.x
  }

  // ------------------------------------------------------------------
  // Notes
  // ------------------------------------------------------------------

  /** A trigger starts when it rises from exactly zero. */
  predicate TriggerStart(curr: real, prev: real) {
    curr > prev && prev == 0.0
  }

  /** A trigger ends when it falls to exactly zero. */
  predicate TriggerEnd(curr: real, prev: real) {
    prev > curr && curr == 0.0
  }

  /**
    Starting and ending the note from the triggers. A note starts when
    either trigger starts and none is sounding; it ends when one trigger
    is released while the other rests at zero. The events carry the note
    that was current before the stick is read.
   */
  function TriggerNotes(note: NoteState, left: real, right: real, prevLeft: real, prevRight: real): (out: (NoteState, seq<DeltaEvent>))
    ensures out.0.root == note.root && out.0.current == note.current && out.0.bend == note.bend
    ensures out.1 == [] || out.1 == [if note.on then NoteEnd(note.current) else NoteStart(note.current)]
    ensures out.1 == [NoteStart(note.current)] <==>
      !note.on && (TriggerStart(left, prevLeft) || TriggerStart(right, prevRight))
    ensures out.1 == [NoteEnd(note.current)] <==>
      note.on && ((TriggerEnd(left, prevLeft) && right == 0.0) || (TriggerEnd(right, prevRight) && left == 0.0))
    ensures out.1 == [] ==> out.0.on == note.on
    ensures out.1 != [] ==> out.0.on == !note.on
  {
    var start := TriggerStart(left, prevLeft) || TriggerStart(right, prevRight);
    TriggersExclusive(left, right, prevLeft, prevRight);
    var (n1, e1) := if start && !note.on then (note.(on := true), [NoteStart(note.current)]) else (note, []);
    var (n2, e2) := if n1.on && TriggerEnd(left, prevLeft) && right == 0.0 then (n1.(on := false), [NoteEnd(n1.current)]) else (n1, []);
    var (n3, e3) := if n2.on && TriggerEnd(right, prevRight) && left == 0.0 then (n2.(on := false), [NoteEnd(n2.current)]) else (n2, []);
    assert e1 == [] || e2 + e3 == [];
    assert e2 == [] || e3 == [];
    (n3, e1 + e2 + e3)
  }

  /** A trigger that starts holds a positive value, so no release can be seen in the same tick. */
  lemma TriggersExclusive(left: real, right: real, prevLeft: real, prevRight: real)
    ensures TriggerStart(left, prevLeft) || TriggerStart(right, prevRight) ==>
      !(TriggerEnd(left, prevLeft) && right == 0.0) && !(TriggerEnd(right, prevRight) && left == 0.0)
  {
  }

  /** No `i8` addition in the note target overflows (an overflow panics in the source). */
  predicate NoteFits(root: uint8, leftOctant: Direction, rightOctant: Direction) {
    var partial := AsInt8(root) + Offset(leftOctant);
    -128 <= partial < 128 && -128 <= partial + Modifier(rightOctant) < 128
  }

  /**
    The note the sticks point at: the root read as `i8`, plus the left
    stick's offset and the right stick's modifier, cast back to `u8`.
   */
  function NoteTarget(root: uint8, leftOctant: Direction, rightOctant: Direction): (n: uint8)
    requires NoteFits(root, leftOctant, rightOctant)
    ensures (n - (root + Offset(leftOctant) + Modifier(rightOctant))) % 256 == 0
    ensures root < 128 && 0 <= root + Offset(leftOctant) + Modifier(rightOctant) < 128 ==>
      n == root + Offset(leftOctant) + Modifier(rightOctant)
  {
    AsUint8(AsInt8(root) + Offset(leftOctant) + Modifier(rightOctant))
  }

  /** A sounding note follows the sticks; a change is announced with both notes. */
  function FollowStick(note: NoteState, target: uint8): (out: (NoteState, seq<DeltaEvent>))
    ensures out.0.on == note.on && out.0.root == note.root && out.0.bend == note.bend
    ensures note.on ==> out.0.current == target
    ensures !note.on ==> out.0.current == note.current
    ensures out.1 == (if out.0.current != note.current then [NoteChange(note.current, target)] else [])
  {
    if note.current != target && note.on then (note.(current := target), [NoteChange(note.current, target)])
    else (note, [])
  }

  /** Clicking both sticks at once asks for silence. */
  function PanicEvents(leftClicked: bool, rightClicked: bool): (e: seq<DeltaEvent>)
    ensures e == [Panic] <==> leftClicked && rightClicked
    ensures e == [] <==> !(leftClicked && rightClicked)
  {
    if leftClicked && rightClicked then [Panic] else []
  }

  // ------------------------------------------------------------------
  // Two-handed buttons
  // ------------------------------------------------------------------

  /** Button `i` is now held on both wands and was not held on both before. */
  predicate Chord(i: nat, left: Buttons, right: Buttons, prevLeft: Buttons, prevRight: Buttons)
    requires i < 4
  {
    left[i] && right[i] && (!prevLeft[i] || !prevRight[i])
  }

  /** -1 when the left button was the one just pressed, +1 otherwise. */
  function Rock(i: nat, prevLeft: Buttons): (r: int8)
    requires i < 4
    ensures r == -1 || r == 1
  {
    if !prevLeft[i] then -1 else 1
  }

  /** Neither root change overflows: `u8 + 1` and the `i8` rock (both panic in the source). */
  predicate ChordFits(root: uint8, left: Buttons, right: Buttons, prevLeft: Buttons, prevRight: Buttons) {
    var r1 := if Chord(0, left, right, prevLeft, prevRight) then root + 1 else root;
    && r1 < 256
    && (Chord(1, left, right, prevLeft, prevRight) ==> -128 <= AsInt8(r1 as uint8) + Rock(1, prevLeft) < 128)
  }

  /**
    The root after the chords of this tick: chord 0 raises it by one
    semitone, chord 1 rocks it one semitone towards the hand that
    pressed last (as `i8`), chords 2 and 3 do nothing.
   */
  function ChordRoot(root: uint8, left: Buttons, right: Buttons, prevLeft: Buttons, prevRight: Buttons): (r: uint8)
    requires ChordFits(root, left, right, prevLeft, prevRight)
    ensures !Chord(0, left, right, prevLeft, prevRight) && !Chord(1, left, right, prevLeft, prevRight) ==> r == root
    ensures Chord(0, left, right, prevLeft, prevRight) && !Chord(1, left, right, prevLeft, prevRight) ==> r == root + 1
    ensures Chord(1, left, right, prevLeft, prevRight) ==>
      var raised := if Chord(0, left, right, prevLeft, prevRight) then root + 1 else root;
      && (r - (raised + Rock(1, prevLeft))) % 256 == 0
      && (raised < 128 && 0 <= raised + Rock(1, prevLeft) ==> r == raised + Rock(1, prevLeft))
  {
    var r1: uint8 := if Chord(0, left, right, prevLeft, prevRight) then root + 1 else root;
    if Chord(1, left, right, prevLeft, prevRight) then AsUint8(AsInt8(r1) + Rock(1, prevLeft)) else r1
  }

  // ------------------------------------------------------------------
  // The tick
  // ------------------------------------------------------------------

  /** Both wands after copying this tick's frames, before the motion fields. */
  function CopyWands(m: Numerics, l: ButtonLayout, curr: Zgicabra, prev: Zgicabra, hydra: HydraState): (w: (Wand, Wand))
    requires m.Lawful()
  {
    (CopyFrameToWand(m, l, hydra.controller0, curr.left, prev.left),
     CopyFrameToWand(m, l, hydra.controller1, curr.right, prev.right))
  }

  /** The tick runs without an integer overflow. */
  predicate TickFits(m: Numerics, l: ButtonLayout, curr: Zgicabra, prev: Zgicabra, hydra: HydraState)
    requires m.Lawful()
  {
    var (left, right) := CopyWands(m, l, curr, prev, hydra);
    && NoteFits(curr.note.root, left.stick.octant, right.stick.octant)
    && ChordFits(curr.note.root, left.buttons, right.buttons, prev.left.buttons, prev.right.buttons)
  }

  /**
    The note half of a tick, from the two differentiated wands: the bend
    from their twists, then the triggers, the sticks, a double click and
    the button chords, with the events in that order.
   */
  function TickNote(note: NoteState, left: Wand, right: Wand, prev: Zgicabra): (out: (NoteState, seq<DeltaEvent>))
    requires NoteFits(note.root, left.stick.octant, right.stick.octant)
    requires ChordFits(note.root, left.buttons, right.buttons, prev.left.buttons, prev.right.buttons)
    ensures |out.1| <= 3 && -1.0 <= out.0.bend <= 1.0
  {
    var note0 := note.(bend := Bend(left.twist, right.twist));
    var (note1, e1) := TriggerNotes(note0, left.trigger, right.trigger, prev.left.trigger, prev.right.trigger);
    var target := NoteTarget(note1.root, left.stick.octant, right.stick.octant);
    var (note2, e2) := FollowStick(note1, target);
    var e3 := PanicEvents(left.stick.clicked, right.stick.clicked);
    var root := ChordRoot(note2.root, left.buttons, right.buttons, prev.left.buttons, prev.right.buttons);
    (note2.(root := root), e1 + e2 + e3)
  }

  /**
    `update`: one tick of the instrument. The sequence number and the
    docked flag come from the frames; both wands are copied and
    differentiated; separation, bend and level are recomputed; the
    triggers start and end the note, the sticks retarget it and a double
    click panics; finally two-handed button chords move the root, which
    the sticks read on the next tick. Voice and signal state are kept.
   */
  function Update(m: Numerics, l: ButtonLayout, curr: Zgicabra, prev: Zgicabra, hydra: HydraState, deltas: seq<DeltaEvent>): (out: Tick)
    requires m.Lawful() && 0 < hydra.timedeltaMillis
    requires TickFits(m, l, curr, prev, hydra)
    ensures |deltas| <= |out.deltas| <= |deltas| + 3 && out.deltas[..|deltas|] == deltas
    ensures out.state.sequenceNumber == hydra.controller0.sequenceNumber
    ensures out.state.docked <==> hydra.controller0.isDocked != 0 || hydra.controller1.isDocked != 0
    ensures 0.0 <= out.state.separation && -1.0 <= out.state.note.bend <= 1.0 && 0.0 <= out.state.level <= 1.0
    ensures out.state.voice == curr.voice && out.state.signal == curr.signal
  {
    var dt := hydra.timedeltaMillis as real;
    var (l0, r0) := CopyWands(m, l, curr, prev, hydra);
    var left := Differentiate(m, l0, prev.left, dt);
    var right := Differentiate(m, r0, prev.right, dt);
    var (note, events) := TickNote(curr.note, left, right, prev);
    var state := curr.(
      sequenceNumber := hydra.controller0.sequenceNumber,
      docked := hydra.controller0.isDocked != 0 || hydra.controller1.isDocked != 0,
      left := left,
      right := right,
      separation := Separation(left.pos, right.pos),
      level := Level(left.trigger, right.trigger),
      note := note);
    assert (deltas + events)[..|deltas|] == deltas;
    Tick(state, deltas + events)
  }
}
