/**
  Properties of the instrument model: the stick readings against
  reference definitions, the note tables as compass arithmetic, the
  button remapping as a mirrored permutation, and what one tick of
  `Update` does to the note and the event list.
 */
module ZgicabraProps {
  import opened Ints
  import opened Tools
  import opened Zgicabra

  // ------------------------------------------------------------------
  // Stick readings
  // ------------------------------------------------------------------

  /** The eight headings clockwise from straight up. */
  const Compass: seq<Direction> :=
    [Direction.Up, Direction.UpRight, Direction.Right, Direction.DownRight,
     Direction.Down, Direction.DownLeft, Direction.Left, Direction.UpLeft]

  /** The four axis headings clockwise from straight up. */
  const Axes: seq<Direction> := [Direction.Up, Direction.Right, Direction.Down, Direction.Left]

  /** A stick reading that is outside the deadzone and on a proper heading in (0, 1]. */
  predicate Pointing(r: real, theta: real) {
    JoystickDeadzone <= r && 0.0 < theta * 8.0 <= 8.0
  }

  /**
    The octant as arithmetic: the sector whose centre `k / 8` of a turn
    is nearest, counting a tie towards the lower sector, wrapping sector
    8 round to 0.
   */
  function OctantRef(r: real, theta: real): Direction {
    if Pointing(r, theta) then Compass[Ceil(theta * 8.0 - 0.5) % 8] else Direction.None
  }

  /** The quadrant as arithmetic: the nearest quarter-turn centre, ties towards the lower. */
  function QuadrantRef(r: real, theta: real): Direction {
    if Pointing(r, theta) then Axes[Ceil((theta * 8.0 - 1.0) / 2.0) % 4] else Direction.None
  }

  /** The chain of sector tests in `joystick_octant` is the nearest-centre rule. */
  lemma OctantMatchesRef(r: real, theta: real)
    ensures JoystickOctant(r, theta) == OctantRef(r, theta)
  {
    if Pointing(r, theta) {
      var t := theta * 8.0;
      var n := Ceil(t - 0.5);
      assert t - 0.5 <= n as real < t + 0.5;
      if t <= 0.5 { assert n == 0; }
      else if t <= 1.5 { assert n == 1; }
      else if t <= 2.5 { assert n == 2; }
      else if t <= 3.5 { assert n == 3; }
      else if t <= 4.5 { assert n == 4; }
      else if t <= 5.5 { assert n == 5; }
      else if t <= 6.5 { assert n == 6; }
      else if t <= 7.5 { assert n == 7; }
      else { assert n == 8; }
    }
  }

  /** The chain of sector tests in `joystick_quadrant` is the nearest-centre rule. */
  lemma QuadrantMatchesRef(r: real, theta: real)
    ensures JoystickQuadrant(r, theta) == QuadrantRef(r, theta)
  {
    if Pointing(r, theta) {
      var t := theta * 8.0;
      var n := Ceil((t - 1.0) / 2.0);
      assert (t - 1.0) / 2.0 <= n as real < (t - 1.0) / 2.0 + 1.0;
      if t <= 1.0 { assert n == 0; }
      else if t <= 3.0 { assert n == 1; }
      else if t <= 5.0 { assert n == 2; }
      else if t <= 7.0 { assert n == 3; }
      else { assert n == 4; }
    }
  }

  /** The axis headings a direction is made of: one for an axis, two for a diagonal. */
  function Components(d: Direction): set<Direction> {
    match d
    case None => {}
    case UpLeft => {Direction.Up, Direction.Left}
    case UpRight => {Direction.Up, Direction.Right}
    case DownLeft => {Direction.Down, Direction.Left}
    case DownRight => {Direction.Down, Direction.Right}
    case _ => {d}
  }

  /**
    The quadrant agrees with the octant: both read nothing together, an
    axis octant is its own quadrant, and a diagonal octant lies in one of
    the two quadrants it touches.
   */
  lemma QuadrantOfOctant(r: real, theta: real)
    ensures JoystickQuadrant(r, theta) == Direction.None <==> JoystickOctant(r, theta) == Direction.None
    ensures JoystickOctant(r, theta) != Direction.None ==>
      JoystickQuadrant(r, theta) in Components(JoystickOctant(r, theta))
  {
  }

  /** A stick read with a lawful library always has a heading, so it points exactly outside the deadzone. */
  lemma StickDeadzone(m: Numerics, frame: ControllerFrame)
    requires m.Lawful()
    ensures CopyJoystick(m, frame).octant == Direction.None <==> CopyJoystick(m, frame).r < JoystickDeadzone
    ensures CopyJoystick(m, frame).quadrant == Direction.None <==> CopyJoystick(m, frame).r < JoystickDeadzone
  {
    var s := CopyJoystick(m, frame);
    assert 0.0 < s.theta * 8.0 <= 8.0;
    OctantMatchesRef(s.r, s.theta);
    QuadrantMatchesRef(s.r, s.theta);
  }

  // ------------------------------------------------------------------
  // Note tables
  // ------------------------------------------------------------------

  /** The semitone part of a heading: left is +1, right is -1. */
  function Horizontal(d: Direction): int {
    if Direction.Left in Components(d) then 1 else if Direction.Right in Components(d) then -1 else 0
  }

  /** The octave part of a heading: up is +1, down is -1. */
  function Vertical(d: Direction): int {
    if Direction.Up in Components(d) then 1 else if Direction.Down in Components(d) then -1 else 0
  }

  /** The heading pointing the other way. */
  function Opposite(d: Direction): (e: Direction)
    ensures Horizontal(e) == -Horizontal(d) && Vertical(e) == -Vertical(d)
  {
    match d
    case None => Direction.None
    case Left => Direction.Right
    case Right => Direction.Left
    case Up => Direction.Down
    case Down => Direction.Up
    case UpLeft => Direction.DownRight
    case DownRight => Direction.UpLeft
    case UpRight => Direction.DownLeft
    case DownLeft => Direction.UpRight
  }

  /**
    The right stick's modifier is an octave per vertical step plus a
    semitone per horizontal step, so opposite headings cancel.
   */
  lemma ModifierComposes(d: Direction)
    ensures Modifier(d) == 12 * Vertical(d) + Horizontal(d)
    ensures Modifier(Opposite(d)) == -Modifier(d)
  {
  }

  /** Different headings of either stick give different notes. */
  lemma TablesInjective(d: Direction, e: Direction)
    ensures Offset(d) == Offset(e) <==> d == e
    ensures Modifier(d) == Modifier(e) <==> d == e
  {
  }

  /** Going round the left stick clockwise from left, the offset only rises. */
  lemma OffsetClockwise(i: nat, j: nat)
    requires i < j < 8
    ensures Offset(Compass[(i + 6) % 8]) < Offset(Compass[(j + 6) % 8])
  {
  }

  // ------------------------------------------------------------------
  // Button remapping
  // ------------------------------------------------------------------

  /** The physical button on the same side of the other wand: 1 and 2 swap, 3 and 4 swap. */
  function MirrorButton(b: nat): (c: nat)
    requires 1 <= b <= 4
    ensures 1 <= c <= 4 && c != b
  {
    if b % 2 == 1 then b + 1 else b - 1
  }

  /**
    Each hand reads every physical button into exactly one slot, and the
    right hand reads the mirror image of what the left hand reads.
   */
  lemma RemapPermutation(hand: Hand)
    requires hand != Hand.Neither
    ensures {PhysicalButton(hand, 0), PhysicalButton(hand, 1), PhysicalButton(hand, 2), PhysicalButton(hand, 3)} == {1, 2, 3, 4}
    ensures forall j, k :: 0 <= j < k < 4 ==> PhysicalButton(hand, j) != PhysicalButton(hand, k)
    ensures forall k :: 0 <= k < 4 ==> PhysicalButton(Hand.Right, k) == MirrorButton(PhysicalButton(Hand.Left, k))
  {
  }

  /** Two different one-bit masks share no bit. */
  lemma SingleBitsDisjoint(a: bv32, b: bv32)
    requires SingleBit(a) && SingleBit(b) && a != b
    ensures a & b == 0
  {
  }

  /**
    With a layout of distinct one-bit masks, pressing a single physical
    button lights exactly the slot that button is read into.
   */
  lemma RemapSingleButton(l: ButtonLayout, hand: Hand, b: nat, kept: Buttons)
    requires ValidLayout(l) && hand != Hand.Neither && 1 <= b <= 4
    ensures forall k :: 0 <= k < 4 ==>
      (RemapButtons(l, hand, ButtonBit(l, b), kept)[k] <==> PhysicalButton(hand, k) == b)
  {
    var raw := ButtonBit(l, b);
    var out := RemapButtons(l, hand, raw, kept);
    forall k | 0 <= k < 4
      ensures out[k] <==> PhysicalButton(hand, k) == b
    {
      var c := PhysicalButton(hand, k);
      assert out[k] == ButtonMask(raw, ButtonBit(l, c));
      if c != b {
        SingleBitsDisjoint(raw, ButtonBit(l, c));
      }
    }
  }

  // ------------------------------------------------------------------
  // One tick
  // ------------------------------------------------------------------

  /** Either trigger rises from rest in this tick's frames. */
  predicate Starts(prev: Zgicabra, hydra: HydraState) {
    || TriggerStart(hydra.controller0.trigger, prev.left.trigger)
    || TriggerStart(hydra.controller1.trigger, prev.right.trigger)
  }

  /** One trigger falls to rest while the other already rests, in this tick's frames. */
  predicate Ends(prev: Zgicabra, hydra: HydraState) {
    || (TriggerEnd(hydra.controller0.trigger, prev.left.trigger) && hydra.controller1.trigger == 0.0)
    || (TriggerEnd(hydra.controller1.trigger, prev.right.trigger) && hydra.controller0.trigger == 0.0)
  }

  /** The note the two sticks of this tick's frames point at from the current root. */
  function StickTarget(m: Numerics, root: uint8, hydra: HydraState): uint8
    requires m.Lawful()
    requires NoteFits(root, CopyJoystick(m, hydra.controller0).octant, CopyJoystick(m, hydra.controller1).octant)
  {
    NoteTarget(root, CopyJoystick(m, hydra.controller0).octant, CopyJoystick(m, hydra.controller1).octant)
  }

  /** Whether the note sounds after a tick: a sounding note stops on a release, a silent one starts on a press. */
  predicate NextOn(on: bool, prev: Zgicabra, hydra: HydraState) {
    if on then !Ends(prev, hydra) else Starts(prev, hydra)
  }

  /** The start or end of the note, carrying the note current before the sticks are read. */
  function TriggerEvents(note: NoteState, prev: Zgicabra, hydra: HydraState): seq<DeltaEvent> {
    if !note.on && Starts(prev, hydra) then [NoteStart(note.current)]
    else if note.on && Ends(prev, hydra) then [NoteEnd(note.current)]
    else []
  }

  /** While the note sounds after the triggers, a change to the note the sticks point at. */
  function ChangeEvents(note: NoteState, target: uint8, prev: Zgicabra, hydra: HydraState): seq<DeltaEvent> {
    if NextOn(note.on, prev, hydra) && note.current != target then [NoteChange(note.current, target)] else []
  }

  /** A panic when both stick-click bits (bit 8) are set. */
  function PanicBits(hydra: HydraState): seq<DeltaEvent> {
    if BitSet(hydra.controller0.buttons, 8) && BitSet(hydra.controller1.buttons, 8) then [Panic] else []
  }

  /**
    The events one tick appends, from the frames alone: triggers, then
    the sticks pointing at `target`, then panic.
   */
  function ExpectedEvents(note: NoteState, target: uint8, prev: Zgicabra, hydra: HydraState): seq<DeltaEvent> {
    TriggerEvents(note, prev, hydra) + ChangeEvents(note, target, prev, hydra) + PanicBits(hydra)
  }

  /**
    A tick appends at most three events: never both a start and an end,
    note events before any panic, a panic exactly when both sticks are
    clicked, and a change only to a note other than the current one.
   */
  lemma EventShape(note: NoteState, target: uint8, prev: Zgicabra, hydra: HydraState)
    ensures var e := ExpectedEvents(note, target, prev, hydra);
      && |e| <= 3
      && (forall i :: 0 <= i < |e| ==> e[i].NoteStart? || e[i].NoteEnd? || e[i].NoteChange? || e[i].Panic?)
      && (forall i, j :: 0 <= i < |e| && 0 <= j < |e| && e[i].NoteStart? ==> !e[j].NoteEnd?)
      && (forall i, j :: 0 <= i < j < |e| ==> !(e[i].NoteEnd? && e[j].NoteEnd?))
      && (forall i :: 0 <= i < |e| && e[i].NoteChange? ==> e[i] == NoteChange(note.current, target) && note.current != target)
      && (Panic in e <==> BitSet(hydra.controller0.buttons, 8) && BitSet(hydra.controller1.buttons, 8))
      && (forall i :: 0 <= i < |e| && e[i].Panic? ==> i == |e| - 1)
  {
    var t, c, p := TriggerEvents(note, prev, hydra), ChangeEvents(note, target, prev, hydra), PanicBits(hydra);
    assert t == [] || t == [NoteStart(note.current)] || t == [NoteEnd(note.current)];
    assert c == [] || (c == [NoteChange(note.current, target)] && note.current != target);
    if p == [] {
      assert t + c + p == t + c;
    } else {
      assert p == [Panic];
    }
  }

  /** The wands `Update` works with carry this tick's triggers, twists, sticks and remapped buttons. */
  lemma UpdateWands(m: Numerics, l: ButtonLayout, curr: Zgicabra, prev: Zgicabra, hydra: HydraState)
    requires m.Lawful() && 0 < hydra.timedeltaMillis
    ensures var dt := hydra.timedeltaMillis as real;
      var w := CopyWands(m, l, curr, prev, hydra);
      var left := Differentiate(m, w.0, prev.left, dt);
      var right := Differentiate(m, w.1, prev.right, dt);
      && left.trigger == hydra.controller0.trigger && right.trigger == hydra.controller1.trigger
      && left.twist == hydra.controller0.rotQuat.q2 * 2.0 && right.twist == hydra.controller1.rotQuat.q2 * 2.0
      && left.stick == CopyJoystick(m, hydra.controller0) && right.stick == CopyJoystick(m, hydra.controller1)
      && left.buttons == RemapButtons(l, WhichHand(l, hydra.controller0.whichHand), hydra.controller0.buttons, curr.left.buttons)
      && right.buttons == RemapButtons(l, WhichHand(l, hydra.controller1.whichHand), hydra.controller1.buttons, curr.right.buttons)
  {
  }

  /**
    The note half of a tick, on wands that carry this tick's triggers:
    the note sounds as the triggers say, at the note the sticks point at,
    keeps its note while silent, bends by the twist difference, and
    takes the root the chords give.
   */
  lemma TickNoteState(note: NoteState, left: Wand, right: Wand, prev: Zgicabra, hydra: HydraState)
    requires NoteFits(note.root, left.stick.octant, right.stick.octant)
    requires ChordFits(note.root, left.buttons, right.buttons, prev.left.buttons, prev.right.buttons)
    requires left.trigger == hydra.controller0.trigger && right.trigger == hydra.controller1.trigger
    ensures var n := TickNote(note, left, right, prev).0;
      && n.on == NextOn(note.on, prev, hydra)
      && (n.on ==> n.current == NoteTarget(note.root, left.stick.octant, right.stick.octant))
      && (!n.on ==> n.current == note.current)
      && n.bend == Bend(left.twist, right.twist)
      && n.root == ChordRoot(note.root, left.buttons, right.buttons, prev.left.buttons, prev.right.buttons)
  {
    var note0 := note.(bend := Bend(left.twist, right.twist));
    var (note1, e1) := TriggerNotes(note0, left.trigger, right.trigger, prev.left.trigger, prev.right.trigger);
    assert note1.on == NextOn(note.on, prev, hydra);
  }

  /** The events of the note half of a tick, on wands that carry this tick's triggers and clicks. */
  lemma TickNoteEvents(note: NoteState, left: Wand, right: Wand, prev: Zgicabra, hydra: HydraState)
    requires NoteFits(note.root, left.stick.octant, right.stick.octant)
    requires ChordFits(note.root, left.buttons, right.buttons, prev.left.buttons, prev.right.buttons)
    requires left.trigger == hydra.controller0.trigger && right.trigger == hydra.controller1.trigger
    requires left.stick.clicked == BitSet(hydra.controller0.buttons, 8)
    requires right.stick.clicked == BitSet(hydra.controller1.buttons, 8)
    ensures TickNote(note, left, right, prev).1
      == ExpectedEvents(note, NoteTarget(note.root, left.stick.octant, right.stick.octant), prev, hydra)
  {
    var note0 := note.(bend := Bend(left.twist, right.twist));
    var (note1, e1) := TriggerNotes(note0, left.trigger, right.trigger, prev.left.trigger, prev.right.trigger);
    var target := NoteTarget(note1.root, left.stick.octant, right.stick.octant);
    var (note2, e2) := FollowStick(note1, target);
    var e3 := PanicEvents(left.stick.clicked, right.stick.clicked);
    assert note1.on == NextOn(note.on, prev, hydra);
    assert e1 == TriggerEvents(note, prev, hydra);
    assert e2 == ChangeEvents(note, target, prev, hydra);
    assert e3 == PanicBits(hydra);
  }

  /**
    After a tick the note sounds as the triggers say, sounds at the note
    the sticks point at, keeps its note while silent, and bends by the
    twist difference of the two frames.
   */
  lemma {:induction false} UpdateNote(m: Numerics, l: ButtonLayout, curr: Zgicabra, prev: Zgicabra, hydra: HydraState, deltas: seq<DeltaEvent>)
    requires m.Lawful() && 0 < hydra.timedeltaMillis
    requires TickFits(m, l, curr, prev, hydra)
    ensures var n := Update(m, l, curr, prev, hydra, deltas).state.note;
      && n.on == NextOn(curr.note.on, prev, hydra)
      && (n.on ==> n.current == StickTarget(m, curr.note.root, hydra))
      && (!n.on ==> n.current == curr.note.current)
      && n.bend == Bend(hydra.controller0.rotQuat.q2 * 2.0, hydra.controller1.rotQuat.q2 * 2.0)
      && (hydra.controller0.rotQuat == hydra.controller1.rotQuat ==> n.bend == 0.0)
  {
    UpdateWands(m, l, curr, prev, hydra);
    var dt := hydra.timedeltaMillis as real;
    var (l0, r0) := CopyWands(m, l, curr, prev, hydra);
    var left := Differentiate(m, l0, prev.left, dt);
    var right := Differentiate(m, r0, prev.right, dt);
    TickNoteState(curr.note, left, right, prev, hydra);
    var n := Update(m, l, curr, prev, hydra, deltas).state.note;
    assert n == TickNote(curr.note, left, right, prev).0;
    assert n.bend == Bend(left.twist, right.twist);
  }

  /** The events a tick appends are exactly the expected ones, in order. */
  lemma {:induction false} UpdateEvents(m: Numerics, l: ButtonLayout, curr: Zgicabra, prev: Zgicabra, hydra: HydraState, deltas: seq<DeltaEvent>)
    requires m.Lawful() && 0 < hydra.timedeltaMillis
    requires TickFits(m, l, curr, prev, hydra)
    ensures Update(m, l, curr, prev, hydra, deltas).deltas
      == deltas + ExpectedEvents(curr.note, StickTarget(m, curr.note.root, hydra), prev, hydra)
  {
    UpdateWands(m, l, curr, prev, hydra);
    var dt := hydra.timedeltaMillis as real;
    var (l0, r0) := CopyWands(m, l, curr, prev, hydra);
    var left := Differentiate(m, l0, prev.left, dt);
    var right := Differentiate(m, r0, prev.right, dt);
    TickNoteEvents(curr.note, left, right, prev, hydra);
  }

  /** The root after a tick: the chords of the face buttons as this tick's frames remap them. */
  lemma {:induction false} UpdateRoot(m: Numerics, l: ButtonLayout, curr: Zgicabra, prev: Zgicabra, hydra: HydraState, deltas: seq<DeltaEvent>)
    requires m.Lawful() && 0 < hydra.timedeltaMillis
    requires TickFits(m, l, curr, prev, hydra)
    ensures
      var left := RemapButtons(l, WhichHand(l, hydra.controller0.whichHand), hydra.controller0.buttons, curr.left.buttons);
      var right := RemapButtons(l, WhichHand(l, hydra.controller1.whichHand), hydra.controller1.buttons, curr.right.buttons);
      Update(m, l, curr, prev, hydra, deltas).state.note.root
        == ChordRoot(curr.note.root, left, right, prev.left.buttons, prev.right.buttons)
  {
    UpdateWands(m, l, curr, prev, hydra);
    var dt := hydra.timedeltaMillis as real;
    var (l0, r0) := CopyWands(m, l, curr, prev, hydra);
    var left := Differentiate(m, l0, prev.left, dt);
    var right := Differentiate(m, r0, prev.right, dt);
    TickNoteState(curr.note, left, right, prev, hydra);
  }

  /** A frame with no buttons down leaves every face button of a released wand released. */
  lemma QuietButtons(l: ButtonLayout, hand: Hand)
    ensures RemapButtons(l, hand, 0, [false, false, false, false]) == [false, false, false, false]
  {
  }

  /** A stick at rest reads no direction and no click when no button is down. */
  lemma StickAtRest(m: Numerics, f: ControllerFrame)
    requires m.Lawful()
    requires f.joystickX == 0.0 && f.joystickY == 0.0 && f.buttons == 0
    ensures CopyJoystick(m, f).octant == Direction.None && !CopyJoystick(m, f).clicked
  {
    assert !BitSet(0, 8);
  }

  /** The tick of `FirstNote` overflows nothing. */
  lemma FirstTickFits(m: Numerics, l: ButtonLayout, curr: Zgicabra, hydra: HydraState)
    requires m.Lawful()
    requires curr == NewZgicabra.(note := NewNoteState.(root := 65))
    requires hydra == HydraState(BlankFrame.(trigger := 0.5), BlankFrame, 10)
    ensures TickFits(m, l, curr, NewZgicabra, hydra)
  {
    StickAtRest(m, hydra.controller0);
    StickAtRest(m, hydra.controller1);
    QuietButtons(l, WhichHand(l, 0));
    var quiet: Buttons := [false, false, false, false];
    var w := CopyWands(m, l, curr, NewZgicabra, hydra);
    assert w.0.buttons == quiet && w.1.buttons == quiet;
    assert ChordFits(65, quiet, quiet, quiet, quiet);
  }

  /** The sticks of the tick of `FirstNote` point at the root. */
  lemma FirstTickTarget(m: Numerics, hydra: HydraState)
    requires m.Lawful()
    requires hydra == HydraState(BlankFrame.(trigger := 0.5), BlankFrame, 10)
    ensures NoteFits(65, CopyJoystick(m, hydra.controller0).octant, CopyJoystick(m, hydra.controller1).octant)
    ensures StickTarget(m, 65, hydra) == 65
  {
    StickAtRest(m, hydra.controller0);
    StickAtRest(m, hydra.controller1);
    assert NoteFits(65, Direction.None, Direction.None);
  }

  /** The events of the tick of `FirstNote`. */
  lemma FirstTickEvents(note: NoteState, hydra: HydraState)
    requires note == NewNoteState.(root := 65)
    requires hydra == HydraState(BlankFrame.(trigger := 0.5), BlankFrame, 10)
    ensures NextOn(false, NewZgicabra, hydra)
    ensures ExpectedEvents(note, 65, NewZgicabra, hydra) == [NoteStart(0), NoteChange(0, 65)]
  {
    assert Starts(NewZgicabra, hydra);
    assert TriggerEvents(note, NewZgicabra, hydra) == [NoteStart(0)];
    assert ChangeEvents(note, 65, NewZgicabra, hydra) == [NoteChange(0, 65)];
    assert PanicBits(hydra) == [] by {
      assert !BitSet(0, 8);
    }
  }

  /** The events of the tick of `FirstNote`, read off `Update`. */
  lemma FirstNoteEvents(m: Numerics, l: ButtonLayout, curr: Zgicabra, hydra: HydraState)
    requires m.Lawful()
    requires curr == NewZgicabra.(note := NewNoteState.(root := 65))
    requires hydra == HydraState(BlankFrame.(trigger := 0.5), BlankFrame, 10)
    ensures Update(m, l, curr, NewZgicabra, hydra, []).deltas == [NoteStart(0), NoteChange(0, 65)]
  {
    FirstTickFits(m, l, curr, hydra);
    FirstTickTarget(m, hydra);
    FirstTickEvents(curr.note, hydra);
    UpdateEvents(m, l, curr, NewZgicabra, hydra, []);
    assert [] + ExpectedEvents(curr.note, 65, NewZgicabra, hydra) == [NoteStart(0), NoteChange(0, 65)];
  }

  /** The note after the tick of `FirstNote`, read off `Update`. */
  lemma FirstNoteState(m: Numerics, l: ButtonLayout, curr: Zgicabra, hydra: HydraState)
    requires m.Lawful()
    requires curr == NewZgicabra.(note := NewNoteState.(root := 65))
    requires hydra == HydraState(BlankFrame.(trigger := 0.5), BlankFrame, 10)
    ensures Update(m, l, curr, NewZgicabra, hydra, []).state.note == NoteState(true, 65, 0.0, 65)
  {
    FirstTickFits(m, l, curr, hydra);
    FirstTickTarget(m, hydra);
    FirstTickEvents(curr.note, hydra);
    var note := Update(m, l, curr, NewZgicabra, hydra, []).state.note;
    UpdateNote(m, l, curr, NewZgicabra, hydra, []);
    assert note.on && note.current == 65;
    assert hydra.controller0.rotQuat == hydra.controller1.rotQuat;
    UpdateRoot(m, l, curr, NewZgicabra, hydra, []);
    QuietButtons(l, WhichHand(l, 0));
    var quiet: Buttons := [false, false, false, false];
    assert hydra.controller0.whichHand == 0 && hydra.controller0.buttons == 0 && curr.left.buttons == quiet;
    assert hydra.controller1.whichHand == 0 && hydra.controller1.buttons == 0 && curr.right.buttons == quiet;
    assert ChordRoot(65, quiet, quiet, quiet, quiet) == 65;
    assert note.root == 65;
    assert note.bend == 0.0;
  }

  /**
    The first note: from silence with both sticks at rest, pressing the
    left trigger starts the note last sounded (0 here) and at once moves
    it to the root, 65.
   */
  lemma FirstNote(m: Numerics, l: ButtonLayout)
    requires m.Lawful()
    ensures
      var curr := NewZgicabra.(note := NewNoteState.(root := 65));
      var hydra := HydraState(BlankFrame.(trigger := 0.5), BlankFrame, 10);
      && TickFits(m, l, curr, NewZgicabra, hydra)
      && Update(m, l, curr, NewZgicabra, hydra, []).deltas == [NoteStart(0), NoteChange(0, 65)]
      && Update(m, l, curr, NewZgicabra, hydra, []).state.note == NoteState(true, 65, 0.0, 65)
  {
    var curr := NewZgicabra.(note := NewNoteState.(root := 65));
    var hydra := HydraState(BlankFrame.(trigger := 0.5), BlankFrame, 10);
    FirstTickFits(m, l, curr, hydra);
    FirstNoteEvents(m, l, curr, hydra);
    FirstNoteState(m, l, curr, hydra);
  }

  /** A stick pushed fully up reads straight up. */
  lemma StickUp(m: Numerics, f: ControllerFrame)
    requires m.Lawful()
    requires f.joystickX == 0.0 && f.joystickY == 1.0 && f.buttons == 0
    ensures CopyJoystick(m, f).theta == 1.0
    ensures CopyJoystick(m, f).octant == Direction.Up && !CopyJoystick(m, f).clicked
  {
    assert 0.0 * 0.0 + 1.0 * 1.0 == 1.0;
    SqrtUnique(m, 1.0, 1.0);
    assert m.atan2(1.0, 0.0) == m.pi / 2.0;
    assert CopyJoystick(m, f).theta == 1.0;
    assert !BitSet(0, 8);
  }

  /** The tick of `StickMovesNote` overflows nothing and its sticks point a whole tone above the root. */
  lemma UpTickTarget(m: Numerics, l: ButtonLayout, curr: Zgicabra, prev: Zgicabra, hydra: HydraState)
    requires m.Lawful()
    requires curr == NewZgicabra.(note := NoteState(true, 65, 0.0, 65))
    requires prev == NewZgicabra.(left := NewWand.(trigger := 0.5))
    requires hydra == HydraState(BlankFrame.(trigger := 0.5, joystickY := 1.0), BlankFrame, 10)
    ensures TickFits(m, l, curr, prev, hydra)
    ensures StickTarget(m, 65, hydra) == 67
  {
    StickUp(m, hydra.controller0);
    StickAtRest(m, hydra.controller1);
    assert NoteFits(65, Direction.Up, Direction.None);
    QuietButtons(l, WhichHand(l, 0));
    var quiet: Buttons := [false, false, false, false];
    var w := CopyWands(m, l, curr, prev, hydra);
    assert w.0.buttons == quiet && w.1.buttons == quiet;
    assert ChordFits(65, quiet, quiet, quiet, quiet);
  }

  /** The events of the tick of `StickMovesNote`. */
  lemma UpTickEvents(note: NoteState, prev: Zgicabra, hydra: HydraState)
    requires note == NoteState(true, 65, 0.0, 65)
    requires prev == NewZgicabra.(left := NewWand.(trigger := 0.5))
    requires hydra == HydraState(BlankFrame.(trigger := 0.5, joystickY := 1.0), BlankFrame, 10)
    ensures NextOn(true, prev, hydra)
    ensures ExpectedEvents(note, 67, prev, hydra) == [NoteChange(65, 67)]
  {
    assert !Ends(prev, hydra);
    assert TriggerEvents(note, prev, hydra) == [];
    assert ChangeEvents(note, 67, prev, hydra) == [NoteChange(65, 67)];
    assert PanicBits(hydra) == [] by {
      assert !BitSet(0, 8);
    }
  }

  /**
    While a note sounds with the left trigger held, pushing the left
    stick up moves the note a whole tone above the root, 65 to 67, and
    announces the change with both notes.
   */
  lemma StickMovesNote(m: Numerics, l: ButtonLayout)
    requires m.Lawful()
    ensures
      var curr := NewZgicabra.(note := NoteState(true, 65, 0.0, 65));
      var prev := NewZgicabra.(left := NewWand.(trigger := 0.5));
      var hydra := HydraState(BlankFrame.(trigger := 0.5, joystickY := 1.0), BlankFrame, 10);
      && TickFits(m, l, curr, prev, hydra)
      && Update(m, l, curr, prev, hydra, []).deltas == [NoteChange(65, 67)]
      && Update(m, l, curr, prev, hydra, []).state.note.current == 67
  {
    var curr := NewZgicabra.(note := NoteState(true, 65, 0.0, 65));
    var prev := NewZgicabra.(left := NewWand.(trigger := 0.5));
    var hydra := HydraState(BlankFrame.(trigger := 0.5, joystickY := 1.0), BlankFrame, 10);
    UpTickTarget(m, l, curr, prev, hydra);
    UpTickEvents(curr.note, prev, hydra);
    var out := Update(m, l, curr, prev, hydra, []);
    UpdateEvents(m, l, curr, prev, hydra, []);
    assert out.deltas == [] + ExpectedEvents(curr.note, 67, prev, hydra);
    UpdateNote(m, l, curr, prev, hydra, []);
  }

  // ------------------------------------------------------------------
  // Trigger edges over time
  // ------------------------------------------------------------------

  /** A trigger never starts and ends in the same tick. */
  lemma EdgesExclusive(curr: real, prev: real)
    ensures !(TriggerStart(curr, prev) && TriggerEnd(curr, prev))
  {
  }

  /** Reading `i` of a run of trigger readings starts the trigger. */
  predicate StartsAt(xs: seq<real>, i: nat) {
    1 <= i < |xs| && TriggerStart(xs[i], xs[i - 1])
  }

  /** Reading `i` of a run of trigger readings ends the trigger. */
  predicate EndsAt(xs: seq<real>, i: nat) {
    1 <= i < |xs| && TriggerEnd(xs[i], xs[i - 1])
  }

  /** The ticks at which a run of trigger readings starts. */
  function StartTicks(xs: seq<real>): set<nat> {
    set i: nat | i < |xs| && StartsAt(xs, i)
  }

  /** The ticks at which a run of trigger readings ends. */
  function EndTicks(xs: seq<real>): set<nat> {
    set i: nat | i < |xs| && EndsAt(xs, i)
  }

  /** Pressing, holding and releasing a trigger starts once, at the press, and ends once, at the release. */
  lemma PressHoldRelease()
    ensures StartTicks([0.0, 0.4, 0.4, 0.0]) == {1}
    ensures EndTicks([0.0, 0.4, 0.4, 0.0]) == {3}
  {
    var xs := [0.0, 0.4, 0.4, 0.0];
    assert StartsAt(xs, 1) && EndsAt(xs, 3);
    assert StartTicks(xs) == {1};
    assert EndTicks(xs) == {3};
  }

  // ------------------------------------------------------------------
  // Chords
  // ------------------------------------------------------------------

  /** The root depends only on face buttons 0 and 1: chords on buttons 2 and 3 do nothing. */
  lemma ChordsIgnoreOtherButtons(root: uint8, left: Buttons, right: Buttons, left': Buttons, right': Buttons, prevLeft: Buttons, prevRight: Buttons)
    requires left[0] == left'[0] && left[1] == left'[1] && right[0] == right'[0] && right[1] == right'[1]
    requires ChordFits(root, left, right, prevLeft, prevRight)
    ensures ChordFits(root, left', right', prevLeft, prevRight)
    ensures ChordRoot(root, left, right, prevLeft, prevRight) == ChordRoot(root, left', right', prevLeft, prevRight)
  {
  }
}
