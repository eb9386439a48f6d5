# zgicabra in Dafny

zgicabra turns two Razer Hydra motion controllers ("wands") into a MIDI
instrument. Once per tick the engine reads one frame from each wand and
updates the instrument state. Per wand it:

- smooths the position and differentiates it into velocity, acceleration and jerk;
- reads the joystick as a compass heading;
- remaps the four face buttons per hand.

It then:

- runs a small note state machine on the two triggers;
- retargets the sounding note from the two sticks;
- raises a panic when both sticks are clicked;
- lets two-handed button chords move the root note.

Each tick appends a list of note events for the synthesiser to act on.
Around the engine sit:

- a fixed-size ring history of past states;
- numeric and bit helpers;
- constructors for three-byte MIDI channel messages;
- one-line glyph formatters for the terminal display.

The model has these modules:

- `Ints`: the fixed-width integers and Rust's `as` casts between them.
- `Tools`: `hyp`, `rad_to_cycles`, `smoothstep`, `ease_in`, `ease_out`,
  `button_mask` and the note-name lookup of `format_note`. Floating
  point is `real`. `sqrt`, `atan2` and `PI` are the fields of a
  `Numerics` record, and its `Lawful` predicate states the facts the
  model uses about them.
- `History`: the ring buffer as an immutable value. The
  `FromPushes(n, xs)` abstraction says which pushes it holds, and every
  accessor is read back against that sequence of pushes.
- `Midi`: the message constructors. Each is checked against `Decode`, a
  reader of channel messages written from the MIDI 1.0 Detailed
  Specification (Channel Voice and Channel Mode messages).
- `Zgicabra`: the data types and the per-tick transition `Update`. It
  returns the new state and the event list with this tick's events
  appended. `TickNote` is its note half: triggers, sticks, panic and
  chords.
- `ZgicabraProps`: properties of the engine. They include reference
  definitions of the stick readings, the note tables as compass
  arithmetic, and the button remap as a mirrored permutation. They also
  give an all-inputs statement of the note state and the events of one
  tick, and two worked ticks.
- `Ui`, `UiMask`: `minigauge`, `minidir`, `ministick`, `minibar`,
  `minimask` and `format_wand`. `minibar` and `minimask` are loops with
  invariants.

Three behaviours of the code are easy to miss:

- A compass boundary, such as `8 theta == 0.5`, belongs to the lower
  sector.
- `theta == 0` reads as no direction.
- A note start carries the note that was current *before* the sticks
  are read. In `FirstNote`, a silent instrument whose root is 65 and
  whose last note was 0 emits `NoteStart(0)` and then
  `NoteChange(0, 65)`.

## Model

| member | source | states |
|---|---|---|
| Ints.AsInt8 | src/zgicabra.rs:310 | `root as i8` keeps the eight bits: the result is congruent to the input modulo 256 and is non-negative exactly when the input is below 128 |
| Ints.AsUint8 | src/zgicabra.rs:310-312 | `as u8` keeps the low eight bits of the `i8` sum; a value already in 0..255 is unchanged |
| Ints.CastRoundTrip | src/zgicabra.rs:310-312 | the `u8`-to-`i8` and `i8`-to-`u8` reinterpreting casts are inverse to each other |
| Ints.SaturatingUint8 | src/ui.rs:58 | a float `as u8` truncates toward zero and saturates at 0 and 255 |
| Tools.Hyp | src/tools.rs:26-31 | the length is non-negative, its square is the sum of the squared components, and it is zero exactly at the origin |
| Tools.Trunc | src/tools.rs:33-35 | Rust's float truncation lies within one of its argument, on the side of zero |
| Tools.RemOne | src/tools.rs:33-35 | `x % 1.0` lies in [0, 1) for non-negative x and in (-1, 0] for negative x, and differs from x by an integer |
| Tools.RadToCycles | src/tools.rs:33-35 | for every angle in [-pi, pi] the turn fraction lies in (0, 1]; it is exactly 1 at pi/2; and r + u is an integer, where u is the shifted quotient `(radians + pi/2 + pi) / 2pi`, so on that range r is 1 minus the fractional part of u |
| Tools.Smoothstep | src/tools.rs:67-70 | smoothstep(a, b, a) is 0, smoothstep(a, b, b) is 1, and a rescaled argument inside [0, 1] gives a value inside [0, 1] |
| Tools.SmoothstepMonotonic | src/tools.rs:67-70 | on [0, 1], smoothstep(0, 1, t) stays in [0, 1] and never decreases |
| Tools.EaseIn | src/tools.rs:72-74 | ease_in is non-negative, fixes 0 and 1, and lies below the identity on [0, 1] |
| Tools.EaseOut | src/tools.rs:76-78 | ease_out fixes 0 and 1 and lies between the identity and 1 on [0, 1] |
| Tools.EaseMonotonic | src/tools.rs:72-78 | on [0, 1] both ease_in and ease_out keep the order of their arguments, and ease_in(t) never exceeds ease_out(t) |
| Tools.ButtonMask | src/tools.rs:85-87 | an empty mask or an empty button word is never pressed |
| Tools.ButtonMaskSingleBit | src/tools.rs:85-87 | testing the mask `1 << i` reads exactly bit i of the word |
| Tools.ButtonMaskUnion | src/tools.rs:85-87 | the union of two masks is pressed exactly when either mask is |
| Tools.NoteNamesWindow | src/tools.rs:14 | the two-character window at offset 2k of `NOTE_NAME` is the k-th pitch-class name |
| Tools.PitchClassRoundTrip | src/tools.rs:14 | reading the k-th pitch-class name back gives k |
| Tools.NoteName | src/tools.rs:89-91 | the bracketed name has two characters, lies inside the table and names the pitch class n % 12 |
| Tools.NoteNameOctave | src/tools.rs:89-91 | n and n + 12 get the same name |
| Tools.NoteNameInjective | src/tools.rs:89-91 | two notes share a name exactly when they share a pitch class |
| History.New | src/history.rs:35-42 | a new history is well formed, has the requested size, both cursors at 0 and every slot empty |
| History.Push | src/history.rs:44-51 | push keeps the history well formed, writes the item at `tail` only, makes that slot the newest and advances `tail` round the ring, so `tail` ends one slot after `last` |
| History.Get | src/history.rs:53-55 | for any pushes the history holds and i < size, get(i) is the push made size - i pushes ago, or empty when fewer pushes were made |
| History.GetReadsPushes | src/history.rs:53-55 | the slot i places after `tail` holds the push made size - i pushes ago, or nothing when fewer were made, for every push sequence the history holds |
| History.GetFromEnd | src/history.rs:57-60 | whenever `tail` sits one slot after `last`, as every push leaves it, get_from_end(i) equals get(size - 1 - i) for i < size; an index from size up to size + last reads slot size + last - i without wrapping; an index beyond size + last is excluded, because the source's `usize` subtraction underflows there |
| History.Last | src/history.rs:62-64 | last() is get_from_end(0) |
| History.Size | src/history.rs:66-68 | on a well-formed history, size() is the buffer length |
| History.PushHolds | src/history.rs:44-51 | one push keeps the relation between the ring and the sequence of pushes, with the item appended |
| History.FromPushesHolds | src/history.rs:35-51 | every history built from new() by pushes holds those pushes: the d-th newest push sits d slots before `tail`, and `last` is one slot before `tail` once anything was pushed |
| History.GetSpec | src/history.rs:53-55 | after the pushes xs, get(i) is the i-th of the last `size` pushes once that many are in, and empty for the first size - \|xs\| indices before that |
| History.GetFromEndSpec | src/history.rs:57-60 | get_from_end(i) is the push made i pushes ago, or empty when fewer were made |
| History.LastSpec | src/history.rs:62-64 | last() is the newest push, and empty before the first |
| History.EndsAgree | src/history.rs:53-60 | get_from_end(i) == get(size - 1 - i) |
| History.GetPeriodic | src/history.rs:53-55 | get(i + size) == get(i) |
| History.Occupancy | src/history.rs:37-50 | after the pushes xs, the number of filled slots is min(\|xs\|, size) |
| History.PushThenLast | src/history.rs:44-64 | after push(x), both last() and get_from_end(0) give x, whatever the history held |
| History.PushCorrection | src/history.rs:48-50 | the correction of `last` in push fires exactly for a one-slot buffer |
| Midi.NoteOnEvent | src/midi_event.rs:33-39 | for every input the status byte is Note On with channel nibble 0 and the data bytes are the key and velocity; the event is a valid Note On on channel 1 exactly when both fit in seven bits |
| Midi.NoteOffEvent | src/midi_event.rs:41-47 | for every input the status byte is Note Off with channel nibble 0, the data bytes are the key and 0, and the event is a valid Note Off on channel 1 exactly when the key fits in seven bits |
| Midi.PitchBendEvent | src/midi_event.rs:49-55 | for every value the status byte is Pitch Bend with channel nibble 0, the first data byte is below 128, and the two data bytes carry the low fifteen bits of the value, low seven bits first; the event is a valid pitch bend exactly when bit 14 of those is clear |
| Midi.PitchBendBytes | src/midi_event.rs:52-53 | `value & 0x7F` and `(value >> 7) as u8` are the low and high parts of the value's low fifteen bits |
| Midi.PitchBendRange | src/midi_event.rs:49-55 | for 0 <= v < 16384 both bytes are data bytes, lsb * 128 + msb == v, and the event decodes as a pitch bend of v |
| Midi.ControlChangeEvent | src/midi_event.rs:57-63 | for every input the status byte is Control Change with channel nibble 0 and the data bytes are the controller and value; the event is a Control Change below controller 120, a Channel Mode message from 120 up, and invalid when either byte has its top bit set |
| Midi.ProgramChangeEvent | src/midi_event.rs:65-71 | for every input the status byte is Program Change with channel nibble 0, the data bytes are the program and 0, and the event is a Program Change on channel 1 exactly when the program fits in seven bits |
| Midi.PanicEvent | src/midi_event.rs:73-79 | panic is the All Notes Off Channel Mode message on channel 1 |
| Midi.PanicIsControlChange | src/midi_event.rs:13-16 | panic() == control_change(CC_MIDI_PANIC, 0); `CC_SILENCE` is All Sound Off; the mod wheel and portamento-rate numbers are plain controllers 1 and 5 |
| Midi.NoteEventsDistinct | src/midi_event.rs:33-47 | valid Note On, Note Off and panic events never coincide |
| Zgicabra.PhysicalButton | src/zgicabra.rs:420-435 | every slot of a known hand reads one of the physical buttons 1 to 4 |
| Zgicabra.RemapButtons | src/zgicabra.rs:420-435 | an unknown hand leaves the buttons as they were; a known hand reads slot k from the mask of its physical button |
| Zgicabra.CopyJoystick | src/zgicabra.rs:440-448 | r is the non-negative radius of (x, y), zero exactly at rest; theta lies in (0, 1]; `clicked` is bit 8 of the button word |
| Zgicabra.CopyFrameToWand | src/zgicabra.rs:399-438 | each position axis is the midpoint of the frame's and the previous wand's; hand, bumper, home, buttons, stick, trigger, pitch and twist come from the frame; the rotation is the frame's quaternion; the vector and scalar motion fields are left alone |
| Zgicabra.JoystickQuadrant | src/zgicabra.rs:483-494 | inside the deadzone there is no direction, and otherwise the reading is an axis or none |
| Zgicabra.JoystickOctant | src/zgicabra.rs:496-511 | inside the deadzone there is no direction |
| Zgicabra.Offset | src/zgicabra.rs:450-462 | the left stick's offset lies in [-4, 10] and is zero exactly for no direction |
| Zgicabra.Modifier | src/zgicabra.rs:464-476 | the right stick's modifier lies in [-13, 13] and is zero exactly for no direction |
| Zgicabra.DerivativeR3 | src/zgicabra.rs:513-515 | the quotient times dt restores the difference, and equal vectors give a zero derivative |
| Zgicabra.Differentiate | src/zgicabra.rs:258-270 | velocity, acceleration and jerk are successive difference quotients; each scalar is the average of the vector's length and the previous scalar, and stays non-negative when the previous one is; every other field of the wand is unchanged |
| Zgicabra.Bend | src/zgicabra.rs:277-278 | the bend lies in [-1, 1] and is zero for equal twists |
| Zgicabra.Level | src/zgicabra.rs:280-281 | the level lies in [0, 1]; it is 0 when the triggers sum to at most 0 and 1 when they sum to at least 1 |
| Zgicabra.Separation | src/zgicabra.rs:276 | the separation is the non-negative distance along the first axis |
| Zgicabra.TriggerNotes | src/zgicabra.rs:286-307 | NoteStart(current) is emitted exactly when the note was off and a trigger started, and NoteEnd(current) exactly when it was on, one trigger ended and the other rests at 0; each flips `on`, and nothing else changes the note |
| Zgicabra.TriggersExclusive | src/zgicabra.rs:286-307 | a tick in which a trigger starts never satisfies either end condition |
| Zgicabra.NoteTarget | src/zgicabra.rs:310-312 | the target is the root plus the two table values modulo 256, and exactly that sum when it stays in 0..127 |
| Zgicabra.FollowStick | src/zgicabra.rs:314-317 | a sounding note moves to the target; NoteChange(current, target) is emitted exactly when the note changes |
| Zgicabra.ChordRoot | src/zgicabra.rs:361-375 | chord 0 raises the root by one; chord 1 then moves it by the rock direction as an `i8` (exactly, when it stays in 0..127); without chords 0 and 1 the root is kept |
| Zgicabra.TickNote | src/zgicabra.rs:277-375 | at most three events per tick, and the bend stays in [-1, 1] |
| Zgicabra.Update | src/zgicabra.rs:240-391 | only appends, at most three events; copies the sequence number from controller 0; docked is the OR of both docked flags; separation >= 0, bend in [-1, 1], level in [0, 1]; voice and signal are kept |
| ZgicabraProps.OctantMatchesRef | src/zgicabra.rs:496-511 | outside the deadzone with 8 theta in (0, 8], the octant is the compass heading at ceil(8 theta - 1/2) mod 8, so each boundary belongs to the lower sector; otherwise it is none |
| ZgicabraProps.QuadrantMatchesRef | src/zgicabra.rs:483-494 | outside the deadzone with 8 theta in (0, 8], the quadrant is the axis at ceil((8 theta - 1) / 2) mod 4; otherwise it is none |
| ZgicabraProps.QuadrantOfOctant | src/zgicabra.rs:483-511 | the quadrant is none exactly when the octant is none, and it is always one of the octant's components, so it equals a cardinal octant |
| ZgicabraProps.StickDeadzone | src/zgicabra.rs:440-511 | with a lawful library, a stick reads no octant and no quadrant exactly when its radius is below 0.15 |
| ZgicabraProps.Opposite | src/zgicabra.rs:464-476 | the opposite heading negates both compass components |
| ZgicabraProps.ModifierComposes | src/zgicabra.rs:464-476 | the modifier is 12 per vertical step plus 1 per horizontal step, so opposite headings cancel |
| ZgicabraProps.TablesInjective | src/zgicabra.rs:450-476 | different headings give different offsets and different modifiers |
| ZgicabraProps.OffsetClockwise | src/zgicabra.rs:450-462 | going clockwise from left, the offset strictly rises |
| ZgicabraProps.MirrorButton | src/zgicabra.rs:420-435 | the mirror of a physical button is another physical button |
| ZgicabraProps.RemapPermutation | src/zgicabra.rs:420-435 | each hand reads the four physical buttons into four distinct slots, and the right hand's order mirrors the left hand's |
| ZgicabraProps.RemapSingleButton | src/zgicabra.rs:420-435 | with distinct one-bit masks, pressing one physical button lights exactly the slot it is read into |
| ZgicabraProps.EventShape | src/zgicabra.rs:291-324 | a tick's events are at most three; only start, end, change or panic; never a start with an end; at most one end; a change only to a different note; a panic exactly when both click bits are set, and only last |
| ZgicabraProps.UpdateWands | src/zgicabra.rs:250-270 | the wands a tick works on carry this tick's triggers, twists and sticks, and the buttons remapped from this tick's frames |
| ZgicabraProps.TickNoteState | src/zgicabra.rs:277-375 | after the note half of a tick the note sounds as the trigger edges say, at the stick target while sounding, keeps its note while silent, bends by the twist difference and takes the chord root |
| ZgicabraProps.TickNoteEvents | src/zgicabra.rs:286-324 | the note half of a tick emits exactly the trigger events, then the change to the stick target, then the panic, computed from the frames alone |
| ZgicabraProps.UpdateNote | src/zgicabra.rs:277-317 | after `Update` the note's `on` follows the trigger edges; a sounding note is at the stick target and a silent one keeps its note; bend comes from the two twists and is zero for equal rotations |
| ZgicabraProps.UpdateEvents | src/zgicabra.rs:286-345 | `Update` appends exactly the trigger, change and panic events, in that order; the bumper and home edges add nothing |
| ZgicabraProps.UpdateRoot | src/zgicabra.rs:361-375 | the root after `Update` is the chord root of the buttons remapped from this tick's frames |
| ZgicabraProps.QuietButtons | src/zgicabra.rs:420-435 | a frame with no buttons down leaves released buttons released |
| ZgicabraProps.StickAtRest | src/zgicabra.rs:440-448 | a centred stick reads no direction, and no click without bit 8 |
| ZgicabraProps.FirstTickFits | src/zgicabra.rs:310-370 | the first-note tick overflows nothing |
| ZgicabraProps.FirstTickTarget | src/zgicabra.rs:310-312 | with both sticks at rest the target is the root |
| ZgicabraProps.FirstTickEvents | src/zgicabra.rs:291-324 | pressing the left trigger from silence gives NoteStart(0), then NoteChange(0, 65) |
| ZgicabraProps.FirstNoteEvents | src/zgicabra.rs:240-324 | `Update` emits NoteStart(0), NoteChange(0, 65) on the first-note tick |
| ZgicabraProps.FirstNoteState | src/zgicabra.rs:240-375 | after the first-note tick the note sounds at 65 with root 65 and no bend |
| ZgicabraProps.FirstNote | src/zgicabra.rs:291-317 | from silence, a trigger press starts the last note (0) and moves it to the root 65 in the same tick |
| ZgicabraProps.StickUp | src/zgicabra.rs:440-448 | a stick pushed fully up reads straight up, with theta exactly 1 |
| ZgicabraProps.UpTickTarget | src/zgicabra.rs:310-312 | with the left stick up, the target from root 65 is 67 |
| ZgicabraProps.UpTickEvents | src/zgicabra.rs:286-324 | a held trigger with the stick up gives exactly NoteChange(65, 67) |
| ZgicabraProps.StickMovesNote | src/zgicabra.rs:309-317 | while a note sounds, pushing the left stick up moves it from 65 to 67 and emits one NoteChange(65, 67) |
| ZgicabraProps.EdgesExclusive | src/zgicabra.rs:286-289 | a trigger never starts and ends in the same tick |
| ZgicabraProps.PressHoldRelease | src/zgicabra.rs:286-289 | the readings 0, 0.4, 0.4, 0 start once at tick 1 and end once at tick 3 |
| ZgicabraProps.ChordsIgnoreOtherButtons | src/zgicabra.rs:361-375 | the chord root and its overflow condition depend on buttons 0 and 1 only; chords 2 and 3 do nothing |
| Ui.Minigauge | src/ui.rs:57-71 | three glyphs in edges; the cross exactly when 8x >= 9; otherwise the bar of height `(8x) as u8` |
| Ui.MinigaugeScale | src/ui.rs:57-71 | on [0, 1] the gauge shows floor(8x) and never the cross; it is empty at 0, full at 1, and monotone |
| Ui.Minidir | src/ui.rs:73-85 | three glyphs in parentheses, and reading the arrow back gives the direction |
| Ui.MinidirInjective | src/ui.rs:73-85 | different directions show different glyphs |
| Ui.Ministick | src/ui.rs:87-93 | a filled circle exactly when clicked, otherwise the octant's arrow |
| Ui.FilledCells | src/ui.rs:95-107 | at most n cells are lit; none for x <= 0, all for x >= 1 |
| Ui.CellLit | src/ui.rs:98-99 | x > i/n exactly when cell i is among the first `FilledCells(x, n)` cells |
| Ui.Minibar | src/ui.rs:95-107 | n cells; cell i is full exactly when it lies in the lit prefix, and hollow otherwise |
| Ui.ButtonGlyph | src/ui.rs:146-149 | a face button shows a digit exactly while held |
| Ui.FormatWand | src/ui.rs:140-151 | eighteen characters: stick, gauge, then a panel from which bumper, home and the four buttons read back; column 7 is a full block exactly while the bumper is held, column 11 is H exactly while home is held, and slot k shows digit k + 1 exactly while held |
| Ui.PanelRead | src/ui.rs:140-151 | behind any six-character head, the panel reads back as the wand's bumper, home and buttons, with the bumper and home glyphs at columns 7 and 11 |
| UiMask.BitIsShift | src/ui.rs:113 | the bit tested at position i is `1 << i` |
| UiMask.Dot | src/ui.rs:113-117 | a filled dot exactly when bit i of x is set, read as `(x >> i) & 1 == 1`, hollow otherwise |
| UiMask.DotsRead | src/ui.rs:109-121 | a row whose dots follow the bits of x reads back as the low byte of x |
| UiMask.Minimask | src/ui.rs:109-121 | eight dots; dot i is filled exactly when bit i is set; the row reads back as x & 0xFF, so bits from 8 up do not matter |

## Left out

- Thumbsmash (src/zgicabra.rs:377-389) reads `buttons[4]` of a four-element array. Indexing out of bounds is a defect of the code and not a behaviour, so `ThumpToggle` and `FuzzToggle` are never emitted here and no fix is invented.
- Zgicabra.Update and ZgicabraProps.ChordsIgnoreOtherButtons: because `&&` short-circuits, the source evaluates `curr.buttons[4]` (src/zgicabra.rs:382) exactly when slot 3 is held on a wand. So a tick with slot 3 held on either wand panics and never returns. Rust's deny-by-default `unconditional_panic` lint may even reject the constant index, and then the crate does not build. The model completes those ticks as if the thumbsmash loop were absent. So "chords 2 and 3 do nothing" holds of the model, but in the source a held slot 3 ends the tick.
- `each_wand` (src/zgicabra.rs:329-345) has every push commented out. It therefore emits nothing, and `UpdateEvents` shows that no bumper or home event appears.
- Zgicabra.Update: `dt` is the whole milliseconds since the last tick, which can be 0. The source then divides by zero in floating point, but the model requires a positive `dt`.
- Zgicabra.Update: `root as i8 + offset + modifier` and `root + 1` panic on overflow in debug builds. The model requires the no-panic conditions `NoteFits` and `ChordFits` (together, `TickFits`) instead of modelling a wrap.
- Zgicabra.Differentiate, Zgicabra.Bend, Tools.Hyp and Tools.Smoothstep: `f32` is `real`, so rounding, NaN and infinities are not modelled. `Smoothstep` requires `a != b`, where the source divides by zero and yields NaN or an infinity; the code only calls `smoothstep(0.0, 1.0, x)`. `sqrt`, `atan2` and `PI` are abstract parameters, and `powf(3.0)` is the cube x * x * x.
- Zgicabra.CopyFrameToWand: the Hydra driver's button masks and hand codes are defined outside the modelled files. They are the `ButtonLayout` parameter; `ValidLayout` says they are distinct single bits with two distinct hand codes.
- History.Size: only says that size() is the buffer length of a well-formed history. The source returns the stored field, which the model returns as is.
- History.GetFromEnd: an index beyond size + last underflows `usize` and panics in the source, so it is a precondition.
- History.Push, History.Get, History.Last: a size-0 history panics on `% 0` or on empty indexing, so these require a positive size.
- Midi: the `Debug` impl of `MidiEvent` (src/midi_event.rs:82-93) is text formatting and is not modelled.
- Tools: the numeric part of `format_note` is integer-to-decimal formatting; only the bracketed name is modelled.
- Tools: `time_now`, `sin`, `nsin`, `cos`, `ncos`, `rand_normal` and `rand_uniform` (src/tools.rs:17-62) need the clock and a random source.
- Ui: `header`, `draw_all`, `format_frame`, `draw_graph` (src/ui.rs:164-203, a terminal chart of the history's motion fields) and the colour constants are terminal drawing and float formatting.
- src/sixense.rs, src/midi.rs, src/main.rs and src/hydra.rs are driver FFI, MIDI port I/O, the polling loop and the driver binding, and are not part of this model. The all-zero default frame is mirrored as `Zgicabra.BlankFrame`.
- src/text_tools.rs, src/utils.rs and src/functions.rs are older duplicates of the formatters and helpers, and are not part of this model.
