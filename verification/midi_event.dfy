/**
  `MidiEvent`: a three-byte MIDI channel message on channel 1 (channel
  nibble 0), built by one constructor per message kind.

  The field names follow the source: `msb` is the first data byte after
  the status byte and `lsb` the second. Each constructor is checked
  against `Decode`, a reader of channel messages written from the MIDI
  1.0 Detailed Specification (status byte = kind nibble and channel
  nibble; data bytes below 0x80; pitch bend carries its low seven bits
  first; controllers 120 to 127 are Channel Mode messages).
 */
module Midi {
  import opened Ints
  import opened Wrappers

  /** Message kinds, the high nibble of the status byte. */
  const MsgNoteOn: uint8 := 0x90
  const MsgNoteOff: uint8 := 0x80
  const MsgControlChange: uint8 := 0xB0
  const MsgProgramChange: uint8 := 0xC0
  const MsgPitchBend: uint8 := 0xE0

  /** Default controller numbers. */
  const CcModWheel: uint8 := 0x01
  const CcPortamentoRate: uint8 := 0x05
  const CcMidiPanic: uint8 := 0x7B
  const CcSilence: uint8 := 0x78

  datatype MidiEvent = MidiEvent(msg: uint8, msb: uint8, lsb: uint8)

  /** A channel message as the MIDI 1.0 standard reads it. */
  datatype Message =
    | NoteOff(channel: nat, key: nat, velocity: nat)
    | NoteOn(channel: nat, key: nat, velocity: nat)
    | ControlChange(channel: nat, controller: nat, value: nat)
    | AllSoundOff(channel: nat)
    | AllNotesOff(channel: nat)
    | OtherChannelMode(channel: nat, controller: nat, value: nat)
    | ProgramChange(channel: nat, program: nat)
    | PitchBend(channel: nat, value: nat)

  /** A data byte has its top bit clear. */
  predicate IsData(b: uint8) {
    b < 0x80
  }

  /**
    The message an event stands for on the wire `[msg, msb, lsb]`, or
    `None` when the status byte is not one of the five kinds above or a
    data byte the kind uses has its top bit set. A program change has a
    single data byte, so `lsb` is ignored for it.
   */
  function Decode(e: MidiEvent): (m: Option<Message>)
    ensures m.Some? ==> IsData(e.msb) && 0x80 <= e.msg
  {
    var kind, channel := e.msg / 16 * 16, e.msg % 16;
    if kind == MsgProgramChange as int then
      if IsData(e.msb) then Some(ProgramChange(channel, e.msb)) else None
    else if !IsData(e.msb) || !IsData(e.lsb) then None
    else if kind == MsgNoteOff as int then Some(NoteOff(channel, e.msb, e.lsb))
    else if kind == MsgNoteOn as int then Some(NoteOn(channel, e.msb, e.lsb))
    else if kind == MsgControlChange as int then
      if e.msb < 120 then Some(ControlChange(channel, e.msb, e.lsb))
      else if e.msb == 120 && e.lsb == 0 then Some(AllSoundOff(channel))
      else if e.msb == 123 && e.lsb == 0 then Some(AllNotesOff(channel))
      else Some(OtherChannelMode(channel, e.msb, e.lsb))
    else if kind == MsgPitchBend as int then Some(PitchBend(channel, e.msb + 128 * e.lsb))
    else None
  }

  /** `note_on`: a Note On on channel 1, for any key and velocity that fit in seven bits. */
  function NoteOnEvent(note: uint8, vel: uint8): (e: MidiEvent)
    ensures e.msg / 16 == 0x9 && e.msg % 16 == 0 && e.msb == note && e.lsb == vel
    ensures Decode(e).Some? <==> IsData(note) && IsData(vel)
    ensures Decode(e).Some? ==> Decode(e) == Some(NoteOn(0, note, vel))
  {
    MidiEvent(MsgNoteOn, note, vel)
  }

  /** `note_off`: a Note Off on channel 1 with release velocity zero. */
  function NoteOffEvent(note: uint8): (e: MidiEvent)
    ensures e.msg / 16 == 0x8 && e.msg % 16 == 0 && e.msb == note && e.lsb == 0
    ensures Decode(e).Some? <==> IsData(note)
    ensures Decode(e).Some? ==> Decode(e) == Some(NoteOff(0, note, 0))
  {
    MidiEvent(MsgNoteOff, note, 0)
  }

  /**
    `pitch_bend`: the low seven bits of the value go in the first data
    byte and the bits from seven up, cut to eight bits, in the second.
    `&` with 0x7F on a two's-complement `i16` is the non-negative
    remainder modulo 128, and `>> 7` is an arithmetic shift, that is a
    floor division by 128. Together the two bytes keep the low fifteen
    bits of the value; the event is a valid pitch bend exactly when bit
    14 of those is clear, and it then carries those fifteen bits.
   */
  function PitchBendEvent(value: int16): (e: MidiEvent)
    ensures e.msg / 16 == 0xE && e.msg % 16 == 0 && IsData(e.msb)
    ensures e.lsb * 128 + e.msb == value % 0x8000
    ensures Decode(e).Some? <==> value % 0x8000 < 0x4000
    ensures Decode(e).Some? ==> Decode(e) == Some(PitchBend(0, value % 0x8000))
  {
    PitchBendBytes(value);
    MidiEvent(MsgPitchBend, value % 128, AsUint8(value / 128))
  }

  /** The two pitch-bend bytes are the low and high parts of the value's low fifteen bits. */
  lemma PitchBendBytes(value: int16)
    ensures value % 128 == value % 0x8000 % 128
    ensures AsUint8(value / 128) == value % 0x8000 / 128
  {
    if value < 0 {
      assert value % 0x8000 == value + 0x8000;
      assert (value + 0x8000) / 128 == value / 128 + 256;
    }
  }

  /** On the 14-bit range of the MIDI standard the value travels unchanged. */
  lemma PitchBendRange(value: int16)
    requires 0 <= value < 0x4000
    ensures Decode(PitchBendEvent(value)) == Some(PitchBend(0, value))
    ensures var e := PitchBendEvent(value); IsData(e.msb) && IsData(e.lsb) && e.lsb * 128 + e.msb == value
  {
  }

  /** `control_change`: a Control Change, or a Channel Mode message for controllers 120 and up. */
  function ControlChangeEvent(cc: uint8, value: uint8): (e: MidiEvent)
    ensures e.msg / 16 == 0xB && e.msg % 16 == 0 && e.msb == cc && e.lsb == value
    ensures Decode(e).Some? <==> IsData(cc) && IsData(value)
    ensures Decode(e).Some? && cc < 120 ==> Decode(e) == Some(ControlChange(0, cc, value))
    ensures Decode(e).Some? && 120 <= cc ==> !Decode(e).value.ControlChange?
  {
    MidiEvent(MsgControlChange, cc, value)
  }

  /** `program_change`: a Program Change on channel 1; the unused second byte is zero. */
  function ProgramChangeEvent(program: uint8): (e: MidiEvent)
    ensures e.msg / 16 == 0xC && e.msg % 16 == 0 && e.msb == program && e.lsb == 0
    ensures Decode(e).Some? <==> IsData(program)
    ensures Decode(e).Some? ==> Decode(e) == Some(ProgramChange(0, program))
  {
    MidiEvent(MsgProgramChange, program, 0)
  }

  /** `panic`: the All Notes Off Channel Mode message on channel 1. */
  function PanicEvent(): (e: MidiEvent)
    ensures Decode(e) == Some(AllNotesOff(0))
  {
    MidiEvent(MsgControlChange, CcMidiPanic, 0)
  }

  /** Panic is the control change of controller `CC_MIDI_PANIC` to zero, and silence is All Sound Off. */
  lemma PanicIsControlChange()
    ensures PanicEvent() == ControlChangeEvent(CcMidiPanic, 0)
    ensures Decode(ControlChangeEvent(CcSilence, 0)) == Some(AllSoundOff(0))
    ensures Decode(ControlChangeEvent(CcModWheel, 64)) == Some(ControlChange(0, 1, 64))
    ensures Decode(ControlChangeEvent(CcPortamentoRate, 64)) == Some(ControlChange(0, 5, 64))
  {
  }

  /** Note On, Note Off and panic events are never mistaken for one another. */
  lemma NoteEventsDistinct(note: uint8, vel: uint8, off: uint8)
    requires IsData(note) && IsData(vel) && IsData(off)
    ensures NoteOnEvent(note, vel) != NoteOffEvent(off)
    ensures NoteOnEvent(note, vel) != PanicEvent()
    ensures NoteOffEvent(off) != PanicEvent()
  {
    assert Decode(NoteOnEvent(note, vel)).value.NoteOn?;
    assert Decode(NoteOffEvent(off)).value.NoteOff?;
  }
}
