/**
 * MIDI input: decoding a three-byte channel message and dispatching it by
 * command. Note-on listeners are kept in registration order and every one
 * of them hears each note played with a positive velocity.
 *
 * Listeners are identified by a number; calling one is recorded as an
 * effect, as is the logging done for the mod wheel and the pitch bend.
 */
module Midi {
  import opened Wrappers

  /** A registered note listener, by identity. */
  type Listener = nat

  /** A decoded channel message; the velocity is the raw byte over 127. */
  datatype MidiMessage = MidiMessage(command: int, channel: int, note: int, velocity: real)

  /** What handling a message does. */
  datatype Effect =
    | NoteOn(listener: Listener, note: int, velocity: real)
    | ModWheel(velocity: real)
    | PitchBend(velocity: real)

  /** Decodes a message: absent data or fewer than three bytes give nothing;
      otherwise the status byte's high nibble is the command and its low
      nibble the channel, the second byte the note and the third byte over
      127 the velocity, which lies in [0, 1] for a MIDI data byte (below 0x80). */
  function ParseMidiMessage(data: Option<seq<bv8>>): (r: Option<MidiMessage>)
    ensures r.None? <==> data.None? || |data.value| < 3
    ensures r.Some? ==>
      var m := r.value;
      0 <= m.command < 16 && 0 <= m.channel < 16
      && m.command * 16 + m.channel == data.value[0] as int
      && m.note == data.value[1] as int
      && 0.0 <= m.velocity
      && (data.value[2] < 0x80 ==> m.velocity <= 1.0)
      && (m.velocity > 0.0 <==> data.value[2] != 0)
      && m.velocity * 127.0 == data.value[2] as int as real
  {
    if data.None? || |data.value| < 3 then None
    else
      var bytes := data.value;
      StatusSplit(bytes[0]);
      Some(MidiMessage(
        (bytes[0] >> 4) as int,
        (bytes[0] & 0xf) as int,
        bytes[1] as int,
        bytes[2] as int as real / 127.0))
  }

  /** The two nibbles of a byte put it back together. */
  lemma StatusSplit(b: bv8)
    ensures (b >> 4) as int < 16 && (b & 0xf) as int < 16
    ensures (b >> 4) as int * 16 + (b & 0xf) as int == b as int
  {
  }

  /** The calls a note makes: every listener, in order, when the velocity is
      positive; none otherwise. */
  function NoteCalls(listeners: seq<Listener>, note: int, velocity: real): (calls: seq<Effect>)
    ensures velocity <= 0.0 ==> calls == []
    ensures velocity > 0.0 ==> |calls| == |listeners|
    ensures velocity > 0.0 ==> forall i | 0 <= i < |calls| :: calls[i] == NoteOn(listeners[i], note, velocity)
  {
    if velocity <= 0.0 || listeners == [] then []
    else [NoteOn(listeners[0], note, velocity)] + NoteCalls(listeners[1..], note, velocity)
  }

  /** The dispatch table: 8 (note off) passes the negated velocity to the
      note listeners, 9 (note on) the velocity itself, 11 (knob) reaches the
      mod wheel only for controller 1, 14 is the pitch bend, and any other
      command does nothing. */
  function Dispatch(m: MidiMessage, listeners: seq<Listener>): (effects: seq<Effect>)
    ensures m.command == 8 ==> effects == NoteCalls(listeners, m.note, -m.velocity)
    ensures m.command == 9 ==> effects == NoteCalls(listeners, m.note, m.velocity)
    ensures m.command == 11 ==> effects == if m.note == 1 then [ModWheel(m.velocity)] else []
    ensures m.command == 14 ==> effects == [PitchBend(m.velocity)]
    ensures m.command !in {8, 9, 11, 14} ==> effects == []
  {
    if m.command == 8 then NoteCalls(listeners, m.note, -m.velocity)
    else if m.command == 9 then NoteCalls(listeners, m.note, m.velocity)
    else if m.command == 11 then (if m.note == 1 then [ModWheel(m.velocity)] else [])
    else if m.command == 14 then [PitchBend(m.velocity)]
    else []
  }

  /** Only note commands reach the note listeners, and a decoded note off
      never does: its negated velocity is never positive. */
  lemma OnlyNoteOnCallsListeners(data: Option<seq<bv8>>, listeners: seq<Listener>)
    requires ParseMidiMessage(data).Some?
    ensures var m := ParseMidiMessage(data).value;
      var effects := Dispatch(m, listeners);
      (exists i | 0 <= i < |effects| :: effects[i].NoteOn?)
      <==> m.command == 9 && data.value[2] != 0 && listeners != []
  {
    var m := ParseMidiMessage(data).value;
    var effects := Dispatch(m, listeners);
    if m.command == 9 && data.value[2] != 0 && listeners != [] {
      assert effects[0].NoteOn?;
    }
  }

  /** The channel plays no part in dispatch. */
  lemma ChannelIgnored(m: MidiMessage, channel: int, listeners: seq<Listener>)
    ensures Dispatch(m.(channel := channel), listeners) == Dispatch(m, listeners)
  {
  }

  /** The MIDI front end: its list of note-on listeners. */
  class MidiApi {
    var noteOnListeners: seq<Listener>

    /** No listeners yet. */
    constructor()
      ensures noteOnListeners == []
    {
      noteOnListeners := [];
    }

    /** Registers a listener after those already registered. */
    method AddNoteOnListener(listener: Listener)
      modifies this
      ensures noteOnListeners == old(noteOnListeners) + [listener]
    {
      noteOnListeners := noteOnListeners + [listener];
    }

    /** Calls every listener with the note, in order, when the velocity is
        positive. */
    method OnNote(note: int, velocity: real) returns (calls: seq<Effect>)
      ensures calls == NoteCalls(noteOnListeners, note, velocity)
    {
      calls := [];
      if velocity > 0.0 {
        for i := 0 to |noteOnListeners|
          invariant calls == NoteCalls(noteOnListeners[..i], note, velocity)
        {
          calls := calls + [NoteOn(noteOnListeners[i], note, velocity)];
        }
      }
    }

    /** Decodes a message and dispatches it; undecodable messages are ignored. */
    method HandleMidiMessage(data: Option<seq<bv8>>) returns (effects: seq<Effect>)
      ensures ParseMidiMessage(data).None? ==> effects == []
      ensures ParseMidiMessage(data).Some? ==> effects == Dispatch(ParseMidiMessage(data).value, noteOnListeners)
    {
      var parsed := ParseMidiMessage(data);
      if parsed.None? {
        return [];
      }
      var MidiMessage(command, channel, note, velocity) := parsed.value;
      if command == 8 {
        effects := OnNote(note, -velocity);
      } else if command == 9 {
        effects := OnNote(note, velocity);
      } else if command == 11 {
        effects := if note == 1 then [ModWheel(velocity)] else [];
      } else if command == 14 {
        effects := [PitchBend(velocity)];
      } else {
        effects := [];
      }
    }
  }
}
