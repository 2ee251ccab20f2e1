/**
 * The records shared by the parser, the playback loop and the UI
 * (src/types.ts).  They carry no behaviour of their own.
 */
module Types {

  /** The six voices the speech-synthesis client accepts (src/lib/openai.ts). */
  datatype Voice = Alloy | Echo | Fable | Onyx | Nova | Shimmer

  /** One speaker turn: the speaker handle and what it says. */
  datatype Line = Line(speaker: string, text: string)

  /** Where and how a speaker is voiced: the audio output and the voice. */
  datatype SpeakerConfig = SpeakerConfig(deviceId: string, voice: Voice)

  /** An authored conversation: its title, raw text and parsed lines. */
  datatype Conversation = Conversation(title: string, text: string, lines: seq<Line>)

  /** Synthesized audio as raw bytes (an `ArrayBuffer`). */
  type Audio = seq<bv8>
}
