/**
 * The second revision of the scheduler: the conversation store. Its
 * setters replace one field of the state each, and its loop never stops
 * on its own.
 */
module Store {
  import opened Types
  import opened Playback

  class ConversationStore {
    var speakerConfigs: map<string, SpeakerConfig>
    var conversationQueue: seq<Line>
    var isPlaying: bool

    /** The store's state. */
    function State(): PlayerState
      reads this
    {
      PlayerState(conversationQueue, isPlaying, speakerConfigs)
    }

    /** Three default speakers, nothing queued, playing. */
    constructor()
      ensures State() == Initial
      ensures speakerConfigs.Keys == {"[SPEAKER1]", "[SPEAKER2]", "[SPEAKER3]"}
      ensures forall speaker | speaker in speakerConfigs :: speakerConfigs[speaker] == SpeakerConfig("default", Alloy)
    {
      speakerConfigs := DefaultSpeakers;
      conversationQueue := [];
      isPlaying := true;
    }

    /** Replaces the whole queue. */
    method SetConversationQueue(queue: seq<Line>)
      modifies this
      ensures State() == old(State()).(queue := queue)
    {
      conversationQueue := queue;
    }

    /** Pauses or resumes playback; nothing else changes. */
    method SetIsPlaying(playing: bool)
      modifies this
      ensures State() == old(State()).(isPlaying := playing)
    {
      isPlaying := playing;
    }

    /** Sets one speaker's entry; the other entries and fields stay. */
    method SetSpeakerConfig(speaker: string, config: SpeakerConfig)
      modifies this
      ensures State() == old(State()).(configs := old(speakerConfigs)[speaker := config])
      ensures forall other | other != speaker && other in old(speakerConfigs) ::
        other in speakerConfigs && speakerConfigs[other] == old(speakerConfigs)[other]
    {
      speakerConfigs := speakerConfigs[speaker := config];
    }

    /** Appends lines at the back of the queue, in order; the old queue is
        left as a prefix. */
    method AddToQueue(conversation: seq<Line>)
      modifies this
      ensures State() == old(State()).(queue := old(conversationQueue) + conversation)
    {
      conversationQueue := conversationQueue + conversation;
    }

    /** One iteration of the loop up to the speech and audio calls: waits
        when idle, otherwise reads the head, slices it off the queue and
        resolves it. */
    method Step() returns (action: Action)
      modifies this
      ensures (State(), action) == Playback.Step(old(State()))
    {
      if |conversationQueue| == 0 || !isPlaying {
        return Wait;
      }
      var conversation := conversationQueue[0];
      conversationQueue := conversationQueue[1..];
      var speaker, text := conversation.speaker, conversation.text;
      if speaker !in speakerConfigs {
        return Drop(conversation);
      }
      var config := speakerConfigs[speaker];
      action := Speak(text, config.voice, config.deviceId);
    }

    /** At most `iterations` passes of the loop, which ends only on an
        exception. */
    method ConversationLoop(iterations: nat, say: (string, Voice) -> SayResult, contexts: set<string>)
      returns (outcomes: seq<Outcome>)
      modifies this
      ensures (outcomes, State()) == Run(old(State()), iterations, say, contexts)
    {
      outcomes := [];
      ghost var start := State();
      var i := 0;
      var crashed := false;
      assert outcomes + Run(start, iterations, say, contexts).0 == Run(start, iterations, say, contexts).0;
      while !crashed && i < iterations
        invariant i <= iterations
        invariant !crashed ==>
          outcomes + Run(State(), iterations - i, say, contexts).0 == Run(start, iterations, say, contexts).0
          && Run(State(), iterations - i, say, contexts).1 == Run(start, iterations, say, contexts).1
        invariant crashed ==>
          outcomes == Run(start, iterations, say, contexts).0 && State() == Run(start, iterations, say, contexts).1
      {
        ghost var before := State();
        ghost var prefix := outcomes;
        var action := Step();
        var outcome := Perform(action, say, contexts);
        outcomes := outcomes + [outcome];
        crashed := outcome.Crashed?;
        i := i + 1;
        RunUnfolds(before, iterations - i + 1, say, contexts);
        if !crashed {
          assert prefix + ([outcome] + Run(State(), iterations - i, say, contexts).0)
              == outcomes + Run(State(), iterations - i, say, contexts).0;
        }
      }
      if !crashed {
        assert Run(State(), iterations - i, say, contexts) == ([], State());
        assert outcomes + [] == outcomes;
      }
    }
  }
}
