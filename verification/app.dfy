/**
 * The first revision of the scheduler: the `ConversationHandler` class,
 * whose fields the loop and the UI update in place. Its loop runs while
 * the `cancel` flag is off.
 */
module App {
  import opened Types
  import opened Playback

  class ConversationHandler {
    var speakerConfigs: map<string, SpeakerConfig>
    var conversationQueue: seq<Line>
    var isPlaying: bool
    var cancel: bool

    /** The part of the handler the loop reads and writes. */
    function State(): PlayerState
      reads this
    {
      PlayerState(conversationQueue, isPlaying, speakerConfigs)
    }

    /** Three default speakers, nothing queued, playing, not cancelled. */
    constructor()
      ensures State() == Initial && !cancel
      ensures speakerConfigs.Keys == {"[SPEAKER1]", "[SPEAKER2]", "[SPEAKER3]"}
      ensures forall speaker | speaker in speakerConfigs :: speakerConfigs[speaker] == SpeakerConfig("default", Alloy)
    {
      speakerConfigs := map[];
      conversationQueue := [];
      isPlaying := true;
      cancel := false;
      new;
      speakerConfigs := speakerConfigs["[SPEAKER1]" := DefaultConfig];
      speakerConfigs := speakerConfigs["[SPEAKER2]" := DefaultConfig];
      speakerConfigs := speakerConfigs["[SPEAKER3]" := DefaultConfig];
    }

    /** Sets one speaker's entry; the other entries and fields stay. */
    method SetSpeakerConfig(speaker: string, config: SpeakerConfig)
      modifies this
      ensures speakerConfigs == old(speakerConfigs)[speaker := config]
      ensures forall other | other != speaker && other in old(speakerConfigs) ::
        other in speakerConfigs && speakerConfigs[other] == old(speakerConfigs)[other]
      ensures conversationQueue == old(conversationQueue)
      ensures isPlaying == old(isPlaying) && cancel == old(cancel)
    {
      speakerConfigs := speakerConfigs[speaker := config];
    }

    /** Appends lines at the back of the queue, in order. */
    method Queue(conversation: seq<Line>)
      modifies this
      ensures conversationQueue == old(conversationQueue) + conversation
      ensures speakerConfigs == old(speakerConfigs)
      ensures isPlaying == old(isPlaying) && cancel == old(cancel)
    {
      conversationQueue := conversationQueue + conversation;
    }

    /** One iteration of the loop up to the speech and audio calls: waits
        when idle, otherwise shifts the head off the queue and resolves it. */
    method Step() returns (action: Action)
      modifies this
      ensures (State(), action) == Playback.Step(old(State()))
      ensures cancel == old(cancel)
    {
      if |conversationQueue| == 0 || !isPlaying {
        return Wait;
      }
      var conversation := conversationQueue[0];
      conversationQueue := conversationQueue[1..];
      var speaker, text := conversation.speaker, conversation.text;
      if speaker !in speakerConfigs {
        return Drop(conversation);
      }
      var config := speakerConfigs[speaker];
      action := Speak(text, config.voice, config.deviceId);
    }

    /** At most `iterations` passes of the loop, which runs while `cancel`
        is off and ends on the first exception. */
    method ConversationLoop(iterations: nat, say: (string, Voice) -> SayResult, contexts: set<string>)
      returns (outcomes: seq<Outcome>)
      modifies this
      ensures !old(cancel) ==> (outcomes, State()) == Run(old(State()), iterations, say, contexts)
      ensures old(cancel) ==> outcomes == [] && State() == old(State())
      ensures cancel == old(cancel)
    {
      outcomes := [];
      ghost var start := State();
      var i := 0;
      var crashed := false;
      assert outcomes + Run(start, iterations, say, contexts).0 == Run(start, iterations, say, contexts).0;
      while !cancel && !crashed && i < iterations
        invariant i <= iterations
        invariant cancel == old(cancel)
        invariant old(cancel) ==> outcomes == [] && State() == start
        invariant !old(cancel) && !crashed ==>
          outcomes + Run(State(), iterations - i, say, contexts).0 == Run(start, iterations, say, contexts).0
          && Run(State(), iterations - i, say, contexts).1 == Run(start, iterations, say, contexts).1
        invariant !old(cancel) && crashed ==>
          outcomes == Run(start, iterations, say, contexts).0 && State() == Run(start, iterations, say, contexts).1
      {
        ghost var before := State();
        ghost var prefix := outcomes;
        var action := Step();
        var outcome := Perform(action, say, contexts);
        outcomes := outcomes + [outcome];
        crashed := outcome.Crashed?;
        i := i + 1;
        RunUnfolds(before, iterations - i + 1, say, contexts);
        if !crashed {
          assert prefix + ([outcome] + Run(State(), iterations - i, say, contexts).0)
              == outcomes + Run(State(), iterations - i, say, contexts).0;
        }
      }
      if !old(cancel) && !crashed {
        assert Run(State(), iterations - i, say, contexts) == ([], State());
        assert outcomes + [] == outcomes;
      }
    }
  }
}
