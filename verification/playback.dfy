/**
 * One iteration of the playback loop, shared by both revisions of the
 * scheduler (the `ConversationHandler` class and the conversation store).
 *
 * The loop looks at the queue: when it is empty, or playback is paused, it
 * waits; otherwise it takes the head line off the queue, looks up the
 * speaker's configuration, asks the speech service for audio in the
 * speaker's voice and plays it on the speaker's output device.
 *
 * The speech service and the audio output are outside the model: the
 * service is a function parameter and the output devices are the set of
 * device ids that have an audio context.
 */
module Playback {
  import opened Types

  /** What the loop reads: the queue, the pause flag and the speaker table. */
  datatype PlayerState = PlayerState(queue: seq<Line>, isPlaying: bool, configs: map<string, SpeakerConfig>)

  /** The configuration every built-in speaker starts with. */
  const DefaultConfig: SpeakerConfig := SpeakerConfig("default", Alloy)

  /** The three built-in speakers. */
  const DefaultSpeakers: map<string, SpeakerConfig> :=
    map["[SPEAKER1]" := DefaultConfig, "[SPEAKER2]" := DefaultConfig, "[SPEAKER3]" := DefaultConfig]

  /** The state both revisions start in: nothing queued, playing, three speakers. */
  const Initial: PlayerState := PlayerState([], true, DefaultSpeakers)

  /** What one iteration decides to do. */
  datatype Action =
    | Wait
    | Drop(line: Line)
    | Speak(text: string, voice: Voice, deviceId: string)

  /** The loop has nothing to do: the queue is empty or playback is paused. */
  predicate Idle(s: PlayerState) {
    |s.queue| == 0 || !s.isPlaying
  }

  /** What becomes of a line taken off the queue: dropped when its speaker
      has no configuration, otherwise spoken with that speaker's voice on
      that speaker's device. */
  function Resolve(line: Line, configs: map<string, SpeakerConfig>): (a: Action)
    ensures a.Drop? <==> line.speaker !in configs
    ensures a.Drop? ==> a.line == line
    ensures a.Speak? <==> line.speaker in configs
    ensures a.Speak? ==>
      a.text == line.text && a.voice == configs[line.speaker].voice && a.deviceId == configs[line.speaker].deviceId
  {
    if line.speaker in configs then
      var config := configs[line.speaker];
      Speak(line.text, config.voice, config.deviceId)
    else
      Drop(line)
  }

  /** One iteration of the loop, up to the calls to the speech service and
      the audio output: the new state and the action taken. */
  function Step(s: PlayerState): (r: (PlayerState, Action))
    ensures r.0.isPlaying == s.isPlaying && r.0.configs == s.configs
    ensures r.1.Wait? <==> Idle(s)
    ensures Idle(s) ==> r.0 == s
    ensures !Idle(s) ==> [s.queue[0]] + r.0.queue == s.queue
    ensures !Idle(s) ==> r.1 == Resolve(s.queue[0], s.configs)
  {
    if Idle(s) then (s, Wait)
    else (s.(queue := s.queue[1..]), Resolve(s.queue[0], s.configs))
  }

  /** What the speech service gives back: audio, a falsy result, or an error. */
  datatype SayResult = Said(audio: Audio) | NoAudio | SayError

  /** What an iteration ends with. `Crashed` stands for an exception, which
      rejects the loop's promise and so ends the loop. */
  datatype Outcome =
    | Waited
    | Dropped(line: Line)
    | Skipped(text: string, voice: Voice)
    | Played(audio: Audio, deviceId: string)
    | Crashed

  /** Carries out an action. The speech service is `say`; `contexts` are the
      device ids that have an audio context (playing on any other device
      throws). */
  function Perform(a: Action, say: (string, Voice) -> SayResult, contexts: set<string>): (o: Outcome)
    ensures o.Waited? <==> a.Wait?
    ensures o.Dropped? <==> a.Drop?
    ensures o.Dropped? ==> o.line == a.line
    ensures o.Skipped? <==> a.Speak? && say(a.text, a.voice).NoAudio?
    ensures o.Played? <==> a.Speak? && say(a.text, a.voice).Said? && a.deviceId in contexts
    ensures o.Played? ==> o.audio == say(a.text, a.voice).audio && o.deviceId == a.deviceId
    ensures o.Crashed? <==> a.Speak? && (say(a.text, a.voice).SayError? || (say(a.text, a.voice).Said? && a.deviceId !in contexts))
  {
    match a
    case Wait => Waited
    case Drop(line) => Dropped(line)
    case Speak(text, voice, deviceId) =>
      match say(text, voice)
      case SayError => Crashed
      case NoAudio => Skipped(text, voice)
      case Said(audio) => if deviceId in contexts then Played(audio, deviceId) else Crashed
  }

  /** `rest` is what is left of `queue` after some lines were taken off its front. */
  predicate IsSuffix<T(==)>(rest: seq<T>, queue: seq<T>) {
    |rest| <= |queue| && rest == queue[|queue| - |rest|..]
  }

  /** At most `n` iterations of the loop from `s`: the outcomes, in order,
      and the state reached. The loop stops after an outcome that crashes it. */
  function Run(s: PlayerState, n: nat, say: (string, Voice) -> SayResult, contexts: set<string>): (r: (seq<Outcome>, PlayerState))
    ensures |r.0| <= n
    ensures r.1.isPlaying == s.isPlaying && r.1.configs == s.configs
    ensures IsSuffix(r.1.queue, s.queue)
    decreases n
  {
    if n == 0 then ([], s)
    else
      var step := Step(s);
      var outcome := Perform(step.1, say, contexts);
      if outcome.Crashed? then ([outcome], step.0)
      else
        var rest := Run(step.0, n - 1, say, contexts);
        SuffixOfSuffix(rest.1.queue, step.0.queue, s.queue);
        ([outcome] + rest.0, rest.1)
  }

  lemma SuffixOfSuffix<T>(a: seq<T>, b: seq<T>, c: seq<T>)
    requires IsSuffix(a, b) && IsSuffix(b, c)
    ensures IsSuffix(a, c)
  {
  }

  /** The loop stops early only on a crash, and only a crash stops it:
      a crash can only be the last outcome. */
  lemma {:induction false} RunStopsOnCrash(s: PlayerState, n: nat, say: (string, Voice) -> SayResult, contexts: set<string>)
    ensures var r := Run(s, n, say, contexts);
      (forall i | 0 <= i < |r.0| - 1 :: !r.0[i].Crashed?)
      && (|r.0| < n ==> |r.0| > 0 && r.0[|r.0| - 1].Crashed?)
    decreases n
  {
    if n > 0 {
      var step := Step(s);
      var outcome := Perform(step.1, say, contexts);
      if !outcome.Crashed? {
        RunStopsOnCrash(step.0, n - 1, say, contexts);
        var rest := Run(step.0, n - 1, say, contexts).0;
        assert Run(s, n, say, contexts).0 == [outcome] + rest;
        assert forall i | 1 <= i < |rest| + 1 :: ([outcome] + rest)[i] == rest[i - 1];
      }
    }
  }

  /** One iteration of a run: a crash ends it, anything else is followed by
      the rest of the run. */
  lemma RunUnfolds(s: PlayerState, n: nat, say: (string, Voice) -> SayResult, contexts: set<string>)
    requires n > 0
    ensures var outcome := Perform(Step(s).1, say, contexts);
      if outcome.Crashed? then
        Run(s, n, say, contexts) == ([outcome], Step(s).0)
      else
        (Run(s, n, say, contexts).0 == [outcome] + Run(Step(s).0, n - 1, say, contexts).0
         && Run(s, n, say, contexts).1 == Run(Step(s).0, n - 1, say, contexts).1)
  {
  }

  /** What the i-th iteration of a run does: the fate of the i-th queued
      line while playing and lines remain, a wait otherwise. */
  function Expected(s: PlayerState, i: nat, say: (string, Voice) -> SayResult, contexts: set<string>): Outcome {
    if s.isPlaying && i < |s.queue| then Perform(Resolve(s.queue[i], s.configs), say, contexts) else Waited
  }

  /** The first iteration does what `Expected` says for index 0. */
  lemma ExpectedHead(s: PlayerState, say: (string, Voice) -> SayResult, contexts: set<string>)
    ensures Expected(s, 0, say, contexts) == Perform(Step(s).1, say, contexts)
  {
  }

  /** After one step, index i - 1 of the new state stands for index i of the old one. */
  lemma ExpectedShift(s: PlayerState, i: nat, say: (string, Voice) -> SayResult, contexts: set<string>)
    requires 0 < i
    ensures Expected(Step(s).0, i - 1, say, contexts) == Expected(s, i, say, contexts)
  {
    if !Idle(s) {
      assert Step(s).0.queue == s.queue[1..];
    }
  }

  /** The tail of a run that goes past its first iteration is the run from the next state. */
  lemma RunTail(s: PlayerState, n: nat, say: (string, Voice) -> SayResult, contexts: set<string>, i: nat)
    requires 0 < i < |Run(s, n, say, contexts).0|
    ensures 0 < n && i - 1 < |Run(Step(s).0, n - 1, say, contexts).0|
    ensures Run(s, n, say, contexts).0[i] == Run(Step(s).0, n - 1, say, contexts).0[i - 1]
  {
    RunUnfolds(s, n, say, contexts);
  }

  lemma {:induction false} RunOutcomeAt(s: PlayerState, n: nat, say: (string, Voice) -> SayResult, contexts: set<string>, i: nat)
    requires i < |Run(s, n, say, contexts).0|
    ensures Run(s, n, say, contexts).0[i] == Expected(s, i, say, contexts)
    decreases i
  {
    if i == 0 {
      RunUnfolds(s, n, say, contexts);
      ExpectedHead(s, say, contexts);
    } else {
      RunTail(s, n, say, contexts, i);
      RunOutcomeAt(Step(s).0, n - 1, say, contexts, i - 1);
      ExpectedShift(s, i, say, contexts);
    }
  }

  /** The loop works through the queue front to back: the i-th outcome is
      the fate of the i-th queued line, and once the queue is empty every
      further iteration waits. */
  lemma RunInOrder(s: PlayerState, n: nat, say: (string, Voice) -> SayResult, contexts: set<string>)
    ensures var r := Run(s, n, say, contexts);
      forall i | 0 <= i < |r.0| ::
        if s.isPlaying && i < |s.queue|
        then r.0[i] == Perform(Resolve(s.queue[i], s.configs), say, contexts)
        else r.0[i] == Waited
  {
    var r := Run(s, n, say, contexts);
    forall i | 0 <= i < |r.0|
      ensures r.0[i] == Expected(s, i, say, contexts)
    {
      RunOutcomeAt(s, n, say, contexts, i);
    }
  }

  /** How many queued lines the first k iterations take off the queue:
      one per iteration while playing, until the queue is empty; none while
      paused. */
  function Handled(s: PlayerState, k: nat): (h: nat)
    ensures h <= |s.queue|
  {
    if !s.isPlaying then 0 else if k < |s.queue| then k else |s.queue|
  }

  /** A run leaves exactly the lines it has not reached yet: the queue
      minus as many lines from the front as its iterations handled. */
  lemma {:induction false} RunLeavesUnhandled(s: PlayerState, n: nat, say: (string, Voice) -> SayResult, contexts: set<string>)
    ensures Run(s, n, say, contexts).1.queue == s.queue[Handled(s, |Run(s, n, say, contexts).0|)..]
    decreases n
  {
    var r := Run(s, n, say, contexts);
    if n == 0 {
      assert s.queue[0..] == s.queue;
    } else if Idle(s) {
      RunWhileIdle(s, n, say, contexts);
      assert s.queue[0..] == s.queue;
    } else {
      var next := Step(s).0;
      var outcome := Perform(Step(s).1, say, contexts);
      RunUnfolds(s, n, say, contexts);
      if outcome.Crashed? {
        assert r == ([outcome], next);
        HandledStep(s, 0);
        assert next.queue == next.queue[0..];
      } else {
        var rest := Run(next, n - 1, say, contexts);
        assert r.0 == [outcome] + rest.0 && r.1 == rest.1;
        RunLeavesUnhandled(next, n - 1, say, contexts);
        HandledStep(s, |rest.0|);
      }
    }
  }

  /** One non-idle step handles one line: the count from the next state is
      one less, and its queue is the rest of this one. */
  lemma HandledStep(s: PlayerState, k: nat)
    requires !Idle(s)
    ensures Handled(s, k + 1) == Handled(Step(s).0, k) + 1
    ensures Step(s).0.queue[Handled(Step(s).0, k)..] == s.queue[Handled(s, k + 1)..]
  {
    assert Step(s).0.queue == s.queue[1..];
  }

  /** While the loop is idle (nothing queued, or paused) every iteration
      waits and the state stays as it is. */
  lemma {:induction false} RunWhileIdle(s: PlayerState, n: nat, say: (string, Voice) -> SayResult, contexts: set<string>)
    requires Idle(s)
    ensures |Run(s, n, say, contexts).0| == n && Run(s, n, say, contexts).1 == s
    decreases n
  {
    if n > 0 {
      RunUnfolds(s, n, say, contexts);
      RunWhileIdle(s, n - 1, say, contexts);
    }
  }

  /** With the loop playing and enough iterations, a queue that does not
      crash the loop is drained: it ends empty and the loop then waits. */
  lemma {:induction false} RunDrains(s: PlayerState, n: nat, say: (string, Voice) -> SayResult, contexts: set<string>)
    requires s.isPlaying && |s.queue| < n
    requires forall i | 0 <= i < |s.queue| :: !Perform(Resolve(s.queue[i], s.configs), say, contexts).Crashed?
    ensures |Run(s, n, say, contexts).0| == n
    ensures Run(s, n, say, contexts).1.queue == []
    ensures Run(s, n, say, contexts).0[|s.queue|] == Waited
    decreases n
  {
    RunInOrder(s, n, say, contexts);
    var (next, action) := Step(s);
    if s.queue == [] {
      RunWhileIdle(s, n, say, contexts);
    } else {
      assert next.queue == s.queue[1..];
      forall i | 0 <= i < |next.queue|
        ensures !Perform(Resolve(next.queue[i], next.configs), say, contexts).Crashed?
      {
        assert next.queue[i] == s.queue[i + 1];
      }
      RunDrains(next, n - 1, say, contexts);
    }
  }

  /** Lines added to an empty queue while playing are consumed first in,
      first out: two steps take the first line, then the second. */
  lemma FirstInFirstOut(s: PlayerState, l1: Line, l2: Line)
    requires s.queue == [] && s.isPlaying
    ensures var s1 := s.(queue := s.queue + [l1, l2]);
      Step(s1).1 == Resolve(l1, s.configs)
      && Step(Step(s1).0).1 == Resolve(l2, s.configs)
      && Step(Step(s1).0).0 == s
  {
    var s1 := s.(queue := s.queue + [l1, l2]);
    assert s1.queue[1..] == [l2];
    assert [l2][1..] == [];
  }
}
