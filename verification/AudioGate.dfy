/** From captured samples to audio requests: the 16-bit conversion and the gate
  that holds audio back until the server has started
  (USpeechly::Start, Stop, Tick and OnSpeechAudio in
  Source/Speechly/Private/Speechly.cpp). The audio thread may deliver a chunk
  between any two statements of the game thread that touch this state. */
module AudioGate {
  import opened Protocol

  // ---- Conversion ----

  /** A cast from float to an integer type. */
  function Truncate(x: real): int { if x >= 0.0 then x.Floor else -((-x).Floor) }

  function Scale(a: real): real { if a < 0.0 then 32768.0 else 32767.0 }

  function Sample(a: real): int {
    var scaled := Truncate(a * Scale(a));
    var capped := if scaled < 32767 then scaled else 32767;
    if capped > -32768 then capped else -32768
  }

  /** A 16-bit integer as it lies in memory, low byte first. */
  function Encode(v: int): (bytes: seq<Byte>)
    requires -32768 <= v <= 32767
    ensures |bytes| == 2 && Decode(bytes[0], bytes[1]) == v
    ensures (v - bytes[0]) % 256 == 0
  {
    var u := if v < 0 then v + 65536 else v;
    [u % 256, u / 256]
  }

  function Decode(low: Byte, high: Byte): int {
    var u := 256 * high + low;
    if u >= 32768 then u - 65536 else u
  }

  function Pcm(audio: seq<real>): seq<Byte> {
    if |audio| == 0 then []
    else SampleInRange(audio[|audio| - 1]); Pcm(audio[..|audio| - 1]) + Encode(Sample(audio[|audio| - 1]))
  }

  lemma SampleInRange(a: real)
    ensures -32768 <= Sample(a) <= 32767
  {
  }

  /** Samples within [-1, 1] are rounded toward zero on the full 16-bit scale,
      louder ones are clipped to the nearer end. */
  lemma SampleMeans(a: real)
    ensures a > 1.0 ==> Sample(a) == 32767
    ensures a < -1.0 ==> Sample(a) == -32768
    ensures 0.0 <= a <= 1.0 ==> Sample(a) as real <= 32767.0 * a < Sample(a) as real + 1.0
    ensures -1.0 <= a < 0.0 ==> Sample(a) as real - 1.0 < 32768.0 * a <= Sample(a) as real
  {
  }

  lemma SampleIsMonotone(a: real, b: real)
    requires a <= b
    ensures Sample(a) <= Sample(b)
  {
    SampleMeans(a);
    SampleMeans(b);
  }

  /** The bytes decode, in order, to the samples of the chunk. */
  lemma {:induction false} PcmDecodes(audio: seq<real>)
    ensures |Pcm(audio)| == 2 * |audio|
    ensures forall i :: 0 <= i < |audio| ==> Decode(Pcm(audio)[2 * i], Pcm(audio)[2 * i + 1]) == Sample(audio[i])
  {
    if |audio| > 0 {
      PcmDecodes(audio[..|audio| - 1]);
      SampleInRange(audio[|audio| - 1]);
    }
  }

  /** One more sample of a chunk. */
  lemma PcmOneMore(audio: seq<real>, i: nat)
    requires i < |audio|
    ensures |Pcm(audio[..i])| == 2 * i && -32768 <= Sample(audio[i]) <= 32767
    ensures Pcm(audio[..i + 1]) == Pcm(audio[..i]) + Encode(Sample(audio[i]))
    ensures HasAudio(audio[..i + 1]) <==> HasAudio(audio[..i]) || audio[i] != 0.0
  {
    var longer := audio[..i + 1];
    PcmDecodes(audio[..i]);
    SampleInRange(audio[i]);
    assert longer[..|longer| - 1] == audio[..i];
    assert longer[i] == audio[i] && forall j :: 0 <= j < i ==> longer[j] == audio[..i][j];
  }

  // ---- The gate ----

  datatype Gate = Gate(
    buffering: bool,
    held: seq<Byte>,
    capturing: bool,
    lastContext: string,
    silence: nat,
    requests: seq<Request>)

  /** The statements of the game thread and the chunks of the audio thread. */
  datatype Action =
    | Hold                        // Start: bIsBuffering = true
    | Clear                       // Start: AudioBuffer.Empty()
    | Capture                     // Start: Recorder.Start()
    | SendStart                   // Start: the START request
    | Halt                        // Stop: Recorder.Stop()
    | SendStop                    // Stop: the STOP request
    | Started(context: string)    // Tick handles a started response
    | Finished(context: string)   // Tick handles a finished response
    | Chunk(audio: seq<real>)     // the recorder delivers output

  const SAMPLE_RATE := 16000

  const FIVE_SECONDS := 5 * SAMPLE_RATE

  predicate HasAudio(audio: seq<real>) { exists i :: 0 <= i < |audio| && audio[i] != 0.0 }

  /** Silence is zeros and nothing else. */
  lemma SilenceIsZeros(audio: seq<real>)
    ensures !HasAudio(audio) <==> audio == seq(|audio|, _ => 0.0)
  {
    if audio == seq(|audio|, _ => 0.0) {
      assert forall i :: 0 <= i < |audio| ==> audio[i] == seq(|audio|, _ => 0.0)[i];
    }
  }

  function SilenceAfter(silence: nat, audio: seq<real>): nat {
    if HasAudio(audio) || silence + |audio| > FIVE_SECONDS then 0 else silence + |audio|
  }

  /** OnSpeechAudio. */
  function ChunkStep(g: Gate, audio: seq<real>): Gate {
    if |audio| == 0 then g
    else
      var h := g.(silence := SilenceAfter(g.silence, audio));
      if g.buffering then h.(held := g.held + Pcm(audio))
      else h.(held := [], requests := g.requests + [Audio(g.held + Pcm(audio))])
  }

  function Step(g: Gate, a: Action): Gate {
    match a
    case Hold => g.(buffering := true)
    case Clear => g.(held := [])
    case Capture => g.(capturing := true)
    case SendStart => g.(requests := g.requests + [StartEvent])
    case Halt => g.(capturing := false)
    case SendStop => g.(requests := g.requests + [StopEvent])
    case Started(c) => g.(buffering := false, lastContext := c)
    case Finished(c) => if c == g.lastContext then g.(capturing := false) else g
    case Chunk(audio) => if g.capturing then ChunkStep(g, audio) else g
  }

  function After(g: Gate, actions: seq<Action>): Gate {
    if |actions| == 0 then g else Step(After(g, actions[..|actions| - 1]), actions[|actions| - 1])
  }

  /** Where the game thread stands inside Start or Stop. */
  datatype Place = Between | Holding | Cleared | Capturing | Halted

  /** Outside Start: the START request has been written. */
  predicate Settled(p: Place) { p.Between? || p.Halted? }

  function PlaceAfter(p: Place, a: Action): Place {
    match a
    case Hold => Holding
    case Clear => Cleared
    case Capture => Capturing
    case SendStart => Between
    case Halt => Halted
    case SendStop => Between
    case _ => p
  }

  predicate Follows(p: Place, a: Action) {
    match a
    case Hold => p.Between?
    case Clear => p.Holding?
    case Capture => p.Cleared?
    case SendStart => p.Capturing?
    case Halt => p.Between?
    case SendStop => p.Halted?
    case Started(_) => p.Between?
    case Finished(_) => p.Between?
    case Chunk(_) => true
  }

  function PlaceAt(actions: seq<Action>): Place {
    if |actions| == 0 then Between else PlaceAfter(PlaceAt(actions[..|actions| - 1]), actions[|actions| - 1])
  }

  /** Start, Stop and the handling of a response run to their end before the
      game thread does anything else. */
  predicate Legal(actions: seq<Action>) {
    |actions| == 0 ||
      (Legal(actions[..|actions| - 1]) && Follows(PlaceAt(actions[..|actions| - 1]), actions[|actions| - 1]))
  }

  // ---- What happened since the last Start ----

  /** The bytes of every chunk captured since Start last emptied AudioBuffer. A
      chunk that comes between the first two statements of Start is dropped with
      what was there before. */
  function Captured(g: Gate, actions: seq<Action>): seq<Byte> {
    if |actions| == 0 then []
    else
      var before, a := actions[..|actions| - 1], actions[|actions| - 1];
      if a.Clear? then []
      else if a.Chunk? && After(g, before).capturing then Captured(g, before) + Pcm(a.audio)
      else Captured(g, before)
  }

  function AudioOf(requests: seq<Request>): seq<Byte> {
    if |requests| == 0 then []
    else
      AudioOf(requests[..|requests| - 1]) +
      (if requests[|requests| - 1].Audio? then requests[|requests| - 1].bytes else [])
  }

  /** How many requests had been enqueued when the last Start began. */
  function Mark(g: Gate, actions: seq<Action>): nat {
    if |actions| == 0 then |g.requests|
    else if actions[|actions| - 1].Hold? then |After(g, actions).requests|
    else Mark(g, actions[..|actions| - 1])
  }

  lemma {:induction false} MarkInRange(g: Gate, actions: seq<Action>)
    ensures Mark(g, actions) <= |After(g, actions).requests|
  {
    if |actions| > 0 { MarkInRange(g, actions[..|actions| - 1]); }
  }

  /** The requests enqueued since the last Start began. */
  function Since(g: Gate, actions: seq<Action>): seq<Request> {
    MarkInRange(g, actions);
    After(g, actions).requests[Mark(g, actions)..]
  }

  /** No started response has been handled since the last Start began. */
  predicate Shut(actions: seq<Action>) {
    |actions| > 0 &&
      (actions[|actions| - 1].Hold? || (!actions[|actions| - 1].Started? && Shut(actions[..|actions| - 1])))
  }

  /** There has been a Start. */
  predicate Begun(actions: seq<Action>) {
    |actions| > 0 && (actions[|actions| - 1].Hold? || Begun(actions[..|actions| - 1]))
  }

  /** A captured chunk with samples has come since the gate opened. */
  predicate Flushed(g: Gate, actions: seq<Action>) {
    |actions| > 0 &&
      var before, a := actions[..|actions| - 1], actions[|actions| - 1];
      if a.Hold? then false
      else (a.Chunk? && |a.audio| > 0 && After(g, before).capturing && !Shut(before)) || Flushed(g, before)
  }

  predicate NoAudio(requests: seq<Request>) { forall i :: 0 <= i < |requests| ==> !requests[i].Audio? }

  function Emits(g: Gate, a: Action): seq<Request> {
    match a
    case SendStart => [StartEvent]
    case SendStop => [StopEvent]
    case Chunk(audio) =>
      if g.capturing && |audio| > 0 && !g.buffering then [Audio(g.held + Pcm(audio))] else []
    case _ => []
  }

  /** All of the above at once. */
  datatype View = View(
    gate: Gate,
    place: Place,
    added: seq<Request>,
    begun: bool,
    shut: bool,
    flushed: bool,
    captured: seq<Byte>)

  function ViewAt(g: Gate, actions: seq<Action>): View {
    View(After(g, actions), PlaceAt(actions), Since(g, actions), Begun(actions), Shut(actions),
         Flushed(g, actions), Captured(g, actions))
  }

  function ViewAfter(v: View, a: Action): View {
    View(Step(v.gate, a),
         PlaceAfter(v.place, a),
         if a.Hold? then [] else v.added + Emits(v.gate, a),
         v.begun || a.Hold?,
         a.Hold? || (v.shut && !a.Started?),
         !a.Hold? && (v.flushed || (a.Chunk? && |a.audio| > 0 && v.gate.capturing && !v.shut)),
         if a.Clear? then [] else if a.Chunk? && v.gate.capturing then v.captured + Pcm(a.audio) else v.captured)
  }

  lemma OneMore(g: Gate, actions: seq<Action>, a: Action)
    ensures ViewAt(g, actions + [a]) == ViewAfter(ViewAt(g, actions), a)
  {
    assert (actions + [a])[..|actions + [a]| - 1] == actions;
    SinceOneMore(g, actions, a);
    hide Pcm, PlaceAfter, Step, Emits, Since;
  }

  lemma SinceOneMore(g: Gate, actions: seq<Action>, a: Action)
    ensures Since(g, actions + [a]) == if a.Hold? then [] else Since(g, actions) + Emits(After(g, actions), a)
  {
    var now := actions + [a];
    assert now[..|now| - 1] == actions;
    MarkInRange(g, actions);
    StepEmits(After(g, actions), a);
    assert After(g, now).requests == After(g, actions).requests + Emits(After(g, actions), a);
    assert Mark(g, now) == if a.Hold? then |After(g, now).requests| else Mark(g, actions);
    hide After, Step, Emits, Mark;
  }

  lemma StepEmits(g: Gate, a: Action)
    ensures Step(g, a).requests == g.requests + Emits(g, a)
  {
    hide Pcm, SilenceAfter;
  }

  /** What every legal run keeps. */
  predicate Fits(v: View) {
    v.begun ==>
      && v.gate.buffering == v.shut
      && (v.shut ==> !v.flushed)
      && (if Settled(v.place) then |v.added| > 0 && v.added[0].StartEvent? else v.shut && v.added == [])
      && (!v.place.Holding? ==> AudioOf(v.added) + v.gate.held == v.captured)
      && (if v.flushed then v.gate.held == [] else NoAudio(v.added))
  }

  lemma {:induction false} NoAudioNoBytes(requests: seq<Request>)
    requires NoAudio(requests)
    ensures AudioOf(requests) == []
  {
    if |requests| > 0 { NoAudioNoBytes(requests[..|requests| - 1]); }
  }

  lemma AudioOfOneMore(requests: seq<Request>, r: Request)
    ensures AudioOf(requests + [r]) == AudioOf(requests) + (if r.Audio? then r.bytes else [])
  {
    assert (requests + [r])[..|requests + [r]| - 1] == requests;
  }

  lemma ChunkFits(v: View, audio: seq<real>)
    requires Fits(v)
    ensures Fits(ViewAfter(v, Chunk(audio)))
  {
    var g := v.gate;
    if !g.capturing || |audio| == 0 {
      assert v.added + [] == v.added;
      assert |audio| == 0 ==> v.captured + Pcm(audio) == v.captured;
    } else if g.buffering {
      assert v.added + [] == v.added;
      assert AudioOf(v.added) + (g.held + Pcm(audio)) == AudioOf(v.added) + g.held + Pcm(audio);
    } else {
      AudioOfOneMore(v.added, Audio(g.held + Pcm(audio)));
      assert AudioOf(v.added) + (g.held + Pcm(audio)) + [] == AudioOf(v.added) + g.held + Pcm(audio);
    }
  }

  lemma StepFits(v: View, a: Action)
    requires Fits(v) && Follows(v.place, a)
    ensures Fits(ViewAfter(v, a))
  {
    if a.Chunk? {
      ChunkFits(v, a.audio);
    } else if a.SendStart? || a.SendStop? {
      RequestFits(v, a);
    } else {
      QuietFits(v, a);
    }
  }

  lemma RequestFits(v: View, a: Action)
    requires Fits(v) && Follows(v.place, a) && (a.SendStart? || a.SendStop?)
    ensures Fits(ViewAfter(v, a))
  {
    hide Pcm;
    AudioOfOneMore(v.added, if a.SendStart? then StartEvent else StopEvent);
    hide AudioOf;
  }

  lemma QuietFits(v: View, a: Action)
    requires Fits(v) && Follows(v.place, a) && !a.Chunk? && !a.SendStart? && !a.SendStop?
    ensures Fits(ViewAfter(v, a))
  {
    assert AudioOf([]) == [];
    hide Pcm, AudioOf;
    assert v.added + [] == v.added;
  }

  lemma {:induction false} RunFits(g: Gate, actions: seq<Action>)
    requires Legal(actions)
    ensures Fits(ViewAt(g, actions))
  {
    if |actions| > 0 {
      var before, a := actions[..|actions| - 1], actions[|actions| - 1];
      RunFits(g, before);
      StepFits(ViewAt(g, before), a);
      OneMore(g, before, a);
      assert before + [a] == actions;
    }
  }

  // ---- What holds over every run, from any state of the gate ----

  /** The audio enqueued since Start, followed by AudioBuffer, is exactly what
      was captured since Start emptied AudioBuffer. */
  lemma NothingLostOrReordered(g: Gate, actions: seq<Action>)
    requires Legal(actions) && Begun(actions) && !PlaceAt(actions).Holding?
    ensures AudioOf(Since(g, actions)) + After(g, actions).held == Captured(g, actions)
  {
    RunFits(g, actions);
  }

  /** Between the beginning of a Start and the first started response handled
      after it no audio is enqueued, and the START request comes before
      anything else. */
  lemma NoAudioBeforeStarted(g: Gate, actions: seq<Action>)
    requires Legal(actions) && Begun(actions)
    ensures Shut(actions) ==> NoAudio(Since(g, actions))
    ensures |Since(g, actions)| > 0 ==> Since(g, actions)[0] == StartEvent
    ensures Settled(PlaceAt(actions)) ==> |Since(g, actions)| > 0
  {
    RunFits(g, actions);
  }

  /** Everything captured since Start has been enqueued exactly when nothing
      was captured or some chunk came after the gate had opened: an utterance
      that stops before then stays in AudioBuffer, and the next Start drops it. */
  lemma AllSentExactlyWhen(g: Gate, actions: seq<Action>)
    requires Legal(actions) && Begun(actions) && !PlaceAt(actions).Holding?
    ensures AudioOf(Since(g, actions)) == Captured(g, actions) <==>
      Captured(g, actions) == [] || Flushed(g, actions)
  {
    RunFits(g, actions);
    if !Flushed(g, actions) { NoAudioNoBytes(Since(g, actions)); }
    assert AudioOf(Since(g, actions)) + [] == AudioOf(Since(g, actions));
  }

  // ---- The recorder and the silence counter ----

  /** The context of the last started response. */
  function LastStarted(g: Gate, actions: seq<Action>): string {
    if |actions| == 0 then g.lastContext
    else if actions[|actions| - 1].Started? then actions[|actions| - 1].context
    else LastStarted(g, actions[..|actions| - 1])
  }

  /** Action j stops the recorder. */
  predicate Stops(g: Gate, actions: seq<Action>, j: nat)
    requires j < |actions|
  {
    actions[j].Halt? || (actions[j].Finished? && actions[j].context == LastStarted(g, actions[..j]))
  }

  predicate RecordingSince(g: Gate, actions: seq<Action>, i: int) {
    0 <= i < |actions| && actions[i].Capture? && forall j :: i < j < |actions| ==> !Stops(g, actions, j)
  }

  lemma StopsEarlier(g: Gate, actions: seq<Action>, j: nat)
    requires j < |actions| - 1
    ensures Stops(g, actions[..|actions| - 1], j) == Stops(g, actions, j)
  {
    assert actions[..|actions| - 1][..j] == actions[..j];
  }

  lemma RecordingSinceEarlier(g: Gate, actions: seq<Action>, i: int)
    requires 0 <= i < |actions| - 1
    ensures RecordingSince(g, actions, i) <==>
      RecordingSince(g, actions[..|actions| - 1], i) && !Stops(g, actions, |actions| - 1)
  {
    var before := actions[..|actions| - 1];
    if RecordingSince(g, actions, i) {
      forall j | i < j < |before|
        ensures !Stops(g, before, j)
      {
        StopsEarlier(g, actions, j);
      }
    }
    if RecordingSince(g, before, i) && !Stops(g, actions, |before|) {
      forall j | i < j < |actions|
        ensures !Stops(g, actions, j)
      {
        if j < |before| { StopsEarlier(g, actions, j); }
      }
    }
  }

  ghost predicate IsRecording(g: Gate, actions: seq<Action>) { exists i :: RecordingSince(g, actions, i) }

  lemma RecordingStep(g: Gate, actions: seq<Action>)
    requires |actions| > 0
    ensures var before, n := actions[..|actions| - 1], |actions| - 1;
      IsRecording(g, actions) <==> actions[n].Capture? || (IsRecording(g, before) && !Stops(g, actions, n))
  {
    var before, n := actions[..|actions| - 1], |actions| - 1;
    if actions[n].Capture? { assert RecordingSince(g, actions, n); }
    if IsRecording(g, actions) {
      var i :| RecordingSince(g, actions, i);
      if i < n { RecordingSinceEarlier(g, actions, i); }
    }
    if IsRecording(g, before) && !Stops(g, actions, n) {
      var i :| RecordingSince(g, before, i);
      RecordingSinceEarlier(g, actions, i);
    }
  }

  /** The recorder runs exactly when it was started and neither a Stop nor the
      end of the context last started has come since. */
  lemma {:induction false} CapturingExactlyWhen(g: Gate, actions: seq<Action>)
    requires !g.capturing
    ensures After(g, actions).capturing <==> IsRecording(g, actions)
    ensures After(g, actions).lastContext == LastStarted(g, actions)
  {
    if |actions| > 0 {
      CapturingExactlyWhen(g, actions[..|actions| - 1]);
      RecordingStep(g, actions);
      hide IsRecording, Pcm;
    }
  }

  function SilenceOver(chunks: seq<seq<real>>): nat {
    if |chunks| == 0 then 0 else SilenceAfter(SilenceOver(chunks[..|chunks| - 1]), chunks[|chunks| - 1])
  }

  /** The number of samples after the last chunk that had audio. */
  function Tail(chunks: seq<seq<real>>): nat {
    if |chunks| == 0 || HasAudio(chunks[|chunks| - 1]) then 0
    else Tail(chunks[..|chunks| - 1]) + |chunks[|chunks| - 1]|
  }

  lemma {:induction false} SilenceOverIsTail(chunks: seq<seq<real>>)
    ensures SilenceOver(chunks) <= Tail(chunks) && SilenceOver(chunks) <= FIVE_SECONDS
    ensures Tail(chunks) <= FIVE_SECONDS ==> SilenceOver(chunks) == Tail(chunks)
  {
    if |chunks| > 0 { SilenceOverIsTail(chunks[..|chunks| - 1]); }
  }

  function Samples(chunks: seq<seq<real>>): nat {
    if |chunks| == 0 then 0 else Samples(chunks[..|chunks| - 1]) + |chunks[|chunks| - 1]|
  }

  /** How many chunks had come when silence was last reset: by a chunk with
      audio, or by one that made the silence since the reset before exceed five
      seconds. */
  function LastReset(chunks: seq<seq<real>>): (k: nat)
    ensures k <= |chunks|
  {
    if |chunks| == 0 then 0
    else
      var k := LastReset(chunks[..|chunks| - 1]);
      if HasAudio(chunks[|chunks| - 1]) || Samples(chunks[k..]) > FIVE_SECONDS then |chunks| else k
  }

  lemma {:induction false} SilenceOverSinceReset(chunks: seq<seq<real>>)
    ensures SilenceOver(chunks) == Samples(chunks[LastReset(chunks)..])
  {
    if |chunks| > 0 {
      var before, last := chunks[..|chunks| - 1], chunks[|chunks| - 1];
      SilenceOverSinceReset(before);
      var k := LastReset(before);
      assert chunks[k..][..|chunks[k..]| - 1] == before[k..];
      assert Samples(chunks[k..]) == Samples(before[k..]) + |last|;
      assert chunks[|chunks|..] == [];
    }
  }

  /** The chunks the recorder has delivered. */
  function Delivered(g: Gate, actions: seq<Action>): seq<seq<real>> {
    if |actions| == 0 then []
    else
      var before, a := actions[..|actions| - 1], actions[|actions| - 1];
      Delivered(g, before) + if a.Chunk? && After(g, before).capturing then [a.audio] else []
  }

  lemma SilenceOfStep(g: Gate, a: Action)
    requires g.silence <= FIVE_SECONDS
    ensures Step(g, a).silence ==
      if a.Chunk? && g.capturing then SilenceAfter(g.silence, a.audio) else g.silence
  {
    hide Pcm;
  }

  lemma SilenceOverMore(chunks: seq<seq<real>>, audio: seq<real>)
    ensures SilenceOver(chunks + [audio]) == SilenceAfter(SilenceOver(chunks), audio)
  {
    assert (chunks + [audio])[..|chunks + [audio]| - 1] == chunks;
  }

  lemma {:induction false} GateCountsSilence(g: Gate, actions: seq<Action>)
    requires g.silence == 0
    ensures After(g, actions).silence == SilenceOver(Delivered(g, actions))
  {
    if |actions| > 0 {
      var before, a := actions[..|actions| - 1], actions[|actions| - 1];
      GateCountsSilence(g, before);
      SilenceOverIsTail(Delivered(g, before));
      SilenceOfStep(After(g, before), a);
      assert Delivered(g, before) + [] == Delivered(g, before);
      hide Step, SilenceAfter;
      if a.Chunk? { SilenceOverMore(Delivered(g, before), a.audio); }
      hide SilenceOver;
    }
  }

  /** Over every run the gate's SilenceCount is the number of samples since
      silence was last reset. While the silence since the last chunk with audio
      is at most five seconds, that is all of it. */
  lemma SilenceIsTail(g: Gate, actions: seq<Action>)
    requires g.silence == 0
    ensures var chunks, silence := Delivered(g, actions), After(g, actions).silence;
      && silence == Samples(chunks[LastReset(chunks)..])
      && silence <= FIVE_SECONDS
      && silence <= Tail(chunks)
      && (Tail(chunks) <= FIVE_SECONDS ==> silence == Tail(chunks))
  {
    GateCountsSilence(g, actions);
    SilenceOverIsTail(Delivered(g, actions));
    SilenceOverSinceReset(Delivered(g, actions));
  }

  lemma {:induction false} AfterJoin(g: Gate, xs: seq<Action>, ys: seq<Action>)
    ensures After(g, xs + ys) == After(After(g, xs), ys)
  {
    if |ys| == 0 {
      assert xs + ys == xs;
    } else {
      AfterJoin(g, xs, ys[..|ys| - 1]);
      assert (xs + ys)[..|xs + ys| - 1] == xs + ys[..|ys| - 1];
    }
  }

  lemma LegalStep(g: Gate, actions: seq<Action>, a: Action)
    requires Legal(actions) && Follows(PlaceAt(actions), a)
    ensures Legal(actions + [a]) && ViewAt(g, actions + [a]) == ViewAfter(ViewAt(g, actions), a)
  {
    assert (actions + [a])[..|actions + [a]| - 1] == actions;
    OneMore(g, actions, a);
  }

  /** A run that loses its only chunk: the server starts after the last chunk
      and the game stops. */
  lemma ShortUtteranceIsLost(g: Gate, audio: seq<real>, u: string)
    requires |audio| > 0
    ensures var actions := Recording() + [Chunk(audio), Started(u), Halt, SendStop];
      Legal(actions) && ViewAt(g, actions).captured == Pcm(audio) && ViewAt(g, actions).added == [StartEvent, StopEvent]
  {
    RecordingView(g);
    ShortView(ViewAt(g, Recording()), audio, u);
    hide *;
    LegalTail(g, Recording(), audio, u);
  }

  function Recording(): seq<Action> { [Hold, Clear, Capture, SendStart] }

  lemma LegalTail(g: Gate, actions: seq<Action>, audio: seq<real>, u: string)
    requires Legal(actions) && PlaceAt(actions).Between?
    ensures var v, whole := ViewAt(g, actions), actions + [Chunk(audio), Started(u), Halt, SendStop];
      && Legal(whole)
      && ViewAt(g, whole) == ViewAfter(ViewAfter(ViewAfter(ViewAfter(v, Chunk(audio)), Started(u)), Halt), SendStop)
  {
    hide After, Captured, Since, Flushed, Shut, Begun, Legal, Pcm, Step, Emits;
    var a5, a6, a7 := actions + [Chunk(audio)], actions + [Chunk(audio), Started(u)],
      actions + [Chunk(audio), Started(u), Halt];
    assert a5 + [Started(u)] == a6 && a6 + [Halt] == a7;
    assert a7 + [SendStop] == actions + [Chunk(audio), Started(u), Halt, SendStop];
    LegalStep(g, actions, Chunk(audio));
    LegalStep(g, a5, Started(u));
    LegalStep(g, a6, Halt);
    LegalStep(g, a7, SendStop);
  }

  lemma ShortView(v: View, audio: seq<real>, u: string)
    requires |audio| > 0 && v.gate.capturing && v.gate.buffering && v.shut
    requires v.added == [StartEvent] && v.captured == []
    ensures var w := ViewAfter(ViewAfter(ViewAfter(ViewAfter(v, Chunk(audio)), Started(u)), Halt), SendStop);
      w.captured == Pcm(audio) && w.added == [StartEvent, StopEvent]
  {
    hide Pcm, SilenceAfter;
    var v5 := ViewAfter(v, Chunk(audio));
    assert v5.captured == Pcm(audio) && v5.added == [StartEvent];
    var v6 := ViewAfter(v5, Started(u));
    assert v6.captured == Pcm(audio) && v6.added == [StartEvent];
    var v7 := ViewAfter(v6, Halt);
    assert v7.captured == Pcm(audio) && v7.added == [StartEvent];
    var v8 := ViewAfter(v7, SendStop);
    assert v8.captured == Pcm(audio) && v8.added == [StartEvent, StopEvent];
  }

  lemma RecordingView(g: Gate)
    ensures var v := ViewAt(g, Recording());
      && Legal(Recording()) && PlaceAt(Recording()).Between? && v.place == Between
      && v.gate.capturing && v.gate.buffering
      && v.shut && v.added == [StartEvent] && v.captured == []
  {
    assert [] + [Hold] == [Hold] && [Hold] + [Clear] == [Hold, Clear];
    assert [Hold, Clear] + [Capture] == [Hold, Clear, Capture];
    assert [Hold, Clear, Capture] + [SendStart] == [Hold, Clear, Capture, SendStart];
    LegalStep(g, [], Hold);
    LegalStep(g, [Hold], Clear);
    LegalStep(g, [Hold, Clear], Capture);
    LegalStep(g, [Hold, Clear, Capture], SendStart);
  }
}
