/** USpeechly as an object (Source/Speechly/Private/Speechly.cpp and
  Source/Speechly/Public/Speechly.h). Its methods are proved against the
  functions of Responses.dfy, AudioGate.dfy and TextQuery.dfy, and its client is
  the object of SpeechlyClient.dfy, so the laws proved there hold of it from the
  microphone to the stream and from the stream to the listeners. */
module SpeechlyModel {
  import opened Protocol
  import opened Keys
  import opened Responses
  import AudioGate
  import TextQuery
  import Utterances
  import StreamClient
  import opened SpeechlyClientModel
  import opened Broadcasting

  /** One call of a delegate. */
  datatype Said = Heard(key: string, entry: Entry) | Complaint(context: string, error: string)

  function HeardCall(key: string, entry: Entry): Said { Heard(key, entry) }

  function ComplaintCall(context: string, error: string): Said { Complaint(context, error) }

  /** The entries of the keys that are there. */
  function Present<T>(m: map<string, T>, keys: set<string>): map<string, T> {
    map k <- keys | k in m :: m[k]
  }

  ghost predicate Calls<T(!new)>(s: Said, m: map<string, T>, call: (string, T) -> Said) {
    exists k :: k in m && s == call(k, m[k])
  }

  /** says makes, in some order, one call for each binding of m. */
  ghost predicate Lists<T(!new)>(says: seq<Said>, m: map<string, T>, call: (string, T) -> Said) {
    && |says| == |m|
    && (forall k <- m :: call(k, m[k]) in says)
    && (forall i :: 0 <= i < |says| ==> Calls(says[i], m, call))
  }

  lemma CallsMore<T(!new)>(s: Said, m: map<string, T>, call: (string, T) -> Said, k: string, v: T)
    requires k !in m && Calls(s, m, call)
    ensures Calls(s, m[k := v], call)
  {
    var j :| j in m && s == call(j, m[j]);
    var now := m[k := v];
    assert j in now && s == call(j, now[j]);
  }

  lemma ListsMore<T(!new)>(says: seq<Said>, m: map<string, T>, call: (string, T) -> Said, k: string, v: T)
    requires Lists(says, m, call) && k !in m
    ensures Lists(says + [call(k, v)], m[k := v], call)
  {
    var now := m[k := v];
    assert now.Keys == m.Keys + {k};
    assert k in now && call(k, v) == call(k, now[k]);
    assert Calls(call(k, v), now, call);
    hide Calls;
    forall i | 0 <= i < |says|
      ensures Calls(says[i], now, call)
    {
      CallsMore(says[i], m, call, k, v);
    }
  }

  /** What handling a response does to the gate. */
  function Observe(g: AudioGate.Gate, m: Message): AudioGate.Gate {
    if m.payload.Started? then AudioGate.Step(g, AudioGate.Started(m.context))
    else if m.payload.Finished? then AudioGate.Step(g, AudioGate.Finished(m.context))
    else g
  }

  function ObserveAll(g: AudioGate.Gate, ms: seq<Message>): AudioGate.Gate {
    if |ms| == 0 then g else Observe(ObserveAll(g, ms[..|ms| - 1]), ms[|ms| - 1])
  }

  lemma PresentAll<T>(m: map<string, T>)
    ensures Present(m, m.Keys) == m
  {
  }

  lemma NoneListed<T(!new)>(m: map<string, T>, call: (string, T) -> Said)
    ensures Lists([], Present(m, {}), call)
  {
  }

  /** The same as actions of the gate. */
  function GateActions(ms: seq<Message>): seq<AudioGate.Action> {
    if |ms| == 0 then []
    else
      var m := ms[|ms| - 1];
      GateActions(ms[..|ms| - 1]) +
      (if m.payload.Started? then [AudioGate.Started(m.context)]
       else if m.payload.Finished? then [AudioGate.Finished(m.context)]
       else [])
  }

  lemma {:induction false} ObservedIsRun(g: AudioGate.Gate, history: seq<AudioGate.Action>, ms: seq<Message>)
    requires AudioGate.Legal(history) && AudioGate.PlaceAt(history).Between?
    ensures AudioGate.Legal(history + GateActions(ms)) && AudioGate.PlaceAt(history + GateActions(ms)).Between?
    ensures AudioGate.After(g, history + GateActions(ms)) == ObserveAll(AudioGate.After(g, history), ms)
  {
    if |ms| == 0 {
      assert history + GateActions(ms) == history;
    } else {
      var before, m := ms[..|ms| - 1], ms[|ms| - 1];
      var so := history + GateActions(before);
      ObservedIsRun(g, history, before);
      hide AudioGate.After, AudioGate.Legal, AudioGate.PlaceAt, AudioGate.Pcm;
      if m.payload.Started? {
        AudioGate.LegalStep(g, so, AudioGate.Started(m.context));
        assert history + GateActions(ms) == so + [AudioGate.Started(m.context)];
      } else if m.payload.Finished? {
        AudioGate.LegalStep(g, so, AudioGate.Finished(m.context));
        assert history + GateActions(ms) == so + [AudioGate.Finished(m.context)];
      } else {
        assert history + GateActions(ms) == so;
      }
    }
  }

  /** The last call of OnSpeechlyResponse for a key. */
  function LastSaid(says: seq<Said>, k: string): Option<Entry> {
    if |says| == 0 then None
    else if says[|says| - 1].Heard? && says[|says| - 1].key == k then Some(says[|says| - 1].entry)
    else LastSaid(says[..|says| - 1], k)
  }

  predicate Mentions(says: seq<Said>, k: string) {
    exists i :: 0 <= i < |says| && says[i].Heard? && says[i].key == k
  }

  /** Calls that say one and the same thing of k. */
  lemma {:induction false} LastSaidOf(says: seq<Said>, more: seq<Said>, k: string, e: Entry)
    requires forall i :: 0 <= i < |more| && more[i].Heard? && more[i].key == k ==> more[i].entry == e
    ensures LastSaid(says + more, k) == if Mentions(more, k) then Some(e) else LastSaid(says, k)
  {
    if |more| == 0 {
      assert says + more == says;
    } else {
      var before, last := more[..|more| - 1], more[|more| - 1];
      LastSaidOf(says, before, k, e);
      assert (says + more)[..|says + more| - 1] == says + before;
      if Mentions(before, k) {
        var i :| 0 <= i < |before| && before[i].Heard? && before[i].key == k;
        assert more[i].Heard? && more[i].key == k;
      }
      if Mentions(more, k) && !(last.Heard? && last.key == k) {
        var i :| 0 <= i < |more| && more[i].Heard? && more[i].key == k;
        assert before[i].Heard? && before[i].key == k;
      }
    }
  }

  lemma HeardListed(calls: seq<Said>, heard: map<string, Entry>, k: string)
    requires Lists(calls, heard, HeardCall)
    ensures Mentions(calls, k) <==> k in heard
    ensures forall i :: 0 <= i < |calls| && calls[i].Heard? && calls[i].key == k ==>
      k in heard && calls[i].entry == heard[k]
  {
    forall i | 0 <= i < |calls| && calls[i].Heard? && calls[i].key == k
      ensures k in heard && calls[i].entry == heard[k]
    {
      assert Calls(calls[i], heard, HeardCall);
    }
    if k in heard { assert HeardCall(k, heard[k]) in calls; }
  }

  lemma ComplaintsAreNotHeard(complaints: seq<Said>, errors: map<string, string>, k: string)
    requires Lists(complaints, errors, ComplaintCall)
    ensures forall i :: 0 <= i < |complaints| ==> !complaints[i].Heard?
  {
    forall i | 0 <= i < |complaints|
      ensures !complaints[i].Heard?
    {
      assert Calls(complaints[i], errors, ComplaintCall);
    }
  }

  /** A tick's calls say of each key what the tick broadcasts. */
  lemma SaidByTick(says: seq<Said>, calls: seq<Said>, complaints: seq<Said>, b: Batch, k: string)
    requires Lists(calls, Broadcasts(b), HeardCall) && Lists(complaints, b.errors, ComplaintCall)
    ensures LastSaid(says + calls + complaints, k) ==
      if k in Broadcasts(b) then Some(Broadcasts(b)[k]) else LastSaid(says, k)
  {
    HeardListed(calls, Broadcasts(b), k);
    ComplaintsAreNotHeard(complaints, b.errors, k);
    LastSaidOf(says, calls, k, if k in Broadcasts(b) then Broadcasts(b)[k] else BLANK);
    LastSaidOf(says + calls, complaints, k, BLANK);
  }

  /** The errors tick i reports. */
  function ErrorsOf(ticks: seq<seq<Message>>, i: nat): map<string, string>
    requires i < |ticks|
  {
    HandleAll(Begin(Ticks(EMPTY, ticks[..i])), ticks[i]).errors
  }

  predicate Reported(ticks: seq<seq<Message>>, i: nat, context: string, error: string) {
    i < |ticks| && context in ErrorsOf(ticks, i) && ErrorsOf(ticks, i)[context] == error
  }

  /** Every error a tick reports has been called out, and nothing else, except,
      of no context, that the client is disconnected. */
  ghost predicate Complained(says: seq<Said>, ticks: seq<seq<Message>>) {
    && (forall i: nat, c, e :: Reported(ticks, i, c, e) ==> Complaint(c, e) in says)
    && (forall s <- says :: s.Complaint? ==> s.context == "" || exists i: nat :: Reported(ticks, i, s.context, s.error))
  }

  /** The calls made over a run of ticks end, for every key, as the run's last
      broadcast. */
  ghost predicate EntriesAgree(says: seq<Said>, ticks: seq<seq<Message>>) {
    forall k :: LastSaid(says, k) == LastHeard(EMPTY, ticks, k)
  }

  ghost predicate Agree(says: seq<Said>, ticks: seq<seq<Message>>) {
    EntriesAgree(says, ticks) && Complained(says, ticks)
  }

  lemma AgreeOn(says: seq<Said>, ticks: seq<seq<Message>>, k: string)
    requires Agree(says, ticks)
    ensures LastSaid(says, k) == LastHeard(EMPTY, ticks, k)
  {
  }

  lemma NothingYet(g: AudioGate.Gate)
    ensures Ticks(EMPTY, []) == EMPTY && Agree([], [])
    ensures AudioGate.Legal([]) && AudioGate.PlaceAt([]).Between? && AudioGate.After(g, []) == g
  {
  }

  lemma SaidMore(says: seq<Said>, calls: seq<Said>, complaints: seq<Said>, ticks: seq<seq<Message>>, ms: seq<Message>)
    requires Agree(says, ticks)
    requires var b := HandleAll(Begin(Ticks(EMPTY, ticks)), ms);
      Lists(calls, Broadcasts(b), HeardCall) && Lists(complaints, b.errors, ComplaintCall)
    ensures Agree(says + calls + complaints, ticks + [ms])
  {
    EntriesMore(says, calls, complaints, ticks, ms);
    ComplaintsMore(says, calls, complaints, ticks, ms);
  }

  lemma EntriesMore(says: seq<Said>, calls: seq<Said>, complaints: seq<Said>,
                    ticks: seq<seq<Message>>, ms: seq<Message>)
    requires EntriesAgree(says, ticks)
    requires var b := HandleAll(Begin(Ticks(EMPTY, ticks)), ms);
      Lists(calls, Broadcasts(b), HeardCall) && Lists(complaints, b.errors, ComplaintCall)
    ensures EntriesAgree(says + calls + complaints, ticks + [ms])
  {
    assert (ticks + [ms])[..|ticks + [ms]| - 1] == ticks;
    forall k
      ensures LastSaid(says + calls + complaints, k) == LastHeard(EMPTY, ticks + [ms], k)
    {
      SaidByTick(says, calls, complaints, HandleAll(Begin(Ticks(EMPTY, ticks)), ms), k);
    }
  }

  lemma ErrorsOfMore(ticks: seq<seq<Message>>, ms: seq<Message>, i: nat)
    requires i <= |ticks|
    ensures ErrorsOf(ticks + [ms], i) ==
      if i < |ticks| then ErrorsOf(ticks, i) else HandleAll(Begin(Ticks(EMPTY, ticks)), ms).errors
  {
    if i < |ticks| {
      assert (ticks + [ms])[..i] == ticks[..i];
    } else {
      assert (ticks + [ms])[..i] == ticks;
    }
  }

  lemma ReportedMore(ticks: seq<seq<Message>>, ms: seq<Message>, i: nat, c: string, e: string)
    ensures var errors := HandleAll(Begin(Ticks(EMPTY, ticks)), ms).errors;
      Reported(ticks + [ms], i, c, e) <==>
        Reported(ticks, i, c, e) || (i == |ticks| && c in errors && errors[c] == e)
  {
    if i <= |ticks| { ErrorsOfMore(ticks, ms, i); }
    hide ErrorsOf, HandleAll;
  }

  lemma ErrorsListed(complaints: seq<Said>, errors: map<string, string>)
    requires Lists(complaints, errors, ComplaintCall)
    ensures forall c <- errors :: Complaint(c, errors[c]) in complaints
    ensures forall s <- complaints :: s.Complaint? && s.context in errors && errors[s.context] == s.error
  {
    forall c <- errors
      ensures Complaint(c, errors[c]) in complaints
    {
      assert ComplaintCall(c, errors[c]) in complaints;
    }
    forall i | 0 <= i < |complaints|
      ensures var s := complaints[i]; s.Complaint? && s.context in errors && errors[s.context] == s.error
    {
      assert Calls(complaints[i], errors, ComplaintCall);
    }
  }

  lemma OnlyHeard(calls: seq<Said>, heard: map<string, Entry>)
    requires Lists(calls, heard, HeardCall)
    ensures forall s <- calls :: s.Heard?
  {
    forall i | 0 <= i < |calls|
      ensures calls[i].Heard?
    {
      assert Calls(calls[i], heard, HeardCall);
    }
  }

  lemma ComplaintsMore(says: seq<Said>, calls: seq<Said>, complaints: seq<Said>,
                       ticks: seq<seq<Message>>, ms: seq<Message>)
    requires Complained(says, ticks)
    requires var b := HandleAll(Begin(Ticks(EMPTY, ticks)), ms);
      Lists(calls, Broadcasts(b), HeardCall) && Lists(complaints, b.errors, ComplaintCall)
    ensures Complained(says + calls + complaints, ticks + [ms])
  {
    var b, all := HandleAll(Begin(Ticks(EMPTY, ticks)), ms), says + calls + complaints;
    OnlyHeard(calls, Broadcasts(b));
    ErrorsListed(complaints, b.errors);
    hide HandleAll, Lists, Reported, Broadcasts;
    forall i: nat, c, e | Reported(ticks + [ms], i, c, e)
      ensures Complaint(c, e) in all
    {
      ReportedMore(ticks, ms, i, c, e);
    }
    forall s | s in all && s.Complaint? && s.context != ""
      ensures exists i: nat :: Reported(ticks + [ms], i, s.context, s.error)
    {
      if s in says {
        var i: nat :| Reported(ticks, i, s.context, s.error);
        ReportedMore(ticks, ms, i, s.context, s.error);
      } else {
        ReportedMore(ticks, ms, |ticks|, s.context, s.error);
      }
    }
  }

  lemma TicksMore(ix: Index, ticks: seq<seq<Message>>, ms: seq<Message>)
    ensures Ticks(ix, ticks + [ms]) == Tick(Ticks(ix, ticks), ms)
  {
    assert (ticks + [ms])[..|ticks + [ms]| - 1] == ticks;
  }

  lemma ComplaintAgrees(says: seq<Said>, complaint: Said, ticks: seq<seq<Message>>)
    requires complaint.Complaint? && complaint.context == "" && Agree(says, ticks)
    ensures Agree(says + [complaint], ticks)
  {
    forall k
      ensures LastSaid(says + [complaint], k) == LastSaid(says, k)
    {
      LastSaidOf(says, [complaint], k, BLANK);
    }
    hide LastSaid, LastHeard, Reported;
  }

  // ---- What a tick does to the gate ----

  /** The context of the last started response. */
  function LastStartedIn(g: AudioGate.Gate, ms: seq<Message>): string {
    if |ms| == 0 then g.lastContext
    else if ms[|ms| - 1].payload.Started? then ms[|ms| - 1].context
    else LastStartedIn(g, ms[..|ms| - 1])
  }

  predicate HasStarted(ms: seq<Message>) { exists i :: 0 <= i < |ms| && ms[i].payload.Started? }

  /** Message i is the end of the context last started. */
  predicate EndsRecording(g: AudioGate.Gate, ms: seq<Message>, i: nat)
    requires i < |ms|
  {
    ms[i].payload.Finished? && ms[i].context == LastStartedIn(g, ms[..i])
  }

  predicate RecordingEnds(g: AudioGate.Gate, ms: seq<Message>) {
    exists i :: 0 <= i < |ms| && EndsRecording(g, ms, i)
  }

  lemma ObservedLast(g: AudioGate.Gate, ms: seq<Message>)
    requires |ms| > 0
    ensures var before, m := ms[..|ms| - 1], ms[|ms| - 1];
      && (HasStarted(ms) <==> HasStarted(before) || m.payload.Started?)
      && (RecordingEnds(g, ms) <==> RecordingEnds(g, before) || EndsRecording(g, ms, |ms| - 1))
  {
    var before := ms[..|ms| - 1];
    assert forall i :: 0 <= i < |before| ==> before[i] == ms[i];
    if HasStarted(before) {
      var i :| 0 <= i < |before| && before[i].payload.Started?;
      assert ms[i].payload.Started?;
    }
    forall i: nat | i < |before|
      ensures EndsRecording(g, before, i) == EndsRecording(g, ms, i)
    {
      assert before[..i] == ms[..i];
    }
    if RecordingEnds(g, before) {
      var i :| 0 <= i < |before| && EndsRecording(g, before, i);
      assert EndsRecording(g, ms, i);
    }
    if RecordingEnds(g, ms) {
      var i :| 0 <= i < |ms| && EndsRecording(g, ms, i);
      if i < |before| { assert EndsRecording(g, before, i); }
    }
  }

  /** A tick opens the gate exactly if it reads a started response, stops the
      recorder exactly if the context last started finishes in it, and leaves all
      else. */
  lemma {:induction false} TickObserves(g: AudioGate.Gate, ms: seq<Message>)
    ensures ObserveAll(g, ms) == g.(
      buffering := g.buffering && !HasStarted(ms),
      lastContext := LastStartedIn(g, ms),
      capturing := g.capturing && !RecordingEnds(g, ms))
  {
    if |ms| > 0 {
      TickObserves(g, ms[..|ms| - 1]);
      ObservedLast(g, ms);
      hide HasStarted, RecordingEnds;
    }
  }

  // ---- Enough ticks ----

  /** What a tick of a running client takes from the queue. */
  function Taken(queue: seq<Message>): seq<Message> { if |queue| <= 10 then queue else queue[..10] }

  /** What is left after n ticks. */
  function LeftAfter(queue: seq<Message>, n: nat): seq<Message> {
    if n == 0 then queue else LeftAfter(queue[|Taken(queue)|..], n - 1)
  }

  /** One tick for every ten queued responses reads them all. */
  lemma {:induction false} EnoughTicksReadAll(queue: seq<Message>, n: nat)
    ensures LeftAfter(queue, n) == [] <==> |queue| <= 10 * n
  {
    if n > 0 { EnoughTicksReadAll(queue[|Taken(queue)|..], n - 1); }
  }

  lemma HandledOneMore(b: Batch, g: AudioGate.Gate, ms: seq<Message>, m: Message)
    ensures HandleAll(b, ms + [m]) == Handle(HandleAll(b, ms), m)
    ensures ObserveAll(g, ms + [m]) == Observe(ObserveAll(g, ms), m)
  {
    assert (ms + [m])[..|ms + [m]| - 1] == ms;
  }

  lemma PresentMore<T>(m: map<string, T>, keys: set<string>, k: string)
    requires k in m && k !in keys
    ensures Present(m, keys + {k}) == Present(m, keys)[k := m[k]] && k !in Present(m, keys)
  {
  }

  lemma NothingRead(b: Batch, g: AudioGate.Gate)
    ensures HandleAll(b, []) == b && ObserveAll(g, []) == g
  {
  }

  lemma CleanupMore(ix: Index, done: set<string>, c: string)
    ensures Cleanup(Cleanup(ix, done), {c}) == Cleanup(ix, done + {c})
  {
    var one, all := Cleanup(Cleanup(ix, done), {c}), Cleanup(ix, done + {c});
    assert one.contexts == all.contexts;
    assert one.responses == all.responses;
  }

  /** The messages of queued responses. */
  function Contents(rs: seq<StreamClient.Response>): seq<Message> {
    seq(|rs|, i requires 0 <= i < |rs| => rs[i].message)
  }

  lemma ContentsJoin(xs: seq<StreamClient.Response>, ys: seq<StreamClient.Response>)
    ensures Contents(xs + ys) == Contents(xs) + Contents(ys)
  {
  }

  /** What has been read, then what is queued, is what arrived. */
  ghost predicate Balanced(ticks: seq<seq<Message>>, queue: seq<StreamClient.Response>,
                           arrived: seq<StreamClient.Response>)
  {
    Flatten(ticks) + Contents(queue) == Contents(arrived)
  }

  lemma BalancedMore(ticks: seq<seq<Message>>, ms: seq<Message>, before: seq<StreamClient.Response>,
                     now: seq<StreamClient.Response>, arrived: seq<StreamClient.Response>)
    requires Balanced(ticks, before, arrived) && Contents(before) == ms + Contents(now)
    ensures Balanced(ticks + [ms], now, arrived)
  {
    assert (ticks + [ms])[..|ticks + [ms]| - 1] == ticks;
  }

  lemma BothGain(ticks: seq<seq<Message>>, queue: seq<StreamClient.Response>,
                 arrived: seq<StreamClient.Response>, gain: seq<StreamClient.Response>)
    requires Balanced(ticks, queue, arrived)
    ensures Balanced(ticks, queue + gain, arrived + gain)
  {
    ContentsJoin(queue, gain);
    ContentsJoin(arrived, gain);
  }

  /** Of the requests accepted after the first `mark`, those written to the
      stream; the first write is the configuration. */
  function StreamedSince(posts: seq<StreamClient.Post>, mark: nat): seq<Request> {
    var writes := StreamClient.Writes(posts);
    if |writes| <= mark + 1 then [] else writes[mark + 1..]
  }

  /** Of the requests accepted after the first `mark`, those still queued. */
  function QueuedSince(s: StreamClient.State, mark: nat): seq<Request> {
    var taken := |s.w.accepted| - |s.c.requests|;
    if taken >= mark then s.c.requests
    else if mark - taken <= |s.c.requests| then s.c.requests[mark - taken..]
    else []
  }

  lemma StreamedThenQueued(s: StreamClient.State, mark: nat)
    requires StreamClient.RequestsInv(s) && mark <= |s.w.accepted|
    ensures StreamedSince(s.w.posts, mark) + QueuedSince(s, mark) == s.w.accepted[mark..]
  {
    hide StreamClient.Writes;
    var taken := |s.w.accepted| - |s.c.requests|;
    if StreamClient.Writes(s.w.posts) != [] {
      assert s.w.accepted[taken..] == s.c.requests;
    }
  }

  lemma {:induction false} AudioOfJoin(xs: seq<Request>, ys: seq<Request>)
    ensures AudioGate.AudioOf(xs + ys) == AudioGate.AudioOf(xs) + AudioGate.AudioOf(ys)
  {
    if |ys| == 0 {
      assert xs + ys == xs;
    } else {
      AudioOfJoin(xs, ys[..|ys| - 1]);
      assert (xs + ys)[..|xs + ys| - 1] == xs + ys[..|ys| - 1];
    }
  }

  /** With the requests of the gate accepted by the client. */
  lemma AudioOnItsWay(s: StreamClient.State, g: AudioGate.Gate, history: seq<AudioGate.Action>)
    requires StreamClient.RequestsInv(s) && AudioGate.Legal(history) && AudioGate.PlaceAt(history).Between?
    requires AudioGate.Begun(history) && s.w.accepted == AudioGate.After(g, history).requests
    ensures var mark := AudioGate.Mark(g, history);
      var streamed, queued := StreamedSince(s.w.posts, mark), QueuedSince(s, mark);
      && AudioGate.AudioOf(streamed) + AudioGate.AudioOf(queued) + AudioGate.After(g, history).held ==
        AudioGate.Captured(g, history)
      && (AudioGate.Shut(history) ==> AudioGate.NoAudio(streamed) && AudioGate.NoAudio(queued))
  {
    var mark := AudioGate.Mark(g, history);
    AudioGate.NothingLostOrReordered(g, history);
    AudioGate.NoAudioBeforeStarted(g, history);
    AudioGate.MarkInRange(g, history);
    var streamed, queued := StreamedSince(s.w.posts, mark), QueuedSince(s, mark);
    StreamedThenQueued(s, mark);
    assert streamed + queued == AudioGate.Since(g, history);
    hide *;
    AudioOfJoin(streamed, queued);
    NoAudioParts(streamed, queued);
  }

  lemma NoAudioParts(xs: seq<Request>, ys: seq<Request>)
    ensures AudioGate.NoAudio(xs + ys) ==> AudioGate.NoAudio(xs) && AudioGate.NoAudio(ys)
  {
    var all := xs + ys;
    assert forall i :: 0 <= i < |xs| ==> xs[i] == all[i];
    assert forall i :: 0 <= i < |ys| ==> ys[i] == all[|xs| + i];
  }

  lemma CleanupNone(ix: Index)
    ensures Cleanup(ix, {}) == ix
  {
  }

  class USpeechly {
    var client: SpeechlyClient?
    var capturing: bool
    var charAudio: array<Byte>
    var audioBuffer: seq<Byte>
    var isBuffering: bool
    var lastAudioContext: string
    var silenceCount: nat
    var responses: map<string, Entry>
    var contextToKeys: map<string, set<string>>

    /** The calls of OnSpeechlyResponse and OnSpeechlyError. */
    var said: seq<Said>

    /** What has happened since Connect: the gate then, its actions since, the
        messages of each tick, and how much had been said before. */
    ghost var origin: AudioGate.Gate
    ghost var history: seq<AudioGate.Action>
    ghost var ticks: seq<seq<Message>>
    ghost var saidBefore: nat

    /** The gate is where a legal run of the machine of AudioGate.dfy led. */
    ghost predicate Gated()
      reads this, client
    {
      AudioGate.Legal(history) && AudioGate.PlaceAt(history).Between? && Gate() == AudioGate.After(origin, history)
    }

    /** The index is what the ticks since Connect make of it, and the last call
        for each key is the last broadcast of Broadcasts.dfy. */
    ghost predicate Told()
      reads this
    {
      && ResponseIndex() == Ticks(EMPTY, ticks)
      && saidBefore <= |said|
      && Agree(said[saidBefore..], ticks)
    }

    /** What the ticks have read and what is queued is all that has arrived. */
    ghost predicate Conserved()
      reads this, client
    {
      client != null ==> Balanced(ticks, client.responseQueue, client.world.arrived)
    }

    ghost predicate Valid()
      reads this, client
    {
      Told() && Conserved() && (client != null ==> client.Valid())
    }

    /** The last thing said about a key is the fold of its messages. */
    lemma LastSaidIsTheFold(c: string, g: nat)
      requires Told() && AllSound(Flatten(ticks)) && Orderly(Flatten(ticks), c)
      ensures LastSaid(said[saidBefore..], Key(c, g)) ==
        if Touched(Flatten(ticks), c, g) then Some(Expected(Flatten(ticks), c, g)) else None
    {
      LastBroadcastIsTheFold(ticks, c, g);
      AgreeOn(said[saidBefore..], ticks, Key(c, g));
    }

    /** And reads, for every key, as its messages say. */
    lemma LastSaidTells(c: string, g: nat)
      requires Told() && AllSound(Flatten(ticks)) && Orderly(Flatten(ticks), c)
      ensures var last := LastSaid(said[saidBefore..], Key(c, g));
        && (last.Some? <==> Utterances.Mentioned(Flatten(ticks), c, g))
        && (last.Some? ==> Utterances.Tells(last.value, Flatten(ticks), c, g))
    {
      AgreeOn(said[saidBefore..], ticks, Key(c, g));
      Utterances.LastBroadcastTells(ticks, c, g);
    }

    /** For the answer to a written query no error is called out. */
    lemma AnswerCallsOutNoError(a: string, segments: seq<TextQuery.Segment>)
      requires Told() && a != "" && TextQuery.Of(Flatten(ticks), a) == TextQuery.Answer(a, segments)
      ensures forall i :: saidBefore <= i < |said| && said[i].Complaint? ==> said[i].context != a
    {
      var says := said[saidBefore..];
      hide TextQuery.Answer, TextQuery.Of, Flatten, EntriesAgree;
      forall i | saidBefore <= i < |said| && said[i].Complaint? && said[i].context == a
        ensures false
      {
        assert says[i - saidBefore] == said[i];
        var t: nat :| Reported(ticks, t, a, said[i].error);
        TextQuery.AnswerReportsNoError(ticks, a, segments, t);
      }
    }

    /** From the microphone to the stream: the audio written to the stream since
        Start, then the audio in the request queue, then AudioBuffer, are exactly
        what was captured since Start emptied AudioBuffer. Until the server has
        started there is none on the stream or in the queue. */
    lemma AudioIsAllThere()
      requires Valid() && client != null && Gated() && AudioGate.Begun(history)
      ensures var mark := AudioGate.Mark(origin, history);
        var streamed := StreamedSince(client.world.posts, mark);
        var queued := QueuedSince(client.State(), mark);
        && AudioGate.AudioOf(streamed) + AudioGate.AudioOf(queued) + audioBuffer == AudioGate.Captured(origin, history)
        && (AudioGate.Shut(history) ==> AudioGate.NoAudio(streamed) && AudioGate.NoAudio(queued))
    {
      client.Reached();
      hide SpeechlyClient.Valid, AudioGate.After, AudioGate.Legal, AudioGate.PlaceAt, AudioGate.Begun, USpeechly.Told;
      AudioOnItsWay(client.State(), origin, history);
    }

    /** From the stream to the listeners: what the ticks have read, then the
        response queue, are what has arrived; of that, what came from the stream
        is, in order, what successful reads have delivered. */
    lemma ResponsesAreAllThere()
      requires Valid() && client != null
      ensures Flatten(ticks) + Contents(client.responseQueue) == Contents(client.world.arrived)
      ensures StreamClient.FromStream(client.world.arrived) <= client.world.readOk
      ensures !StreamClient.Leaving(client.phase) ==>
        StreamClient.FromStream(client.world.arrived) == client.world.readOk
    {
      StreamClient.MessagesConserved(client.trace);
    }

    /** Whatever the worker thread does between two calls, the object keeps its
        place: writes and reads only move messages along. */
    twostate lemma WorkerDisturbsNothing(o: StreamClient.Outcome)
      requires old(Valid()) && unchanged(this) && client != null && client.Valid()
      requires StreamClient.CanFollow(old(client.State()), StreamClient.Worker(o))
      requires client.State() == StreamClient.Next(old(client.State()), StreamClient.Worker(o))
      ensures Valid()
      ensures old(Gated()) ==> Gated()
    {
      StreamClient.RunKeepsInv(old(client.trace));
      var gain := StreamClient.WorkerOnlyAdds(old(client.State()), o);
      hide Agree, Ticks, AudioGate.After, StreamClient.WorkerStep, StreamClient.After, StreamClient.Legal, Balanced;
      BothGain(ticks, old(client.responseQueue), old(client.world.arrived), gain);
      assert client.world.accepted == old(client.world.accepted);
    }

    function ResponseIndex(): Index
      reads this
    {
      Index(responses, contextToKeys)
    }

    function Gate(): AudioGate.Gate
      reads this, client
    {
      AudioGate.Gate(isBuffering, audioBuffer, capturing, lastAudioContext, silenceCount,
                     if client == null then [] else client.world.accepted)
    }

    constructor ()
      ensures client == null && !capturing && ResponseIndex() == EMPTY && said == []
      ensures fresh(charAudio) && Valid()
    {
      client, capturing, audioBuffer, isBuffering := null, false, [], false;
      lastAudioContext, silenceCount, responses, contextToKeys, said := "", 0, map[], map[], [];
      charAudio := new Byte[0];
      history, ticks, saidBefore := [], [], 0;
    }

    /** The connection, if there is one. */
    function Live(): set<SpeechlyClient>
      reads this
    {
      if client == null then {} else {client}
    }

    /** What a tick will read. */
    function Upcoming(): seq<Message>
      requires client != null
      reads this, client
    {
      if client.hasError || !client.isRunning then [] else Taken(Contents(client.responseQueue))
    }

    predicate IsConnected()
      reads this, client
    {
      client != null && !client.hasError
    }

    method Connect()
      modifies this
      ensures client != null && fresh(client) && IsConnected() && client.isRunning
      ensures Gate() == old(Gate()).(capturing := false, silence := 0, requests := [])
      ensures ResponseIndex() == EMPTY && client.responseQueue == []
      ensures said == old(said) && charAudio == old(charAudio)
      ensures Valid() && Gated() && ticks == [] && history == [] && saidBefore == |said|
    {
      hide Agree, Ticks, AudioGate.After, AudioGate.Legal, AudioGate.PlaceAt;
      capturing := false;
      silenceCount, responses, contextToKeys := 0, map[], map[];
      client := new SpeechlyClient();
      BeginHistory();
    }

    ghost method BeginHistory()
      requires ResponseIndex() == EMPTY
      modifies this`origin, this`history, this`ticks, this`saidBefore
      ensures Told() && Gated() && ticks == [] && history == [] && saidBefore == |said|
    {
      hide Agree, Ticks, AudioGate.After, AudioGate.Legal, AudioGate.PlaceAt;
      NothingYet(Gate());
      assert said[|said|..] == [];
      origin, history, ticks, saidBefore := Gate(), [], [], |said|;
    }

    /** Start runs the four steps of the gate; when the START request is
        refused it stops the recorder again and drops the client. */
    method Start() returns (ok: bool)
      requires Valid()
      modifies this`client, this`capturing, this`audioBuffer, this`isBuffering, this`history
      modifies Live()`requestQueue, Live()`world, Live()`trace
      ensures ok == old(IsConnected() && client.isRunning)
      ensures !old(IsConnected()) ==> Gate() == old(Gate()) && client == old(client)
      ensures ok ==> client == old(client) && Gate() == AudioGate.After(old(Gate()), AudioGate.Recording())
      ensures old(IsConnected()) && !ok ==>
        client == null && !capturing && isBuffering && audioBuffer == [] &&
        old(client).world == old(client.world)
      ensures history == old(history) + if ok then AudioGate.Recording() else []
      ensures Valid()
      ensures ok && old(Gated()) ==> Gated()
    {
      hide Agree, Ticks, SpeechlyClient.Valid, SpeechlyClient.State, Balanced, AudioGate.Pcm, AudioGate.SilenceAfter;
      hide AudioGate.After, AudioGate.Legal, AudioGate.PlaceAt, StreamClient.After, StreamClient.Legal;
      ghost var g := Gate();
      if IsConnected() {
        isBuffering := true;
        audioBuffer := [];
        capturing := true;
        var success := client.Write(StartEvent);
        if !success {
          client := null;
          capturing := false;
        } else {
          RecordingSteps(g);
          if AudioGate.Legal(history) && AudioGate.PlaceAt(history).Between? { RecordingJoins(origin, history); }
          history := history + AudioGate.Recording();
        }
        return success;
      }
      return false;
    }

    method Stop() returns (ok: bool)
      requires Valid()
      modifies this`client, this`capturing, this`history
      modifies Live()`requestQueue, Live()`world, Live()`trace
      ensures ok == old(IsConnected() && client.isRunning)
      ensures ok ==> client == old(client)
      ensures ok ==> Gate() == AudioGate.Step(AudioGate.Step(old(Gate()), AudioGate.Halt), AudioGate.SendStop)
      ensures !ok ==> !capturing && client == (if old(IsConnected()) then null else old(client))
      ensures !ok && old(client) != null ==> old(client).world == old(client.world)
      ensures history == old(history) + if ok then [AudioGate.Halt, AudioGate.SendStop] else []
      ensures Valid()
      ensures ok && old(Gated()) ==> Gated()
    {
      hide Agree, Ticks, SpeechlyClient.Valid, SpeechlyClient.State, Balanced, AudioGate.Pcm, AudioGate.SilenceAfter;
      hide AudioGate.After, AudioGate.Legal, AudioGate.PlaceAt, StreamClient.After, StreamClient.Legal;
      capturing := false;
      if IsConnected() {
        ok := client.Write(StopEvent);
        if !ok {
          client := null;
        } else {
          if AudioGate.Legal(history) && AudioGate.PlaceAt(history).Between? { StoppingJoins(origin, history); }
          history := history + [AudioGate.Halt, AudioGate.SendStop];
        }
        return ok;
      }
      return false;
    }

    method SendText(context: string, answer: Option<seq<TextQuery.Segment>>)
      requires Valid()
      modifies Live()`responseQueue, Live()`world, Live()`trace
      ensures IsConnected() && answer.Some? ==>
        Contents(client.responseQueue) == Contents(old(client.responseQueue)) + TextQuery.Answer(context, answer.value)
      ensures client != null && !(IsConnected() && answer.Some?) ==> client.responseQueue == old(client.responseQueue)
      ensures Valid()
      ensures old(Gated()) ==> Gated()
    {
      hide USpeechly.Told, SpeechlyClient.Valid, AudioGate.After, AudioGate.Legal, AudioGate.PlaceAt, Balanced;
      if IsConnected() && answer.Some? {
        var queued := TextQuery.WLUSync(context, answer.value);
        ghost var before, arrived := client.responseQueue, client.world.arrived;
        ghost var gain := PushAll(queued);
        BothGain(ticks, before, arrived, gain);
        ContentsJoin(before, gain);
      }
    }

    method PushAll(ms: seq<Message>) returns (ghost gain: seq<StreamClient.Response>)
      requires client != null && client.Valid()
      modifies client`responseQueue, client`world, client`trace
      ensures client.Valid() && Contents(gain) == ms
      ensures client.responseQueue == old(client.responseQueue) + gain
      ensures client.world == old(client.world).(arrived := old(client.world.arrived) + gain)
    {
      hide SpeechlyClient.Valid;
      gain := [];
      ghost var was := client.world;
      for i := 0 to |ms|
        invariant client.Valid() && Contents(gain) == ms[..i]
        invariant client.responseQueue == old(client.responseQueue) + gain
        invariant client.world == was.(arrived := was.arrived + gain)
      {
        var r := StreamClient.Response(ms[i], false);
        client.Push(r);
        gain := gain + [r];
      }
    }

    // ---- Tick ----

    method KeyOfMessage(m: Message) returns (key: string)
      modifies this`contextToKeys
      ensures key == Key(m.context, m.segment)
      ensures contextToKeys == old(contextToKeys)[m.context := old(ResponseIndex()).KeysOf(m.context) + {key}]
    {
      key := Key(m.context, m.segment);
      var keys := if m.context in contextToKeys then contextToKeys[m.context] else {};
      contextToKeys := contextToKeys[m.context := keys + {key}];
    }

    /** Marks every response of a finished context final. */
    method MarkAll(keys: set<string>, changed: set<string>) returns (changed': set<string>)
      modifies this`responses
      ensures responses == MarkFinal(old(responses), keys)
      ensures changed' == changed + set k <- keys | k in old(responses) && !old(responses)[k].final
    {
      var todo, rs := keys, responses;
      ghost var was := responses;
      changed' := changed;
      while todo != {}
        invariant todo <= keys
        invariant rs == MarkFinal(was, keys - todo)
        invariant changed' == changed + set k <- keys - todo | k in was && !was[k].final
      {
        var key :| key in todo;
        todo := todo - {key};
        if key in rs && !rs[key].final {
          changed' := changed' + {key};
          rs := rs[key := rs[key].(final := true)];
        }
      }
      assert keys - todo == keys;
      responses := rs;
    }

    /** One turn of the reading loop. */
    method HandleResponse(m: Message, changed: set<string>, finished: set<string>, errors: map<string, string>)
      returns (changed': set<string>, finished': set<string>, errors': map<string, string>)
      modifies this`isBuffering, this`lastAudioContext, this`capturing, this`responses, this`contextToKeys
      ensures Batch(ResponseIndex(), changed', finished', errors') ==
        Handle(Batch(old(ResponseIndex()), changed, finished, errors), m)
      ensures Gate() == Observe(old(Gate()), m)
    {
      changed', finished', errors' := changed, finished, errors;
      if m.payload.Started? {
        isBuffering := false;
        lastAudioContext := m.context;
      } else if m.payload.Finished? {
        if m.payload.failed { errors' := errors[m.context := m.payload.error]; }
        if m.context == lastAudioContext { capturing := false; }
        changed' := FinishContext(m.context, changed);
        finished' := finished + {m.context};
      } else if m.Keyed() {
        changed' := FeedResponse(m, changed);
      }
    }

    method FinishContext(c: string, changed: set<string>) returns (changed': set<string>)
      modifies this`responses
      ensures responses == MarkFinal(old(responses), old(ResponseIndex()).KeysOf(c))
      ensures changed' == changed +
        set k <- old(ResponseIndex()).KeysOf(c) | k in old(responses) && !old(responses)[k].final
    {
      var keys := if c in contextToKeys then contextToKeys[c] else {};
      changed' := MarkAll(keys, changed);
    }

    method FeedResponse(m: Message, changed: set<string>) returns (changed': set<string>)
      requires m.Keyed()
      modifies this`responses, this`contextToKeys
      ensures ResponseIndex() == Feed(old(ResponseIndex()), m)
      ensures changed' == changed + {Key(m.context, m.segment)}
    {
      var key := KeyOfMessage(m);
      changed' := changed + {key};
      var out := if key in responses then responses[key] else BLANK;
      match m.payload {
        case Transcript(word) =>
          var spaced := if out.transcript != "" then out.transcript + " " else out.transcript;
          assert out.transcript + "" == out.transcript;
          out := out.(transcript := spaced + word);
        case Entity(name, value) => out := out.(entities := out.entities[name := value]);
        case Intent(intent) => out := out.(intent := intent);
        case SegmentEnd => out := out.(final := true);
      }
      responses := responses[key := out];
    }

    /** Broadcasts every changed response that is still there. */
    method BroadcastChanged(changed: set<string>) returns (calls: seq<Said>)
      modifies this`said
      ensures said == old(said) + calls
      ensures Lists(calls, Present(responses, changed), HeardCall)
    {
      var todo := changed;
      calls := [];
      while todo != {}
        invariant todo <= changed && said == old(said)
        invariant Lists(calls, Present(responses, changed - todo), HeardCall)
      {
        var key :| key in todo;
        assert changed - (todo - {key}) == changed - todo + {key};
        if key in responses {
          PresentMore(responses, changed - todo, key);
          ListsMore(calls, Present(responses, changed - todo), HeardCall, key, responses[key]);
          calls := calls + [Heard(key, responses[key])];
        } else {
          assert Present(responses, changed - todo + {key}) == Present(responses, changed - todo);
        }
        todo := todo - {key};
      }
      assert changed - todo == changed;
      said := said + calls;
    }

    method BroadcastErrors(errors: map<string, string>) returns (calls: seq<Said>)
      modifies this`said
      ensures said == old(said) + calls
      ensures Lists(calls, errors, ComplaintCall)
    {
      var todo := errors.Keys;
      calls := [];
      hide Lists, Present;
      PresentAll(errors);
      NoneListed(errors, ComplaintCall);
      assert errors.Keys - todo == {};
      while todo != {}
        invariant todo <= errors.Keys && said == old(said)
        invariant Lists(calls, Present(errors, errors.Keys - todo), ComplaintCall)
      {
        var context :| context in todo;
        PresentMore(errors, errors.Keys - todo, context);
        ListsMore(calls, Present(errors, errors.Keys - todo), ComplaintCall, context, errors[context]);
        assert errors.Keys - (todo - {context}) == errors.Keys - todo + {context};
        todo := todo - {context};
        calls := calls + [Complaint(context, errors[context])];
      }
      assert errors.Keys - todo == errors.Keys;
      said := said + calls;
    }

    /** Removes a context and all its responses. */
    method Forget(c: string)
      modifies this`responses, this`contextToKeys
      ensures ResponseIndex() == Cleanup(old(ResponseIndex()), {c})
    {
      ghost var was := ResponseIndex();
      if c in contextToKeys {
        var todo, rs := contextToKeys[c], responses;
        while todo != {}
          invariant todo <= was.KeysOf(c)
          invariant rs == was.responses - (was.KeysOf(c) - todo)
        {
          var key :| key in todo;
          todo := todo - {key};
          rs := rs - {key};
        }
        responses := rs;
      }
      contextToKeys := contextToKeys - {c};
      assert responses == Cleanup(was, {c}).responses;
    }

    method ForgetAll(finished: set<string>)
      modifies this`responses, this`contextToKeys
      ensures ResponseIndex() == Cleanup(old(ResponseIndex()), finished)
    {
      var todo := finished;
      CleanupNone(ResponseIndex());
      while todo != {}
        invariant todo <= finished
        invariant ResponseIndex() == Cleanup(old(ResponseIndex()), finished - todo)
      {
        var context :| context in todo;
        CleanupMore(old(ResponseIndex()), finished - todo, context);
        assert finished - todo + {context} == finished - (todo - {context});
        Forget(context);
        todo := todo - {context};
      }
      assert finished - {} == finished;
    }

    /** One turn: a response, if there is one, is taken and handled. */
    method ReadOne(changed: set<string>, finished: set<string>, errors: map<string, string>)
      returns (ok: bool, ghost m: Message, changed': set<string>, finished': set<string>, errors': map<string, string>)
      requires client != null && client.Valid()
      modifies this`isBuffering, this`lastAudioContext, this`capturing, this`responses, this`contextToKeys
      modifies client`responseQueue, client`trace
      ensures client.Valid()
      ensures ok == (!client.hasError && client.isRunning && Contents(old(client.responseQueue)) != [])
      ensures ok ==> Contents(old(client.responseQueue)) == [m] + Contents(client.responseQueue)
      ensures ok ==> Gate() == Observe(old(Gate()), m)
      ensures var b := Batch(old(ResponseIndex()), changed, finished, errors);
        ok ==> Batch(ResponseIndex(), changed', finished', errors') == Handle(b, m)
      ensures !ok ==> client.responseQueue == old(client.responseQueue) && Gate() == old(Gate())
      ensures !ok ==> ResponseIndex() == old(ResponseIndex())
      ensures !ok ==> (changed', finished', errors') == (changed, finished, errors)
    {
      hide Handle, Observe, SpeechlyClient.Valid, SpeechlyClient.State, StreamClient.After, StreamClient.Legal;
      changed', finished', errors' := changed, finished, errors;
      var r;
      ok, r := client.Read();
      m := r.message;
      if ok {
        ContentsJoin([r], client.responseQueue);
        hide Contents;
        changed', finished', errors' := HandleResponse(r.message, changed, finished, errors);
      }
    }

    /** The reading loop: at most ten responses, all handled in order. */
    method ReadResponses()
      returns (ghost ms: seq<Message>, changed: set<string>, finished: set<string>, errors: map<string, string>)
      requires client != null && client.Valid()
      modifies this`isBuffering, this`lastAudioContext, this`capturing, this`responses, this`contextToKeys
      modifies client`responseQueue, client`trace
      ensures client.Valid()
      ensures ms == old(Upcoming()) && Contents(old(client.responseQueue)) == ms + Contents(client.responseQueue)
      ensures Batch(ResponseIndex(), changed, finished, errors) == HandleAll(Begin(old(ResponseIndex())), ms)
      ensures Gate() == ObserveAll(old(Gate()), ms)
    {
      hide HandleAll, ObserveAll, Handle, Observe, SpeechlyClient.Valid, SpeechlyClient.State, Contents;
      hide StreamClient.After, StreamClient.Legal;
      ghost var ix, g, all := ResponseIndex(), Gate(), Contents(client.responseQueue);
      var maxReads := 10;
      changed, finished, errors, ms := {}, {}, map[], [];
      NothingRead(Begin(ix), g);
      while maxReads > 0
        invariant client.Valid()
        invariant 0 <= maxReads <= 10 && |ms| == 10 - maxReads
        invariant all == ms + Contents(client.responseQueue)
        invariant ms != [] ==> !client.hasError && client.isRunning
        invariant Batch(ResponseIndex(), changed, finished, errors) == HandleAll(Begin(ix), ms)
        invariant Gate() == ObserveAll(g, ms)
      {
        maxReads := maxReads - 1;
        ghost var rest := Contents(client.responseQueue);
        var success; ghost var m;
        success, m, changed, finished, errors := ReadOne(changed, finished, errors);
        if !success { break; }
        assert ms + rest == ms + [m] + Contents(client.responseQueue);
        HandledOneMore(Begin(ix), g, ms, m);
        ms := ms + [m];
      }
      assert ms == if client.hasError || !client.isRunning then [] else if |all| <= 10 then all else all[..10];
    }

    /** A tick of a connected client: it reads what is there, at most ten
        responses, broadcasts every change once, cleans up the contexts that
        finished, and reports their errors. */
    method HandleResponses() returns (ghost ms: seq<Message>, ghost calls: seq<Said>, ghost complaints: seq<Said>)
      requires client != null && client.Valid()
      modifies this`isBuffering, this`lastAudioContext, this`capturing, this`responses, this`contextToKeys, this`said
      modifies client`responseQueue, client`trace
      ensures client.Valid()
      ensures ms == old(Upcoming()) && Contents(old(client.responseQueue)) == ms + Contents(client.responseQueue)
      ensures said == old(said) + calls + complaints
      ensures ResponseIndex() == Responses.Tick(old(ResponseIndex()), ms)
      ensures Gate() == ObserveAll(old(Gate()), ms)
      ensures var b := HandleAll(Begin(old(ResponseIndex())), ms);
        Lists(calls, Broadcasts(b), HeardCall) && Lists(complaints, b.errors, ComplaintCall)
    {
      var changed, finished, errors;
      hide HandleAll, ObserveAll, Lists, Cleanup, SpeechlyClient.Valid, SpeechlyClient.State, Contents;
      ms, changed, finished, errors := ReadResponses();
      calls := BroadcastChanged(changed);
      assert Present(responses, changed) == Broadcasts(Batch(ResponseIndex(), changed, finished, errors));
      ForgetAll(finished);
      complaints := BroadcastErrors(errors);
    }

    method Tick() returns (ok: bool, ghost ms: seq<Message>, ghost calls: seq<Said>, ghost complaints: seq<Said>)
      requires client != null && Valid()
      modifies this`isBuffering, this`lastAudioContext, this`capturing, this`responses, this`contextToKeys, this`said
      modifies this`ticks, this`history
      modifies client`responseQueue, client`trace
      ensures ok == IsConnected() && said == old(said) + calls + complaints
      ensures ms == if ok then old(Upcoming()) else []
      ensures var queue := Contents(old(client.responseQueue));
        ok && client.isRunning ==> Contents(client.responseQueue) == LeftAfter(queue, 1)
      ensures Contents(old(client.responseQueue)) == ms + Contents(client.responseQueue)
      ensures !ok ==> calls == [] && complaints == [Complaint("", "Disconnected: " + client.errorMessage)]
      ensures !ok ==> ResponseIndex() == old(ResponseIndex()) && Gate() == old(Gate())
      ensures ok ==> ResponseIndex() == Responses.Tick(old(ResponseIndex()), ms)
      ensures ok ==> Gate() == ObserveAll(old(Gate()), ms)
      ensures var b := HandleAll(Begin(old(ResponseIndex())), ms);
        ok ==> Lists(calls, Broadcasts(b), HeardCall) && Lists(complaints, b.errors, ComplaintCall)
      ensures ticks == old(ticks) + if ok then [ms] else []
      ensures history == old(history) + if ok then GateActions(ms) else []
      ensures Valid()
      ensures old(Gated()) ==> Gated()
    {
      hide HandleAll, ObserveAll, Lists, Agree, Broadcasts, Ticks, Responses.Tick, GateActions, Contents;
      hide AudioGate.After, AudioGate.Legal, AudioGate.PlaceAt, SpeechlyClient.Valid, SpeechlyClient.State, Balanced;
      if !IsConnected() {
        var complaint := Complaint("", "Disconnected: " + client.errorMessage);
        ms, calls, complaints := [], [], [complaint];
        Complain(complaint);
        return false, ms, calls, complaints;
      }
      ghost var gated, index, gate, before := Gated(), ResponseIndex(), Gate(), said;
      ghost var queue, arrived := client.responseQueue, client.world.arrived;
      ms, calls, complaints := HandleResponses();
      BalancedMore(ticks, ms, queue, client.responseQueue, arrived);
      RecordTick(true, gated, index, gate, before, ms, calls, complaints);
      return true, ms, calls, complaints;
    }

    method Complain(complaint: Said)
      requires complaint.Complaint? && complaint.context == ""
      modifies this`said
      ensures said == old(said) + [complaint]
      ensures old(Told()) ==> Told()
    {
      hide Agree, Ticks;
      if Told() {
        ComplaintAgrees(said[saidBefore..], complaint, ticks);
        assert (said + [complaint])[saidBefore..] == said[saidBefore..] + [complaint];
      }
      said := said + [complaint];
    }

    ghost method RecordTick(told: bool, gated: bool, index: Index, gate: AudioGate.Gate, before: seq<Said>,
                            ms: seq<Message>, calls: seq<Said>, complaints: seq<Said>)
      requires told ==> index == Ticks(EMPTY, ticks) && saidBefore <= |before| && Agree(before[saidBefore..], ticks)
      requires gated ==> AudioGate.Legal(history) && AudioGate.PlaceAt(history).Between?
      requires gated ==> gate == AudioGate.After(origin, history)
      requires ResponseIndex() == Responses.Tick(index, ms) && Gate() == ObserveAll(gate, ms)
      requires said == before + calls + complaints
      requires var b := HandleAll(Begin(index), ms);
        Lists(calls, Broadcasts(b), HeardCall) && Lists(complaints, b.errors, ComplaintCall)
      modifies this`ticks, this`history
      ensures ticks == old(ticks) + [ms] && history == old(history) + GateActions(ms)
      ensures told ==> Told()
      ensures gated ==> Gated()
    {
      hide HandleAll, ObserveAll, Lists, Agree, Broadcasts, Ticks, Responses.Tick, GateActions;
      hide AudioGate.After, AudioGate.Legal, AudioGate.PlaceAt;
      if gated { ObservedIsRun(origin, history, ms); }
      if told {
        TicksMore(EMPTY, ticks, ms);
        SaidMore(before[saidBefore..], calls, complaints, ticks, ms);
        assert said[saidBefore..] == before[saidBefore..] + calls + complaints;
      }
      ticks := ticks + [ms];
      history := history + GateActions(ms);
    }

    // ---- OnSpeechAudio ----

    method Convert(audio: seq<real>) returns (hasAudio: bool)
      modifies this`charAudio, charAudio
      ensures 2 * |audio| <= charAudio.Length && charAudio[..2 * |audio|] == AudioGate.Pcm(audio)
      ensures hasAudio == AudioGate.HasAudio(audio)
      ensures charAudio == old(charAudio) || fresh(charAudio)
    {
      if charAudio.Length < 2 * |audio| {
        charAudio := new Byte[2 * |audio|];
      }
      var shorts := charAudio;
      hasAudio := false;
      for i := 0 to |audio|
        invariant charAudio == shorts
        invariant shorts[..2 * i] == AudioGate.Pcm(audio[..i])
        invariant hasAudio == AudioGate.HasAudio(audio[..i])
      {
        if audio[i] != 0.0 { hasAudio := true; }
        AudioGate.SampleInRange(audio[i]);
        var bytes := AudioGate.Encode(AudioGate.Sample(audio[i]));
        shorts[2 * i], shorts[2 * i + 1] := bytes[0], bytes[1];
        AudioGate.PcmOneMore(audio, i);
        assert shorts[..2 * (i + 1)] == shorts[..2 * i] + bytes;
      }
      assert audio[..|audio|] == audio;
    }

    /** A chunk of recorder output. The client's answer to a write is ignored:
        when the client has stopped running the bytes are gone. */
    method OnSpeechAudio(audio: seq<real>)
      requires Valid()
      modifies this`charAudio, charAudio, this`audioBuffer, this`silenceCount, this`history
      modifies Live()`requestQueue, Live()`world, Live()`trace
      ensures charAudio == old(charAudio) || fresh(charAudio)
      ensures !IsConnected() ==> Gate() == old(Gate())
      ensures IsConnected() ==>
        Gate() == AudioGate.ChunkStep(old(Gate()), audio).(requests := client.world.accepted)
      ensures IsConnected() && client.isRunning ==>
        client.world.accepted == AudioGate.ChunkStep(old(Gate()), audio).requests
      ensures client != null && !(IsConnected() && client.isRunning) ==> client.world == old(client.world)
      ensures history == old(history) + [AudioGate.Chunk(audio)]
      ensures Valid()
      ensures IsConnected() && client.isRunning && capturing && old(Gated()) ==> Gated()
    {
      hide Agree, Ticks, SpeechlyClient.Valid, SpeechlyClient.State, Balanced, AudioGate.Pcm, AudioGate.SilenceAfter;
      hide AudioGate.After, AudioGate.Legal, AudioGate.PlaceAt, StreamClient.After, StreamClient.Legal;
      if AudioGate.Legal(history) { AudioGate.LegalStep(origin, history, AudioGate.Chunk(audio)); }
      history := history + [AudioGate.Chunk(audio)];
      if !IsConnected() || |audio| == 0 { return; }
      SendAudio(audio);
    }

    method SendAudio(audio: seq<real>)
      requires client != null && client.Valid() && IsConnected() && |audio| > 0
      modifies this`charAudio, charAudio, this`audioBuffer, this`silenceCount
      modifies Live()`requestQueue, Live()`world, Live()`trace
      ensures charAudio == old(charAudio) || fresh(charAudio)
      ensures Gate() == AudioGate.ChunkStep(old(Gate()), audio).(requests := client.world.accepted)
      ensures client.world.accepted ==
        if client.isRunning then AudioGate.ChunkStep(old(Gate()), audio).requests else old(client.world.accepted)
      ensures client.world == old(client.world).(accepted := client.world.accepted) && client.Valid()
    {
      hide SpeechlyClient.Valid, SpeechlyClient.State, AudioGate.Pcm, AudioGate.HasAudio;
      hide StreamClient.After, StreamClient.Legal;
      var hasAudio := Convert(audio);
      if hasAudio {
        silenceCount := 0;
      } else {
        silenceCount := silenceCount + |audio|;
        if silenceCount > AudioGate.FIVE_SECONDS { silenceCount := 0; }
      }
      var bytes := charAudio[..2 * |audio|];
      assert [] + bytes == bytes;
      if isBuffering {
        audioBuffer := audioBuffer + bytes;
      } else if |audioBuffer| != 0 {
        audioBuffer := audioBuffer + bytes;
        var _ := client.Write(Audio(audioBuffer));
        audioBuffer := [];
      } else {
        var _ := client.Write(Audio(bytes));
      }
    }
  }

  lemma LegalPair(g: AudioGate.Gate, history: seq<AudioGate.Action>, a: AudioGate.Action, b: AudioGate.Action)
    requires AudioGate.Legal(history) && AudioGate.Follows(AudioGate.PlaceAt(history), a)
    requires AudioGate.Follows(AudioGate.PlaceAfter(AudioGate.PlaceAt(history), a), b)
    ensures var now := history + [a, b];
      && AudioGate.Legal(now)
      && AudioGate.PlaceAt(now) == AudioGate.PlaceAfter(AudioGate.PlaceAfter(AudioGate.PlaceAt(history), a), b)
      && AudioGate.After(g, now) == AudioGate.Step(AudioGate.Step(AudioGate.After(g, history), a), b)
  {
    hide AudioGate.After, AudioGate.Legal, AudioGate.PlaceAt, AudioGate.Pcm, AudioGate.Step, AudioGate.Follows;
    AudioGate.LegalStep(g, history, a);
    AudioGate.LegalStep(g, history + [a], b);
    assert history + [a] + [b] == history + [a, b];
  }

  /** A Start, or a Stop, extends a legal run. */
  lemma RecordingJoins(g: AudioGate.Gate, history: seq<AudioGate.Action>)
    requires AudioGate.Legal(history) && AudioGate.PlaceAt(history).Between?
    ensures var now := history + AudioGate.Recording();
      && AudioGate.Legal(now) && AudioGate.PlaceAt(now).Between?
      && AudioGate.After(g, now) == AudioGate.After(AudioGate.After(g, history), AudioGate.Recording())
  {
    hide AudioGate.After, AudioGate.Legal, AudioGate.PlaceAt, AudioGate.Pcm, AudioGate.Step;
    AudioGate.AfterJoin(g, history, AudioGate.Recording());
    LegalPair(g, history, AudioGate.Hold, AudioGate.Clear);
    LegalPair(g, history + [AudioGate.Hold, AudioGate.Clear], AudioGate.Capture, AudioGate.SendStart);
    assert history + [AudioGate.Hold, AudioGate.Clear] + [AudioGate.Capture, AudioGate.SendStart] ==
      history + AudioGate.Recording();
  }

  lemma StoppingJoins(g: AudioGate.Gate, history: seq<AudioGate.Action>)
    requires AudioGate.Legal(history) && AudioGate.PlaceAt(history).Between?
    ensures var now := history + [AudioGate.Halt, AudioGate.SendStop];
      && AudioGate.Legal(now) && AudioGate.PlaceAt(now).Between?
      && AudioGate.After(g, now) ==
        AudioGate.Step(AudioGate.Step(AudioGate.After(g, history), AudioGate.Halt), AudioGate.SendStop)
  {
    LegalPair(g, history, AudioGate.Halt, AudioGate.SendStop);
  }

  /** The four steps of Start in a row. */
  lemma RecordingSteps(g: AudioGate.Gate)
    ensures AudioGate.After(g, AudioGate.Recording()) ==
      g.(buffering := true, held := [], capturing := true, requests := g.requests + [StartEvent])
  {
    var a := AudioGate.Recording();
    var a1, a2, a3 := [AudioGate.Hold], [AudioGate.Hold, AudioGate.Clear],
      [AudioGate.Hold, AudioGate.Clear, AudioGate.Capture];
    assert a[..|a| - 1] == a3 && a3[..|a3| - 1] == a2 && a2[..|a2| - 1] == a1 && a1[..|a1| - 1] == [];
    hide AudioGate.Pcm, AudioGate.SilenceAfter;
    assert AudioGate.After(g, a1) == AudioGate.Step(g, AudioGate.Hold);
    assert AudioGate.After(g, a2) == AudioGate.Step(AudioGate.After(g, a1), AudioGate.Clear);
    assert AudioGate.After(g, a3) == AudioGate.Step(AudioGate.After(g, a2), AudioGate.Capture);
  }
}
