/** SendText: the answer to a written query travels through the response queue
  as a stream of its own (SpeechlyClient::WLUSync in
  Source/Speechly/Private/SpeechlyClient.cpp). */
module TextQuery {
  import opened Keys
  import opened Responses
  import opened Broadcasting

  datatype Slot = Slot(name: string, value: string)

  datatype Segment = Segment(tokens: seq<string>, entities: seq<Slot>, intent: Option<string>)

  // ---- The messages of an answer ----

  function Said(a: string, tokens: seq<string>): seq<Message> {
    seq(|tokens|, i requires 0 <= i < |tokens| => Message(a, 1, Transcript(tokens[i])))
  }

  function Named(a: string, slots: seq<Slot>): seq<Message> {
    seq(|slots|, i requires 0 <= i < |slots| => Message(a, 1, Entity(slots[i].name, slots[i].value)))
  }

  function Meant(a: string, intent: Option<string>): seq<Message> {
    if intent.Some? then [Message(a, 1, Intent(intent.value))] else []
  }

  function SegmentMessages(a: string, s: Segment): seq<Message> {
    Said(a, s.tokens) + Named(a, s.entities) + Meant(a, s.intent)
  }

  function Body(a: string, segments: seq<Segment>): seq<Message> {
    if |segments| == 0 then []
    else Body(a, segments[..|segments| - 1]) + SegmentMessages(a, segments[|segments| - 1])
  }

  function Answer(a: string, segments: seq<Segment>): seq<Message> {
    Body(a, segments) + [Message(a, 1, Finished(false, ""))]
  }

  /** What WLUSync enqueues once the service has answered. */
  method WLUSync(a: string, segments: seq<Segment>) returns (queued: seq<Message>)
    ensures queued == Answer(a, segments)
  {
    queued := [];
    for s := 0 to |segments|
      invariant queued == Body(a, segments[..s])
    {
      queued := EnqueueSegment(a, segments[s], queued);
      assert segments[..s + 1][..s] == segments[..s];
    }
    assert segments[..|segments|] == segments;
    queued := queued + [Message(a, 1, Finished(false, ""))];
  }

  method EnqueueSegment(a: string, segment: Segment, start: seq<Message>) returns (queued: seq<Message>)
    ensures queued == start + SegmentMessages(a, segment)
  {
    queued := start;
    for t := 0 to |segment.tokens|
      invariant queued == start + Said(a, segment.tokens)[..t]
    {
      queued := queued + [Message(a, 1, Transcript(segment.tokens[t]))];
    }
    ghost var said := queued;
    assert said == start + Said(a, segment.tokens);
    for e := 0 to |segment.entities|
      invariant queued == said + Named(a, segment.entities)[..e]
    {
      queued := queued + [Message(a, 1, Entity(segment.entities[e].name, segment.entities[e].value))];
    }
    assert queued == said + Named(a, segment.entities);
    if segment.intent.Some? {
      queued := queued + [Message(a, 1, Intent(segment.intent.value))];
    }
  }

  // ---- What the answer says, read off the segments ----

  function Words(segments: seq<Segment>): seq<string> {
    if |segments| == 0 then [] else Words(segments[..|segments| - 1]) + segments[|segments| - 1].tokens
  }

  function Slots(segments: seq<Segment>): seq<Slot> {
    if |segments| == 0 then [] else Slots(segments[..|segments| - 1]) + segments[|segments| - 1].entities
  }

  /** The intent of the last segment that has one. */
  function LastIntent(segments: seq<Segment>): Option<string> {
    if |segments| == 0 then None
    else if segments[|segments| - 1].intent.Some? then segments[|segments| - 1].intent
    else LastIntent(segments[..|segments| - 1])
  }

  predicate Silent(segments: seq<Segment>) {
    Words(segments) == [] && Slots(segments) == [] && LastIntent(segments).None?
  }

  function Join(words: seq<string>): string {
    if |words| == 0 then ""
    else if |words| == 1 then words[0]
    else Join(words[..|words| - 1]) + " " + words[|words| - 1]
  }

  function NonEmpty(words: seq<string>): seq<string> {
    if |words| == 0 then []
    else if words[|words| - 1] == "" then NonEmpty(words[..|words| - 1])
    else NonEmpty(words[..|words| - 1]) + [words[|words| - 1]]
  }

  /** Words appended the way Tick appends them. */
  function Appended(t: string, words: seq<string>): string {
    if |words| == 0 then t
    else
      var u := Appended(t, words[..|words| - 1]);
      u + (if u != "" then " " else "") + words[|words| - 1]
  }

  function Merged(m: map<string, string>, slots: seq<Slot>): map<string, string> {
    if |slots| == 0 then m
    else Merged(m, slots[..|slots| - 1])[slots[|slots| - 1].name := slots[|slots| - 1].value]
  }

  /** Slot i is the last of its name. */
  predicate LastNamed(slots: seq<Slot>, i: int) {
    0 <= i < |slots| && forall j :: i < j < |slots| ==> slots[j].name != slots[i].name
  }

  predicate IsNamed(slots: seq<Slot>, n: string) { exists i :: 0 <= i < |slots| && slots[i].name == n }

  /** m binds exactly the names of slots, each to its last value. */
  ghost predicate LaterWins(m: map<string, string>, slots: seq<Slot>) {
    && (forall n :: n in m <==> IsNamed(slots, n))
    && (forall i :: LastNamed(slots, i) ==> slots[i].name in m && m[slots[i].name] == slots[i].value)
  }

  lemma NamedStep(slots: seq<Slot>, n: string)
    requires |slots| > 0
    ensures IsNamed(slots, n) <==> IsNamed(slots[..|slots| - 1], n) || slots[|slots| - 1].name == n
  {
    var before := slots[..|slots| - 1];
    if IsNamed(before, n) {
      var i :| 0 <= i < |before| && before[i].name == n;
      assert slots[i].name == n;
    }
    if IsNamed(slots, n) {
      var i :| 0 <= i < |slots| && slots[i].name == n;
      if i < |before| { assert before[i].name == n; }
    }
  }

  lemma LastNamedBefore(slots: seq<Slot>, i: int)
    requires LastNamed(slots, i) && i < |slots| - 1
    ensures LastNamed(slots[..|slots| - 1], i) && slots[i].name != slots[|slots| - 1].name
  {
    assert slots[|slots| - 1].name != slots[i].name;
  }

  lemma {:induction false} MergedLaterWins(slots: seq<Slot>)
    ensures LaterWins(Merged(map[], slots), slots)
  {
    var t := Merged(map[], slots);
    if |slots| > 0 {
      var before, last := slots[..|slots| - 1], slots[|slots| - 1];
      MergedLaterWins(before);
      var m := Merged(map[], before);
      assert t == m[last.name := last.value];
      hide Merged, LastNamed, IsNamed;
      forall n
        ensures n in t <==> IsNamed(slots, n)
      {
        NamedStep(slots, n);
      }
      forall i | LastNamed(slots, i)
        ensures 0 <= i < |slots| && slots[i].name in t && t[slots[i].name] == slots[i].value
      {
        LastNamedIsIndex(slots, i);
        if i < |before| { LastNamedBefore(slots, i); }
      }
    }
  }

  lemma LastNamedIsIndex(slots: seq<Slot>, i: int)
    requires LastNamed(slots, i)
    ensures 0 <= i < |slots|
  {
  }

  // ---- Exactly when the transcript is the plain join ----

  /** An empty word after a word that is not. */
  predicate HasGap(words: seq<string>) {
    exists i, j :: 0 <= i < j < |words| && words[i] != "" && words[j] == ""
  }

  function Gaps(words: seq<string>): nat {
    if |words| == 0 then 0
    else
      var before := words[..|words| - 1];
      Gaps(before) + (if words[|words| - 1] == "" && NonEmpty(before) != [] then 1 else 0)
  }

  lemma {:induction false} NothingButEmpty(words: seq<string>)
    ensures NonEmpty(words) == [] <==> forall i :: 0 <= i < |words| ==> words[i] == ""
  {
    if |words| > 0 {
      NothingButEmpty(words[..|words| - 1]);
      if words[|words| - 1] == "" && NonEmpty(words) == [] {
        assert forall i :: 0 <= i < |words| - 1 ==> words[i] == words[..|words| - 1][i];
      }
    }
  }

  lemma {:induction false} GapsFound(words: seq<string>)
    ensures Gaps(words) > 0 <==> HasGap(words)
  {
    if |words| > 0 {
      var before, last := words[..|words| - 1], words[|words| - 1];
      GapsFound(before);
      NothingButEmpty(before);
      if HasGap(before) {
        var i, j :| 0 <= i < j < |before| && before[i] != "" && before[j] == "";
        assert words[i] != "" && words[j] == "";
      } else if last == "" && NonEmpty(before) != [] {
        var i :| 0 <= i < |before| && before[i] != "";
        assert words[i] != "" && words[|words| - 1] == "";
      }
      if HasGap(words) {
        var i, j :| 0 <= i < j < |words| && words[i] != "" && words[j] == "";
        assert before[i] != "";
        if j < |before| { assert before[j] == "" && HasGap(before); }
      }
    }
  }

  /** Every gap costs one space. */
  lemma {:induction false} AppendedAgainstJoin(words: seq<string>)
    ensures |Appended("", words)| == |Join(NonEmpty(words))| + Gaps(words)
    ensures Gaps(words) == 0 ==> Appended("", words) == Join(NonEmpty(words))
    ensures Appended("", words) == "" <==> NonEmpty(words) == []
  {
    if |words| > 0 {
      var before, last := words[..|words| - 1], words[|words| - 1];
      AppendedAgainstJoin(before);
      if last != "" {
        assert NonEmpty(words)[..|NonEmpty(words)| - 1] == NonEmpty(before);
      }
    }
  }

  /** The transcript is the space-join of the non-empty words if and only if no
      empty word follows a non-empty one; each that does leaves a space. */
  lemma TranscriptIsJoinExactlyWhen(words: seq<string>)
    ensures Appended("", words) == Join(NonEmpty(words)) <==> !HasGap(words)
  {
    GapsFound(words);
    AppendedAgainstJoin(words);
  }

  /** The words from the first that is not empty on. */
  function FromFirstWord(words: seq<string>): seq<string> {
    if |words| > 0 && words[0] == "" then FromFirstWord(words[1..]) else words
  }

  lemma {:induction false} FromFirstWordGrows(words: seq<string>, last: string)
    ensures FromFirstWord(words + [last]) ==
      if FromFirstWord(words) == [] then (if last == "" then [] else [last]) else FromFirstWord(words) + [last]
  {
    if |words| == 0 {
      assert words + [last] == [last] && [last][1..] == [];
      assert FromFirstWord([]) == [];
    } else if words[0] == "" {
      assert (words + [last])[1..] == words[1..] + [last];
      FromFirstWordGrows(words[1..], last);
    }
  }

  /** In every case the transcript is the space-join of the words from the first
      that is not empty on. */
  lemma {:induction false} TranscriptIsJoin(words: seq<string>)
    ensures Appended("", words) == Join(FromFirstWord(words))
    ensures Appended("", words) == "" <==> FromFirstWord(words) == []
  {
    if |words| > 0 {
      var before, last := words[..|words| - 1], words[|words| - 1];
      TranscriptIsJoin(before);
      assert before + [last] == words;
      FromFirstWordGrows(before, last);
      var kept := FromFirstWord(before);
      hide FromFirstWord;
      if kept == [] {
        assert "" + "" + last == last;
      } else {
        assert (kept + [last])[..|kept + [last]| - 1] == kept;
      }
    }
  }

  // ---- The fold of an answer ----

  lemma {:induction false} SaidFold(e: Entry, a: string, tokens: seq<string>)
    ensures Fold(e, Said(a, tokens), a, 1) == e.(transcript := Appended(e.transcript, tokens))
    ensures Touched(Said(a, tokens), a, 1) <==> tokens != []
  {
    if |tokens| > 0 {
      var ms := Said(a, tokens);
      assert ms[..|ms| - 1] == Said(a, tokens[..|tokens| - 1]);
      SaidFold(e, a, tokens[..|tokens| - 1]);
    }
  }

  lemma {:induction false} NamedFold(e: Entry, a: string, slots: seq<Slot>)
    ensures Fold(e, Named(a, slots), a, 1) == e.(entities := Merged(e.entities, slots))
    ensures Touched(Named(a, slots), a, 1) <==> slots != []
  {
    if |slots| > 0 {
      var ms := Named(a, slots);
      assert ms[..|ms| - 1] == Named(a, slots[..|slots| - 1]);
      NamedFold(e, a, slots[..|slots| - 1]);
    }
  }

  lemma MeantFold(e: Entry, a: string, intent: Option<string>)
    ensures Fold(e, Meant(a, intent), a, 1) == if intent.Some? then e.(intent := intent.value) else e
    ensures Touched(Meant(a, intent), a, 1) <==> intent.Some?
  {
    if intent.Some? {
      assert Meant(a, intent)[..0] == [];
      assert Fold(e, [], a, 1) == e;
    }
  }

  lemma {:induction false} AppendedJoin(t: string, xs: seq<string>, ys: seq<string>)
    ensures Appended(t, xs + ys) == Appended(Appended(t, xs), ys)
  {
    if |ys| == 0 {
      assert xs + ys == xs;
    } else {
      AppendedJoin(t, xs, ys[..|ys| - 1]);
      assert (xs + ys)[..|xs + ys| - 1] == xs + ys[..|ys| - 1];
    }
  }

  lemma {:induction false} MergedJoin(m: map<string, string>, xs: seq<Slot>, ys: seq<Slot>)
    ensures Merged(m, xs + ys) == Merged(Merged(m, xs), ys)
  {
    if |ys| == 0 {
      assert xs + ys == xs;
    } else {
      MergedJoin(m, xs, ys[..|ys| - 1]);
      assert (xs + ys)[..|xs + ys| - 1] == xs + ys[..|ys| - 1];
    }
  }

  lemma {:induction false} BodyFold(a: string, segments: seq<Segment>)
    ensures Fold(BLANK, Body(a, segments), a, 1) ==
      Entry(Appended("", Words(segments)), Merged(map[], Slots(segments)),
            if LastIntent(segments).Some? then LastIntent(segments).value else "", false)
    ensures Touched(Body(a, segments), a, 1) <==> !Silent(segments)
  {
    if |segments| > 0 {
      var before, s := segments[..|segments| - 1], segments[|segments| - 1];
      BodyFold(a, before);
      var e0 := Fold(BLANK, Body(a, before), a, 1);
      SegmentFold(e0, a, s);
      FoldJoin(BLANK, Body(a, before), SegmentMessages(a, s), a, 1);
      TouchedJoin(Body(a, before), SegmentMessages(a, s), a, 1);
      AppendedJoin("", Words(before), s.tokens);
      MergedJoin(map[], Slots(before), s.entities);
    }
  }

  lemma SegmentFold(e: Entry, a: string, s: Segment)
    ensures Fold(e, SegmentMessages(a, s), a, 1) ==
      Entry(Appended(e.transcript, s.tokens), Merged(e.entities, s.entities),
            if s.intent.Some? then s.intent.value else e.intent, e.final)
    ensures Touched(SegmentMessages(a, s), a, 1) <==> s.tokens != [] || s.entities != [] || s.intent.Some?
  {
    var e1 := Fold(e, Said(a, s.tokens), a, 1);
    var e2 := Fold(e1, Named(a, s.entities), a, 1);
    SaidFold(e, a, s.tokens);
    NamedFold(e1, a, s.entities);
    MeantFold(e2, a, s.intent);
    FoldJoin(e, Said(a, s.tokens), Named(a, s.entities), a, 1);
    FoldJoin(e, Said(a, s.tokens) + Named(a, s.entities), Meant(a, s.intent), a, 1);
    TouchedJoin(Said(a, s.tokens), Named(a, s.entities), a, 1);
    TouchedJoin(Said(a, s.tokens) + Named(a, s.entities), Meant(a, s.intent), a, 1);
  }

  // ---- The answer among other responses ----

  /** The messages of one context. */
  function Of(ms: seq<Message>, a: string): seq<Message> {
    if |ms| == 0 then []
    else Of(ms[..|ms| - 1], a) + (if ms[|ms| - 1].context == a then [ms[|ms| - 1]] else [])
  }

  lemma {:induction false} OtherContextsDoNotMatter(ms: seq<Message>, a: string, g: int)
    ensures Touched(ms, a, g) == Touched(Of(ms, a), a, g)
    ensures Fold(BLANK, ms, a, g) == Fold(BLANK, Of(ms, a), a, g)
    ensures EndedIn(ms, a) == EndedIn(Of(ms, a), a)
    ensures Orderly(ms, a) == Orderly(Of(ms, a), a)
  {
    if |ms| > 0 {
      var m := ms[|ms| - 1];
      OtherContextsDoNotMatter(ms[..|ms| - 1], a, g);
      EndedInLast(ms, a);
      if m.context == a {
        assert Of(ms, a)[..|Of(ms, a)| - 1] == Of(ms[..|ms| - 1], a);
        EndedInLast(Of(ms, a), a);
      } else {
        assert Of(ms, a) == Of(ms[..|ms| - 1], a);
      }
    }
  }

  lemma {:induction false} OfHasAll(ms: seq<Message>, a: string, i: nat)
    requires i < |ms| && ms[i].context == a
    ensures ms[i] in Of(ms, a)
  {
    if i < |ms| - 1 { OfHasAll(ms[..|ms| - 1], a, i); }
  }

  predicate Plain(m: Message, a: string) {
    m.context == a && m.segment == 1 && (m.payload.Transcript? || m.payload.Entity? || m.payload.Intent?)
  }

  lemma {:induction false} BodyIsPlain(a: string, segments: seq<Segment>)
    ensures forall i :: 0 <= i < |Body(a, segments)| ==> Plain(Body(a, segments)[i], a)
  {
    if |segments| > 0 {
      var s := segments[|segments| - 1];
      BodyIsPlain(a, segments[..|segments| - 1]);
      assert forall i :: 0 <= i < |SegmentMessages(a, s)| ==> Plain(SegmentMessages(a, s)[i], a);
    }
  }

  lemma {:induction false} PlainIsOrderly(ms: seq<Message>, a: string)
    requires forall i :: 0 <= i < |ms| ==> Plain(ms[i], a)
    ensures Orderly(ms, a) && !EndedIn(ms, a)
  {
    if |ms| > 0 {
      PlainIsOrderly(ms[..|ms| - 1], a);
      EndedInLast(ms, a);
    }
  }

  predicate HasFailed(m: Message) { m.payload.Finished? && m.payload.failed }

  lemma AnswerIsOrderly(a: string, segments: seq<Segment>)
    ensures forall i :: 0 <= i < |Answer(a, segments)| ==> !HasFailed(Answer(a, segments)[i])
    ensures Orderly(Answer(a, segments), a) && EndedIn(Answer(a, segments), a)
    ensures forall i :: 0 <= i < |Answer(a, segments)| ==> !Answer(a, segments)[i].payload.SegmentEnd?
  {
    var ms := Answer(a, segments);
    BodyIsPlain(a, segments);
    PlainIsOrderly(Body(a, segments), a);
    assert ms[..|ms| - 1] == Body(a, segments);
    assert ms[|ms| - 1].Ends(a);
  }

  /** What the entry of an answer shows in the end. */
  lemma AnswerExpected(ms: seq<Message>, a: string, segments: seq<Segment>)
    requires Of(ms, a) == Answer(a, segments)
    ensures Orderly(ms, a) && EndedIn(ms, a) && NeverSegmentEnd(ms, a, 1)
    ensures Touched(ms, a, 1) <==> !Silent(segments)
    ensures var intent := if LastIntent(segments).Some? then LastIntent(segments).value else "";
      !Silent(segments) ==>
        Expected(ms, a, 1) == Entry(Appended("", Words(segments)), Merged(map[], Slots(segments)), intent, true)
  {
    OtherContextsDoNotMatter(ms, a, 1);
    AnswerIsOrderly(a, segments);
    OneMore(Body(a, segments), Message(a, 1, Finished(false, "")), a, 1);
    BodyFold(a, segments);
    hide Of, Fold, Touched, EndedIn, Orderly, Body, Silent, LastIntent;
    forall i | 0 <= i < |ms| && Hits(ms[i], a, 1)
      ensures !ms[i].payload.SegmentEnd?
    {
      OfHasAll(ms, a, i);
    }
  }

  /** However the answer is interleaved with responses of other contexts and
      split into ticks, its key is heard final exactly once, and last, with the
      words appended in order, the later-wins merge of the entities and the
      last intent; an answer that says nothing is not heard at all. */
  lemma AnswerIsHeard(ticks: seq<seq<Message>>, a: string, segments: seq<Segment>)
    requires AllSound(Flatten(ticks)) && Of(Flatten(ticks), a) == Answer(a, segments)
    ensures Silent(segments) ==>
      LastHeard(EMPTY, ticks, Key(a, 1)) == None && FinalsHeard(EMPTY, ticks, Key(a, 1)) == 0
    ensures !Silent(segments) ==>
      FinalsHeard(EMPTY, ticks, Key(a, 1)) == 1 &&
      var heard := LastHeard(EMPTY, ticks, Key(a, 1));
      && heard.Some?
      && heard.value.final
      && heard.value.transcript == Appended("", Words(segments))
      && (heard.value.transcript == Join(NonEmpty(Words(segments))) <==> !HasGap(Words(segments)))
      && LaterWins(heard.value.entities, Slots(segments))
      && heard.value.intent == (if LastIntent(segments).Some? then LastIntent(segments).value else "")
  {
    AnswerExpected(Flatten(ticks), a, segments);
    FinalIsHeardOnce(ticks, a, 1);
    LastBroadcastIsTheFold(ticks, a, 1);
    TranscriptIsJoinExactlyWhen(Words(segments));
    MergedLaterWins(Slots(segments));
  }

  lemma {:induction false} InFlatten(ticks: seq<seq<Message>>, i: nat, j: nat)
    requires i < |ticks| && j < |ticks[i]|
    ensures ticks[i][j] in Flatten(ticks)
  {
    if i < |ticks| - 1 { InFlatten(ticks[..|ticks| - 1], i, j); }
  }

  /** And no tick reports an error of its context. */
  lemma AnswerReportsNoError(ticks: seq<seq<Message>>, a: string, segments: seq<Segment>, i: nat)
    requires Of(Flatten(ticks), a) == Answer(a, segments) && i < |ticks|
    ensures a !in HandleAll(Begin(Ticks(EMPTY, ticks[..i])), ticks[i]).errors
  {
    var ix := Ticks(EMPTY, ticks[..i]);
    ErrorsReported(ix, ticks[i], a);
    AnswerIsOrderly(a, segments);
    hide Answer, HandleAll, Ticks;
    forall j | 0 <= j < |ticks[i]| && ticks[i][j].context == a
      ensures !HasFailed(ticks[i][j])
    {
      InFlatten(ticks, i, j);
      var k :| 0 <= k < |Flatten(ticks)| && Flatten(ticks)[k] == ticks[i][j];
      OfHasAll(Flatten(ticks), a, k);
    }
  }

  /** The words "a" and "" are heard as "a ", and joined they are "a". */
  lemma ExtraSpaceIsHeard(ticks: seq<seq<Message>>, a: string)
    requires AllSound(Flatten(ticks)) && Of(Flatten(ticks), a) == Answer(a, [Segment(["a", ""], [], None)])
    ensures LastHeard(EMPTY, ticks, Key(a, 1)).Some?
    ensures LastHeard(EMPTY, ticks, Key(a, 1)).value.transcript == "a "
    ensures Join(NonEmpty(["a", ""])) == "a"
  {
    ExtraSpace();
    OneSegment(["a", ""]);
    hide Appended, Join, NonEmpty, Words, Answer, Of, LastHeard, FinalsHeard, LaterWins, HasGap, Silent, Flatten;
    AnswerIsHeard(ticks, a, [Segment(["a", ""], [], None)]);
  }

  lemma ExtraSpace()
    ensures Appended("", ["a", ""]) == "a " && Join(NonEmpty(["a", ""])) == "a"
  {
    assert ["a", ""][..1] == ["a"] && ["a"][..0] == [];
    assert Appended("", ["a"]) == "a";
    assert NonEmpty(["a"]) == ["a"];
  }

  lemma OneSegment(words: seq<string>)
    requires words != []
    ensures Words([Segment(words, [], None)]) == words && !Silent([Segment(words, [], None)])
  {
    assert [Segment(words, [], None)][..0] == [];
  }
}
