/** The response index of USpeechly::Tick (Source/Speechly/Private/Speechly.cpp):
  entries by key, keys by audio context, and a clean-up that waits until the end
  of the tick. */
module Responses {
  import opened Keys

  datatype Payload =
    | Started
    | Finished(failed: bool, error: string)
    | Transcript(word: string)
    | Entity(name: string, value: string)
    | Intent(intent: string)
    | SegmentEnd
    | Ignored

  datatype Message = Message(context: string, segment: int, payload: Payload) {
    predicate Keyed() { payload.Transcript? || payload.Entity? || payload.Intent? || payload.SegmentEnd? }

    predicate Ends(c: string) { payload.Finished? && context == c }

    predicate Feeds(c: string) { Keyed() && context == c }

    predicate Sound() { Keyed() ==> segment >= 0 }
  }

  /** FSpeechlyResponse. */
  datatype Entry = Entry(transcript: string, entities: map<string, string>, intent: string, final: bool)

  const BLANK := Entry("", map[], "", false)

  function Apply(e: Entry, p: Payload): Entry {
    match p
    case Transcript(word) => e.(transcript := e.transcript + (if e.transcript != "" then " " else "") + word)
    case Entity(name, value) => e.(entities := e.entities[name := value])
    case Intent(intent) => e.(intent := intent)
    case SegmentEnd => e.(final := true)
    case _ => e
  }

  /** Responses and ContextToKeys. */
  datatype Index = Index(responses: map<string, Entry>, contexts: map<string, set<string>>) {
    function KeysOf(c: string): set<string> { if c in contexts then contexts[c] else {} }

    function EntryAt(k: string): Entry { if k in responses then responses[k] else BLANK }
  }

  const EMPTY := Index(map[], map[])

  /** The index and the local sets of one tick. */
  datatype Batch = Batch(index: Index, changed: set<string>, finished: set<string>, errors: map<string, string>)

  // ---- One tick ----

  function MarkFinal(responses: map<string, Entry>, keys: set<string>): map<string, Entry> {
    map k <- responses :: if k in keys then responses[k].(final := true) else responses[k]
  }

  function Finish(b: Batch, c: string, failed: bool, error: string): Batch {
    var keys, rs := b.index.KeysOf(c), b.index.responses;
    Batch(Index(MarkFinal(rs, keys), b.index.contexts),
          b.changed + (set k <- keys | k in rs && !rs[k].final),
          b.finished + {c},
          if failed then b.errors[c := error] else b.errors)
  }

  function Feed(ix: Index, m: Message): Index {
    var k := Key(m.context, m.segment);
    Index(ix.responses[k := Apply(ix.EntryAt(k), m.payload)],
          ix.contexts[m.context := ix.KeysOf(m.context) + {k}])
  }

  function Handle(b: Batch, m: Message): Batch {
    if m.payload.Finished? then Finish(b, m.context, m.payload.failed, m.payload.error)
    else if m.Keyed() then b.(index := Feed(b.index, m), changed := b.changed + {Key(m.context, m.segment)})
    else b
  }

  function HandleAll(b: Batch, ms: seq<Message>): Batch {
    if |ms| == 0 then b else Handle(HandleAll(b, ms[..|ms| - 1]), ms[|ms| - 1])
  }

  function Begin(ix: Index): Batch { Batch(ix, {}, {}, map[]) }

  function Cleanup(ix: Index, finished: set<string>): Index {
    Index(map k <- ix.responses | forall c <- finished :: k !in ix.KeysOf(c) :: ix.responses[k],
          ix.contexts - finished)
  }

  function Broadcasts(b: Batch): map<string, Entry> {
    map k <- b.changed | k in b.index.responses :: b.index.responses[k]
  }

  function Tick(ix: Index, ms: seq<Message>): Index {
    var b := HandleAll(Begin(ix), ms);
    Cleanup(b.index, b.finished)
  }

  // ---- The two maps agree ----

  ghost predicate IsKeyOf(k: string, c: string) { exists g: nat :: k == Key(c, g) }

  lemma OneContextPerKey(k: string, c: string, d: string)
    requires IsKeyOf(k, c) && IsKeyOf(k, d)
    ensures c == d
  {
    var g: nat, h: nat :| k == Key(c, g) && k == Key(d, h);
    NatKeyInjective(c, g, d, h);
  }

  /** The keys of Responses are the union of the sets in ContextToKeys, and
      every key belongs to the context it is filed under. */
  ghost predicate Consistent(ix: Index) {
    && (forall k :: k in ix.responses <==> exists c :: c in ix.contexts && k in ix.contexts[c])
    && (forall c, k :: c in ix.contexts && k in ix.contexts[c] ==> IsKeyOf(k, c))
  }

  lemma ContextsDisjoint(ix: Index, c: string, d: string)
    requires Consistent(ix) && c != d && c in ix.contexts && d in ix.contexts
    ensures ix.contexts[c] !! ix.contexts[d]
  {
    forall k | k in ix.contexts[c] && k in ix.contexts[d]
      ensures false
    {
      OneContextPerKey(k, c, d);
    }
  }

  lemma FeedKeepsConsistent(ix: Index, m: Message)
    requires Consistent(ix) && m.Keyed() && m.Sound()
    ensures Consistent(Feed(ix, m))
  {
    var t, key := Feed(ix, m), Key(m.context, m.segment);
    var g: nat := m.segment;
    assert IsKeyOf(key, m.context);
    forall k
      ensures k in t.responses <==> exists c :: c in t.contexts && k in t.contexts[c]
    {
      if k in ix.responses && k != key {
        var c :| c in ix.contexts && k in ix.contexts[c];
        assert c in t.contexts && k in t.contexts[c];
      }
      if k == key { assert m.context in t.contexts && k in t.contexts[m.context]; }
    }
  }

  lemma HandleKeepsConsistent(b: Batch, m: Message)
    requires Consistent(b.index) && m.Sound()
    ensures Consistent(Handle(b, m).index)
  {
    if m.Keyed() {
      FeedKeepsConsistent(b.index, m);
    }
  }

  lemma CleanupKeepsConsistent(ix: Index, finished: set<string>)
    requires Consistent(ix)
    ensures Consistent(Cleanup(ix, finished))
    ensures forall c <- finished :: c !in Cleanup(ix, finished).contexts
  {
    var t := Cleanup(ix, finished);
    forall k
      ensures k in t.responses <==> exists c :: c in t.contexts && k in t.contexts[c]
    {
      if k in t.responses {
        var c :| c in ix.contexts && k in ix.contexts[c];
        assert c !in finished;
        assert c in t.contexts && k in t.contexts[c];
      }
      if c :| c in t.contexts && k in t.contexts[c] {
        forall d <- finished
          ensures k !in ix.KeysOf(d)
        {
          if d in ix.contexts { ContextsDisjoint(ix, c, d); }
        }
      }
    }
  }

  predicate AllSound(ms: seq<Message>) { forall i :: 0 <= i < |ms| ==> ms[i].Sound() }

  lemma {:induction false} HandleAllKeepsConsistent(b: Batch, ms: seq<Message>)
    requires Consistent(b.index) && AllSound(ms)
    ensures Consistent(HandleAll(b, ms).index)
  {
    if |ms| > 0 {
      HandleAllKeepsConsistent(b, ms[..|ms| - 1]);
      HandleKeepsConsistent(HandleAll(b, ms[..|ms| - 1]), ms[|ms| - 1]);
    }
  }

  /** After every message and after every tick the two maps agree, and a
      context that finished in the tick has left nothing in either. */
  lemma TickKeepsConsistent(ix: Index, ms: seq<Message>)
    requires Consistent(ix) && AllSound(ms)
    ensures Consistent(HandleAll(Begin(ix), ms).index)
    ensures Consistent(Tick(ix, ms))
    ensures forall c <- HandleAll(Begin(ix), ms).finished :: c !in Tick(ix, ms).contexts
    ensures forall c, k :: c in HandleAll(Begin(ix), ms).finished && IsKeyOf(k, c) ==> k !in Tick(ix, ms).responses
  {
    HandleAllKeepsConsistent(Begin(ix), ms);
    var b, t := HandleAll(Begin(ix), ms), Tick(ix, ms);
    CleanupKeepsConsistent(b.index, b.finished);
    forall c, k | c in b.finished && IsKeyOf(k, c) && k in t.responses
      ensures false
    {
      var d :| d in t.contexts && k in t.contexts[d];
      OneContextPerKey(k, c, d);
    }
  }

  lemma {:induction false} ChangedArePresent(b: Batch, ms: seq<Message>)
    requires b.changed <= b.index.responses.Keys
    ensures HandleAll(b, ms).changed <= HandleAll(b, ms).index.responses.Keys
  {
    if |ms| > 0 { ChangedArePresent(b, ms[..|ms| - 1]); }
  }

  /** Every changed key is still there when the tick broadcasts. */
  lemma NoChangeGoesUnheard(ix: Index, ms: seq<Message>)
    ensures var b := HandleAll(Begin(ix), ms);
      Broadcasts(b).Keys == b.changed
  {
    ChangedArePresent(Begin(ix), ms);
  }

  /** The error of the last failed end of c in ms. */
  predicate LastError(ms: seq<Message>, c: string, i: int) {
    && 0 <= i < |ms| && ms[i].Ends(c) && ms[i].payload.failed
    && forall j :: i < j < |ms| && ms[j].Ends(c) ==> !ms[j].payload.failed
  }

  /** A tick reports an error for exactly the contexts that failed in it, and
      for each the last one. */
  lemma {:induction false} ErrorsReported(ix: Index, ms: seq<Message>, c: string)
    ensures var errors := HandleAll(Begin(ix), ms).errors;
      && (c in errors <==> exists i :: LastError(ms, c, i))
      && (forall i :: LastError(ms, c, i) ==> errors[c] == ms[i].payload.error)
  {
    if |ms| > 0 {
      var before, m := ms[..|ms| - 1], ms[|ms| - 1];
      ErrorsReported(ix, before, c);
      if m.Ends(c) && m.payload.failed {
        assert LastError(ms, c, |ms| - 1);
        assert forall i :: LastError(ms, c, i) ==> i == |ms| - 1 || !ms[|ms| - 1].payload.failed;
      } else {
        forall i
          ensures LastError(ms, c, i) <==> LastError(before, c, i)
        {
          LastErrorBefore(ms, c, i);
        }
      }
    }
  }

  lemma LastErrorBefore(ms: seq<Message>, c: string, i: int)
    requires |ms| > 0 && !(ms[|ms| - 1].Ends(c) && ms[|ms| - 1].payload.failed)
    ensures LastError(ms, c, i) <==> LastError(ms[..|ms| - 1], c, i)
  {
    var before := ms[..|ms| - 1];
    assert forall j :: 0 <= j < |before| ==> before[j] == ms[j];
    if LastError(before, c, i) {
      forall j | i < j < |ms| && ms[j].Ends(c)
        ensures !ms[j].payload.failed
      {
        if j < |before| { assert before[j].Ends(c); }
      }
    }
    if LastError(ms, c, i) {
      forall j | i < j < |before| && before[j].Ends(c)
        ensures !before[j].payload.failed
      {
        assert ms[j].Ends(c);
      }
    }
  }

  // ---- Batches against one message at a time ----

  function OneByOne(ix: Index, ms: seq<Message>): Index {
    if |ms| == 0 then ix else Tick(OneByOne(ix, ms[..|ms| - 1]), [ms[|ms| - 1]])
  }

  predicate EndedIn(ms: seq<Message>, c: string) { exists i :: 0 <= i < |ms| && ms[i].Ends(c) }

  /** A keyed message of c follows the last finished message of c in ms. */
  predicate Revived(ms: seq<Message>, c: string) {
    |ms| > 0 &&
      var before, last := ms[..|ms| - 1], ms[|ms| - 1];
      if last.Ends(c) then false
      else if last.Feeds(c) then EndedIn(before, c)
      else Revived(before, c)
  }

  ghost predicate NoneRevived(ms: seq<Message>) { forall c :: !Revived(ms, c) }

  /** A tick of one message. */
  lemma OneStep(ix: Index, m: Message)
    requires Consistent(ix)
    ensures Tick(ix, [m]) ==
      if m.payload.Finished? then Cleanup(ix, {m.context})
      else if m.Keyed() then Feed(ix, m)
      else ix
  {
    var b := Begin(ix);
    assert [m][..0] == [];
    assert HandleAll(b, [m]) == Handle(HandleAll(b, []), m) == Handle(b, m);
    var h := Handle(b, m);
    if m.payload.Finished? {
      assert h.finished == {m.context};
    } else {
      assert Cleanup(h.index, {}) == h.index;
    }
  }

  predicate SameAt(d: Index, i: Index, c: string) {
    && (c in d.contexts <==> c in i.contexts)
    && (c in d.contexts ==>
          && d.contexts[c] == i.contexts[c]
          && forall k <- d.contexts[c] :: k in d.responses && k in i.responses && d.responses[k] == i.responses[k])
  }

  /** `d` has put off the clean-up of the contexts ended in ms, `i` has not. */
  ghost predicate Related(d: Index, i: Index, ms: seq<Message>) {
    && Consistent(d) && Consistent(i)
    && (forall c :: !EndedIn(ms, c) ==> SameAt(d, i, c))
    && (forall c :: EndedIn(ms, c) ==> (c in i.contexts <==> Revived(ms, c)))
  }

  lemma EndedInLast(ms: seq<Message>, c: string)
    requires |ms| > 0
    ensures EndedIn(ms, c) <==> EndedIn(ms[..|ms| - 1], c) || ms[|ms| - 1].Ends(c)
  {
    var before := ms[..|ms| - 1];
    if i :| 0 <= i < |ms| && ms[i].Ends(c) {
      if i < |before| { assert before[i].Ends(c); }
    }
    if i :| 0 <= i < |before| && before[i].Ends(c) {
      assert ms[i].Ends(c);
    }
  }

  lemma FinishElsewhere(b: Batch, i: Index, m: Message, c: string)
    requires Consistent(b.index) && Consistent(i) && SameAt(b.index, i, c)
    requires m.payload.Finished? && m.context != c
    ensures SameAt(Handle(b, m).index, Cleanup(i, {m.context}), c)
  {
    var d := b.index;
    if c in d.contexts {
      forall k <- d.contexts[c]
        ensures k !in d.KeysOf(m.context) && k !in i.KeysOf(m.context)
      {
        if m.context in d.contexts { ContextsDisjoint(d, c, m.context); }
        if m.context in i.contexts { ContextsDisjoint(i, c, m.context); }
      }
    }
  }

  lemma FeedSame(d: Index, i: Index, m: Message, c: string)
    requires Consistent(d) && Consistent(i) && SameAt(d, i, c) && m.Keyed() && m.Sound()
    ensures SameAt(Feed(d, m), Feed(i, m), c)
  {
    var key := Key(m.context, m.segment);
    var g: nat := m.segment;
    assert IsKeyOf(key, m.context);
    if c == m.context {
      assert key in d.responses <==> key in d.KeysOf(c) by { HeldByItsContext(d, key, c); }
      assert key in i.responses <==> key in i.KeysOf(c) by { HeldByItsContext(i, key, c); }
    } else if c in d.contexts {
      if key in d.contexts[c] { OneContextPerKey(key, c, m.context); }
    }
  }

  lemma HeldByItsContext(ix: Index, k: string, c: string)
    requires Consistent(ix) && IsKeyOf(k, c)
    ensures k in ix.responses <==> k in ix.KeysOf(c)
  {
    if k in ix.responses {
      var d :| d in ix.contexts && k in ix.contexts[d];
      OneContextPerKey(k, c, d);
    }
  }

  lemma RelatedStep(b: Batch, i: Index, ms: seq<Message>)
    requires |ms| > 0 && Related(b.index, i, ms[..|ms| - 1]) && ms[|ms| - 1].Sound()
    ensures Related(Handle(b, ms[|ms| - 1]).index, Tick(i, [ms[|ms| - 1]]), ms)
  {
    var before, m := ms[..|ms| - 1], ms[|ms| - 1];
    var d, e := Handle(b, m).index, Tick(i, [m]);
    OneStep(i, m);
    HandleKeepsConsistent(b, m);
    if m.payload.Finished? { CleanupKeepsConsistent(i, {m.context}); }
    else if m.Keyed() { FeedKeepsConsistent(i, m); }
    forall c
      ensures !EndedIn(ms, c) ==> SameAt(d, e, c)
      ensures EndedIn(ms, c) ==> (c in e.contexts <==> Revived(ms, c))
    {
      EndedInLast(ms, c);
      if !EndedIn(ms, c) {
        if m.payload.Finished? { FinishElsewhere(b, i, m, c); }
        else if m.Keyed() { FeedSame(b.index, i, m, c); }
      }
    }
  }

  lemma {:induction false} BatchRelated(ix: Index, ms: seq<Message>)
    requires Consistent(ix) && AllSound(ms)
    ensures Related(HandleAll(Begin(ix), ms).index, OneByOne(ix, ms), ms)
    ensures forall c :: c in HandleAll(Begin(ix), ms).finished <==> EndedIn(ms, c)
  {
    if |ms| > 0 {
      var before := ms[..|ms| - 1];
      BatchRelated(ix, before);
      RelatedStep(HandleAll(Begin(ix), before), OneByOne(ix, before), ms);
      forall c
        ensures c in HandleAll(Begin(ix), ms).finished <==> EndedIn(ms, c)
      {
        EndedInLast(ms, c);
      }
    }
  }

  /** A tick leaves exactly what handling its messages one at a time, with the
      clean-up at once, would leave, if and only if no context gets a keyed
      message after its last finished message within the tick. */
  lemma TickIsFoldExactlyWhen(ix: Index, ms: seq<Message>)
    requires Consistent(ix) && AllSound(ms)
    ensures Tick(ix, ms) == OneByOne(ix, ms) <==> NoneRevived(ms)
  {
    BatchRelated(ix, ms);
    var b, i := HandleAll(Begin(ix), ms), OneByOne(ix, ms);
    if !NoneRevived(ms) {
      var c :| Revived(ms, c);
      RevivedEnded(ms, c);
      assert c in i.contexts && c !in Cleanup(b.index, b.finished).contexts;
      assert Tick(ix, ms) != i;
    } else {
      CleanedEqual(b.index, i, ms, b.finished);
      assert Tick(ix, ms) == i;
    }
  }

  lemma {:induction false} RevivedEnded(ms: seq<Message>, c: string)
    requires Revived(ms, c)
    ensures EndedIn(ms, c)
  {
    EndedInLast(ms, c);
    if !ms[|ms| - 1].Ends(c) && !ms[|ms| - 1].Feeds(c) {
      RevivedEnded(ms[..|ms| - 1], c);
    }
  }

  /** Such a tick: a context finishes and then gets one more word. The tick
      forgets the word, one message at a time it would stay. */
  lemma RevivedContextIsForgotten(c: string, g: nat, word: string)
    ensures var ms := [Message(c, g, Finished(false, "")), Message(c, g, Transcript(word))];
      && Revived(ms, c)
      && Tick(EMPTY, ms) == EMPTY
      && OneByOne(EMPTY, ms).responses == map[Key(c, g) := Entry(word, map[], "", false)]
  {
    var end, last := Message(c, g, Finished(false, "")), Message(c, g, Transcript(word));
    var ms := [end, last];
    assert ms[..1] == [end] && [end][..0] == [];
    assert [end][0].Ends(c);
    OneStep(EMPTY, end);
    assert Cleanup(EMPTY, {c}) == EMPTY;
    assert OneByOne(EMPTY, [end]) == EMPTY;
    OneStep(EMPTY, last);
    assert "" + "" + word == word;
    assert HandleAll(Begin(EMPTY), [end]) == Handle(HandleAll(Begin(EMPTY), []), end);
    assert c in HandleAll(Begin(EMPTY), [end]).finished;
    TickForgets(ms, c, g);
  }

  lemma TickForgets(ms: seq<Message>, c: string, g: nat)
    requires |ms| == 2 && ms[1].Keyed() && ms[0].Ends(c) && ms[1].Feeds(c) && ms[1].segment == g
    ensures Tick(EMPTY, ms) == EMPTY
  {
    var first := ms[..1];
    assert first[..0] == [] && first[0] == ms[0];
    var b := HandleAll(Begin(EMPTY), first);
    assert b == Handle(HandleAll(Begin(EMPTY), first[..0]), ms[0]) == Handle(Begin(EMPTY), ms[0]);
    assert b.index.responses == map[] && b.index.contexts == map[] && b.finished == {c};
    assert HandleAll(Begin(EMPTY), ms) == Handle(b, ms[1]);
    var t := Tick(EMPTY, ms);
    assert t.contexts == map[] && t.responses == map[];
  }

  lemma CleanedEqual(d: Index, i: Index, ms: seq<Message>, finished: set<string>)
    requires Related(d, i, ms) && (forall c :: c in finished <==> EndedIn(ms, c)) && NoneRevived(ms)
    ensures Cleanup(d, finished) == i
  {
    var t := Cleanup(d, finished);
    CleanupKeepsConsistent(d, finished);
    forall c
      ensures c in t.contexts <==> c in i.contexts
      ensures c in t.contexts ==> t.contexts[c] == i.contexts[c]
    {
      assert EndedIn(ms, c) || SameAt(d, i, c);
    }
    assert t.contexts == i.contexts;
    forall k
      ensures k in t.responses <==> k in i.responses
      ensures k in t.responses ==> t.responses[k] == i.responses[k]
    {
      if k in t.responses {
        var c :| c in t.contexts && k in t.contexts[c];
        assert SameAt(d, i, c);
      }
      if k in i.responses {
        var c :| c in i.contexts && k in i.contexts[c];
        assert c in t.contexts && k in t.contexts[c];
      }
    }
    assert t.responses == i.responses;
  }

  // ---- Any splitting into ticks ----

  function Flatten(ticks: seq<seq<Message>>): seq<Message> {
    if |ticks| == 0 then [] else Flatten(ticks[..|ticks| - 1]) + ticks[|ticks| - 1]
  }

  function Ticks(ix: Index, ticks: seq<seq<Message>>): Index {
    if |ticks| == 0 then ix else Tick(Ticks(ix, ticks[..|ticks| - 1]), ticks[|ticks| - 1])
  }

  lemma {:induction false} OneByOneJoins(ix: Index, xs: seq<Message>, ys: seq<Message>)
    ensures OneByOne(ix, xs + ys) == OneByOne(OneByOne(ix, xs), ys)
  {
    if |ys| == 0 {
      assert xs + ys == xs;
    } else {
      OneByOneJoins(ix, xs, ys[..|ys| - 1]);
      assert (xs + ys)[..|xs + ys| - 1] == xs + ys[..|ys| - 1];
    }
  }

  /** Any splitting of the message stream into ticks, of at most ten messages
      or any other number, gives the fold of the stream, as long as no tick
      revives a context it has seen finish. */
  lemma {:induction false} SplittingIsInvisible(ix: Index, ticks: seq<seq<Message>>)
    requires Consistent(ix)
    requires forall i :: 0 <= i < |ticks| ==> AllSound(ticks[i]) && NoneRevived(ticks[i])
    ensures Ticks(ix, ticks) == OneByOne(ix, Flatten(ticks)) && Consistent(Ticks(ix, ticks))
  {
    if |ticks| > 0 {
      var before, last := ticks[..|ticks| - 1], ticks[|ticks| - 1];
      SplittingIsInvisible(ix, before);
      TickIsFoldExactlyWhen(Ticks(ix, before), last);
      TickKeepsConsistent(Ticks(ix, before), last);
      OneByOneJoins(ix, Flatten(before), last);
    }
  }
}
