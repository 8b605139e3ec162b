/** What the listeners of OnSpeechlyResponse hear over a whole run of ticks
  (Source/Speechly/Private/Speechly.cpp). */
module Broadcasting {
  import opened Keys
  import opened Responses

  datatype Option<T> = None | Some(value: T)

  // ---- What a key should show after the messages ms ----

  predicate Hits(m: Message, c: string, g: int) { m.Feeds(c) && m.segment == g }

  predicate Touched(ms: seq<Message>, c: string, g: int) {
    |ms| > 0 && (Touched(ms[..|ms| - 1], c, g) || Hits(ms[|ms| - 1], c, g))
  }

  /** The messages of one context and segment, applied in order to e. */
  function Fold(e: Entry, ms: seq<Message>, c: string, g: int): Entry {
    if |ms| == 0 then e
    else
      var d := Fold(e, ms[..|ms| - 1], c, g);
      if Hits(ms[|ms| - 1], c, g) then Apply(d, ms[|ms| - 1].payload) else d
  }

  /** The fold, final as soon as the context has finished. */
  function Expected(ms: seq<Message>, c: string, g: int): Entry {
    var e := Fold(BLANK, ms, c, g);
    if Touched(ms, c, g) && EndedIn(ms, c) then e.(final := true) else e
  }

  /** The server sends nothing for a context that it has finished. */
  predicate Orderly(ms: seq<Message>, c: string) {
    |ms| == 0 ||
      (Orderly(ms[..|ms| - 1], c) && (ms[|ms| - 1].Feeds(c) ==> !EndedIn(ms[..|ms| - 1], c)))
  }

  // ---- One tick ----

  /** Inside a tick that began after base, with ms seen in all. */
  predicate Tracks(ix: Index, base: seq<Message>, ms: seq<Message>, c: string, g: int) {
    var k := Key(c, g);
    && (k in ix.responses <==> Touched(ms, c, g) && !EndedIn(base, c))
    && (k in ix.responses ==> ix.responses[k] == Expected(ms, c, g))
  }

  /** A key is due for broadcast exactly when it got a message in this tick or
      what it should show has changed. */
  predicate Due(base: seq<Message>, ms: seq<Message>, c: string, g: int) {
    Touched(ms, c, g) || Expected(base + ms, c, g) != Expected(base, c, g)
  }

  lemma {:induction false} EndedInJoin(xs: seq<Message>, ys: seq<Message>, c: string)
    ensures EndedIn(xs + ys, c) <==> EndedIn(xs, c) || EndedIn(ys, c)
  {
    if |ys| == 0 {
      assert xs + ys == xs;
    } else {
      EndedInJoin(xs, ys[..|ys| - 1], c);
      assert (xs + ys)[..|xs + ys| - 1] == xs + ys[..|ys| - 1];
      EndedInLast(xs + ys, c);
      EndedInLast(ys, c);
    }
  }

  lemma {:induction false} TouchedJoin(xs: seq<Message>, ys: seq<Message>, c: string, g: int)
    ensures Touched(xs + ys, c, g) <==> Touched(xs, c, g) || Touched(ys, c, g)
  {
    if |ys| == 0 {
      assert xs + ys == xs;
    } else {
      TouchedJoin(xs, ys[..|ys| - 1], c, g);
      assert (xs + ys)[..|xs + ys| - 1] == xs + ys[..|ys| - 1];
    }
  }

  lemma {:induction false} FoldJoin(e: Entry, xs: seq<Message>, ys: seq<Message>, c: string, g: int)
    ensures Fold(e, xs + ys, c, g) == Fold(Fold(e, xs, c, g), ys, c, g)
  {
    if |ys| == 0 {
      assert xs + ys == xs;
    } else {
      FoldJoin(e, xs, ys[..|ys| - 1], c, g);
      assert (xs + ys)[..|xs + ys| - 1] == xs + ys[..|ys| - 1];
    }
  }

  lemma {:induction false} OrderlyPrefix(xs: seq<Message>, ys: seq<Message>, c: string)
    requires Orderly(xs + ys, c)
    ensures Orderly(xs, c)
  {
    if |ys| == 0 {
      assert xs + ys == xs;
    } else {
      assert (xs + ys)[..|xs + ys| - 1] == xs + ys[..|ys| - 1];
      OrderlyPrefix(xs, ys[..|ys| - 1], c);
    }
  }

  lemma {:induction false} TouchedFeeds(ms: seq<Message>, c: string, g: int)
    requires !Touched(ms, c, g)
    ensures forall e :: Fold(e, ms, c, g) == e
  {
    if |ms| > 0 { TouchedFeeds(ms[..|ms| - 1], c, g); }
  }

  /** Nothing more happens to a context that has ended. */
  lemma {:induction false} EndedIsOver(base: seq<Message>, ms: seq<Message>, c: string, g: int)
    requires Orderly(base + ms, c) && EndedIn(base, c)
    ensures !Touched(ms, c, g) && Expected(base + ms, c, g) == Expected(base, c, g)
  {
    EndedInJoin(base, ms, c);
    TouchedJoin(base, ms, c, g);
    FoldJoin(BLANK, base, ms, c, g);
    if |ms| > 0 {
      assert (base + ms)[..|base + ms| - 1] == base + ms[..|ms| - 1];
      EndedIsOver(base, ms[..|ms| - 1], c, g);
      EndedInJoin(base, ms[..|ms| - 1], c);
    }
    TouchedFeeds(ms, c, g);
  }

  /** What one more message does to a key. */
  lemma OneMore(all: seq<Message>, m: Message, c: string, g: int)
    ensures Touched(all + [m], c, g) <==> Touched(all, c, g) || Hits(m, c, g)
    ensures EndedIn(all + [m], c) <==> EndedIn(all, c) || m.Ends(c)
    ensures Fold(BLANK, all + [m], c, g) ==
      if Hits(m, c, g) then Apply(Fold(BLANK, all, c, g), m.payload) else Fold(BLANK, all, c, g)
    ensures !Touched(all, c, g) ==> Fold(BLANK, all, c, g) == BLANK
  {
    assert (all + [m])[..|all + [m]| - 1] == all;
    EndedInLast(all + [m], c);
    if !Touched(all, c, g) { TouchedFeeds(all, c, g); }
  }

  /** One message keeps the key (c, g) on track. */
  lemma MessageTracks(b: Batch, base: seq<Message>, all: seq<Message>, m: Message, c: string, g: nat)
    requires Consistent(b.index) && m.Sound()
    requires Tracks(b.index, base, all, c, g)
    requires m.Feeds(c) ==> !EndedIn(base, c) && !EndedIn(all, c)
    ensures Tracks(Handle(b, m).index, base, all + [m], c, g)
    ensures Key(c, g) in Handle(b, m).changed <==>
      Key(c, g) in b.changed || Hits(m, c, g) || (!EndedIn(base, c) && Expected(all + [m], c, g) != Expected(all, c, g))
  {
    var k := Key(c, g);
    assert IsKeyOf(k, c);
    OneMore(all, m, c, g);
    hide Fold, Touched, EndedIn;
    if m.Keyed() {
      if Key(m.context, m.segment) == k { NatKeyInjective(c, g, m.context, m.segment); }
    } else if m.payload.Finished? {
      FinishAt(b, m, c, g);
    }
  }

  /** What a finished message does to the key (c, g). */
  lemma FinishAt(b: Batch, m: Message, c: string, g: nat)
    requires Consistent(b.index) && m.payload.Finished?
    ensures var k, t, rs := Key(c, g), Handle(b, m), b.index.responses;
      && (k in t.index.responses <==> k in rs)
      && (k in rs ==> t.index.responses[k] == (if m.context == c then rs[k].(final := true) else rs[k]))
      && (k in t.changed <==> k in b.changed || (m.context == c && k in rs && !rs[k].final))
  {
    var k := Key(c, g);
    assert IsKeyOf(k, c);
    HeldByItsContext(b.index, k, c);
    if k in b.index.KeysOf(m.context) { OneContextPerKey(k, c, m.context); }
  }

  /** Inside a tick, every key shows what it should and is marked changed
      exactly when due. */
  lemma {:induction false} BatchTracks(ix: Index, base: seq<Message>, ms: seq<Message>, c: string, g: nat)
    requires Consistent(ix) && AllSound(ms)
    requires Tracks(ix, base, base, c, g) && Orderly(base + ms, c)
    ensures var b := HandleAll(Begin(ix), ms);
      && Consistent(b.index)
      && Tracks(b.index, base, base + ms, c, g)
      && (Key(c, g) in b.changed <==> Due(base, ms, c, g))
  {
    if |ms| == 0 {
      assert base + ms == base;
    } else {
      var before, m := ms[..|ms| - 1], ms[|ms| - 1];
      var b := HandleAll(Begin(ix), before);
      assert base + ms == base + before + [m] && ms == before + [m];
      assert (base + ms)[..|base + ms| - 1] == base + before;
      assert HandleAll(Begin(ix), ms) == Handle(b, m);
      assert m.Feeds(c) ==> !EndedIn(base + before, c);
      hide Handle, HandleAll, Tracks, Expected, EndedIn, Touched, Due;
      BatchTracks(ix, base, before, c, g);
      HandleKeepsConsistent(b, m);
      EndedInJoin(base, before, c);
      MessageTracks(b, base, base + before, m, c, g);
      StillDue(base, before, m, c, g);
    }
  }

  /** What is due stays due: an entry never returns to an earlier value
      without a message of its own. */
  lemma StillDue(base: seq<Message>, before: seq<Message>, m: Message, c: string, g: int)
    requires Orderly(base + before + [m], c)
    ensures Due(base, before + [m], c, g) <==>
      || Due(base, before, c, g)
      || Hits(m, c, g)
      || (!EndedIn(base, c) && Expected(base + before + [m], c, g) != Expected(base + before, c, g))
  {
    var ms, all := before + [m], base + before;
    assert ms[..|ms| - 1] == before;
    assert base + ms == all + [m];
    assert (all + [m])[..|all + [m]| - 1] == all;
    if EndedIn(base, c) {
      EndedIsOver(base, ms, c, g);
      OrderlyPrefix(all, [m], c);
      EndedIsOver(base, before, c, g);
    } else {
      TouchedJoin(base, before, c, g);
      FoldJoin(BLANK, base, before, c, g);
      if !Touched(before, c, g) { TouchedFeeds(before, c, g); }
      EndedInLast(all + [m], c);
      EndedInJoin(base, before, c);
    }
  }

  /** A whole tick: it broadcasts the key exactly when due, with the value the
      messages so far call for, and leaves the index on track. */
  lemma TickTracks(ix: Index, base: seq<Message>, ms: seq<Message>, c: string, g: nat)
    requires Consistent(ix) && AllSound(ms)
    requires Tracks(ix, base, base, c, g) && Orderly(base + ms, c)
    ensures Consistent(Tick(ix, ms)) && Tracks(Tick(ix, ms), base + ms, base + ms, c, g)
    ensures var heard := Broadcasts(HandleAll(Begin(ix), ms));
      && (Key(c, g) in heard <==> Due(base, ms, c, g))
      && (Key(c, g) in heard ==> heard[Key(c, g)] == Expected(base + ms, c, g))
  {
    var b, k := HandleAll(Begin(ix), ms), Key(c, g);
    BatchTracks(ix, base, ms, c, g);
    TickKeepsConsistent(ix, ms);
    BatchRelated(ix, ms);
    NoChangeGoesUnheard(ix, ms);
    EndedInJoin(base, ms, c);
    assert IsKeyOf(k, c);
    HeldByItsContext(b.index, k, c);
    if k in b.index.responses {
      forall d <- b.finished
        ensures k in b.index.KeysOf(d) ==> c == d
      {
        if k in b.index.KeysOf(d) { OneContextPerKey(k, c, d); }
      }
    }
  }

  // ---- A whole run ----

  function HeardIn(ix: Index, ms: seq<Message>, k: string): Option<Entry> {
    var heard := Broadcasts(HandleAll(Begin(ix), ms));
    if k in heard then Some(heard[k]) else None
  }

  /** The last broadcast of k over the run. */
  function LastHeard(ix: Index, ticks: seq<seq<Message>>, k: string): Option<Entry> {
    if |ticks| == 0 then None
    else
      var before := ticks[..|ticks| - 1];
      var now := HeardIn(Ticks(ix, before), ticks[|ticks| - 1], k);
      if now.Some? then now else LastHeard(ix, before, k)
  }

  /** How many final broadcasts of k there were. */
  function FinalsHeard(ix: Index, ticks: seq<seq<Message>>, k: string): nat {
    if |ticks| == 0 then 0
    else
      var before := ticks[..|ticks| - 1];
      var now := HeardIn(Ticks(ix, before), ticks[|ticks| - 1], k);
      FinalsHeard(ix, before, k) + (if now.Some? && now.value.final then 1 else 0)
  }

  lemma {:induction false} SoundParts(xs: seq<Message>, ys: seq<Message>)
    requires AllSound(xs + ys)
    ensures AllSound(xs) && AllSound(ys)
  {
    forall i | 0 <= i < |xs| ensures xs[i].Sound() { assert xs[i] == (xs + ys)[i]; }
    forall i | 0 <= i < |ys| ensures ys[i].Sound() { assert ys[i] == (xs + ys)[|xs| + i]; }
  }

  lemma {:induction false} RunTracks(ticks: seq<seq<Message>>, c: string, g: nat)
    requires AllSound(Flatten(ticks)) && Orderly(Flatten(ticks), c)
    ensures Consistent(Ticks(EMPTY, ticks))
    ensures Tracks(Ticks(EMPTY, ticks), Flatten(ticks), Flatten(ticks), c, g)
  {
    if |ticks| > 0 {
      var before, last := ticks[..|ticks| - 1], ticks[|ticks| - 1];
      SoundParts(Flatten(before), last);
      OrderlyPrefix(Flatten(before), last, c);
      RunTracks(before, c, g);
      TickTracks(Ticks(EMPTY, before), Flatten(before), last, c, g);
    }
  }

  /** However the stream is split into ticks and whatever other contexts do,
      the last broadcast of every key that got a message carries the fold of
      all its messages and is final once its context has finished; a key
      without messages is never heard. */
  lemma {:induction false} LastBroadcastIsTheFold(ticks: seq<seq<Message>>, c: string, g: nat)
    requires AllSound(Flatten(ticks)) && Orderly(Flatten(ticks), c)
    ensures LastHeard(EMPTY, ticks, Key(c, g)) ==
      if Touched(Flatten(ticks), c, g) then Some(Expected(Flatten(ticks), c, g)) else None
  {
    if |ticks| > 0 {
      var before, last := ticks[..|ticks| - 1], ticks[|ticks| - 1];
      var base := Flatten(before);
      SoundParts(base, last);
      OrderlyPrefix(base, last, c);
      LastBroadcastIsTheFold(before, c, g);
      RunTracks(before, c, g);
      TickTracks(Ticks(EMPTY, before), base, last, c, g);
      TouchedJoin(base, last, c, g);
      if !Touched(base + last, c, g) { UntouchedIsBlank(base, last, c, g); }
    }
  }

  lemma UntouchedIsBlank(base: seq<Message>, last: seq<Message>, c: string, g: int)
    requires !Touched(base + last, c, g)
    ensures Expected(base + last, c, g) == Expected(base, c, g) && !Touched(last, c, g)
  {
    TouchedJoin(base, last, c, g);
    TouchedFeeds(base, c, g);
    TouchedFeeds(base + last, c, g);
  }

  /** No message of (c, g) is a segment end. */
  predicate NeverSegmentEnd(ms: seq<Message>, c: string, g: int) {
    forall i :: 0 <= i < |ms| && Hits(ms[i], c, g) ==> !ms[i].payload.SegmentEnd?
  }

  lemma {:induction false} OpenFold(ms: seq<Message>, c: string, g: int)
    requires NeverSegmentEnd(ms, c, g)
    ensures !Fold(BLANK, ms, c, g).final
  {
    if |ms| > 0 {
      var before := ms[..|ms| - 1];
      assert forall i :: 0 <= i < |before| ==> before[i] == ms[i];
      OpenFold(before, c, g);
      assert Hits(ms[|ms| - 1], c, g) ==> !ms[|ms| - 1].payload.SegmentEnd?;
    }
  }

  /** A key that no segment end has closed is heard final exactly once, when
      its context finishes. */
  lemma {:induction false} FinalIsHeardOnce(ticks: seq<seq<Message>>, c: string, g: nat)
    requires AllSound(Flatten(ticks)) && Orderly(Flatten(ticks), c)
    requires NeverSegmentEnd(Flatten(ticks), c, g)
    ensures FinalsHeard(EMPTY, ticks, Key(c, g)) ==
      if Touched(Flatten(ticks), c, g) && EndedIn(Flatten(ticks), c) then 1 else 0
  {
    if |ticks| > 0 {
      var before, last := ticks[..|ticks| - 1], ticks[|ticks| - 1];
      var base := Flatten(before);
      SoundParts(base, last);
      OrderlyPrefix(base, last, c);
      forall i | 0 <= i < |base| && Hits(base[i], c, g)
        ensures !base[i].payload.SegmentEnd?
      {
        assert base[i] == (base + last)[i];
      }
      FinalIsHeardOnce(before, c, g);
      RunTracks(before, c, g);
      TickTracks(Ticks(EMPTY, before), base, last, c, g);
      OpenFold(base, c, g);
      OpenFold(base + last, c, g);
      EndedInJoin(base, last, c);
      TouchedJoin(base, last, c, g);
      if EndedIn(base, c) { EndedIsOver(base, last, c, g); }
    }
  }
}
