/** What the listeners of OnSpeechlyResponse are told about a key, read off the
  payloads of its messages (Source/Speechly/Private/Speechly.cpp). */
module Utterances {
  import opened Keys
  import opened Responses
  import opened Broadcasting
  import opened TextQuery

  function WordsOf(ms: seq<Message>, c: string, g: int): seq<string> {
    if |ms| == 0 then []
    else
      var m := ms[|ms| - 1];
      WordsOf(ms[..|ms| - 1], c, g) + if Hits(m, c, g) && m.payload.Transcript? then [m.payload.word] else []
  }

  function SlotsOf(ms: seq<Message>, c: string, g: int): seq<Slot> {
    if |ms| == 0 then []
    else
      var m := ms[|ms| - 1];
      SlotsOf(ms[..|ms| - 1], c, g)
        + if Hits(m, c, g) && m.payload.Entity? then [Slot(m.payload.name, m.payload.value)] else []
  }

  /** Message i is the last intent of the key. */
  predicate LastIntentAt(ms: seq<Message>, c: string, g: int, i: int) {
    && 0 <= i < |ms| && Hits(ms[i], c, g) && ms[i].payload.Intent?
    && forall j :: i < j < |ms| && Hits(ms[j], c, g) ==> !ms[j].payload.Intent?
  }

  ghost predicate IntentIsLast(intent: string, ms: seq<Message>, c: string, g: int) {
    && (forall i :: LastIntentAt(ms, c, g, i) ==> intent == ms[i].payload.intent)
    && ((forall i :: 0 <= i < |ms| && Hits(ms[i], c, g) ==> !ms[i].payload.Intent?) ==> intent == "")
  }

  predicate Mentioned(ms: seq<Message>, c: string, g: int) { exists i :: 0 <= i < |ms| && Hits(ms[i], c, g) }

  /** A segment end of the key has come. */
  predicate Closed(ms: seq<Message>, c: string, g: int) {
    exists i :: 0 <= i < |ms| && Hits(ms[i], c, g) && ms[i].payload.SegmentEnd?
  }

  lemma ClosedLast(ms: seq<Message>, c: string, g: int)
    requires |ms| > 0
    ensures var before, m := ms[..|ms| - 1], ms[|ms| - 1];
      && (Closed(ms, c, g) <==> Closed(before, c, g) || (Hits(m, c, g) && m.payload.SegmentEnd?))
      && (Mentioned(ms, c, g) <==> Mentioned(before, c, g) || Hits(m, c, g))
  {
    var before := ms[..|ms| - 1];
    assert forall i :: 0 <= i < |before| ==> before[i] == ms[i];
    if Closed(before, c, g) {
      var i :| 0 <= i < |before| && Hits(before[i], c, g) && before[i].payload.SegmentEnd?;
      assert Hits(ms[i], c, g) && ms[i].payload.SegmentEnd?;
    }
    if Mentioned(before, c, g) {
      var i :| 0 <= i < |before| && Hits(before[i], c, g);
      assert Hits(ms[i], c, g);
    }
  }

  lemma LastIntentBefore(ms: seq<Message>, c: string, g: int, i: int)
    requires |ms| > 0 && !(Hits(ms[|ms| - 1], c, g) && ms[|ms| - 1].payload.Intent?)
    ensures LastIntentAt(ms, c, g, i) <==> LastIntentAt(ms[..|ms| - 1], c, g, i)
  {
    var before := ms[..|ms| - 1];
    if LastIntentAt(ms, c, g, i) {
      assert forall j :: i < j < |before| ==> before[j] == ms[j];
    }
    if LastIntentAt(before, c, g, i) {
      forall j | i < j < |ms| && Hits(ms[j], c, g)
        ensures !ms[j].payload.Intent?
      {
        if j < |before| { assert before[j] == ms[j]; }
      }
    }
  }

  lemma IntentStep(intent: string, ms: seq<Message>, c: string, g: int)
    requires |ms| > 0 && IntentIsLast(intent, ms[..|ms| - 1], c, g)
    ensures var m := ms[|ms| - 1];
      IntentIsLast(if Hits(m, c, g) && m.payload.Intent? then m.payload.intent else intent, ms, c, g)
  {
    var m := ms[|ms| - 1];
    if Hits(m, c, g) && m.payload.Intent? {
      assert LastIntentAt(ms, c, g, |ms| - 1);
    } else {
      forall i
        ensures LastIntentAt(ms, c, g, i) <==> LastIntentAt(ms[..|ms| - 1], c, g, i)
      {
        LastIntentBefore(ms, c, g, i);
      }
      assert forall i :: 0 <= i < |ms| - 1 ==> ms[..|ms| - 1][i] == ms[i];
    }
  }

  lemma AppendedMore(t: string, words: seq<string>, word: string)
    ensures Appended(t, words + [word]) ==
      Appended(t, words) + (if Appended(t, words) != "" then " " else "") + word
  {
    assert (words + [word])[..|words + [word]| - 1] == words;
  }

  lemma MergedMore(m: map<string, string>, slots: seq<Slot>, slot: Slot)
    ensures Merged(m, slots + [slot]) == Merged(m, slots)[slot.name := slot.value]
  {
    assert (slots + [slot])[..|slots + [slot]| - 1] == slots;
  }

  lemma {:induction false} FoldedWords(ms: seq<Message>, c: string, g: int)
    ensures Fold(BLANK, ms, c, g).transcript == Appended("", WordsOf(ms, c, g))
  {
    if |ms| > 0 {
      var before, m := ms[..|ms| - 1], ms[|ms| - 1];
      FoldedWords(before, c, g);
      hide Appended;
      var words := WordsOf(before, c, g);
      if Hits(m, c, g) && m.payload.Transcript? {
        AppendedMore("", words, m.payload.word);
      } else {
        assert words + [] == words;
      }
    } else {
      assert Appended("", []) == "";
    }
  }

  lemma {:induction false} FoldedSlots(ms: seq<Message>, c: string, g: int)
    ensures Fold(BLANK, ms, c, g).entities == Merged(map[], SlotsOf(ms, c, g))
  {
    if |ms| > 0 {
      var before, m := ms[..|ms| - 1], ms[|ms| - 1];
      FoldedSlots(before, c, g);
      hide Merged;
      var slots := SlotsOf(before, c, g);
      if Hits(m, c, g) && m.payload.Entity? {
        MergedMore(map[], slots, Slot(m.payload.name, m.payload.value));
      } else {
        assert slots + [] == slots;
      }
    } else {
      assert Merged(map[], []) == map[];
    }
  }

  lemma {:induction false} FoldedIntent(ms: seq<Message>, c: string, g: int)
    ensures IntentIsLast(Fold(BLANK, ms, c, g).intent, ms, c, g)
  {
    if |ms| > 0 {
      FoldedIntent(ms[..|ms| - 1], c, g);
      IntentStep(Fold(BLANK, ms[..|ms| - 1], c, g).intent, ms, c, g);
      hide IntentIsLast;
    }
  }

  lemma {:induction false} FoldedEnd(ms: seq<Message>, c: string, g: int)
    ensures Fold(BLANK, ms, c, g).final <==> Closed(ms, c, g)
    ensures Touched(ms, c, g) <==> Mentioned(ms, c, g)
  {
    if |ms| > 0 {
      FoldedEnd(ms[..|ms| - 1], c, g);
      ClosedLast(ms, c, g);
      hide Closed, Mentioned;
    }
  }

  lemma FoldMeans(ms: seq<Message>, c: string, g: int)
    ensures var e := Fold(BLANK, ms, c, g);
      && e.transcript == Appended("", WordsOf(ms, c, g))
      && e.entities == Merged(map[], SlotsOf(ms, c, g))
      && IntentIsLast(e.intent, ms, c, g)
      && (e.final <==> Closed(ms, c, g))
    ensures Touched(ms, c, g) <==> Mentioned(ms, c, g)
  {
    FoldedWords(ms, c, g);
    FoldedSlots(ms, c, g);
    FoldedIntent(ms, c, g);
    FoldedEnd(ms, c, g);
  }

  /** What is said of a key, given all its messages so far. */
  ghost predicate Tells(e: Entry, ms: seq<Message>, c: string, g: int) {
    && e.transcript == Join(FromFirstWord(WordsOf(ms, c, g)))
    && LaterWins(e.entities, SlotsOf(ms, c, g))
    && IntentIsLast(e.intent, ms, c, g)
    && (e.final <==> Closed(ms, c, g) || EndedIn(ms, c))
  }

  lemma ExpectedTells(ms: seq<Message>, c: string, g: int)
    ensures Touched(ms, c, g) <==> Mentioned(ms, c, g)
    ensures Mentioned(ms, c, g) ==> Tells(Expected(ms, c, g), ms, c, g)
  {
    FoldMeans(ms, c, g);
    TranscriptIsJoin(WordsOf(ms, c, g));
    MergedLaterWins(SlotsOf(ms, c, g));
    hide Fold, Touched, Mentioned, IntentIsLast, LaterWins, Merged, Appended, Closed;
  }

  /** Over every run and any splitting a key is heard exactly if a message of it
      came, and last with the words from the first that is not empty on, joined
      by spaces, every entity with its last value, the last intent, and final
      exactly if a segment end of it came or its context has finished. */
  lemma LastBroadcastTells(ticks: seq<seq<Message>>, c: string, g: nat)
    requires AllSound(Flatten(ticks)) && Orderly(Flatten(ticks), c)
    ensures var ms, heard := Flatten(ticks), LastHeard(EMPTY, ticks, Key(c, g));
      && (heard.Some? <==> Mentioned(ms, c, g))
      && (heard.Some? ==> Tells(heard.value, ms, c, g))
  {
    LastBroadcastIsTheFold(ticks, c, g);
    ExpectedTells(Flatten(ticks), c, g);
  }

  /** And so is every broadcast of a tick, of the messages up to its end. */
  lemma EveryBroadcastTells(ix: Index, base: seq<Message>, ms: seq<Message>, c: string, g: nat)
    requires Consistent(ix) && AllSound(ms) && Tracks(ix, base, base, c, g) && Orderly(base + ms, c)
    ensures var heard := Broadcasts(HandleAll(Begin(ix), ms));
      Key(c, g) in heard ==> Mentioned(base + ms, c, g) && Tells(heard[Key(c, g)], base + ms, c, g)
  {
    TickTracks(ix, base, ms, c, g);
    if !Touched(base + ms, c, g) { UntouchedIsBlank(base, ms, c, g); }
    ExpectedTells(base + ms, c, g);
  }
}
