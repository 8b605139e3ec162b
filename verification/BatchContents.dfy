/** What core and the interceptors get of a batch, over every run of any number
  of calls and batches (GrpcIncludes/include/grpcpp/impl/codegen/call_op_set.h):
  the operations behind the counts and hook points of Trips.dfy. */
module BatchContents {
  import opened CallOps
  import opened Interception
  import opened CompletionQueueModel
  import opened Trips

  /** The slots of batch id as the application last handed them over. */
  function LastAsked(s: System, actions: seq<Action>, id: nat): seq<Op>
    requires Sane(s) && Legal(s, actions) && id < |s.batches|
  {
    if |actions| == 0 then []
    else
      var before, a := actions[..|actions| - 1], actions[|actions| - 1];
      if a.Fill? && a.id == id then Asked(After(s, before).batches[id].ops, a.wanted)
      else LastAsked(s, before, id)
  }

  /** Up to core the slots are those that were asked for, and core gets one
      operation for each that holds one. */
  predicate HandsOver(b: Batch, r: Rpc, asked: seq<Op>) {
    && (b.phase.Down? || b.phase.InCore? ==> SameSlots(b.ops, asked))
    && (b.phase.Down? ==> !b.ran && |b.log| == b.index + 1)
    && (!b.phase.Down? && b.log != [] ==> |b.log| > r.n && b.log[r.n] == ContinueFillOps(|ForCore(asked)|))
    && (!b.phase.Down? && !b.phase.Idle? ==> b.log != [])
    && (b.phase.Up? || b.phase.InCoreAgain? || (b.phase.Idle? && b.log != []) ==> UsedUp(b.ops, asked))
  }

  /** What is left of a batch: what it carries over and nothing else. */
  predicate UsedUp(ops: seq<Op>, asked: seq<Op>) {
    && |ops| == |asked|
    && forall i :: 0 <= i < |ops| ==>
         && ops[i].kind == asked[i].kind && ops[i].hijacked == asked[i].hijacked
         && (ops[i].active <==> asked[i].active && CarriesOver(asked[i]))
  }

  lemma TripUsesUp(ops: seq<Op>, core: CoreResult, asked: seq<Op>)
    requires SameSlots(ops, asked)
    ensures UsedUp(Cleared(FinishOps(ops, core.success, core).0), asked)
  {
    forall i | 0 <= i < |ops|
      ensures var t := Cleared(FinishOps(ops, core.success, core).0)[i];
        && t.kind == asked[i].kind && t.hijacked == asked[i].hijacked
        && (t.active <==> asked[i].active && CarriesOver(asked[i]))
    {
      SlotsAfterTrip(ops, core.success, core, i);
    }
  }

  lemma FillHandsOver(b: Batch, r: Rpc, wanted: seq<bool>, tag: int)
    requires b.phase.Idle? && |wanted| == |b.ops|
    ensures HandsOver(FillOps(b, r, wanted, tag), r, Asked(b.ops, wanted))
  {
    var t, asked := FillOps(b, r, wanted, tag), Asked(b.ops, wanted);
    CoreGetsAll(asked);
    assert SameSlots(asked, asked);
    hide OpsAdded, ForCore, StartHooks, Asked, SameSlots, UsedUp;
    assert t.ops == asked && t.log == if r.n == 0 then [ContinueFillOps(OpsAdded(asked))] else [Run(0)];
    hide FillOps;
  }

  lemma AnswerHandsOver(b: Batch, r: Rpc, asked: seq<Op>)
    requires Interception.Inv(b, r) && AtInterceptor(b) && !r.hijacked && HandsOver(b, r, asked)
    ensures HandsOver(Proceed(b, r), r, asked)
  {
    var t := Proceed(b, r);
    AnswerKeepsOps(b, r);
    if b.phase.Down? {
      StepDown(b, r);
      CoreGetsAll(b.ops);
      SameForCore(b.ops, asked);
    } else {
      StepUp(b, r);
    }
    hide Proceed, OpsAdded, ForCore, SameSlots, Interception.Inv, UsedUp;
  }

  lemma EventHandsOver(b: Batch, r: Rpc, core: CoreResult, asked: seq<Op>)
    requires Interception.Inv(b, r) && (b.phase.InCore? || b.phase.InCoreAgain?) && HandsOver(b, r, asked)
    ensures HandsOver(FinalizeResult(b, r, core), r, asked)
  {
    if b.phase.InCore? { TripUsesUp(b.ops, core, asked); }
    hide FinishOps, FinishHooks, Cleared, ForCore, SameSlots, UsedUp;
  }

  lemma RefusalHandsOver(b: Batch, r: Rpc, asked: seq<Op>)
    requires AtInterceptor(b) && HandsOver(b, r, asked)
    ensures HandsOver(FailSend(b), r, asked)
  {
  }

  lemma OwnCallBefore(s: System, a: Action, id: nat)
    requires Sane(s) && Enabled(s, a) && id < |s.batches|
    ensures Next(s, a).owner == s.owner && s.owner[id] < |Next(s, a).calls|
    ensures Next(s, a).calls[s.owner[id]].n == s.CallOf(id).n
    ensures !Next(s, a).calls[s.owner[id]].hijacked ==>
      !s.CallOf(id).hijacked && Next(s, a).calls[s.owner[id]] == s.CallOf(id) && !(a.HijackBy? && a.id == id)
    ensures a.Shutdown? || a.id != id ==> Next(s, a).batches[id] == s.batches[id]
  {
    hide Interception.Inv, Proceed, FillOps, FinalizeResult, FailSend;
  }

  /** Over every run: as long as a call is not hijacked, core gets of each batch
      one operation for every slot that holds one and that the application asked
      for, or that a trip before had carried over, whatever its kind; and a trip
      uses up the rest. */
  lemma {:induction false} UnhijackedHandsOver(s: System, actions: seq<Action>, id: nat)
    requires Initial(s) && Sane(s) && Legal(s, actions) && id < |s.batches|
    requires !After(s, actions).CallOf(id).hijacked
    ensures HandsOver(After(s, actions).batches[id], After(s, actions).CallOf(id), LastAsked(s, actions, id))
  {
    if |actions| > 0 {
      var before, a := actions[..|actions| - 1], actions[|actions| - 1];
      var t := After(s, before);
      OwnCallBefore(t, a, id);
      UnhijackedHandsOver(s, before, id);
      BatchInv(t, id);
      var b, r, asked := t.batches[id], t.CallOf(id), LastAsked(s, before, id);
      hide HandsOver, Interception.Inv, Asked;
      if !a.Shutdown? && a.id == id {
        match a
        case Fill(_, wanted, tag) => FillHandsOver(b, r, wanted, tag);
        case Answer(_) => AnswerHandsOver(b, r, asked);
        case RefuseSend(_) => RefusalHandsOver(b, r, asked);
        case CoreEvent(_, core) => EventHandsOver(b, r, core, asked);
      }
    }
  }

  /** The whole of a plain trip, with what core gets. */
  lemma UnhijackedTripsInFull(s: System, actions: seq<Action>, id: nat)
    requires Initial(s) && Sane(s) && Legal(s, actions) && id < |s.batches|
    requires var r := After(s, actions).CallOf(id); r.n > 0 && !r.hijacked
    ensures var b, r := After(s, actions).batches[id], After(s, actions).CallOf(id);
      var nops := |ForCore(LastAsked(s, actions, id))|;
      if b.phase.Down? then b.log == Ascending(0, b.index + 1)
      else b.log == Course(b, r, PlainDown(r.n, nops), r.n - 1) || (b.phase.Idle? && b.log == [])
  {
    UnhijackedTrips(s, actions, id);
    UnhijackedHandsOver(s, actions, id);
    var b, r, asked := After(s, actions).batches[id], After(s, actions).CallOf(id), LastAsked(s, actions, id);
    BatchInv(After(s, actions), id);
    hide After, Legal, Initial, LastAsked;
    PlainCount(b, r, asked);
  }

  lemma PlainCount(b: Batch, r: Rpc, asked: seq<Op>)
    requires Interception.Inv(b, r) && r.n > 0 && PlainTrip(b, r) && HandsOver(b, r, asked)
    ensures if b.phase.Down? then b.log == Ascending(0, b.index + 1)
      else b.log == Course(b, r, PlainDown(r.n, |ForCore(asked)|), r.n - 1) || (b.phase.Idle? && b.log == [])
  {
    if !b.phase.Down? && b.log != [] {
      var nops: nat :| PlainCourse(b, r, nops);
      PlainCourseCount(b, r, nops);
      hide ForCore, Course;
    }
  }

  lemma PlainCourseCount(b: Batch, r: Rpc, nops: nat)
    requires Interception.Inv(b, r) && r.n > 0 && PlainCourse(b, r, nops) && !b.phase.Down? && |b.log| > r.n
    ensures b.log[r.n] == ContinueFillOps(nops)
  {
    assert PlainDown(r.n, nops)[r.n] == ContinueFillOps(nops);
    hide Ascending, Descending, OpsAdded;
  }

  // ---- A message an interceptor refuses ----

  /** When the hijacking interceptor fails the message of the batch it answers
      for, the result is a failure exactly if there is a message to send, or core
      reports one. */
  lemma RefusedMessageFails(b: Batch, r: Rpc, core: CoreResult)
    requires Interception.Inv(b, r) && b.phase.Down? && b.ran && r.n > 0
    ensures Proceed(FailSend(b), r).phase.InCore?
    ensures FinalizeResult(Proceed(FailSend(b), r), r, core).savedStatus <==>
      core.success && forall i :: 0 <= i < |b.ops| ==> !(b.ops[i].kind.SendMessage? && b.ops[i].active)
  {
    var t := Proceed(FailSend(b), r);
    assert t.ops == SendFailed(b.ops) && t.phase.InCore? && !t.doneIntercepting;
    RefusalFails(b.ops, core.success, core);
    hide FinishOps, FinishHooks, Cleared, SendFailed, Proceed, OpsAdded;
  }

  // ---- What interceptors are shown ----

  /** On the way down the hook points are those of the batch, or, once more for
      the interceptor that hijacks, of what it can let the batch receive. */
  predicate ShowsOwn(b: Batch) {
    b.phase.Down? ==> b.hooks == if b.ran then HijackHooks(b.ops) else StartHooks(b.ops)
  }

  lemma HijackedHooks(ops: seq<Op>)
    ensures HijackHooks(Hijacked(ops)) == HijackHooks(ops)
  {
    SameHooks(Hijacked(ops), ops);
  }

  lemma RefusedHooks(ops: seq<Op>)
    ensures HijackHooks(SendFailed(ops)) == HijackHooks(ops) && StartHooks(SendFailed(ops)) == StartHooks(ops)
  {
    SameHooks(SendFailed(ops), ops);
  }

  lemma NextShowsOwn(s: System, a: Action, id: nat)
    requires Sane(s) && Enabled(s, a) && id < |s.batches| && ShowsOwn(s.batches[id])
    ensures |Next(s, a).batches| == |s.batches| && ShowsOwn(Next(s, a).batches[id])
  {
    NextKeepsSane(s, a);
    BatchInv(s, id);
    OwnCallBefore(s, a, id);
    var b, r := s.batches[id], s.CallOf(id);
    hide StartHooks, HijackHooks, FinishOps, FinishHooks, Cleared, Asked, OpsAdded, SendFailed, Hijacked;
    if !a.Shutdown? && a.id == id {
      HijackedHooks(b.ops);
      RefusedHooks(b.ops);
      match a
      case Fill(_, wanted, tag) =>
      case Answer(_) =>
      case RefuseSend(_) =>
      case HijackBy(_) =>
      case CoreEvent(_, core) => NotDown(b, r, core);
    }
  }

  lemma {:induction false} EveryBatchShowsOwn(s: System, actions: seq<Action>, id: nat)
    requires Initial(s) && Sane(s) && Legal(s, actions) && id < |s.batches|
    ensures ShowsOwn(After(s, actions).batches[id])
  {
    if |actions| > 0 {
      EveryBatchShowsOwn(s, actions[..|actions| - 1], id);
      hide ShowsOwn;
      NextShowsOwn(After(s, actions[..|actions| - 1]), actions[|actions| - 1], id);
    }
  }

  /** Over every run an interceptor on the way down is shown exactly the hook
      points of the operations in the batch. */
  lemma ShownOnTheWayDown(s: System, actions: seq<Action>, id: nat, h: Hook)
    requires Initial(s) && Sane(s) && Legal(s, actions) && id < |s.batches|
    requires After(s, actions).batches[id].phase.Down?
    ensures var b := After(s, actions).batches[id];
      h in b.hooks <==> if b.ran then AnyToHijacker(b.ops, h) else AnyBefore(b.ops, h)
  {
    EveryBatchShowsOwn(s, actions, id);
    var b := After(s, actions).batches[id];
    StartHooksShown(b.ops, h);
    HijackHooksShown(b.ops, h);
    hide After, Legal, Initial, StartHooks, HijackHooks, AnyBefore, AnyToHijacker;
  }

  /** And on the way up those of what has come back, for the whole way. */
  lemma ShownOnTheWayUp(b: Batch, r: Rpc, core: CoreResult, h: Hook, k: nat)
    requires Interception.Inv(b, r) && b.phase.InCore? && r.n > 0
    ensures Interception.Inv(FinalizeResult(b, r, core), r)
    ensures var t, back := Proceeds(FinalizeResult(b, r, core), r, k), FinishOps(b.ops, core.success, core).0;
      t.phase.Up? ==> (h in t.hooks <==> AnyAfter(back, h))
  {
    var s, back := FinalizeResult(b, r, core), FinishOps(b.ops, core.success, core).0;
    FinalizeKeepsInv(b, r, core);
    assert s.hooks == FinishHooks(back) && s.phase.Up?;
    FinishHooksShown(back, h);
    hide FinalizeResult, FinishHooks, FinishOps, AnyAfter;
    ProceedsKeepHooks(s, r, k);
  }

  lemma {:induction false} ProceedsKeepHooks(b: Batch, r: Rpc, k: nat)
    requires Interception.Inv(b, r) && b.phase.Up?
    ensures Proceeds(b, r, k).phase.Up? || Proceeds(b, r, k).phase.InCoreAgain?
    ensures Proceeds(b, r, k).hooks == b.hooks
  {
    if k > 0 {
      ProceedsKeepHooks(b, r, k - 1);
      var t := Proceeds(b, r, k - 1);
      if t.phase.Up? { StepUp(t, r); }
      hide OpsAdded, HijackBatch;
    }
  }
}
