/** Which interceptors run, over every run of any number of calls and batches
  (GrpcIncludes/include/grpcpp/impl/codegen/interceptor_common.h): other batches
  of the same call may be answered, finalized and hijacked in between. */
module Trips {
  import opened CallOps
  import opened Interception
  import opened CompletionQueueModel

  // ---- The course of one trip ----

  /** A pass down that nobody answered for: 0, 1, ... to the last interceptor,
      or cut short above the hijacking one. */
  predicate Straight(down: seq<Event>, r: Rpc) {
    var runs := |down| - 1;
    && runs >= 1
    && down[runs].ContinueFillOps?
    && down[..runs] == Ascending(0, runs)
    && (runs == r.n || (r.hijacked && r.hijackedIndex + 1 < runs < r.n))
  }

  /** The pass down of a hijacked batch: the hijacking interceptor h runs twice
      and core gets no operation. */
  function HijackedDown(h: nat): seq<Event> { Ascending(0, h + 1) + [Run(h), ContinueFillOps(0)] }

  predicate Answered(down: seq<Event>, r: Rpc) { r.hijacked && down == HijackedDown(r.hijackedIndex) }

  /** A whole pass down, and the interceptor the pass up begins with. */
  predicate Fits(down: seq<Event>, top: nat, r: Rpc) {
    if r.n == 0 then |down| == 1 && down[0].ContinueFillOps?
    else
      || (Straight(down, r) && (top + 1 == r.n || (r.hijacked && top == r.hijackedIndex)))
      || (Answered(down, r) && top == r.hijackedIndex)
  }

  /** What has happened in a trip that went down like `down` and goes up from
      `top`. */
  function Course(b: Batch, r: Rpc, down: seq<Event>, top: nat): seq<Event> {
    match b.phase
    case Up => if b.index <= top then down + Descending(top + 1, b.index) else []
    case InCoreAgain => down + Descending(top + 1, 0) + [ContinueFinalizeResult]
    case Idle =>
      down + (if r.n == 0 then [] else Descending(top + 1, 0) + [ContinueFinalizeResult])
        + [Return(b.returnTag, b.savedStatus)]
    case _ => down
  }

  predicate Along(b: Batch, r: Rpc, down: seq<Event>, top: nat) {
    && Fits(down, top, r)
    && b.log == Course(b, r, down, top)
    && (b.phase.Up? ==> b.index <= top)
    && (b.phase.InCore? ==> down[|down| - 1] == ContinueFillOps(OpsAdded(b.ops)))
  }

  /** The trip so far. */
  ghost predicate OnCourse(b: Batch, r: Rpc) {
    if b.phase.Down? then
      b.log == Ascending(0, b.index + 1) + if b.ran then [Run(b.index)] else []
    else if b.phase.Idle? && b.log == [] then true
    else exists down, top: nat :: Along(b, r, down, top)
  }

  // ---- Every step of a batch stays on course ----

  lemma AscendingMore(to: nat)
    ensures Ascending(0, to + 1) == Ascending(0, to) + [Run(to)]
  {
  }

  lemma DescendingMore(from: nat, to: nat)
    requires to < from
    ensures Descending(from, to) == Descending(from, to + 1) + [Run(to)]
  {
  }

  lemma DescendingOne(from: nat)
    ensures Descending(from + 1, from) == [Run(from)]
  {
  }

  lemma FillStaysOnCourse(b: Batch, r: Rpc, wanted: seq<bool>, tag: int)
    requires Interception.Inv(b, r) && b.phase.Idle? && |wanted| == |b.ops|
    ensures OnCourse(FillOps(b, r, wanted, tag), r)
  {
    var t := FillOps(b, r, wanted, tag);
    if r.n == 0 {
      assert Along(t, r, t.log, 0);
    } else {
      assert t.log == [Run(0)] && Ascending(0, 1) == [Run(0)];
    }
  }

  /** An interceptor answers on the way down: the next one runs, or the same one
      once more, or the pass is whole. */
  lemma DownStaysOnCourse(b: Batch, r: Rpc)
    requires Interception.Inv(b, r) && b.phase.Down? && OnCourse(b, r)
    ensures OnCourse(Proceed(b, r), r)
  {
    if b.ran {
      SecondRunEndsDown(b, r);
      assert Along(Proceed(b, r), r, HijackedDown(b.index), b.index);
    } else {
      StepDown(b, r);
      assert b.log + [] == b.log;
      hide Proceed;
      if Proceed(b, r).phase.InCore? {
        StraightEndsDown(b, r);
        assert Along(Proceed(b, r), r, Proceed(b, r).log, r.n - 1);
      } else {
        AscendingMore(b.index + 1);
        hide Ascending;
      }
    }
  }

  lemma SecondRunEndsDown(b: Batch, r: Rpc)
    requires Interception.Inv(b, r) && b.phase.Down? && b.ran && OnCourse(b, r)
    ensures Proceed(b, r).phase.InCore?
    ensures Along(Proceed(b, r), r, HijackedDown(b.index), b.index)
  {
    HijackedOpsReachNobody(b.ops);
    Regroup(Ascending(0, b.index + 1), [Run(b.index)], [ContinueFillOps(0)]);
    assert [Run(b.index)] + [ContinueFillOps(0)] == [Run(b.index), ContinueFillOps(0)];
    hide Ascending;
  }

  lemma StraightEndsDown(b: Batch, r: Rpc)
    requires Interception.Inv(b, r) && b.phase.Down? && !b.ran && OnCourse(b, r)
    requires Proceed(b, r).phase.InCore?
    ensures Along(Proceed(b, r), r, Proceed(b, r).log, r.n - 1)
  {
    var t := Proceed(b, r);
    StepDown(b, r);
    assert b.log + [] == b.log && |Ascending(0, b.index + 1)| == b.index + 1;
    assert t.log == b.log + [ContinueFillOps(OpsAdded(t.ops))];
    hide Proceed, Ascending, OpsAdded;
    assert t.log[..|t.log| - 1] == b.log;
  }

  lemma UpStaysAlong(b: Batch, r: Rpc, down: seq<Event>, top: nat)
    requires Interception.Inv(b, r) && b.phase.Up? && Along(b, r, down, top)
    ensures Along(Proceed(b, r), r, down, top)
  {
    var t := Proceed(b, r);
    StepUp(b, r);
    if b.index > 0 {
      DescendingMore(top + 1, b.index - 1);
      Regroup(down, Descending(top + 1, b.index), [Run(b.index - 1)]);
    }
    hide Descending, Proceed;
  }

  lemma CoreStaysAlong(b: Batch, r: Rpc, core: CoreResult, down: seq<Event>, top: nat)
    requires Interception.Inv(b, r) && (b.phase.InCore? || b.phase.InCoreAgain?) && Along(b, r, down, top)
    requires b.phase.InCore? && r.n > 0 ==> top == if r.hijacked then r.hijackedIndex else r.n - 1
    ensures Along(FinalizeResult(b, r, core), r, down, top)
  {
    var t := FinalizeResult(b, r, core);
    hide FinishOps, FinishHooks, Cleared;
    if b.phase.InCoreAgain? {
      Regroup(down, Descending(top + 1, 0), [ContinueFinalizeResult]);
    } else if r.n == 0 {
      assert down + [] == down;
    } else {
      DescendingOne(top);
    }
    hide Descending, Fits;
  }

  /** What is in core has come down whole, so any top the pass up can begin with
      will do. */
  lemma InCoreFits(b: Batch, r: Rpc)
    requires Interception.Inv(b, r) && b.phase.InCore? && OnCourse(b, r)
    ensures Along(b, r, b.log, if r.n == 0 then 0 else if r.hijacked then r.hijackedIndex else r.n - 1)
  {
    var down: seq<Event>, top: nat :| Along(b, r, down, top);
    assert down == b.log;
  }

  lemma CoreStaysOnCourse(b: Batch, r: Rpc, core: CoreResult)
    requires Interception.Inv(b, r) && (b.phase.InCore? || b.phase.InCoreAgain?) && OnCourse(b, r)
    ensures OnCourse(FinalizeResult(b, r, core), r)
  {
    hide FinalizeResult;
    FinalizeOrNot(b, r, core);
    if b.phase.InCore? {
      var top: nat := if r.n == 0 then 0 else if r.hijacked then r.hijackedIndex else r.n - 1;
      InCoreFits(b, r);
      CoreStaysAlong(b, r, core, b.log, top);
      NotDown(b, r, core);
      assert Along(FinalizeResult(b, r, core), r, b.log, top);
    } else {
      var down: seq<Event>, top: nat :| Along(b, r, down, top);
      CoreStaysAlong(b, r, core, down, top);
      NotDown(b, r, core);
      assert Along(FinalizeResult(b, r, core), r, down, top);
    }
  }

  lemma NotDown(b: Batch, r: Rpc, core: CoreResult)
    requires r.Valid()
    ensures !FinalizeResult(b, r, core).phase.Down?
  {
    hide FinishOps, FinishHooks, Cleared;
  }

  lemma HijackStaysOnCourse(b: Batch, r: Rpc)
    requires Interception.Inv(b, r) && b.phase.Down? && !b.ran && OnCourse(b, r)
    ensures OnCourse(Hijack(b, r).0, Hijack(b, r).1)
  {
    assert b.log + [] == b.log;
    hide Ascending;
  }

  /** A trip stays on course when another batch hijacks the call. */
  lemma OtherHijackStaysOnCourse(b: Batch, r: Rpc, h: nat)
    requires Interception.Inv(b, r) && !r.hijacked && h < r.n && OnCourse(b, r)
    ensures OnCourse(b, r.(hijacked := true, hijackedIndex := h))
  {
    var q := r.(hijacked := true, hijackedIndex := h);
    if !b.phase.Down? && !(b.phase.Idle? && b.log == []) {
      var down: seq<Event>, top: nat :| Along(b, r, down, top);
      hide Ascending, Descending, OpsAdded;
      assert Along(b, q, down, top);
    }
  }

  lemma FailSendStaysOnCourse(b: Batch, r: Rpc)
    requires AtInterceptor(b) && OnCourse(b, r)
    ensures OnCourse(FailSend(b), r)
  {
    if b.phase.Up? {
      var down: seq<Event>, top: nat :| Along(b, r, down, top);
      assert Along(FailSend(b), r, down, top);
    }
  }

  // ---- Every run of the system ----

  ghost predicate AllOnCourse(s: System)
    requires s.Shaped()
  {
    forall i :: 0 <= i < |s.batches| ==> OnCourse(s.batches[i], s.CallOf(i))
  }

  lemma BatchStaysOnCourse(s: System, a: Action, id: nat)
    requires Sane(s) && Enabled(s, a) && !a.Shutdown? && !a.HijackBy? && a.id == id
    requires OnCourse(s.batches[id], s.CallOf(id))
    ensures OnCourse(Next(s, a).batches[id], s.CallOf(id))
  {
    var b, r := s.batches[id], s.CallOf(id);
    match a
    case Fill(_, wanted, tag) => FillStaysOnCourse(b, r, wanted, tag);
    case Answer(_) =>
      if b.phase.Down? {
        DownStaysOnCourse(b, r);
      } else {
        var down: seq<Event>, top: nat :| Along(b, r, down, top);
        UpStaysAlong(b, r, down, top);
        StepUp(b, r);
        assert Along(Proceed(b, r), r, down, top);
      }
    case RefuseSend(_) => FailSendStaysOnCourse(b, r);
    case CoreEvent(_, core) => CoreStaysOnCourse(b, r, core);
  }

  lemma NextStaysOnCourse(s: System, a: Action)
    requires Sane(s) && Enabled(s, a) && AllOnCourse(s)
    ensures Next(s, a).Shaped() && AllOnCourse(Next(s, a))
  {
    NextKeepsSane(s, a);
    var t := Next(s, a);
    hide OnCourse, Interception.Inv, Next, Enabled;
    if a.HijackBy? {
      SystemHijackStaysOnCourse(s, a.id);
    } else {
      forall i | 0 <= i < |t.batches|
        ensures OnCourse(t.batches[i], t.CallOf(i))
      {
        OthersUntouched(s, a, i);
        if !a.Shutdown? && a.id == i { BatchStaysOnCourse(s, a, i); }
      }
    }
  }

  lemma OthersUntouched(s: System, a: Action, i: nat)
    requires Sane(s) && Enabled(s, a) && !a.HijackBy? && i < |s.batches|
    ensures Next(s, a).Shaped() && |Next(s, a).batches| == |s.batches| && Next(s, a).CallOf(i) == s.CallOf(i)
    ensures a.Shutdown? || a.id != i ==> Next(s, a).batches[i] == s.batches[i]
  {
    hide Interception.Inv, Proceed, FillOps, FinalizeResult, FailSend;
  }

  lemma SystemHijackStaysOnCourse(s: System, id: nat)
    requires Sane(s) && Enabled(s, HijackBy(id)) && AllOnCourse(s)
    ensures Next(s, HijackBy(id)).Shaped() && AllOnCourse(Next(s, HijackBy(id)))
  {
    NextKeepsSane(s, HijackBy(id));
    var t, h := Next(s, HijackBy(id)), s.batches[id].index;
    BatchInv(s, id);
    hide OnCourse, Interception.Inv;
    HijackStaysOnCourse(s.batches[id], s.CallOf(id));
    forall i | 0 <= i < |t.batches| && i != id
      ensures OnCourse(t.batches[i], t.CallOf(i))
    {
      if s.owner[i] == s.owner[id] {
        BatchInv(s, i);
        OtherHijackStaysOnCourse(s.batches[i], s.CallOf(i), h);
      }
    }
  }

  lemma BatchInv(s: System, i: nat)
    requires Sane(s) && i < |s.batches|
    ensures Interception.Inv(s.batches[i], s.CallOf(i))
    ensures s.batches[i].phase.Down? ==> s.batches[i].index < s.CallOf(i).n
  {
  }

  /** In every state of every run every trip is on course, in whatever order the
      interceptors of the different batches answer and whenever one of them
      hijacks. */
  lemma {:induction false} EveryTripIsOnCourse(s: System, actions: seq<Action>)
    requires Initial(s) && Sane(s) && Legal(s, actions)
    ensures AllOnCourse(After(s, actions))
  {
    if |actions| > 0 {
      EveryTripIsOnCourse(s, actions[..|actions| - 1]);
      NextStaysOnCourse(After(s, actions[..|actions| - 1]), actions[|actions| - 1]);
    }
  }

  function PlainDown(n: nat, nops: nat): seq<Event> { Ascending(0, n) + [ContinueFillOps(nops)] }

  /** Of a call that is not hijacked: 0, ..., n-1 run once each, core gets the
      batch once, n-1, ..., 0 run once each, and the result returns. */
  ghost predicate PlainTrip(b: Batch, r: Rpc)
    requires r.n > 0
  {
    if b.phase.Down? then b.log == Ascending(0, b.index + 1)
    else
      || (b.phase.Idle? && b.log == [])
      || exists nops: nat :: PlainCourse(b, r, nops)
  }

  predicate PlainCourse(b: Batch, r: Rpc, nops: nat)
    requires r.n > 0
  {
    b.log == Course(b, r, PlainDown(r.n, nops), r.n - 1) && (b.phase.InCore? ==> nops == OpsAdded(b.ops))
  }

  lemma UnhijackedIsPlain(b: Batch, r: Rpc)
    requires Interception.Inv(b, r) && OnCourse(b, r) && r.n > 0 && !r.hijacked
    ensures PlainTrip(b, r)
  {
    if b.phase.Down? {
      assert b.log == Ascending(0, b.index + 1) + [];
    } else if !(b.phase.Idle? && b.log == []) {
      var down: seq<Event>, top: nat :| Along(b, r, down, top);
      var nops := down[|down| - 1].nops;
      assert down == down[..|down| - 1] + [down[|down| - 1]] == PlainDown(r.n, nops);
      hide Ascending, Descending, OpsAdded, Interception.Inv;
      assert PlainCourse(b, r, nops);
    }
  }

  /** While a call is not hijacked, every trip of its batches is plain. */
  lemma UnhijackedTrips(s: System, actions: seq<Action>, id: nat)
    requires Initial(s) && Sane(s) && Legal(s, actions) && id < |s.batches|
    requires var r := After(s, actions).CallOf(id); r.n > 0 && !r.hijacked
    ensures PlainTrip(After(s, actions).batches[id], After(s, actions).CallOf(id))
  {
    EveryTripIsOnCourse(s, actions);
    BatchInv(After(s, actions), id);
    hide After, Legal, Initial, OnCourse, PlainTrip, Interception.Inv;
    UnhijackedIsPlain(After(s, actions).batches[id], After(s, actions).CallOf(id));
  }

  // ---- Trips begun after the hijack ----

  /** The course of a trip whose call was hijacked before it began. */
  predicate HijackedCourse(b: Batch, r: Rpc) {
    && r.hijacked
    && if b.phase.Down? then
         && b.index <= r.hijackedIndex
         && b.log == Ascending(0, b.index + 1) + if b.ran then [Run(b.index)] else []
       else Along(b, r, HijackedDown(r.hijackedIndex), r.hijackedIndex)
  }

  lemma HijackedStep(s: System, a: Action, id: nat)
    requires Sane(s) && Enabled(s, a) && id < |s.batches| && s.CallOf(id).hijacked
    requires HijackedCourse(s.batches[id], s.CallOf(id)) || (a.Fill? && a.id == id)
    ensures HijackedCourse(Next(s, a).batches[id], s.CallOf(id)) && Next(s, a).calls[s.owner[id]] == s.CallOf(id)
  {
    var b, r := s.batches[id], s.CallOf(id);
    BatchInv(s, id);
    hide Interception.Inv, HijackedCourse;
    OwnStep(s, a, id);
    if !a.Shutdown? && a.id == id {
      match a
      case Fill(_, wanted, tag) => HijackedFill(b, r, wanted, tag);
      case Answer(_) => HijackedAnswer(b, r);
      case CoreEvent(_, core) => HijackedCore(b, r, core);
      case RefuseSend(_) => HijackedRefusal(b, r);
      case HijackBy(_) =>
    }
  }

  lemma OwnStep(s: System, a: Action, id: nat)
    requires Sane(s) && Enabled(s, a) && id < |s.batches| && s.CallOf(id).hijacked
    ensures Next(s, a).calls[s.owner[id]] == s.CallOf(id)
    ensures a.Shutdown? || a.id != id ==> Next(s, a).batches[id] == s.batches[id]
  {
    hide Interception.Inv, Proceed, FillOps, FinalizeResult, FailSend;
  }

  lemma HijackedCore(b: Batch, r: Rpc, core: CoreResult)
    requires Interception.Inv(b, r) && (b.phase.InCore? || b.phase.InCoreAgain?) && HijackedCourse(b, r)
    ensures HijackedCourse(FinalizeResult(b, r, core), r)
  {
    CoreStaysAlong(b, r, core, HijackedDown(r.hijackedIndex), r.hijackedIndex);
    NotDown(b, r, core);
    hide FinalizeResult;
  }

  lemma HijackedRefusal(b: Batch, r: Rpc)
    requires AtInterceptor(b) && HijackedCourse(b, r)
    ensures HijackedCourse(FailSend(b), r)
  {
  }

  lemma HijackedFill(b: Batch, r: Rpc, wanted: seq<bool>, tag: int)
    requires Interception.Inv(b, r) && b.phase.Idle? && |wanted| == |b.ops| && r.hijacked
    ensures HijackedCourse(FillOps(b, r, wanted, tag), r)
  {
    assert Ascending(0, 1) + [] == [Run(0)];
  }

  lemma HijackedAnswer(b: Batch, r: Rpc)
    requires Interception.Inv(b, r) && AtInterceptor(b) && HijackedCourse(b, r)
    ensures HijackedCourse(Proceed(b, r), r)
  {
    if b.phase.Up? {
      UpStaysAlong(b, r, HijackedDown(r.hijackedIndex), r.hijackedIndex);
      StepUp(b, r);
    } else if b.ran {
      SecondRunEndsDown(b, r);
    } else {
      StepDown(b, r);
      assert b.log + [] == b.log;
      AscendingMore(b.index + 1);
      hide Proceed, Ascending;
    }
  }

  /** Once interceptor h has hijacked a call, every trip its batches begin from
      then on, whatever else happens, runs 0, ..., h and h again, hands core no
      operation, and runs h, ..., 0. */
  lemma {:induction false} HijackedTrips(s: System, actions: seq<Action>, id: nat)
    requires Sane(s) && Legal(s, actions) && id < |s.batches|
    requires s.CallOf(id).hijacked && s.batches[id].phase.Idle?
    ensures After(s, actions).CallOf(id) == s.CallOf(id)
    ensures var b := After(s, actions).batches[id];
      if TagsFilled(actions, id) == [] then b == s.batches[id] else HijackedCourse(b, s.CallOf(id))
  {
    if |actions| > 0 {
      var before, a := actions[..|actions| - 1], actions[|actions| - 1];
      HijackedTrips(s, before, id);
      var t := After(s, before);
      hide HijackedCourse;
      if TagsFilled(before, id) != [] || (a.Fill? && a.id == id) {
        HijackedStep(t, a, id);
      } else {
        IdleWaits(t, a, id);
      }
    }
  }

  lemma IdleWaits(s: System, a: Action, id: nat)
    requires Sane(s) && Enabled(s, a) && id < |s.batches| && s.CallOf(id).hijacked
    requires s.batches[id].phase.Idle? && !(a.Fill? && a.id == id)
    ensures Next(s, a).batches[id] == s.batches[id] && Next(s, a).calls[s.owner[id]] == s.CallOf(id)
  {
    hide Interception.Inv;
  }

  // ---- Trips overtaken by the hijack ----

  /** The course of a trip that was at interceptor i on its way down, above the
      hijacking one, when another batch hijacked the call: it is cut short, core
      gets its operations after all, and it goes up from the hijacking one. */
  ghost predicate CutCourse(b: Batch, r: Rpc, i: nat) {
    && r.hijacked && r.hijackedIndex < i < r.n
    && if b.phase.Down? then !b.ran && b.index == i && b.log == Ascending(0, i + 1)
       else exists nops: nat :: CutAlong(b, r, i, nops)
  }

  predicate CutAlong(b: Batch, r: Rpc, i: nat, nops: nat) {
    Along(b, r, PlainDown(i + 1, nops), r.hijackedIndex)
  }

  lemma CutStep(s: System, a: Action, id: nat, i: nat)
    requires Sane(s) && Enabled(s, a) && id < |s.batches| && !(a.Fill? && a.id == id)
    requires CutCourse(s.batches[id], s.CallOf(id), i)
    ensures CutCourse(Next(s, a).batches[id], s.CallOf(id), i) && Next(s, a).calls[s.owner[id]] == s.CallOf(id)
  {
    var b, r := s.batches[id], s.CallOf(id);
    BatchInv(s, id);
    hide Interception.Inv, CutCourse;
    assert r.hijacked by { CutIsHijacked(b, r, i); }
    OwnStep(s, a, id);
    if !a.Shutdown? && a.id == id {
      match a
      case Answer(_) => CutAnswer(b, r, i);
      case CoreEvent(_, core) => CutCore(b, r, core, i);
      case RefuseSend(_) => CutRefusal(b, r, i);
      case HijackBy(_) =>
    }
  }

  lemma CutIsHijacked(b: Batch, r: Rpc, i: nat)
    requires CutCourse(b, r, i)
    ensures r.hijacked
  {
  }

  lemma CutAnswer(b: Batch, r: Rpc, i: nat)
    requires Interception.Inv(b, r) && AtInterceptor(b) && CutCourse(b, r, i)
    ensures CutCourse(Proceed(b, r), r, i)
  {
    var t := Proceed(b, r);
    if b.phase.Up? {
      var nops: nat :| CutAlong(b, r, i, nops);
      UpStaysAlong(b, r, PlainDown(i + 1, nops), r.hijackedIndex);
      StepUp(b, r);
      assert CutAlong(t, r, i, nops);
    } else {
      StepDown(b, r);
      assert b.log + [] == b.log;
      StraightEndsDown(b, r);
      hide Proceed;
      assert t.log == PlainDown(i + 1, OpsAdded(b.ops));
      hide Ascending, OpsAdded;
      assert CutAlong(t, r, i, OpsAdded(b.ops));
    }
  }

  lemma CutCore(b: Batch, r: Rpc, core: CoreResult, i: nat)
    requires Interception.Inv(b, r) && (b.phase.InCore? || b.phase.InCoreAgain?) && CutCourse(b, r, i)
    ensures CutCourse(FinalizeResult(b, r, core), r, i)
  {
    var nops: nat :| CutAlong(b, r, i, nops);
    CoreStaysAlong(b, r, core, PlainDown(i + 1, nops), r.hijackedIndex);
    NotDown(b, r, core);
    hide FinalizeResult;
    assert CutAlong(FinalizeResult(b, r, core), r, i, nops);
  }

  lemma CutRefusal(b: Batch, r: Rpc, i: nat)
    requires AtInterceptor(b) && CutCourse(b, r, i)
    ensures CutCourse(FailSend(b), r, i)
  {
    if b.phase.Up? {
      var nops: nat :| CutAlong(b, r, i, nops);
      assert CutAlong(FailSend(b), r, i, nops);
    }
  }

  lemma OvertakenAt(b: Batch, r: Rpc)
    requires Interception.Inv(b, r) && r.hijacked && b.phase.Down? && !b.ran && OnCourse(b, r)
    ensures if b.index <= r.hijackedIndex then HijackedCourse(b, r) else CutCourse(b, r, b.index)
  {
    assert b.log + [] == b.log;
  }

  /** A trip that is at interceptor i on its way down when another batch hijacks
      its call at h: over every run from there it ends like a hijacked one if
      i <= h, and is cut short if not. */
  lemma {:induction false} OverlappingTrips(s: System, actions: seq<Action>, id: nat)
    requires Sane(s) && Legal(s, actions) && id < |s.batches| && TagsFilled(actions, id) == []
    requires s.CallOf(id).hijacked && OnCourse(s.batches[id], s.CallOf(id))
    requires s.batches[id].phase.Down? && !s.batches[id].ran
    ensures After(s, actions).CallOf(id) == s.CallOf(id)
    ensures var b, r, i := After(s, actions).batches[id], s.CallOf(id), s.batches[id].index;
      if i <= r.hijackedIndex then HijackedCourse(b, r) else CutCourse(b, r, i)
  {
    BatchInv(s, id);
    hide OnCourse, HijackedCourse, CutCourse, Interception.Inv;
    if |actions| == 0 {
      OvertakenAt(s.batches[id], s.CallOf(id));
    } else {
      var before, a := actions[..|actions| - 1], actions[|actions| - 1];
      OverlappingTrips(s, before, id);
      if s.batches[id].index <= s.CallOf(id).hijackedIndex {
        HijackedStep(After(s, before), a, id);
      } else {
        CutStep(After(s, before), a, id, s.batches[id].index);
      }
    }
  }

  // ---- Interceptors above the hijacking one ----

  /** The batch was on its way up past h when, or since, the call was hijacked. */
  predicate Above(b: Batch, h: nat) { b.phase.Up? && b.index > h }

  function High(events: seq<Event>, h: nat): seq<nat> {
    if |events| == 0 then []
    else
      var last := events[|events| - 1];
      High(events[..|events| - 1], h) + if last.Run? && last.pos > h then [last.pos] else []
  }

  /** What the log of a batch gains; a Fill begins it anew. */
  function Gained(b: Batch, t: Batch, anew: bool): seq<Event> {
    if anew || |t.log| < |b.log| then t.log else t.log[|b.log|..]
  }

  /** The interceptors above h that run for batch id, in order. */
  function RunsAbove(s: System, actions: seq<Action>, id: nat, h: nat): seq<nat>
    requires Sane(s) && Legal(s, actions) && id < |s.batches|
  {
    if |actions| == 0 then []
    else
      var before, a := actions[..|actions| - 1], actions[|actions| - 1];
      var t := After(s, before);
      RunsAbove(s, before, id, h)
        + High(Gained(t.batches[id], After(s, actions).batches[id], a.Fill? && a.id == id), h)
  }

  /** from - 1, ..., to. */
  function Countdown(from: nat, to: nat): seq<nat>
    requires to <= from
  {
    seq(from - to, i requires 0 <= i < from - to => from - 1 - i)
  }

  lemma HighOne(e: Event, h: nat)
    ensures High([e], h) == if e.Run? && e.pos > h then [e.pos] else []
    ensures High([], h) == []
  {
    assert [e][..0] == [];
  }

  lemma HighTwo(e: Event, f: Event, h: nat)
    ensures High([e, f], h) == High([e], h) + High([f], h)
  {
    assert [e, f][..1] == [e];
    HighOne(e, h);
    HighOne(f, h);
  }

  /** One step of a batch of a hijacked call. */
  lemma AboveStep(b: Batch, t: Batch, r: Rpc, wanted: seq<bool>, tag: int, core: CoreResult, anew: bool)
    requires Interception.Inv(b, r) && r.hijacked
    requires
      || (anew && b.phase.Idle? && |wanted| == |b.ops| && t == FillOps(b, r, wanted, tag))
      || (!anew && AtInterceptor(b) && t == Proceed(b, r))
      || (!anew && AtInterceptor(b) && t == FailSend(b))
      || (!anew && (b.phase.InCore? || b.phase.InCoreAgain?) && t == FinalizeResult(b, r, core))
      || (!anew && t == b)
    ensures RanAbove(b, t, r.hijackedIndex, High(Gained(b, t, anew), r.hijackedIndex))
  {
    var h := r.hijackedIndex;
    hide FinishOps, FinishHooks, Cleared, StartHooks, Asked, OpsAdded, High;
    HighOne(Run(0), h);
    if t == b || t == FailSend(b) {
      assert Gained(b, t, anew) == [];
    } else if anew {
      assert t.log == [Run(0)];
    } else if b.phase.Up? {
      StepUp(b, r);
      hide Proceed;
      assert Gained(b, t, anew) == [t.log[|b.log|]];
      HighOne(t.log[|b.log|], h);
    } else if b.phase.Down? {
      DownGains(b, r);
      hide Proceed;
      HighOne(t.log[|b.log|], h);
    } else {
      FinalGains(b, r, core);
      hide FinalizeResult;
      HighOne(t.log[|b.log|], h);
    }
  }

  lemma DownGains(b: Batch, r: Rpc)
    requires Interception.Inv(b, r) && b.phase.Down? && r.hijacked
    ensures var t := Proceed(b, r);
      && !t.phase.Up? && |t.log| == |b.log| + 1 && Gained(b, t, false) == [t.log[|b.log|]]
      && !(t.log[|b.log|].Run? && t.log[|b.log|].pos > r.hijackedIndex)
  {
    hide OpsAdded;
  }

  lemma FinalGains(b: Batch, r: Rpc, core: CoreResult)
    requires Interception.Inv(b, r) && (b.phase.InCore? || b.phase.InCoreAgain?) && r.hijacked
    ensures var t := FinalizeResult(b, r, core);
      && !Above(t, r.hijackedIndex) && |t.log| == |b.log| + 1 && Gained(b, t, false) == [t.log[|b.log|]]
      && !(t.log[|b.log|].Run? && t.log[|b.log|].pos > r.hijackedIndex)
  {
    hide FinishOps, FinishHooks, Cleared;
  }

  lemma SystemAboveStep(s: System, a: Action, id: nat)
    requires Sane(s) && Enabled(s, a) && id < |s.batches| && s.CallOf(id).hijacked
    ensures Next(s, a).Shaped() && Next(s, a).owner == s.owner && |Next(s, a).batches| == |s.batches|
    ensures Next(s, a).CallOf(id) == s.CallOf(id)
    ensures var b, t, h := s.batches[id], Next(s, a).batches[id], s.CallOf(id).hijackedIndex;
      RanAbove(b, t, h, High(Gained(b, t, a.Fill? && a.id == id), h))
  {
    NextKeepsSane(s, a);
    BatchInv(s, id);
    var b, t, r := s.batches[id], Next(s, a).batches[id], s.CallOf(id);
    hide Interception.Inv, High, Gained, FillOps, Proceed, FinalizeResult, RanAbove, FailSend;
    if !a.Shutdown? && a.id == id {
      match a
      case Fill(_, wanted, tag) => AboveStep(b, t, r, wanted, tag, FINE, true);
      case Answer(_) => AboveStep(b, t, r, [], 0, FINE, false);
      case RefuseSend(_) => AboveStep(b, t, r, [], 0, FINE, false);
      case CoreEvent(_, core) => AboveStep(b, t, r, [], 0, core, false);
      case HijackBy(_) =>
    } else {
      assert t == b;
      AboveStep(b, t, r, [], 0, FINE, false);
    }
  }

  /** Between two states b and t of a batch the interceptors `runs` above h have
      run. */
  predicate RanAbove(b: Batch, t: Batch, h: nat, runs: seq<nat>) {
    && (Above(t, h) ==> Above(b, h) && t.index <= b.index)
    && runs == if Above(b, h) then Countdown(b.index, if Above(t, h) then t.index else h + 1) else []
  }

  lemma RanAboveJoins(b: Batch, m: Batch, t: Batch, h: nat, xs: seq<nat>, ys: seq<nat>)
    requires RanAbove(b, m, h, xs) && RanAbove(m, t, h, ys)
    ensures RanAbove(b, t, h, xs + ys)
  {
  }

  /** After a hijack at h an interceptor above h runs exactly in the batches that
      were already on their way up above h: for each of them the remaining ones
      down to h + 1 run once more, in order, and for every other batch none does,
      over every run. */
  lemma {:induction false} WhoRunsAboveTheHijacker(s: System, actions: seq<Action>, id: nat)
    requires Sane(s) && Legal(s, actions) && id < |s.batches| && s.CallOf(id).hijacked
    ensures After(s, actions).CallOf(id) == s.CallOf(id)
    ensures var h := s.CallOf(id).hijackedIndex;
      RanAbove(s.batches[id], After(s, actions).batches[id], h, RunsAbove(s, actions, id, h))
  {
    if |actions| > 0 {
      var before, a, h := actions[..|actions| - 1], actions[|actions| - 1], s.CallOf(id).hijackedIndex;
      var t := After(s, before);
      WhoRunsAboveTheHijacker(s, before, id);
      SystemAboveStep(t, a, id);
      var now := After(s, actions).batches[id];
      assert now == Next(t, a).batches[id];
      var gained := High(Gained(t.batches[id], now, a.Fill? && a.id == id), h);
      assert RunsAbove(s, actions, id, h) == RunsAbove(s, before, id, h) + gained;
      hide High, Gained, RanAbove, RunsAbove, Next, Enabled, Sane;
      RanAboveJoins(s.batches[id], t.batches[id], now, h, RunsAbove(s, before, id, h), gained);
    }
  }

  // ---- Runs in which a batch is overtaken ----

  /** An op set of one slot. */
  function Single(kind: Kind): Batch {
    Batch(Idle, [Op(kind, false, false, false, false, false)], 0, false, false, 0, false, false, {}, 0, [], [], [])
  }

  /** A call with three interceptors; the first of its two batches receives the
      status, the second sends the initial metadata. */
  const TWO_BATCHES :=
    System([Rpc(3, false, 0)], [0, 0], [Single(ClientRecvStatus), Single(SendInitialMetadata)], 1, false, 0)

  /** The second batch is still with interceptor 0, which is shown its initial
      metadata; the first has come to interceptor `index`. */
  predicate Staged(t: System, phase: Phase, index: nat) {
    && t.calls == TWO_BATCHES.calls && t.owner == TWO_BATCHES.owner && |t.batches| == 2 && t.coreShutdowns == 0
    && Waits(t.batches[1])
    && Comes(t.batches[0], phase, index)
  }

  predicate Waits(b: Batch) {
    b.phase.Down? && !b.ran && b.index == 0 && b.hooks == {PreSendInitialMetadata}
  }

  predicate Comes(b: Batch, phase: Phase, index: nat) {
    && b.phase == phase
    && (phase.Down? || phase.InCore? ==> b.ops == [Op(ClientRecvStatus, true, false, false, false, false)])
    && (phase.Down? ==> !b.ran && b.index == index && b.log == Ascending(0, index + 1))
    && (phase.Up? ==> b.index == index)
  }

  lemma SecondBegins()
    ensures Initial(TWO_BATCHES) && Sane(TWO_BATCHES) && Enabled(TWO_BATCHES, Fill(1, [true], 8))
    ensures var t := Next(TWO_BATCHES, Fill(1, [true], 8));
      && t.calls == TWO_BATCHES.calls && t.owner == TWO_BATCHES.owner && |t.batches| == 2 && t.coreShutdowns == 0
      && Waits(t.batches[1]) && t.batches[0] == Single(ClientRecvStatus)
  {
    var ops := Asked(TWO_BATCHES.batches[1].ops, [true]);
    assert ops == [Op(SendInitialMetadata, true, false, false, false, false)];
    assert ops[..0] == [] && StartHooks(ops) == {PreSendInitialMetadata};
    hide StartHooks, Asked;
  }

  lemma FirstBegins(t: System)
    requires Sane(t) && t.calls == TWO_BATCHES.calls && t.owner == TWO_BATCHES.owner && |t.batches| == 2
    requires t.coreShutdowns == 0 && Waits(t.batches[1]) && t.batches[0] == Single(ClientRecvStatus)
    ensures Enabled(t, Fill(0, [true], 7)) && Staged(Next(t, Fill(0, [true], 7)), Down, 0)
  {
    var ops := Asked(t.batches[0].ops, [true]);
    assert ops == [Op(ClientRecvStatus, true, false, false, false, false)];
    assert Ascending(0, 1) == [Run(0)];
    hide StartHooks, Asked, Interception.Inv, Ascending;
  }

  lemma FirstAnswers(t: System, i: nat)
    requires Sane(t) && Staged(t, Down, i) && i < 3
    ensures Enabled(t, Answer(0)) && Staged(Next(t, Answer(0)), if i < 2 then Down else InCore, i + 1)
  {
    var b, r := t.batches[0], t.CallOf(0);
    StepDown(b, r);
    AscendingMore(i + 1);
    AnswerKeepsOps(b, r);
    hide Interception.Inv, OpsAdded, Proceed, Ascending;
  }

  lemma AnswerKeepsOps(b: Batch, r: Rpc)
    requires AtInterceptor(b) && b.index < r.n && !r.hijacked
    ensures Proceed(b, r).ops == b.ops
  {
  }

  lemma FirstReturns(t: System)
    requires Sane(t) && Staged(t, InCore, 3)
    ensures Enabled(t, CoreEvent(0, FINE)) && Staged(Next(t, CoreEvent(0, FINE)), Up, 2)
  {
    hide FinishHooks, OpsAdded, FinishOps, Cleared;
  }

  lemma SecondHijacks(t: System, phase: Phase, index: nat)
    requires Sane(t) && Staged(t, phase, index)
    ensures Enabled(t, HijackBy(1))
    ensures var v := Next(t, HijackBy(1));
      && Sane(v) && |v.batches| == 2 && v.CallOf(0) == Rpc(3, true, 0) && v.batches[0] == t.batches[0]
  {
    NextKeepsSane(t, HijackBy(1));
    hide Interception.Inv, Hijacked, HijackHooks, Comes;
  }

  /** Both batches are begun, and the first is answered k times. */
  lemma Stage(k: nat) returns (actions: seq<Action>)
    requires k <= 3
    ensures Initial(TWO_BATCHES) && Sane(TWO_BATCHES) && Legal(TWO_BATCHES, actions)
    ensures Staged(After(TWO_BATCHES, actions), if k < 3 then Down else InCore, k)
  {
    SecondBegins();
    actions := [];
    assert Legal(TWO_BATCHES, actions) && After(TWO_BATCHES, actions) == TWO_BATCHES;
    hide After, Legal, Next, Enabled, Staged, Sane, Initial;
    StepLegal(TWO_BATCHES, actions, Fill(1, [true], 8));
    actions := actions + [Fill(1, [true], 8)];
    FirstBegins(After(TWO_BATCHES, actions));
    StepLegal(TWO_BATCHES, actions, Fill(0, [true], 7));
    actions := actions + [Fill(0, [true], 7)];
    for i := 0 to k
      invariant Sane(TWO_BATCHES) && Legal(TWO_BATCHES, actions)
      invariant Staged(After(TWO_BATCHES, actions), if i < 3 then Down else InCore, i)
    {
      FirstAnswers(After(TWO_BATCHES, actions), i);
      StepLegal(TWO_BATCHES, actions, Answer(0));
      actions := actions + [Answer(0)];
    }
  }

  /** A run after which interceptor 0 has hijacked the call, shown its initial
      metadata, and interceptor 1 then runs: the batch that receives the status
      had come back from core before. */
  lemma OneAboveRuns() returns (actions: seq<Action>)
    ensures Initial(TWO_BATCHES) && Sane(TWO_BATCHES) && Legal(TWO_BATCHES, actions + [HijackBy(1)])
    ensures PreSendInitialMetadata in After(TWO_BATCHES, actions).batches[1].hooks
    ensures var t := After(TWO_BATCHES, actions + [HijackBy(1)]);
      && t.CallOf(0).hijacked && t.CallOf(0).hijackedIndex == 0
      && Legal(t, [Answer(0)]) && RunsAbove(t, [Answer(0)], 0, 0) == [1]
  {
    actions := Stage(3);
    var before := After(TWO_BATCHES, actions);
    FirstReturns(before);
    StepLegal(TWO_BATCHES, actions, CoreEvent(0, FINE));
    actions := actions + [CoreEvent(0, FINE)];
    var t := After(TWO_BATCHES, actions);
    SecondHijacks(t, Up, 2);
    StepLegal(TWO_BATCHES, actions, HijackBy(1));
    assert PreSendInitialMetadata in t.batches[1].hooks && t.batches[0].phase.Up? && t.batches[0].index == 2;
    hide After, Legal, Next, Enabled, Staged;
    AnswersAbove(After(TWO_BATCHES, actions + [HijackBy(1)]));
  }

  lemma AnswersAbove(t: System)
    requires Sane(t) && |t.batches| > 0 && t.CallOf(0).hijacked && t.CallOf(0).hijackedIndex == 0
    requires t.batches[0].phase.Up? && t.batches[0].index == 2
    ensures Legal(t, [Answer(0)]) && RunsAbove(t, [Answer(0)], 0, 0) == [1]
  {
    StepLegal(t, [], Answer(0));
    assert [] + [Answer(0)] == [Answer(0)];
    WhoRunsAboveTheHijacker(t, [Answer(0)], 0);
    BatchInv(t, 0);
    StepUp(t.batches[0], t.CallOf(0));
    hide Proceed;
    assert After(t, [Answer(0)]).batches[0].index == 1;
  }

  /** A run after which interceptor 0 has hijacked the call, shown its initial
      metadata, and a batch then hands core its operation all the same: it was
      with interceptor 1 on its way down, and interceptor 2 never sees it. */
  lemma CutBatchReachesCore() returns (actions: seq<Action>)
    ensures Initial(TWO_BATCHES) && Sane(TWO_BATCHES) && Legal(TWO_BATCHES, actions + [HijackBy(1)])
    ensures PreSendInitialMetadata in After(TWO_BATCHES, actions).batches[1].hooks
    ensures var t := After(TWO_BATCHES, actions + [HijackBy(1)]);
      && t.CallOf(0).hijacked && t.CallOf(0).hijackedIndex == 0
      && Legal(t, [Answer(0)])
      && After(t, [Answer(0)]).batches[0].log == [Run(0), Run(1), ContinueFillOps(1)]
  {
    actions := Stage(1);
    var t := After(TWO_BATCHES, actions);
    SecondHijacks(t, Down, 1);
    StepLegal(TWO_BATCHES, actions, HijackBy(1));
    assert PreSendInitialMetadata in t.batches[1].hooks && Comes(t.batches[0], Down, 1);
    hide After, Legal, Next, Enabled, Staged, Comes;
    AnswersCut(After(TWO_BATCHES, actions + [HijackBy(1)]));
  }

  lemma AnswersCut(t: System)
    requires Sane(t) && |t.batches| > 0 && t.CallOf(0) == Rpc(3, true, 0) && Comes(t.batches[0], Down, 1)
    ensures Legal(t, [Answer(0)])
    ensures After(t, [Answer(0)]).batches[0].log == [Run(0), Run(1), ContinueFillOps(1)]
  {
    var b := t.batches[0];
    StepLegal(t, [], Answer(0));
    assert [] + [Answer(0)] == [Answer(0)];
    StepDown(b, t.CallOf(0));
    assert b.ops[..0] == [] && OpsAdded(b.ops) == 1;
    assert b.log == [Run(0), Run(1)];
    hide Proceed;
  }
}
