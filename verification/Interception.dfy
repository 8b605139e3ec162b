/** One batch on its way through the interceptors and core and back:
  InterceptorBatchMethodsImpl
  (GrpcIncludes/include/grpcpp/impl/codegen/interceptor_common.h) inside
  CallOpSet (GrpcIncludes/include/grpcpp/impl/codegen/call_op_set.h). */
module Interception {
  import opened CallOps

  /** ClientRpcInfo: shared by all batches of a call. */
  datatype Rpc = Rpc(n: nat, hijacked: bool, hijackedIndex: nat) {
    predicate Valid() { hijacked ==> hijackedIndex < n }
  }

  datatype Event =
    | Run(pos: nat)
    | ContinueFillOps(nops: nat)
    | ContinueFinalizeResult
    | Return(tag: int, status: bool)

  /** Where a batch is: with the application, waiting for interceptor `index`
      on the way down, in core, waiting on the way up, in core once more. */
  datatype Phase = Idle | Down | InCore | Up | InCoreAgain

  /** `refs`, `computed`, `delivered` and `log` are the history of a batch:
      call references taken, results of FinishOps, results handed to the
      application, and what happened in the current trip. */
  datatype Batch = Batch(
    phase: Phase, ops: seq<Op>, returnTag: int, doneIntercepting: bool, savedStatus: bool,
    index: nat, reverse: bool, ran: bool, hooks: set<Hook>,
    refs: int, computed: seq<(int, bool)>, delivered: seq<(int, bool)>, log: seq<Event>)

  predicate AtInterceptor(b: Batch) { b.phase.Down? || b.phase.Up? }

  // ---- Steps ----

  /** RunInterceptor: its assertion that the position exists is the
      precondition here, so it is proved wherever an interceptor is run. */
  function RunInterceptor(b: Batch, r: Rpc, pos: nat): Batch
    requires pos < r.n
  {
    b.(index := pos, log := b.log + [Run(pos)])
  }

  function ContinueFill(b: Batch): Batch {
    b.(phase := InCore, log := b.log + [ContinueFillOps(OpsAdded(b.ops))])
  }

  function ContinueFinalize(b: Batch): Batch {
    b.(phase := InCoreAgain, doneIntercepting := true, log := b.log + [ContinueFinalizeResult])
  }

  function RunDown(b: Batch, r: Rpc): Batch {
    var b := b.(reverse := false, ran := false, hooks := StartHooks(b.ops));
    if r.n == 0 then ContinueFill(b) else RunInterceptor(b.(phase := Down), r, 0)
  }

  /** What the application asks of the slots, and set_output_tag. */
  function Prepared(b: Batch, wanted: seq<bool>, tag: int): Batch
    requires |wanted| == |b.ops|
  {
    b.(ops := Asked(b.ops, wanted), returnTag := tag)
  }

  function BeginTrip(b: Batch, r: Rpc): Batch {
    RunDown(b.(doneIntercepting := false, refs := b.refs + 1, log := []), r)
  }

  function FillOps(b: Batch, r: Rpc, wanted: seq<bool>, tag: int): Batch
    requires |wanted| == |b.ops|
  {
    BeginTrip(Prepared(b, wanted, tag), r)
  }

  function HijackBatch(b: Batch): Batch {
    b.(ops := Hijacked(b.ops), hooks := HijackHooks(b.ops), ran := true)
  }

  function Proceed(b: Batch, r: Rpc): Batch
    requires AtInterceptor(b) && b.index < r.n
  {
    if r.hijacked && !b.reverse && b.index == r.hijackedIndex && !b.ran then
      RunInterceptor(HijackBatch(b), r, b.index)
    else if !b.reverse then
      var b := b.(index := b.index + 1);
      if b.index < r.n then
        if r.hijacked && b.index > r.hijackedIndex then ContinueFill(b)
        else RunInterceptor(b, r, b.index)
      else ContinueFill(b)
    else if b.index > 0 then RunInterceptor(b, r, b.index - 1)
    else ContinueFinalize(b)
  }

  /** Hijack, with the two assertions of the source as preconditions. */
  function Hijack(b: Batch, r: Rpc): (Batch, Rpc)
    requires b.phase.Down? && !b.reverse && !b.ran && b.index < r.n
  {
    (RunInterceptor(HijackBatch(b), r, b.index), r.(hijacked := true, hijackedIndex := b.index))
  }

  function RunUp(b: Batch, r: Rpc): Batch
    requires r.Valid() && r.n > 0
  {
    var b := b.(phase := Up, reverse := true, ran := false, hooks := FinishHooks(b.ops), ops := Cleared(b.ops));
    RunInterceptor(b, r, if r.hijacked then r.hijackedIndex else r.n - 1)
  }

  function Deliver(b: Batch, tag: int, status: bool): Batch {
    b.(phase := Idle, refs := b.refs - 1, delivered := b.delivered + [(tag, status)],
       log := b.log + [Return(tag, status)])
  }

  /** FinalizeResult: the reaction to the event core delivers for the batch. */
  function FinalizeResult(b: Batch, r: Rpc, core: CoreResult): Batch
    requires r.Valid()
  {
    if b.doneIntercepting then Deliver(b, b.returnTag, b.savedStatus)
    else
      var (ops, status) := FinishOps(b.ops, core.success, core);
      var b := b.(ops := ops, savedStatus := status, computed := b.computed + [(b.returnTag, status)]);
      if r.n == 0 then
        var t := b.(reverse := true, ran := false, hooks := FinishHooks(b.ops), ops := Cleared(b.ops));
        Deliver(t, b.returnTag, status)
      else RunUp(b, r)
  }

  function FailSend(b: Batch): Batch { b.(ops := SendFailed(b.ops)) }

  // ---- What every step keeps ----

  predicate Inv(b: Batch, r: Rpc) {
    && r.Valid()
    && (AtInterceptor(b) ==> b.index < r.n)
    && (b.phase.InCoreAgain? ==> r.n > 0)
    && (b.phase.Down? ==>
          && !b.reverse
          && (if b.ran then AllPreRecv(b.hooks) else AllPreSend(b.hooks))
          && (b.ran ==> r.hijacked && b.index == r.hijackedIndex && AllHijacked(b.ops)))
    && (b.phase.Up? ==> b.reverse && AllPost(b.hooks))
    && (!b.phase.Idle? ==> b.doneIntercepting == b.phase.InCoreAgain?)
    && b.refs == (if b.phase.Idle? then 0 else 1)
    && b.computed == b.delivered
         + if b.phase.Up? || b.phase.InCoreAgain? then [(b.returnTag, b.savedStatus)] else []
  }

  lemma FillOpsKeepsInv(b: Batch, r: Rpc, wanted: seq<bool>, tag: int)
    requires Inv(b, r) && b.phase.Idle? && |wanted| == |b.ops|
    ensures Inv(FillOps(b, r, wanted, tag), r)
  {
    HookKinds(Asked(b.ops, wanted));
  }

  lemma ProceedKeepsInv(b: Batch, r: Rpc)
    requires Inv(b, r) && AtInterceptor(b)
    ensures Inv(Proceed(b, r), r)
  {
    HookKinds(b.ops);
  }

  lemma HijackKeepsInv(b: Batch, r: Rpc)
    requires Inv(b, r) && b.phase.Down? && !b.ran
    ensures Inv(Hijack(b, r).0, Hijack(b, r).1)
  {
    HookKinds(b.ops);
  }

  /** A batch survives that another batch of its call is hijacked. */
  lemma OtherHijackKeepsInv(b: Batch, r: Rpc, h: nat)
    requires Inv(b, r) && !r.hijacked && h < r.n
    ensures Inv(b, r.(hijacked := true, hijackedIndex := h))
  {
  }

  lemma FinalizeKeepsInv(b: Batch, r: Rpc, core: CoreResult)
    requires Inv(b, r) && (b.phase.InCore? || b.phase.InCoreAgain?)
    ensures Inv(FinalizeResult(b, r, core), r)
  {
    HookKinds(FinishOps(b.ops, core.success, core).0);
  }

  /** Every interception shows hook points of one kind only. */
  lemma HooksNeverMix(b: Batch, r: Rpc)
    requires Inv(b, r) && AtInterceptor(b)
    ensures AllPreSend(b.hooks) || AllPreRecv(b.hooks) || AllPost(b.hooks)
    ensures (exists h <- b.hooks :: h.PreRecv()) ==> AllPreRecv(b.hooks)
  {
  }

  // ---- Termination, whatever the other batches do to the call ----

  /** Interceptions still ahead at most, then whether a second one at the same
      position is possible. */
  function Ahead(b: Batch, r: Rpc): (nat, nat)
    requires AtInterceptor(b) && b.index < r.n
  {
    if b.reverse then (b.index, 0) else (r.n - b.index, if b.ran then 0 else 1)
  }

  predicate Below(x: (nat, nat), y: (nat, nat)) { x.0 < y.0 || (x.0 == y.0 && x.1 < y.1) }

  lemma ProceedGetsCloser(b: Batch, r: Rpc)
    requires Inv(b, r) && AtInterceptor(b)
    ensures AtInterceptor(Proceed(b, r)) ==>
      Proceed(b, r).phase == b.phase && Below(Ahead(Proceed(b, r), r), Ahead(b, r))
    ensures !AtInterceptor(Proceed(b, r)) ==>
      Proceed(b, r).phase == if b.phase.Down? then InCore else InCoreAgain
    ensures b.phase.Down? && !b.ran ==> Below(Ahead(Hijack(b, r).0, r), Ahead(b, r))
  {
  }

  // ---- Whole passes ----

  /** The answers of k interceptors, one after the other, while the call stays
      as it is. */
  function Proceeds(b: Batch, r: Rpc, k: nat): (t: Batch)
    requires Inv(b, r)
    ensures Inv(t, r) && t.delivered == b.delivered
  {
    if k == 0 then b
    else
      var before := Proceeds(b, r, k - 1);
      if AtInterceptor(before) then
        ProceedKeepsInv(before, r);
        Proceed(before, r)
      else before
  }

  /** Run(from), Run(from + 1), ..., Run(to - 1). */
  function Ascending(from: nat, to: nat): seq<Event>
    requires from <= to
  {
    seq(to - from, i requires 0 <= i < to - from => Run(from + i))
  }

  /** Run(from - 1), ..., Run(to). */
  function Descending(from: nat, to: nat): seq<Event>
    requires to <= from
  {
    seq(from - to, i requires 0 <= i < from - to => Run(from - 1 - i))
  }

  lemma Regroup(a: seq<Event>, b: seq<Event>, c: seq<Event>)
    ensures a + b + c == a + (b + c)
  {
  }

  /** How a pass down ends from interceptor i on, when the batch has nops
      operations for core and the call stays as it is. */
  function RestOfPassDown(r: Rpc, nops: nat, i: nat): seq<Event>
    requires r.Valid() && i < r.n
    decreases r.n - i
  {
    if r.hijacked && i == r.hijackedIndex then [Run(i), ContinueFillOps(0)]
    else if i + 1 == r.n || (r.hijacked && i > r.hijackedIndex) then [ContinueFillOps(nops)]
    else [Run(i + 1)] + RestOfPassDown(r, nops, i + 1)
  }

  /** Written out: up to the hijacker, who is run twice; or nobody; or all. */
  lemma {:induction false} RestOfPassDownIs(r: Rpc, nops: nat, i: nat)
    requires r.Valid() && i < r.n
    ensures RestOfPassDown(r, nops, i) ==
      if r.hijacked && i <= r.hijackedIndex then
        Ascending(i + 1, r.hijackedIndex + 1) + [Run(r.hijackedIndex), ContinueFillOps(0)]
      else if r.hijacked then [ContinueFillOps(nops)]
      else Ascending(i + 1, r.n) + [ContinueFillOps(nops)]
    decreases r.n - i
  {
    if r.hijacked && i == r.hijackedIndex {
    } else if i + 1 == r.n || (r.hijacked && i > r.hijackedIndex) {
    } else {
      RestOfPassDownIs(r, nops, i + 1);
      var last := if r.hijacked then r.hijackedIndex + 1 else r.n;
      assert Ascending(i + 1, last) == [Run(i + 1)] + Ascending(i + 2, last);
    }
  }

  /** Run(i - 1), ..., Run(0), then the end of the pass up. */
  function RestOfPassUp(i: nat): seq<Event> {
    if i == 0 then [ContinueFinalizeResult] else [Run(i - 1)] + RestOfPassUp(i - 1)
  }

  lemma {:induction false} RestOfPassUpIs(i: nat)
    ensures RestOfPassUp(i) == Descending(i, 0) + [ContinueFinalizeResult]
  {
    if i > 0 {
      RestOfPassUpIs(i - 1);
      assert Descending(i, 0) == [Run(i - 1)] + Descending(i - 1, 0);
    }
  }

  /** The number of answers that takes. */
  function AnswersDown(r: Rpc, i: nat): nat
    requires r.Valid() && i < r.n
  {
    if r.hijacked && i <= r.hijackedIndex then r.hijackedIndex - i + 2
    else if r.hijacked then 1
    else r.n - i
  }

  lemma {:induction false} ProceedsFromFirst(b: Batch, r: Rpc, k: nat)
    requires Inv(b, r) && AtInterceptor(b) && k > 0
    ensures Inv(Proceed(b, r), r)
    ensures Proceeds(b, r, k) == Proceeds(Proceed(b, r), r, k - 1)
  {
    ProceedKeepsInv(b, r);
    if k == 1 {
      assert Proceeds(b, r, 0) == b;
      assert Proceeds(b, r, 1) == Proceed(b, r);
    } else {
      ProceedsFromFirst(b, r, k - 1);
    }
  }

  lemma NoneYet(b: Batch, r: Rpc)
    requires Inv(b, r)
    ensures Proceeds(b, r, 0) == b
  {
  }

  /** One answer on the way down, before any second run. */
  lemma StepDown(b: Batch, r: Rpc)
    requires Inv(b, r) && b.phase.Down? && !b.ran
    ensures r.Valid() && b.index < r.n
    ensures var t := Proceed(b, r);
      if r.hijacked && b.index == r.hijackedIndex then
        t.phase.Down? && t.ran && t.index == b.index && t.log == b.log + [Run(b.index)]
      else if b.index + 1 == r.n || (r.hijacked && b.index > r.hijackedIndex) then
        t.phase.InCore? && t.log == b.log + [ContinueFillOps(OpsAdded(b.ops))]
      else
        t.phase.Down? && !t.ran && t.ops == b.ops && t.index == b.index + 1 && t.log == b.log + [Run(b.index + 1)]
  {
  }

  lemma StepUp(b: Batch, r: Rpc)
    requires Inv(b, r) && b.phase.Up?
    ensures var t := Proceed(b, r);
      && t.savedStatus == b.savedStatus && t.returnTag == b.returnTag
      && if b.index > 0 then t.phase.Up? && t.index == b.index - 1 && t.log == b.log + [Run(b.index - 1)]
         else t.phase.InCoreAgain? && t.log == b.log + [ContinueFinalizeResult]
  {
  }

  lemma AnsweredSecondRun(b: Batch, r: Rpc)
    requires Inv(b, r) && b.phase.Down? && b.ran
    ensures Proceeds(b, r, 1).phase == InCore
    ensures Proceeds(b, r, 1).log == b.log + [ContinueFillOps(0)]
  {
    ProceedsFromFirst(b, r, 1);
    assert Proceeds(Proceed(b, r), r, 0) == Proceed(b, r);
    HijackedOpsReachNobody(b.ops);
  }

  lemma DownUnfolds(r: Rpc, nops: nat, i: nat)
    requires r.Valid() && i < r.n
    ensures if r.hijacked && i == r.hijackedIndex then
        RestOfPassDown(r, nops, i) == [Run(i), ContinueFillOps(0)] && AnswersDown(r, i) == 2
      else if i + 1 == r.n || (r.hijacked && i > r.hijackedIndex) then
        RestOfPassDown(r, nops, i) == [ContinueFillOps(nops)] && AnswersDown(r, i) == 1
      else
        && RestOfPassDown(r, nops, i) == [Run(i + 1)] + RestOfPassDown(r, nops, i + 1)
        && AnswersDown(r, i) == AnswersDown(r, i + 1) + 1 > 0
  {
  }

  /** From any interceptor of a pass down, whether the call was hijacked
      before, since, or not at all, the rest of the pass is RestOfPassDown. */
  lemma {:induction false} PassDownFrom(b: Batch, r: Rpc)
    requires Inv(b, r) && b.phase.Down? && !b.ran
    ensures Proceeds(b, r, AnswersDown(r, b.index)).phase == InCore
    ensures Proceeds(b, r, AnswersDown(r, b.index)).log == b.log + RestOfPassDown(r, OpsAdded(b.ops), b.index)
    decreases r.n - b.index
  {
    hide Proceed, Proceeds, OpsAdded, RestOfPassDown, AnswersDown;
    var t := Proceed(b, r);
    StepDown(b, r);
    DownUnfolds(r, OpsAdded(b.ops), b.index);
    ProceedsFromFirst(b, r, AnswersDown(r, b.index));
    hide Inv;
    NoneYet(t, r);
    if t.phase.Down? && t.ran {
      AnsweredSecondRun(t, r);
      assert [Run(b.index)] + [ContinueFillOps(0)] == [Run(b.index), ContinueFillOps(0)];
      Regroup(b.log, [Run(b.index)], [ContinueFillOps(0)]);
    } else if t.phase.Down? {
      PassDownFrom(t, r);
      Regroup(b.log, [Run(t.index)], RestOfPassDown(r, OpsAdded(t.ops), t.index));
    }
  }

  lemma AscendingFirst(to: nat)
    requires to > 0
    ensures Ascending(0, to) == [Run(0)] + Ascending(1, to)
  {
  }

  /** FillOps on a call with interceptors, not hijacked: 0, ..., n-1 run once
      each, then core gets the batch, once. */
  lemma UnhijackedPassDown(b: Batch, r: Rpc, wanted: seq<bool>, tag: int)
    requires Inv(b, r) && b.phase.Idle? && |wanted| == |b.ops| && r.n > 0 && !r.hijacked
    ensures var s := FillOps(b, r, wanted, tag);
      && Inv(s, r)
      && Proceeds(s, r, r.n).phase == InCore
      && Proceeds(s, r, r.n).log == Ascending(0, r.n) + [ContinueFillOps(OpsAdded(Asked(b.ops, wanted)))]
  {
    hide Proceeds, RestOfPassDown, OpsAdded, StartHooks, Ascending;
    FillOpsKeepsInv(b, r, wanted, tag);
    var s := FillOps(b, r, wanted, tag);
    assert s.log == [Run(0)] && s.phase.Down? && !s.ran && s.index == 0 && s.ops == Asked(b.ops, wanted);
    hide FillOps, Inv, Asked;
    PassDownFrom(s, r);
    RestOfPassDownIs(r, OpsAdded(s.ops), 0);
    AscendingFirst(r.n);
    Regroup([Run(0)], Ascending(1, r.n), [ContinueFillOps(OpsAdded(s.ops))]);
  }

  /** Once interceptor h has hijacked the call, every pass down runs 0, ..., h,
      then h a second time, and core gets a batch of no operations. */
  lemma HijackedPassDown(b: Batch, r: Rpc, wanted: seq<bool>, tag: int)
    requires Inv(b, r) && b.phase.Idle? && |wanted| == |b.ops| && r.hijacked
    ensures var s, h := FillOps(b, r, wanted, tag), r.hijackedIndex;
      && Inv(s, r)
      && Proceeds(s, r, h + 2).phase == InCore
      && Proceeds(s, r, h + 2).log == Ascending(0, h + 1) + [Run(h), ContinueFillOps(0)]
  {
    hide Proceeds, RestOfPassDown, OpsAdded, StartHooks, Ascending, Asked;
    FillOpsKeepsInv(b, r, wanted, tag);
    var s, h := FillOps(b, r, wanted, tag), r.hijackedIndex;
    assert s.log == [Run(0)] && s.phase.Down? && !s.ran && s.index == 0;
    hide FillOps, Inv;
    PassDownFrom(s, r);
    RestOfPassDownIs(r, OpsAdded(s.ops), 0);
    AscendingFirst(h + 1);
    Regroup([Run(0)], Ascending(1, h + 1), [Run(h), ContinueFillOps(0)]);
  }

  /** The pass in which interceptor h hijacks: h is run once more at once. */
  lemma HijackingPass(b: Batch, r: Rpc)
    requires Inv(b, r) && b.phase.Down? && !b.ran
    ensures var (t, q) := Hijack(b, r);
      && Inv(t, q) && q.hijacked && q.hijackedIndex == b.index
      && Proceeds(t, q, 1).phase == InCore
      && Proceeds(t, q, 1).log == b.log + [Run(b.index), ContinueFillOps(0)]
  {
    HijackKeepsInv(b, r);
    var (t, q) := Hijack(b, r);
    AnsweredSecondRun(t, q);
  }

  /** A pass that is under way at interceptor i when another batch hijacks the
      call at h: the hijacker answers for it exactly when i <= h. Beyond h it
      is cut short and its operations go to core after all. */
  lemma OverlappingPass(b: Batch, r: Rpc, h: nat)
    requires Inv(b, r) && b.phase.Down? && !r.hijacked && h < r.n
    ensures var q := r.(hijacked := true, hijackedIndex := h);
      && Inv(b, q) && !b.ran
      && var t := Proceeds(b, q, AnswersDown(q, b.index));
         && t.phase == InCore
         && t.log == b.log +
              if b.index <= h then Ascending(b.index + 1, h + 1) + [Run(h), ContinueFillOps(0)]
              else [ContinueFillOps(OpsAdded(b.ops))]
  {
    OtherHijackKeepsInv(b, r, h);
    var q := r.(hijacked := true, hijackedIndex := h);
    assert !b.ran;
    PassDownFrom(b, q);
    hide Proceeds, Inv, Ascending, RestOfPassDown, OpsAdded;
    RestOfPassDownIs(q, OpsAdded(b.ops), b.index);
  }

  lemma {:induction false} PassUpFrom(b: Batch, r: Rpc)
    requires Inv(b, r) && b.phase.Up?
    ensures var t := Proceeds(b, r, b.index + 1);
      && t.phase == InCoreAgain
      && t.log == b.log + RestOfPassUp(b.index)
      && t.savedStatus == b.savedStatus && t.returnTag == b.returnTag
    decreases b.index
  {
    hide Proceed, Proceeds;
    var t := Proceed(b, r);
    ProceedsFromFirst(b, r, b.index + 1);
    StepUp(b, r);
    hide Inv;
    NoneYet(t, r);
    if b.index > 0 {
      PassUpFrom(t, r);
      Regroup(b.log, [Run(t.index)], RestOfPassUp(t.index));
    }
  }

  /** The pass up starts at the hijacking interceptor, or at n-1 without one,
      and runs every position down to 0 once, then core once more. */
  lemma PassUp(b: Batch, r: Rpc, core: CoreResult)
    requires Inv(b, r) && b.phase.InCore? && r.n > 0
    ensures var s := FinalizeResult(b, r, core);
      var top := if r.hijacked then r.hijackedIndex else r.n - 1;
      && Inv(s, r) && s.phase == Up
      && Proceeds(s, r, top + 1).phase == InCoreAgain
      && Proceeds(s, r, top + 1).log == b.log + (Descending(top + 1, 0) + [ContinueFinalizeResult])
  {
    hide FinishOps, FinishHooks, Cleared, Descending, Proceeds, AllPost, AllPreRecv, AllPreSend;
    FinalizeKeepsInv(b, r, core);
    var s := FinalizeResult(b, r, core);
    assert s.phase.Up? && s.log == b.log + [Run(s.index)];
    assert s.index == if r.hijacked then r.hijackedIndex else r.n - 1;
    hide FinalizeResult, Inv;
    PassUpFrom(s, r);
    RestOfPassUpIs(s.index + 1);
    Regroup(b.log, [Run(s.index)], RestOfPassUp(s.index));
  }

  /** From core to the application: without interceptors at the first event,
      with them at the second one, and always with the status FinishOps made
      of the first event, whatever the second one reports. */
  lemma ResultIsFirstStatus(b: Batch, r: Rpc, first: CoreResult, second: CoreResult)
    requires Inv(b, r) && b.phase.InCore?
    ensures var s := FinalizeResult(b, r, first);
      var result := (b.returnTag, FinishOps(b.ops, first.success, first).1);
      && Inv(s, r)
      && (r.n == 0 ==> s.phase.Idle? && s.delivered == b.delivered + [result])
      && (r.n > 0 ==>
            var t := Proceeds(s, r, s.index + 1);
            && s.delivered == b.delivered
            && t.phase.InCoreAgain?
            && FinalizeResult(t, r, second).phase.Idle?
            && FinalizeResult(t, r, second).delivered == b.delivered + [result])
  {
    hide FinishHooks, Cleared, Proceeds, AllPost, AllPreRecv, AllPreSend, RestOfPassUp;
    FinalizeKeepsInv(b, r, first);
    if r.n > 0 {
      var s := FinalizeResult(b, r, first);
      assert s.phase.Up? && s.returnTag == b.returnTag && s.delivered == b.delivered;
      assert s.savedStatus == FinishOps(b.ops, first.success, first).1;
      hide FinishOps, FinishHooks, Cleared;
      PassUpFrom(s, r);
      SecondEventReturns(Proceeds(s, r, s.index + 1), r, second);
    }
  }

  lemma SecondEventReturns(b: Batch, r: Rpc, core: CoreResult)
    requires Inv(b, r) && b.phase.InCoreAgain?
    ensures FinalizeResult(b, r, core).phase.Idle?
    ensures FinalizeResult(b, r, core).delivered == b.delivered + [(b.returnTag, b.savedStatus)]
  {
  }

  // ---- The server's interceptors ----

  /** ProceedServer, for a batch with an op set. */
  function ProceedServer(b: Batch, r: Rpc): Batch
    requires AtInterceptor(b) && b.index < r.n
  {
    if !b.reverse then
      if b.index + 1 < r.n then RunInterceptor(b, r, b.index + 1)
      else ContinueFill(b.(index := b.index + 1))
    else if b.index > 0 then RunInterceptor(b, r, b.index - 1)
    else ContinueFinalize(b)
  }

  /** A server batch takes the path of a client batch nobody hijacks, so the
      pass lemmas above speak of it too. */
  lemma ServerIsUnhijackedClient(b: Batch, r: Rpc)
    requires Inv(b, r) && AtInterceptor(b)
    ensures ProceedServer(b, r) == Proceed(b, r) <==>
      !(r.hijacked && !b.reverse
        && ((b.index == r.hijackedIndex && !b.ran) || (b.index + 1 < r.n && b.index >= r.hijackedIndex)))
  {
    if !b.reverse && b.index + 1 < r.n {
      assert RunInterceptor(b, r, b.index + 1).log[|b.log|] == Run(b.index + 1);
      assert ContinueFill(b).log[|b.log|] == ContinueFillOps(OpsAdded(b.ops));
      assert RunInterceptor(HijackBatch(b), r, b.index).log[|b.log|] == Run(b.index);
    }
  }
}
