/** Many batches of many calls on one completion queue: the avalanche counter
  of GrpcIncludes/include/grpcpp/impl/codegen/completion_queue_impl.h, which
  holds back the shutdown of core while intercepted batches are under way. */
module CompletionQueueModel {
  import opened CallOps
  import opened Interception

  /** `owner[i]` is the call of batch i. `released` says that Shutdown has given
      back the reservation made at construction. */
  datatype System = System(calls: seq<Rpc>, owner: seq<nat>, batches: seq<Batch>,
                           avalanches: int, released: bool, coreShutdowns: nat)
  {
    predicate Shaped() {
      && |owner| == |batches|
      && forall i :: 0 <= i < |owner| ==> owner[i] < |calls|
    }

    function CallOf(i: nat): Rpc
      requires Shaped() && i < |batches|
    {
      calls[owner[i]]
    }

    function SetBatch(i: nat, b: Batch): System
      requires i < |batches|
    {
      this.(batches := batches[i := b])
    }

    function RegisterAvalanching(): System { this.(avalanches := avalanches + 1) }

    function CompleteAvalanching(): System {
      this.(avalanches := avalanches - 1, coreShutdowns := coreShutdowns + if avalanches == 1 then 1 else 0)
    }
  }

  datatype Action =
    | Fill(id: nat, wanted: seq<bool>, tag: int)
    | Answer(id: nat)
    | HijackBy(id: nat)
    | RefuseSend(id: nat)
    | CoreEvent(id: nat, core: CoreResult)
    | Shutdown

  /** What the environment may do next. Interceptors answer in any order and at
      any time; only one interceptor hijacks a call; Shutdown is called once;
      intercepted batches are begun while core still runs. */
  predicate Enabled(s: System, a: Action)
    requires s.Shaped()
  {
    match a
    case Fill(id, wanted, tag) =>
      id < |s.batches| && Fillable(s, id, wanted) && (s.CallOf(id).n > 0 ==> s.coreShutdowns == 0)
    case Answer(id) => id < |s.batches| && AtInterceptor(s.batches[id])
    case HijackBy(id) =>
      id < |s.batches| && s.batches[id].phase.Down? && !s.batches[id].ran && !s.CallOf(id).hijacked
    case RefuseSend(id) =>
      id < |s.batches| && AtInterceptor(s.batches[id]) && PreSendMessage in s.batches[id].hooks
    case CoreEvent(id, core) =>
      id < |s.batches| && (s.batches[id].phase.InCore? || s.batches[id].phase.InCoreAgain?)
    case Shutdown => !s.released
  }

  predicate Fillable(s: System, id: nat, wanted: seq<bool>)
    requires s.Shaped() && id < |s.batches|
  {
    s.batches[id].phase.Idle? && |wanted| == |s.batches[id].ops|
  }

  function FillStep(s: System, id: nat, wanted: seq<bool>, tag: int): System
    requires s.Shaped() && id < |s.batches| && Fillable(s, id, wanted)
  {
    var t := s.SetBatch(id, FillOps(s.batches[id], s.CallOf(id), wanted, tag));
    if s.CallOf(id).n > 0 then t.RegisterAvalanching() else t
  }

  function Next(s: System, a: Action): System
    requires Sane(s) && Enabled(s, a)
  {
    match a
    case Fill(id, wanted, tag) => FillStep(s, id, wanted, tag)
    case Answer(id) => s.SetBatch(id, Proceed(s.batches[id], s.CallOf(id)))
    case HijackBy(id) =>
      var (b, r) := Hijack(s.batches[id], s.CallOf(id));
      s.SetBatch(id, b).(calls := s.calls[s.owner[id] := r])
    case RefuseSend(id) => s.SetBatch(id, FailSend(s.batches[id]))
    case CoreEvent(id, core) =>
      var t := s.SetBatch(id, FinalizeResult(s.batches[id], s.CallOf(id), core));
      if s.batches[id].doneIntercepting then t.CompleteAvalanching() else t
    case Shutdown => s.(released := true).CompleteAvalanching()
  }

  // ---- The invariant ----

  predicate Intercepted(s: System, i: nat)
    requires s.Shaped() && i < |s.batches|
  {
    !s.batches[i].phase.Idle? && s.CallOf(i).n > 0
  }

  /** Intercepted batches under way among the first k. */
  function InFlight(s: System, k: nat): nat
    requires s.Shaped() && k <= |s.batches|
  {
    if k == 0 then 0 else InFlight(s, k - 1) + if Intercepted(s, k - 1) then 1 else 0
  }

  predicate Counted(s: System)
    requires s.Shaped()
  {
    && s.avalanches == (if s.released then 0 else 1) + InFlight(s, |s.batches|)
    && s.coreShutdowns == (if s.avalanches == 0 then 1 else 0)
  }

  predicate BatchesKept(s: System)
    requires s.Shaped()
  {
    forall i :: 0 <= i < |s.batches| ==> Interception.Inv(s.batches[i], s.CallOf(i))
  }

  /** Every batch is in order; nothing about the counter. */
  predicate Sane(s: System) { s.Shaped() && BatchesKept(s) }

  predicate Inv(s: System) { Sane(s) && Counted(s) }

  lemma {:induction false} InFlightChanges(s: System, t: System, id: nat, k: nat)
    requires s.Shaped() && t.Shaped() && |s.batches| == |t.batches| && id < |s.batches| && k <= |s.batches|
    requires forall i :: 0 <= i < |s.batches| && i != id ==> Intercepted(s, i) == Intercepted(t, i)
    ensures InFlight(t, k) - InFlight(s, k) ==
      if id < k then (if Intercepted(t, id) then 1 else 0) - (if Intercepted(s, id) then 1 else 0) else 0
  {
    if k > 0 { InFlightChanges(s, t, id, k - 1); }
  }

  lemma FinalizeOrNot(b: Batch, r: Rpc, core: CoreResult)
    requires Interception.Inv(b, r) && (b.phase.InCore? || b.phase.InCoreAgain?)
    ensures var t := FinalizeResult(b, r, core);
      && Interception.Inv(t, r)
      && (b.doneIntercepting <==> b.phase.InCoreAgain?)
      && (r.n > 0 ==> (t.phase.Idle? <==> b.doneIntercepting))
      && (b.doneIntercepting ==> r.n > 0)
  {
    FinalizeKeepsInv(b, r, core);
  }

  lemma RefuseSendKeepsInv(b: Batch, r: Rpc)
    requires Interception.Inv(b, r) && AtInterceptor(b)
    ensures Interception.Inv(FailSend(b), r)
  {
  }

  lemma BatchStepKeepsInv(s: System, t: System, id: nat, b: Batch)
    requires Inv(s) && id < |s.batches| && Interception.Inv(b, s.CallOf(id))
    requires t.calls == s.calls && t.owner == s.owner && t.batches == s.batches[id := b]
    requires t.released == s.released
    requires var change := (if b.phase.Idle? then 0 else 1) - (if s.batches[id].phase.Idle? then 0 else 1);
      if s.CallOf(id).n == 0 || change == 0 then t.avalanches == s.avalanches && t.coreShutdowns == s.coreShutdowns
      else if change == 1 then t == s.SetBatch(id, b).RegisterAvalanching() && s.coreShutdowns == 0
      else t == s.SetBatch(id, b).CompleteAvalanching()
    ensures Inv(t)
  {
    hide Interception.Inv;
    InFlightChanges(s, t, id, |s.batches|);
  }

  lemma HijackKeepsSystem(s: System, id: nat)
    requires Inv(s) && Enabled(s, HijackBy(id))
    ensures Inv(Next(s, HijackBy(id)))
  {
    var t := Next(s, HijackBy(id));
    var h := s.batches[id].index;
    HijackKeepsInv(s.batches[id], s.CallOf(id));
    forall i | 0 <= i < |s.batches| && i != id
      ensures Interception.Inv(t.batches[i], t.CallOf(i))
    {
      if s.owner[i] == s.owner[id] {
        OtherHijackKeepsInv(s.batches[i], s.CallOf(i), h);
      }
    }
    hide Interception.Inv;
    InFlightChanges(s, t, id, |s.batches|);
  }

  lemma BatchStepKeepsSane(s: System, t: System, id: nat, b: Batch)
    requires Sane(s) && id < |s.batches| && Interception.Inv(b, s.CallOf(id))
    requires t.calls == s.calls && t.owner == s.owner && t.batches == s.batches[id := b]
    ensures Sane(t)
  {
    hide Interception.Inv;
  }

  lemma HijackKeepsSane(s: System, id: nat)
    requires Sane(s) && Enabled(s, HijackBy(id))
    ensures Sane(Next(s, HijackBy(id)))
  {
    var t := Next(s, HijackBy(id));
    var h := s.batches[id].index;
    HijackKeepsInv(s.batches[id], s.CallOf(id));
    forall i | 0 <= i < |s.batches| && i != id
      ensures Interception.Inv(t.batches[i], t.CallOf(i))
    {
      if s.owner[i] == s.owner[id] {
        OtherHijackKeepsInv(s.batches[i], s.CallOf(i), h);
      }
    }
  }

  lemma NextKeepsSane(s: System, a: Action)
    requires Sane(s) && Enabled(s, a)
    ensures Sane(Next(s, a)) && Next(s, a).owner == s.owner && |Next(s, a).batches| == |s.batches|
  {
    match a
    case Fill(id, wanted, tag) =>
      FillOpsKeepsInv(s.batches[id], s.CallOf(id), wanted, tag);
      BatchStepKeepsSane(s, Next(s, a), id, FillOps(s.batches[id], s.CallOf(id), wanted, tag));
    case Answer(id) =>
      ProceedKeepsInv(s.batches[id], s.CallOf(id));
      BatchStepKeepsSane(s, Next(s, a), id, Proceed(s.batches[id], s.CallOf(id)));
    case HijackBy(id) =>
      HijackKeepsSane(s, id);
    case RefuseSend(id) =>
      RefuseSendKeepsInv(s.batches[id], s.CallOf(id));
      BatchStepKeepsSane(s, Next(s, a), id, FailSend(s.batches[id]));
    case CoreEvent(id, core) =>
      FinalizeKeepsInv(s.batches[id], s.CallOf(id), core);
      BatchStepKeepsSane(s, Next(s, a), id, FinalizeResult(s.batches[id], s.CallOf(id), core));
    case Shutdown =>
      hide Interception.Inv;
      assert forall i :: 0 <= i < |s.batches| ==> Next(s, a).CallOf(i) == s.CallOf(i);
  }

  lemma NextKeepsInv(s: System, a: Action)
    requires Inv(s) && Enabled(s, a)
    ensures Inv(Next(s, a))
  {
    match a
    case Fill(id, wanted, tag) =>
      FillOpsKeepsInv(s.batches[id], s.CallOf(id), wanted, tag);
      BatchStepKeepsInv(s, Next(s, a), id, FillOps(s.batches[id], s.CallOf(id), wanted, tag));
    case Answer(id) =>
      ProceedKeepsInv(s.batches[id], s.CallOf(id));
      BatchStepKeepsInv(s, Next(s, a), id, Proceed(s.batches[id], s.CallOf(id)));
    case HijackBy(id) =>
      HijackKeepsSystem(s, id);
    case RefuseSend(id) =>
      RefuseSendKeepsInv(s.batches[id], s.CallOf(id));
      BatchStepKeepsInv(s, Next(s, a), id, FailSend(s.batches[id]));
    case CoreEvent(id, core) =>
      FinalizeOrNot(s.batches[id], s.CallOf(id), core);
      BatchStepKeepsInv(s, Next(s, a), id, FinalizeResult(s.batches[id], s.CallOf(id), core));
    case Shutdown =>
      ShutdownKeepsInv(s);
  }

  lemma ShutdownKeepsInv(s: System)
    requires Inv(s) && !s.released
    ensures Inv(s.(released := true).CompleteAvalanching())
  {
    var t := s.(released := true).CompleteAvalanching();
    hide Interception.Inv;
    assert forall i :: 0 <= i < |s.batches| ==> t.CallOf(i) == s.CallOf(i);
    SameInFlight(s, t, |s.batches|);
  }

  lemma {:induction false} SameInFlight(s: System, t: System, k: nat)
    requires s.Shaped() && t.Shaped() && k <= |s.batches|
    requires s.calls == t.calls && s.owner == t.owner && s.batches == t.batches
    ensures InFlight(s, k) == InFlight(t, k)
  {
    if k > 0 { SameInFlight(s, t, k - 1); }
  }

  // ---- Runs ----

  predicate Fresh(b: Batch) {
    && b.phase.Idle? && b.refs == 0 && b.computed == b.delivered == [] && b.log == []
  }

  /** After construction: the reservation, idle op sets, calls as created. */
  predicate Initial(s: System) {
    && s.Shaped()
    && (forall i :: 0 <= i < |s.calls| ==> !s.calls[i].hijacked)
    && (forall i :: 0 <= i < |s.batches| ==> Fresh(s.batches[i]))
    && s.avalanches == 1 && !s.released && s.coreShutdowns == 0
  }

  predicate Legal(s: System, actions: seq<Action>)
    requires Sane(s)
    decreases |actions|, 0
  {
    |actions| > 0 ==>
      var before := actions[..|actions| - 1];
      Legal(s, before) && Enabled(After(s, before), actions[|actions| - 1])
  }

  function After(s: System, actions: seq<Action>): (t: System)
    requires Sane(s) && Legal(s, actions)
    ensures Sane(t) && |t.batches| == |s.batches| && t.owner == s.owner
    decreases |actions|, 1
  {
    if |actions| == 0 then s
    else
      var before := After(s, actions[..|actions| - 1]);
      NextKeepsSane(before, actions[|actions| - 1]);
      Next(before, actions[|actions| - 1])
  }

  lemma {:induction false} RunKeepsInv(s: System, actions: seq<Action>)
    requires Inv(s) && Legal(s, actions)
    ensures Inv(After(s, actions))
  {
    if |actions| > 0 {
      RunKeepsInv(s, actions[..|actions| - 1]);
      NextKeepsInv(After(s, actions[..|actions| - 1]), actions[|actions| - 1]);
    }
  }

  lemma {:induction false} InitialInFlight(s: System, k: nat)
    requires Initial(s) && k <= |s.batches|
    ensures InFlight(s, k) == 0
  {
    if k > 0 { InitialInFlight(s, k - 1); }
  }

  lemma InitialIsInv(s: System)
    requires Initial(s)
    ensures Sane(s) && Inv(s)
  {
    InitialInFlight(s, |s.batches|);
  }

  /** The tags handed to FillOps for a batch, in order. */
  function TagsFilled(actions: seq<Action>, id: nat): seq<int> {
    if |actions| == 0 then []
    else
      var last := actions[|actions| - 1];
      TagsFilled(actions[..|actions| - 1], id) + if last.Fill? && last.id == id then [last.tag] else []
  }

  function Tags(results: seq<(int, bool)>): seq<int> {
    seq(|results|, i requires 0 <= i < |results| => results[i].0)
  }

  predicate Accounted(b: Batch, filled: seq<int>) {
    filled == Tags(b.delivered) + if b.phase.Idle? then [] else [b.returnTag]
  }

  lemma FinalizeAccounts(b: Batch, r: Rpc, core: CoreResult, filled: seq<int>)
    requires Interception.Inv(b, r) && (b.phase.InCore? || b.phase.InCoreAgain?) && Accounted(b, filled)
    ensures Accounted(FinalizeResult(b, r, core), filled)
  {
    var t := FinalizeResult(b, r, core);
    hide FinishOps, FinishHooks, Cleared;
    if t.phase.Idle? {
      assert Tags(t.delivered) == Tags(b.delivered) + [b.returnTag];
    } else {
      assert t.delivered == b.delivered;
    }
  }

  lemma AnswerAccounts(b: Batch, r: Rpc, filled: seq<int>)
    requires Interception.Inv(b, r) && AtInterceptor(b) && Accounted(b, filled)
    ensures Accounted(Proceed(b, r), filled) && Accounted(FailSend(b), filled)
    ensures b.phase.Down? && !b.ran ==> Accounted(Hijack(b, r).0, filled)
  {
    hide Tags;
  }

  lemma FillAccounts(b: Batch, r: Rpc, wanted: seq<bool>, tag: int, filled: seq<int>)
    requires Interception.Inv(b, r) && b.phase.Idle? && |wanted| == |b.ops| && Accounted(b, filled)
    ensures Accounted(FillOps(b, r, wanted, tag), filled + [tag])
  {
    hide Tags;
  }

  lemma NextAccounts(s: System, a: Action, id: nat, filled: seq<int>)
    requires Inv(s) && Enabled(s, a) && id < |s.batches| && Accounted(s.batches[id], filled)
    ensures Accounted(Next(s, a).batches[id], filled + if a.Fill? && a.id == id then [a.tag] else [])
  {
    var b := s.batches[id];
    assert filled + [] == filled;
    hide Accounted, Tags, Counted, InFlight;
    if !a.Shutdown? && a.id == id {
      match a
      case Fill(_, wanted, tag) => FillAccounts(b, s.CallOf(id), wanted, tag, filled);
      case CoreEvent(_, core) => FinalizeAccounts(b, s.CallOf(id), core, filled);
      case Answer(_) => AnswerAccounts(b, s.CallOf(id), filled);
      case HijackBy(_) => AnswerAccounts(b, s.CallOf(id), filled);
      case RefuseSend(_) => AnswerAccounts(b, s.CallOf(id), filled);
    }
  }

  /** Every FillOps leads to one result with its own tag, in order; the one
      under way, if any, is the last. With Inv: its status is the one FinishOps
      made of the first core event, and the call references balance. */
  lemma {:induction false} OneResultPerFill(s: System, actions: seq<Action>, id: nat)
    requires Initial(s) && Legal(s, actions) && id < |s.batches|
    ensures Accounted(After(s, actions).batches[id], TagsFilled(actions, id))
  {
    InitialIsInv(s);
    if |actions| > 0 {
      var before, last := actions[..|actions| - 1], actions[|actions| - 1];
      OneResultPerFill(s, before, id);
      RunKeepsInv(s, before);
      NextAccounts(After(s, before), last, id, TagsFilled(before, id));
    }
  }

  /** Over every run: the counter is the reservation, if still held, plus the
      intercepted batches under way; core is shut down at most once, and that
      exactly when Shutdown was called and no such batch is under way; the
      references of an idle batch are given back. */
  lemma ShutdownOnceAndOnlyWhenDrained(s: System, actions: seq<Action>)
    requires Initial(s) && Legal(s, actions)
    ensures var t := After(s, actions);
      && t.avalanches == (if t.released then 0 else 1) + InFlight(t, |t.batches|)
      && t.coreShutdowns <= 1
      && (t.coreShutdowns == 1 <==> t.released && forall i :: 0 <= i < |t.batches| ==> !Intercepted(t, i))
      && forall i :: 0 <= i < |t.batches| && t.batches[i].phase.Idle? ==>
           t.batches[i].refs == 0 && t.batches[i].computed == t.batches[i].delivered
  {
    var t := After(s, actions);
    InitialIsInv(s);
    RunKeepsInv(s, actions);
    NoneInFlight(t, |t.batches|);
  }

  lemma {:induction false} NoneInFlight(s: System, k: nat)
    requires s.Shaped() && k <= |s.batches|
    ensures InFlight(s, k) == 0 <==> forall i :: 0 <= i < k ==> !Intercepted(s, i)
  {
    if k > 0 { NoneInFlight(s, k - 1); }
  }

  /** In every interception of every run the hook points are of one kind. */
  lemma EveryInterceptionShowsOneKind(s: System, actions: seq<Action>, id: nat)
    requires Sane(s) && Legal(s, actions) && id < |s.batches|
    ensures var b := After(s, actions).batches[id];
      AtInterceptor(b) ==>
        && (AllPreSend(b.hooks) || AllPreRecv(b.hooks) || AllPost(b.hooks))
        && ((exists h <- b.hooks :: h.PreRecv()) ==> AllPreRecv(b.hooks))
  {
    var t := After(s, actions);
    if AtInterceptor(t.batches[id]) {
      HooksNeverMix(t.batches[id], t.CallOf(id));
    }
  }

  // ---- A batch begun too late ----

  /** The phases a batch still goes through, then the interceptors. */
  function StillToGo(b: Batch, r: Rpc): (nat, nat, nat)
    requires Interception.Inv(b, r)
  {
    match b.phase
    case Down => (3, Ahead(b, r).0, Ahead(b, r).1)
    case InCore => (2, 0, 0)
    case Up => (1, Ahead(b, r).0, Ahead(b, r).1)
    case InCoreAgain => (0, 0, 0)
    case Idle => (0, 0, 0)
  }

  const FINE := CoreResult(true, true, true)

  lemma StepLegal(s: System, actions: seq<Action>, a: Action)
    requires Sane(s) && Legal(s, actions) && Enabled(After(s, actions), a)
    ensures Legal(s, actions + [a]) && After(s, actions + [a]) == Next(After(s, actions), a)
  {
    assert (actions + [a])[..|actions + [a]| - 1] == actions;
  }

  /** The next step of a batch that nobody else disturbs. */
  lemma GoOn(s: System, id: nat) returns (a: Action)
    requires Sane(s) && id < |s.batches| && Intercepted(s, id)
    ensures Enabled(s, a)
    ensures var t, b := Next(s, a), s.batches[id];
      && Sane(t) && |t.batches| == |s.batches|
      && if b.phase.InCoreAgain? then t == s.SetBatch(id, t.batches[id]).CompleteAvalanching()
         else
           && t == s.SetBatch(id, t.batches[id]) && Intercepted(t, id)
           && (StillToGo(t.batches[id], t.CallOf(id)).0 < StillToGo(b, s.CallOf(id)).0
               || (t.batches[id].phase == b.phase && AtInterceptor(b)
                   && Below(Ahead(t.batches[id], t.CallOf(id)), Ahead(b, s.CallOf(id)))))
  {
    var b, r := s.batches[id], s.CallOf(id);
    a := if AtInterceptor(b) then Answer(id) else CoreEvent(id, FINE);
    NextKeepsSane(s, a);
    if AtInterceptor(b) {
      ProceedGetsCloser(b, r);
      hide Proceed, Interception.Inv;
    } else {
      FinalizeOrNot(b, r, FINE);
      FinalizePhases(b, r, FINE);
      hide FinalizeResult;
    }
  }

  lemma FinalizePhases(b: Batch, r: Rpc, core: CoreResult)
    requires Interception.Inv(b, r) && r.n > 0
    ensures b.phase.InCore? ==> FinalizeResult(b, r, core).phase.Up?
    ensures b.phase.InCoreAgain? ==> FinalizeResult(b, r, core).phase.Idle?
  {
    hide FinishOps, FinishHooks, Cleared;
  }

  /** An intercepted batch can always be brought to its end, which gives back
      its count. */
  lemma FinishTrip(s: System, actions: seq<Action>, id: nat) returns (longer: seq<Action>)
    requires Sane(s) && Legal(s, actions) && id < |s.batches| && Intercepted(After(s, actions), id)
    ensures Legal(s, longer)
    ensures var t := After(s, actions);
      After(s, longer).coreShutdowns == t.coreShutdowns + if t.avalanches == 1 then 1 else 0
    decreases StillToGo(After(s, actions).batches[id], After(s, actions).CallOf(id)).0,
      StillToGo(After(s, actions).batches[id], After(s, actions).CallOf(id)).1,
      StillToGo(After(s, actions).batches[id], After(s, actions).CallOf(id)).2
  {
    var t := After(s, actions);
    var a := GoOn(t, id);
    StepLegal(s, actions, a);
    longer := actions + [a];
    hide Legal, After, Next, Enabled, Interception.Inv;
    if !t.batches[id].phase.InCoreAgain? {
      longer := FinishTrip(s, longer, id);
    }
  }

  ghost predicate ShutsDownTwice(s: System, actions: seq<Action>) {
    Sane(s) && Legal(s, actions) && After(s, actions).coreShutdowns >= 2
  }

  lemma FilledIsIntercepted(s: System, id: nat, wanted: seq<bool>, tag: int)
    requires Sane(s) && id < |s.batches| && Fillable(s, id, wanted) && s.CallOf(id).n > 0
    ensures var t := FillStep(s, id, wanted, tag);
      && Sane(t) && |t.batches| == |s.batches| && Intercepted(t, id)
      && t.avalanches == s.avalanches + 1 && t.coreShutdowns == s.coreShutdowns
  {
    FillOpsKeepsInv(s.batches[id], s.CallOf(id), wanted, tag);
    BatchStepKeepsSane(s, FillStep(s, id, wanted, tag), id, FillOps(s.batches[id], s.CallOf(id), wanted, tag));
    hide StartHooks, Asked;
  }

  /** An intercepted batch can be begun safely exactly while core has not been
      shut down. Begun later, it brings the counter from zero to zero once more,
      and when it ends core is shut down a second time; begun in time, no
      continuation does that. */
  lemma FillSafeExactlyWhileOpen(s: System, id: nat, wanted: seq<bool>, tag: int)
    requires Inv(s) && id < |s.batches| && Fillable(s, id, wanted) && s.CallOf(id).n > 0
    ensures Inv(FillStep(s, id, wanted, tag)) <==> s.coreShutdowns == 0
    ensures (exists actions :: ShutsDownTwice(FillStep(s, id, wanted, tag), actions)) <==> s.coreShutdowns == 1
  {
    var t := FillStep(s, id, wanted, tag);
    FilledIsIntercepted(s, id, wanted, tag);
    if s.coreShutdowns == 0 {
      NextKeepsInv(s, Fill(id, wanted, tag));
      forall actions | Sane(t) && Legal(t, actions)
        ensures After(t, actions).coreShutdowns <= 1
      {
        RunKeepsInv(t, actions);
      }
    } else {
      assert t.avalanches == 1;
      var actions := FinishTrip(t, [], id);
      assert ShutsDownTwice(t, actions);
    }
  }

  /** Such a state is reached at once: from every initial state Shutdown alone
      shuts core down, and any intercepted batch begun then does it again. */
  lemma LateBatchShutsDownAgain(s: System, id: nat, wanted: seq<bool>, tag: int)
    requires Initial(s) && id < |s.batches| && |wanted| == |s.batches[id].ops| && s.CallOf(id).n > 0
    ensures Legal(s, [Shutdown]) && After(s, [Shutdown]).coreShutdowns == 1
    ensures Fillable(After(s, [Shutdown]), id, wanted)
    ensures exists actions :: ShutsDownTwice(FillStep(After(s, [Shutdown]), id, wanted, tag), actions)
  {
    InitialIsInv(s);
    StepLegal(s, [], Shutdown);
    assert [] + [Shutdown] == [Shutdown];
    var t := After(s, [Shutdown]);
    RunKeepsInv(s, [Shutdown]);
    FillSafeExactlyWhileOpen(t, id, wanted, tag);
  }
}
