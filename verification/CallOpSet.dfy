/** The op set and its interceptor state as objects, method by method, proved
  against the steps of Interception.dfy. `Intercept` and core are the
  environment: running an interceptor and starting a batch in core only leave
  their mark in the history. */
module CallOpSetModel {
  import opened CallOps
  import opened Interception

  /** Only intercepted batches come back a second time. */
  lemma SecondEventIsLast(b: Batch, r: Rpc, core: CoreResult)
    requires Interception.Inv(b, r) && (b.phase.InCore? || b.phase.InCoreAgain?)
    ensures b.doneIntercepting ==> r.n > 0
    ensures FinalizeResult(b, r, core).phase.Idle? <==> b.doneIntercepting || r.n == 0
  {
    hide FinishOps, FinishHooks, Cleared;
  }

  class ClientRpcInfo {
    const interceptors: nat
    var hijacked: bool
    var hijackedInterceptor: nat

    constructor (n: nat)
      ensures interceptors == n && !hijacked
    {
      interceptors, hijacked, hijackedInterceptor := n, false, 0;
    }

    function State(): Rpc
      reads this
    {
      Rpc(interceptors, hijacked, hijackedInterceptor)
    }
  }

  class CompletionQueue {
    var avalanchesInFlight: int
    var coreShutdowns: nat

    /** Who still needs core: the queue itself until Shutdown, and every op set
        with an intercepted batch in flight. */
    ghost var holders: set<object>

    /** The counter counts the holders, and core has been shut down, once,
        exactly when there is none left. */
    ghost predicate Valid()
      reads this
    {
      avalanchesInFlight == |holders| && coreShutdowns == if holders == {} then 1 else 0
    }

    constructor ()
      ensures Valid() && holders == {this}
    {
      avalanchesInFlight, coreShutdowns, holders := 1, 0, {this};
    }

    method RegisterAvalanching(ghost who: object)
      requires Valid() && holders != {} && who !in holders
      modifies this
      ensures Valid() && holders == old(holders) + {who}
      ensures avalanchesInFlight == old(avalanchesInFlight) + 1 && coreShutdowns == old(coreShutdowns)
    {
      avalanchesInFlight := avalanchesInFlight + 1;
      holders := holders + {who};
    }

    method CompleteAvalanching(ghost who: object)
      requires Valid() && who in holders
      modifies this
      ensures Valid() && holders == old(holders) - {who}
      ensures avalanchesInFlight == old(avalanchesInFlight) - 1
      ensures coreShutdowns == old(coreShutdowns) + if old(avalanchesInFlight) == 1 then 1 else 0
    {
      var before := avalanchesInFlight;
      avalanchesInFlight := avalanchesInFlight - 1;
      holders := holders - {who};
      if before == 1 {
        coreShutdowns := coreShutdowns + 1;
      }
    }

    /** The release of the reservation made at construction. */
    method Shutdown()
      requires Valid() && this in holders
      modifies this
      ensures Valid() && holders == old(holders) - {this}
    {
      CompleteAvalanching(this);
    }
  }

  class CallOpSet {
    const rpc: ClientRpcInfo
    const cq: CompletionQueue

    var ops: seq<Op>
    var returnTag: int
    var doneIntercepting: bool
    var savedStatus: bool

    // interceptor_methods_
    var currentInterceptorIndex: nat
    var reverse: bool
    var ranHijackingInterceptor: bool
    var hooks: set<Hook>

    // history
    ghost var phase: Phase
    ghost var refs: int
    ghost var computed: seq<(int, bool)>
    ghost var delivered: seq<(int, bool)>
    ghost var log: seq<Event>

    /** The op set holds the queue exactly while an intercepted batch of it is
        in flight. */
    ghost predicate Registered()
      reads this, cq
    {
      cq.Valid() && (this in cq.holders <==> !phase.Idle? && rpc.interceptors > 0)
    }

    ghost function State(): Batch
      reads this
    {
      Batch(phase, ops, returnTag, doneIntercepting, savedStatus, currentInterceptorIndex, reverse,
            ranHijackingInterceptor, hooks, refs, computed, delivered, log)
    }

    constructor (rpc: ClientRpcInfo, cq: CompletionQueue, slots: seq<Op>)
      requires rpc.State().Valid() && cq.Valid()
      ensures this.rpc == rpc && this.cq == cq && ops == slots
      ensures Registered()
      ensures Interception.Inv(State(), rpc.State()) && State().phase.Idle?
    {
      this.rpc, this.cq := rpc, cq;
      ops, returnTag, doneIntercepting, savedStatus := slots, 0, false, false;
      currentInterceptorIndex, reverse, ranHijackingInterceptor, hooks := 0, false, false, {};
      phase, refs, computed, delivered, log := Idle, 0, [], [], [];
    }

    method RunInterceptor(pos: nat)
      requires pos < rpc.interceptors
      modifies this`log, this`currentInterceptorIndex
      ensures State() == Interception.RunInterceptor(old(State()), rpc.State(), pos)
    {
      currentInterceptorIndex := pos;
      log := log + [Run(pos)];
    }

    method ContinueFillOpsAfterInterception()
      modifies this`log, this`phase
      ensures State() == ContinueFill(old(State()))
    {
      var nops := 0;
      for i := 0 to |ops|
        invariant nops == OpsAdded(ops[..i])
      {
        assert ops[..i + 1][..i] == ops[..i];
        if ops[i].Adds() {
          nops := nops + 1;
        }
      }
      assert ops[..|ops|] == ops;
      phase, log := InCore, log + [ContinueFillOps(nops)];
    }

    method ContinueFinalizeResultAfterInterception()
      modifies this`log, this`phase, this`doneIntercepting
      ensures State() == ContinueFinalize(old(State()))
    {
      doneIntercepting := true;
      phase, log := InCoreAgain, log + [ContinueFinalizeResult];
    }

    method SetHijackingState()
      modifies this`ops, this`hooks
      ensures State() == old(State()).(ops := Hijacked(old(ops)), hooks := old(hooks) + HijackHooks(old(ops)))
    {
      var slots, shown := [], {};
      for i := 0 to |ops|
        invariant |slots| == i && slots == Hijacked(ops)[..i]
        invariant shown == HijackHooks(ops[..i])
      {
        assert ops[..i + 1][..i] == ops[..i];
        shown := shown + ops[i].HijackHooks();
        slots := slots + [ops[i].Hijack()];
      }
      assert ops[..|ops|] == ops;
      ops, hooks := slots, hooks + shown;
    }

    method Prepare(wanted: seq<bool>, tag: int)
      requires |wanted| == |ops|
      modifies this`ops, this`returnTag
      ensures State() == Prepared(old(State()), wanted, tag)
    {
      ops, returnTag := Asked(ops, wanted), tag;
    }

    method FillOps()
      requires State().phase.Idle? && Registered()
      requires rpc.interceptors > 0 ==> cq.holders != {}
      modifies this, cq
      ensures State() == BeginTrip(old(State()), rpc.State())
      ensures Registered() && cq.holders == old(cq.holders) + if rpc.interceptors > 0 then {this} else {}
      ensures cq.avalanchesInFlight == old(cq.avalanchesInFlight) + if rpc.interceptors > 0 then 1 else 0
      ensures cq.coreShutdowns == old(cq.coreShutdowns)
    {
      hide OpsAdded, CallOps.StartHooks, CompletionQueue.Valid;
      log := [];
      doneIntercepting := false;
      refs := refs + 1;
      var empty := RunInterceptors();
      if empty {
        ContinueFillOpsAfterInterception();
      }
    }

    /** Returns true when there is nobody to ask. */
    method RunInterceptors() returns (empty: bool)
      requires cq.Valid() && (rpc.interceptors > 0 ==> cq.holders != {} && this !in cq.holders)
      modifies this`reverse, this`ranHijackingInterceptor, this`hooks
      modifies this`currentInterceptorIndex, this`log, this`phase, cq
      ensures empty == (rpc.interceptors == 0)
      ensures cq.Valid() && cq.holders == old(cq.holders) + if rpc.interceptors > 0 then {this} else {}
      ensures if empty
        then State() == old(State()).(reverse := false, ran := false, hooks := StartHooks(ops))
        else State() == RunDown(old(State()), rpc.State())
      ensures cq.avalanchesInFlight == old(cq.avalanchesInFlight) + if empty then 0 else 1
      ensures cq.coreShutdowns == old(cq.coreShutdowns)
    {
      hide CallOps.StartHooks, OpsAdded, ContinueFill, CompletionQueue.Valid;
      reverse, ranHijackingInterceptor, hooks := false, false, {};
      SetInterceptionHookPoints();
      if rpc.interceptors == 0 {
        assert cq.holders + {} == cq.holders;
        return true;
      }
      cq.RegisterAvalanching(this);
      phase := Down;
      RunClientInterceptors();
      return false;
    }

    method SetInterceptionHookPoints()
      modifies this`hooks
      ensures hooks == old(hooks) + StartHooks(ops)
    {
      var shown := {};
      for i := 0 to |ops|
        invariant shown == StartHooks(ops[..i])
      {
        assert ops[..i + 1][..i] == ops[..i];
        shown := shown + ops[i].StartHooks();
      }
      assert ops[..|ops|] == ops;
      hooks := hooks + shown;
    }

    method RunClientInterceptors()
      requires rpc.State().Valid() || !reverse
      requires rpc.interceptors > 0
      modifies this`currentInterceptorIndex, this`log
      ensures State() == Interception.RunInterceptor(old(State()), rpc.State(),
        if !reverse then 0 else if rpc.hijacked then rpc.hijackedInterceptor else rpc.interceptors - 1)
    {
      if !reverse {
        currentInterceptorIndex := 0;
      } else if rpc.hijacked {
        currentInterceptorIndex := rpc.hijackedInterceptor;
      } else {
        currentInterceptorIndex := rpc.interceptors - 1;
      }
      RunInterceptor(currentInterceptorIndex);
    }

    /** What Proceed and Hijack both do to show the current interceptor the
        receive operations of a hijacked batch. */
    method RunHijackingInterceptor()
      requires currentInterceptorIndex < rpc.interceptors
      modifies this`ops, this`hooks, this`ranHijackingInterceptor, this`log, this`currentInterceptorIndex
      ensures State() ==
        Interception.RunInterceptor(HijackBatch(old(State())), rpc.State(), old(currentInterceptorIndex))
    {
      hooks := {};
      SetHijackingState();
      ranHijackingInterceptor := true;
      RunInterceptor(currentInterceptorIndex);
    }

    method Proceed()
      requires Interception.Inv(State(), rpc.State()) && AtInterceptor(State())
      modifies this
      ensures State() == Interception.Proceed(old(State()), rpc.State())
      ensures Interception.Inv(State(), rpc.State())
    {
      ProceedKeepsInv(State(), rpc.State());
      assert currentInterceptorIndex < rpc.interceptors;
      hide OpsAdded, HijackBatch, Interception.Inv;
      if rpc.hijacked && !reverse && currentInterceptorIndex == rpc.hijackedInterceptor
         && !ranHijackingInterceptor {
        RunHijackingInterceptor();
      } else if !reverse {
        ProceedDown();
      } else {
        ProceedUp();
      }
    }

    method ProceedDown()
      requires currentInterceptorIndex < rpc.interceptors
      modifies this`log, this`phase, this`currentInterceptorIndex
      ensures var b := old(State()).(index := old(currentInterceptorIndex) + 1);
        State() ==
          if b.index < rpc.interceptors && !(rpc.hijacked && b.index > rpc.hijackedInterceptor)
          then Interception.RunInterceptor(b, rpc.State(), b.index)
          else ContinueFill(b)
    {
      currentInterceptorIndex := currentInterceptorIndex + 1;
      if currentInterceptorIndex < rpc.interceptors {
        if rpc.hijacked && currentInterceptorIndex > rpc.hijackedInterceptor {
          ContinueFillOpsAfterInterception();
        } else {
          RunInterceptor(currentInterceptorIndex);
        }
      } else {
        ContinueFillOpsAfterInterception();
      }
    }

    method ProceedUp()
      requires currentInterceptorIndex < rpc.interceptors
      modifies this`log, this`phase, this`currentInterceptorIndex, this`doneIntercepting
      ensures State() ==
        if old(currentInterceptorIndex) > 0
        then Interception.RunInterceptor(old(State()), rpc.State(), old(currentInterceptorIndex) - 1)
        else ContinueFinalize(old(State()))
    {
      if currentInterceptorIndex > 0 {
        currentInterceptorIndex := currentInterceptorIndex - 1;
        RunInterceptor(currentInterceptorIndex);
      } else {
        ContinueFinalizeResultAfterInterception();
      }
    }

    method Hijack()
      requires Interception.Inv(State(), rpc.State()) && State().phase.Down? && !ranHijackingInterceptor
      modifies this, rpc
      ensures State() == Interception.Hijack(old(State()), old(rpc.State())).0
      ensures rpc.State() == Interception.Hijack(old(State()), old(rpc.State())).1
      ensures Interception.Inv(State(), rpc.State())
    {
      HijackKeepsInv(State(), rpc.State());
      hide HijackBatch;
      rpc.hijacked := true;
      rpc.hijackedInterceptor := currentInterceptorIndex;
      RunHijackingInterceptor();
    }

    /** The event core delivers for the batch. `done` says that `tag` and
        `status` go to the application. */
    method FinalizeResult(core: CoreResult) returns (done: bool, tag: int, status: bool)
      requires Interception.Inv(State(), rpc.State()) && (State().phase.InCore? || State().phase.InCoreAgain?)
      requires Registered()
      modifies this, cq
      ensures State() == Interception.FinalizeResult(old(State()), rpc.State(), core)
      ensures Interception.Inv(State(), rpc.State())
      ensures Registered() && cq.holders == old(cq.holders) - if old(doneIntercepting) then {this} else {}
      ensures done <==> State().phase.Idle?
      ensures State().delivered == old(delivered) + if done then [(tag, status)] else []
      ensures if old(doneIntercepting)
        then && cq.avalanchesInFlight == old(cq.avalanchesInFlight) - 1
             && cq.coreShutdowns == old(cq.coreShutdowns) + if old(cq.avalanchesInFlight) == 1 then 1 else 0
        else cq.avalanchesInFlight == old(cq.avalanchesInFlight) && cq.coreShutdowns == old(cq.coreShutdowns)
    {
      FinalizeKeepsInv(State(), rpc.State(), core);
      SecondEventIsLast(State(), rpc.State(), core);
      hide FinishOps, FinishHooks, Cleared, AllHijacked, AllPreSend, AllPreRecv, AllPost;
      hide Interception.Inv;
      if doneIntercepting {
        cq.CompleteAvalanching(this);
        tag, status := returnTag, savedStatus;
        Deliver(tag, status);
        done := true;
      } else {
        done, tag, status := FirstEvent(core);
      }
    }

    method FirstEvent(core: CoreResult) returns (done: bool, tag: int, status: bool)
      requires rpc.State().Valid() && !doneIntercepting
      modifies this
      ensures State() == Interception.FinalizeResult(old(State()), rpc.State(), core)
      ensures done <==> State().phase.Idle?
      ensures done == (rpc.interceptors == 0)
      ensures State().delivered == old(delivered) + if done then [(tag, status)] else []
    {
      hide FinishOps, FinishHooks, Cleared;
      status := FinishAll(core);
      savedStatus := status;
      computed := computed + [(returnTag, status)];
      tag := returnTag;
      done := RunInterceptorsPostRecv();
      if done {
        Deliver(tag, status);
      }
    }

    ghost method Deliver(tag: int, status: bool)
      modifies this`phase, this`refs, this`delivered, this`log
      ensures State() == Interception.Deliver(old(State()), tag, status)
    {
      phase, refs, delivered := Idle, refs - 1, delivered + [(tag, status)];
      log := log + [Return(tag, status)];
    }

    method FinishAll(core: CoreResult) returns (status: bool)
      modifies this`ops
      ensures (ops, status) == FinishOps(old(ops), core.success, core)
    {
      var slots := [];
      status := core.success;
      for i := 0 to |ops|
        invariant (slots, status) == FinishOps(ops[..i], core.success, core)
      {
        assert ops[..i + 1][..i] == ops[..i];
        var (op, next) := ops[i].Finish(status, core);
        slots, status := slots + [op], next;
      }
      assert ops[..|ops|] == ops;
      ops := slots;
    }

    method RunInterceptorsPostRecv() returns (empty: bool)
      requires rpc.State().Valid()
      modifies this`reverse, this`ranHijackingInterceptor, this`hooks, this`ops
      modifies this`currentInterceptorIndex, this`log, this`phase
      ensures empty == (rpc.interceptors == 0)
      ensures if empty
        then State() ==
          old(State()).(reverse := true, ran := false, hooks := FinishHooks(old(ops)), ops := Cleared(old(ops)))
        else State() == RunUp(old(State()), rpc.State())
    {
      hide CallOps.FinishHooks, Cleared, OpsAdded;
      reverse, ranHijackingInterceptor, hooks := true, false, {};
      SetFinishInterceptionHookPoints();
      if rpc.interceptors == 0 {
        return true;
      }
      phase := Up;
      RunClientInterceptors();
      return false;
    }

    method SetFinishInterceptionHookPoints()
      modifies this`hooks, this`ops
      ensures hooks == old(hooks) + FinishHooks(old(ops)) && ops == Cleared(old(ops))
    {
      var slots, shown := [], {};
      for i := 0 to |ops|
        invariant |slots| == i && slots == Cleared(ops)[..i]
        invariant shown == FinishHooks(ops[..i])
      {
        assert ops[..i + 1][..i] == ops[..i];
        shown := shown + ops[i].FinishHooks();
        slots := slots + [ops[i].Clear()];
      }
      assert ops[..|ops|] == ops;
      ops, hooks := slots, hooks + shown;
    }
  }
}
