/** The operations a batch carries, from
  GrpcIncludes/include/grpcpp/impl/codegen/call_op_set.h: which of them reach
  core, what they do to the result of a batch, and which hook points they show
  to interceptors. */
module CallOps {

  datatype Hook =
    | PreSendInitialMetadata | PreSendMessage | PostSendMessage | PreSendStatus | PreSendClose
    | PreRecvInitialMetadata | PreRecvMessage | PreRecvStatus
    | PostRecvInitialMetadata | PostRecvMessage | PostRecvStatus | PostRecvClose
    | PreSendCancel
  {
    predicate PreSend() { PreSendInitialMetadata? || PreSendMessage? || PreSendStatus? || PreSendClose? }
    predicate PreRecv() { PreRecvInitialMetadata? || PreRecvMessage? || PreRecvStatus? }
    predicate Post() {
      PostSendMessage? || PostRecvInitialMetadata? || PostRecvMessage? || PostRecvStatus? || PostRecvClose?
    }
  }

  predicate AllPreSend(hooks: set<Hook>) { forall h <- hooks :: h.PreSend() }
  predicate AllPreRecv(hooks: set<Hook>) { forall h <- hooks :: h.PreRecv() }
  predicate AllPost(hooks: set<Hook>) { forall h <- hooks :: h.Post() }

  /** What core reports for a batch: its success bit, whether the receive
      buffer holds anything, and whether that deserializes. */
  datatype CoreResult = CoreResult(success: bool, bufferValid: bool, deserializes: bool)

  datatype Kind =
    | NoOp | SendInitialMetadata | SendMessage | RecvMessage | GenericRecvMessage
    | ClientSendClose | ServerSendStatus | RecvInitialMetadata | ClientRecvStatus

  /** One slot of a CallOpSet. `active` is the flag or pointer that says the
      application asked for the operation (send_, msg_, message_,
      metadata_map_, recv_status_). `failedSend` belongs to SendMessage,
      `gotMessage` and `allowNone` to the two kinds that receive messages. */
  datatype Op = Op(kind: Kind, active: bool, hijacked: bool, failedSend: bool, gotMessage: bool, allowNone: bool)
  {
    predicate Active() { !kind.NoOp? && active }

    /** AddOp: an inactive or hijacked operation gives core nothing. */
    predicate Adds() { Active() && !hijacked }

    predicate Receives() { kind.RecvMessage? || kind.GenericRecvMessage? }

    function Ask(wanted: bool): Op { this.(active := active || wanted) }

    /** FinishOp: the slot and the status afterwards. */
    function Finish(status: bool, core: CoreResult): (Op, bool) {
      match kind
      case SendInitialMetadata => (this.(active := active && hijacked), status)
      case ServerSendStatus => (this.(active := active && hijacked), status)
      case ClientSendClose => (this.(active := false), status)
      case SendMessage =>
        if !active then (this, status)
        else if hijacked && failedSend then (this, false)
        else (this.(failedSend := failedSend || !status), status)
      case RecvMessage => FinishReceive(status, core)
      case GenericRecvMessage => FinishReceive(status, core)
      case _ => (this, status)
    }

    function FinishReceive(status: bool, core: CoreResult): (Op, bool) {
      if !Adds() then (this, status)
      else if core.bufferValid && status then
        (this.(gotMessage := kind.GenericRecvMessage? || core.deserializes), core.deserializes)
      else
        (this.(gotMessage := false), status && (core.bufferValid || allowNone))
    }

    /** SetInterceptionHookPoint. */
    function StartHooks(): set<Hook> {
      if !active then {} else
      match kind
      case SendInitialMetadata => {PreSendInitialMetadata}
      case SendMessage => {PreSendMessage}
      case ClientSendClose => {PreSendClose}
      case ServerSendStatus => {PreSendStatus}
      case _ => {}
    }

    /** SetFinishInterceptionHookPoint: the hooks, then what is cleared. */
    function FinishHooks(): set<Hook> {
      if !active then {} else
      match kind
      case SendMessage => {PostSendMessage}
      case RecvMessage => {PostRecvMessage}
      case GenericRecvMessage => {PostRecvMessage}
      case RecvInitialMetadata => {PostRecvInitialMetadata}
      case ClientRecvStatus => {PostRecvStatus}
      case _ => {}
    }

    function Clear(): Op {
      match kind
      case SendMessage => this.(active := false)
      case GenericRecvMessage => this.(active := false)
      case RecvInitialMetadata => this.(active := false)
      case ClientRecvStatus => this.(active := false)
      case _ => this
    }

    /** SetHijackingState: the hooks, then the flags. */
    function HijackHooks(): set<Hook> {
      if !active then {} else
      match kind
      case RecvMessage => {PreRecvMessage}
      case GenericRecvMessage => {PreRecvMessage}
      case RecvInitialMetadata => {PreRecvInitialMetadata}
      case ClientRecvStatus => {PreRecvStatus}
      case _ => {}
    }

    function Hijack(): Op { this.(hijacked := true, gotMessage := gotMessage || (Receives() && active)) }

    /** FailHijackedSendMessage. */
    function FailSend(): Op { this.(failedSend := failedSend || kind.SendMessage?) }
  }

  // ---- The same over the slots of a set ----

  function OpsAdded(ops: seq<Op>): nat {
    if |ops| == 0 then 0 else OpsAdded(ops[..|ops| - 1]) + if ops[|ops| - 1].Adds() then 1 else 0
  }

  function FinishOps(ops: seq<Op>, status: bool, core: CoreResult): (r: (seq<Op>, bool))
    ensures |r.0| == |ops|
  {
    if |ops| == 0 then ([], status)
    else
      var (rest, s) := FinishOps(ops[..|ops| - 1], status, core);
      var (op, t) := ops[|ops| - 1].Finish(s, core);
      (rest + [op], t)
  }

  function StartHooks(ops: seq<Op>): set<Hook> {
    if |ops| == 0 then {} else StartHooks(ops[..|ops| - 1]) + ops[|ops| - 1].StartHooks()
  }

  function FinishHooks(ops: seq<Op>): set<Hook> {
    if |ops| == 0 then {} else FinishHooks(ops[..|ops| - 1]) + ops[|ops| - 1].FinishHooks()
  }

  function HijackHooks(ops: seq<Op>): set<Hook> {
    if |ops| == 0 then {} else HijackHooks(ops[..|ops| - 1]) + ops[|ops| - 1].HijackHooks()
  }

  function Asked(ops: seq<Op>, wanted: seq<bool>): seq<Op>
    requires |ops| == |wanted|
  {
    seq(|ops|, i requires 0 <= i < |ops| => ops[i].Ask(wanted[i]))
  }

  function Cleared(ops: seq<Op>): seq<Op> { seq(|ops|, i requires 0 <= i < |ops| => ops[i].Clear()) }

  function Hijacked(ops: seq<Op>): seq<Op> { seq(|ops|, i requires 0 <= i < |ops| => ops[i].Hijack()) }

  function SendFailed(ops: seq<Op>): seq<Op> { seq(|ops|, i requires 0 <= i < |ops| => ops[i].FailSend()) }

  predicate AllHijacked(ops: seq<Op>) { forall i :: 0 <= i < |ops| ==> ops[i].hijacked }

  // ---- Laws ----

  /** A batch with at most six slots never overruns the array of MAX_OPS. */
  lemma {:induction false} OpsAddedFit(ops: seq<Op>)
    ensures OpsAdded(ops) <= |ops|
  {
    if |ops| > 0 { OpsAddedFit(ops[..|ops| - 1]); }
  }

  lemma {:induction false} HijackedOpsReachNobody(ops: seq<Op>)
    ensures AllHijacked(ops) ==> OpsAdded(ops) == 0
  {
    if |ops| > 0 { HijackedOpsReachNobody(ops[..|ops| - 1]); }
  }

  /** The three kinds of hook sets never overlap in kind, whatever operations
      are active. */
  lemma {:induction false} HookKinds(ops: seq<Op>)
    ensures AllPreSend(StartHooks(ops))
    ensures AllPreRecv(HijackHooks(ops))
    ensures AllPost(FinishHooks(ops))
  {
    if |ops| > 0 { HookKinds(ops[..|ops| - 1]); }
  }

  lemma {:induction false} FinishKeepsHijacking(ops: seq<Op>, status: bool, core: CoreResult)
    requires AllHijacked(ops)
    ensures AllHijacked(FinishOps(ops, status, core).0)
  {
    if |ops| > 0 {
      FinishKeepsHijacking(ops[..|ops| - 1], status, core);
    }
  }

  predicate SendRefused(op: Op) { op.kind.SendMessage? && op.active && op.failedSend }

  /** The slots that turn a result into a failure. */
  predicate Fails(op: Op, core: CoreResult) {
    || (SendRefused(op) && op.hijacked)
    || (op.Receives() && op.Adds() && if core.bufferValid then !core.deserializes else !op.allowNone)
  }

  predicate NoneFails(ops: seq<Op>, core: CoreResult) { forall i :: 0 <= i < |ops| ==> !Fails(ops[i], core) }

  lemma NoneFailsLast(ops: seq<Op>, core: CoreResult)
    requires |ops| > 0
    ensures NoneFails(ops, core) <==> NoneFails(ops[..|ops| - 1], core) && !Fails(ops[|ops| - 1], core)
  {
    assert forall i :: 0 <= i < |ops| - 1 ==> ops[..|ops| - 1][i] == ops[i];
  }

  /** A batch succeeds exactly when core reports success and no slot fails: a
      message that an interceptor refused to send, one that does not
      deserialize, or none where one is needed. */
  lemma {:induction false} BatchStatus(ops: seq<Op>, status: bool, core: CoreResult)
    ensures FinishOps(ops, status, core).1 <==> status && NoneFails(ops, core)
  {
    if |ops| > 0 {
      BatchStatus(ops[..|ops| - 1], status, core);
      NoneFailsLast(ops, core);
    }
  }

  /** A receiving slot got its message exactly when all was well up to it and
      there is a message; a hijacked one keeps what the interceptor said. */
  lemma {:induction false} GotMessage(ops: seq<Op>, status: bool, core: CoreResult, i: nat)
    requires i < |ops| && ops[i].Receives()
    ensures var op := FinishOps(ops, status, core).0[i];
      op.gotMessage <==>
        if ops[i].Adds() then
          && status && NoneFails(ops[..i], core) && core.bufferValid
          && (ops[i].kind.GenericRecvMessage? || core.deserializes)
        else ops[i].gotMessage
  {
    if i == |ops| - 1 {
      BatchStatus(ops[..i], status, core);
    } else {
      assert ops[..|ops| - 1][..i] == ops[..i];
      GotMessage(ops[..|ops| - 1], status, core, i);
    }
  }

  /** A hijacked batch fails exactly when core reports a failure or an
      interceptor failed the message it was to send. */
  lemma HijackedStatus(ops: seq<Op>, status: bool, core: CoreResult)
    requires AllHijacked(ops)
    ensures FinishOps(ops, status, core).1
      <==> status && forall i :: 0 <= i < |ops| ==> !SendRefused(ops[i])
  {
    BatchStatus(ops, status, core);
    assert forall i :: 0 <= i < |ops| ==> Fails(ops[i], core) == SendRefused(ops[i]);
  }

  // ---- What core gets ----

  /** The slots that hold an operation the application asked for and no
      interceptor has taken over. */
  function ForCore(ops: seq<Op>): set<int> {
    set i | 0 <= i < |ops| && !ops[i].kind.NoOp? && ops[i].active && !ops[i].hijacked
  }

  /** Core gets one operation for each of them, whatever its kind. */
  lemma {:induction false} CoreGetsAll(ops: seq<Op>)
    ensures OpsAdded(ops) == |ForCore(ops)|
  {
    if |ops| > 0 {
      var before, n := ops[..|ops| - 1], |ops| - 1;
      CoreGetsAll(before);
      assert forall i :: 0 <= i < n ==> before[i] == ops[i];
      if ops[n].Adds() {
        assert ForCore(ops) == ForCore(before) + {n};
      } else {
        assert ForCore(ops) == ForCore(before);
      }
    }
  }

  /** Slots that differ, if at all, in what an interceptor or core has said of
      their message. */
  predicate SameSlots(ops: seq<Op>, others: seq<Op>) {
    && |ops| == |others|
    && forall i :: 0 <= i < |ops| ==>
         ops[i].kind == others[i].kind && ops[i].active == others[i].active && ops[i].hijacked == others[i].hijacked
  }

  lemma SameForCore(ops: seq<Op>, others: seq<Op>)
    requires SameSlots(ops, others)
    ensures ForCore(ops) == ForCore(others)
  {
  }

  // ---- What interceptors are shown ----

  /** The hook point of a kind on the way down. */
  predicate ShownBefore(k: Kind, h: Hook) {
    || (k.SendInitialMetadata? && h.PreSendInitialMetadata?)
    || (k.SendMessage? && h.PreSendMessage?)
    || (k.ClientSendClose? && h.PreSendClose?)
    || (k.ServerSendStatus? && h.PreSendStatus?)
  }

  /** On the way up. */
  predicate ShownAfter(k: Kind, h: Hook) {
    || (k.SendMessage? && h.PostSendMessage?)
    || ((k.RecvMessage? || k.GenericRecvMessage?) && h.PostRecvMessage?)
    || (k.RecvInitialMetadata? && h.PostRecvInitialMetadata?)
    || (k.ClientRecvStatus? && h.PostRecvStatus?)
  }

  /** To the interceptor that hijacks. */
  predicate ShownToHijacker(k: Kind, h: Hook) {
    || ((k.RecvMessage? || k.GenericRecvMessage?) && h.PreRecvMessage?)
    || (k.RecvInitialMetadata? && h.PreRecvInitialMetadata?)
    || (k.ClientRecvStatus? && h.PreRecvStatus?)
  }

  predicate AnyBefore(ops: seq<Op>, h: Hook) {
    exists i :: 0 <= i < |ops| && ops[i].active && ShownBefore(ops[i].kind, h)
  }

  predicate AnyAfter(ops: seq<Op>, h: Hook) {
    exists i :: 0 <= i < |ops| && ops[i].active && ShownAfter(ops[i].kind, h)
  }

  predicate AnyToHijacker(ops: seq<Op>, h: Hook) {
    exists i :: 0 <= i < |ops| && ops[i].active && ShownToHijacker(ops[i].kind, h)
  }

  /** Each active slot shows its own hook point, and no other is shown. */
  lemma {:induction false} StartHooksShown(ops: seq<Op>, h: Hook)
    ensures h in StartHooks(ops) <==> AnyBefore(ops, h)
  {
    if |ops| > 0 {
      var before, last := ops[..|ops| - 1], ops[|ops| - 1];
      StartHooksShown(before, h);
      assert h in last.StartHooks() <==> last.active && ShownBefore(last.kind, h);
      hide ShownBefore, Op.StartHooks;
      assert h in StartHooks(ops) <==> h in StartHooks(before) || h in last.StartHooks();
      if h in StartHooks(before) {
        var i :| 0 <= i < |before| && before[i].active && ShownBefore(before[i].kind, h);
        assert ops[i].active && ShownBefore(ops[i].kind, h);
      }
      if i :| 0 <= i < |ops| && ops[i].active && ShownBefore(ops[i].kind, h) {
        if i < |before| { assert before[i].active && ShownBefore(before[i].kind, h); }
      }
    }
  }

  /** The same on the way up. */
  lemma {:induction false} FinishHooksShown(ops: seq<Op>, h: Hook)
    ensures h in FinishHooks(ops) <==> AnyAfter(ops, h)
  {
    if |ops| > 0 {
      var before, last := ops[..|ops| - 1], ops[|ops| - 1];
      FinishHooksShown(before, h);
      assert h in last.FinishHooks() <==> last.active && ShownAfter(last.kind, h);
      hide ShownAfter, Op.FinishHooks;
      assert h in FinishHooks(ops) <==> h in FinishHooks(before) || h in last.FinishHooks();
      if h in FinishHooks(before) {
        var i :| 0 <= i < |before| && before[i].active && ShownAfter(before[i].kind, h);
        assert ops[i].active && ShownAfter(ops[i].kind, h);
      }
      if i :| 0 <= i < |ops| && ops[i].active && ShownAfter(ops[i].kind, h) {
        if i < |before| { assert before[i].active && ShownAfter(before[i].kind, h); }
      }
    }
  }

  /** And to the interceptor that hijacks. */
  lemma {:induction false} HijackHooksShown(ops: seq<Op>, h: Hook)
    ensures h in HijackHooks(ops) <==> AnyToHijacker(ops, h)
  {
    if |ops| > 0 {
      var before, last := ops[..|ops| - 1], ops[|ops| - 1];
      HijackHooksShown(before, h);
      assert h in last.HijackHooks() <==> last.active && ShownToHijacker(last.kind, h);
      hide ShownToHijacker, Op.HijackHooks;
      assert h in HijackHooks(ops) <==> h in HijackHooks(before) || h in last.HijackHooks();
      if h in HijackHooks(before) {
        var i :| 0 <= i < |before| && before[i].active && ShownToHijacker(before[i].kind, h);
        assert ops[i].active && ShownToHijacker(ops[i].kind, h);
      }
      if i :| 0 <= i < |ops| && ops[i].active && ShownToHijacker(ops[i].kind, h) {
        if i < |before| { assert before[i].active && ShownToHijacker(before[i].kind, h); }
      }
    }
  }

  /** Hook points depend on kinds and on what is active alone. */
  lemma {:induction false} SameHooks(ops: seq<Op>, others: seq<Op>)
    requires |ops| == |others|
    requires forall i :: 0 <= i < |ops| ==> ops[i].kind == others[i].kind && ops[i].active == others[i].active
    ensures StartHooks(ops) == StartHooks(others) && HijackHooks(ops) == HijackHooks(others)
  {
    if |ops| > 0 { SameHooks(ops[..|ops| - 1], others[..|ops| - 1]); }
  }

  // ---- What a trip leaves in the slots ----

  /** An operation that a trip does not use up: a receive of a message, whose
      target stays set, and metadata or a status that a hijacker kept from core. */
  predicate CarriesOver(op: Op) {
    || op.kind.NoOp? || op.kind.RecvMessage?
    || ((op.kind.SendInitialMetadata? || op.kind.ServerSendStatus?) && op.hijacked)
  }

  lemma SlotAfterTrip(op: Op, status: bool, core: CoreResult)
    ensures var t := op.Finish(status, core).0.Clear();
      && t.kind == op.kind && t.hijacked == op.hijacked && t.allowNone == op.allowNone
      && (t.active <==> op.active && CarriesOver(op))
  {
  }

  lemma {:induction false} SlotsAfterTrip(ops: seq<Op>, status: bool, core: CoreResult, i: nat)
    requires i < |ops|
    ensures var op, t := ops[i], Cleared(FinishOps(ops, status, core).0)[i];
      && t.kind == op.kind && t.hijacked == op.hijacked && t.allowNone == op.allowNone
      && (t.active <==> op.active && CarriesOver(op))
  {
    if i < |ops| - 1 {
      SlotsAfterTrip(ops[..|ops| - 1], status, core, i);
    } else {
      SlotAfterTrip(ops[i], FinishOps(ops[..i], status, core).1, core);
    }
    hide Op.Finish, Op.Clear, CarriesOver;
  }

  /** A message counts as not sent if an interceptor said so, or if the batch had
      failed by then. */
  lemma {:induction false} SendFailure(ops: seq<Op>, status: bool, core: CoreResult, i: nat)
    requires i < |ops| && ops[i].kind.SendMessage? && ops[i].active
    ensures FinishOps(ops, status, core).0[i].failedSend <==>
      ops[i].failedSend || !(status && NoneFails(ops[..i], core))
  {
    if i == |ops| - 1 {
      BatchStatus(ops[..i], status, core);
    } else {
      assert ops[..|ops| - 1][..i] == ops[..i];
      SendFailure(ops[..|ops| - 1], status, core, i);
    }
  }

  /** When an interceptor has failed the message of a hijacked batch, the batch
      fails exactly if it has a message to send, or core reports a failure. */
  lemma RefusalFails(ops: seq<Op>, status: bool, core: CoreResult)
    requires AllHijacked(ops)
    ensures FinishOps(SendFailed(ops), status, core).1 <==>
      status && forall i :: 0 <= i < |ops| ==> !(ops[i].kind.SendMessage? && ops[i].active)
  {
    var refused := SendFailed(ops);
    assert forall i :: 0 <= i < |ops| ==> SendRefused(refused[i]) == (ops[i].kind.SendMessage? && ops[i].active);
    HijackedStatus(refused, status, core);
  }

  /** What a hijacker lets a batch receive counts as received, and nothing of the
      batch is left for core. */
  lemma HijackedReceive(ops: seq<Op>, status: bool, core: CoreResult, i: nat)
    requires i < |ops|
    ensures ForCore(Hijacked(ops)) == {}
    ensures Hijacked(ops)[i].kind == ops[i].kind && Hijacked(ops)[i].active == ops[i].active
    ensures ops[i].Receives() ==>
      (FinishOps(Hijacked(ops), status, core).0[i].gotMessage <==> ops[i].active || ops[i].gotMessage)
  {
    if ops[i].Receives() { GotMessage(Hijacked(ops), status, core, i); }
  }

  /** Asking adds to what is active and takes nothing away. */
  lemma AskedSlots(ops: seq<Op>, wanted: seq<bool>, i: nat)
    requires |ops| == |wanted| && i < |ops|
    ensures var t := Asked(ops, wanted)[i];
      && t == ops[i].(active := t.active)
      && (t.active <==> ops[i].active || wanted[i])
  {
  }
}
