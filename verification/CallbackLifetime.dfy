/** The reference count that ends a callback call: ClientCallbackReaderWriterImpl
  in GrpcIncludes/include/grpcpp/impl/codegen/client_callback_impl.h. StartCall
  is not one step: reactions run, and threads that hold the call act, between
  the batches it posts. */
module CallbackLifetime {

  datatype Kind = Start | Read | Write | WritesDone | Finish

  /** The three operations an application starts itself. */
  type UserKind = k: Kind | k.Read? || k.Write? || k.WritesDone? witness Read

  datatype Event = Reaction(kind: Kind) | OnDone

  /** How far StartCall has come: not called; the start batch posted; the read
      and write tags set; the backlog of each kind posted; and the finish batch. */
  const NOT_CALLED := 0
  const START_POSTED := 1
  const TAGS_SET := 2
  const READ_POSTED := 3
  const WRITE_POSTED := 4
  const WRITES_DONE_POSTED := 5
  const FINISH_POSTED := 6

  /** Aborted: an assertion has failed, of a tag that is set twice or of core
      refusing a batch. UsedAfterEnd: an operation was started on the destroyed
      object. */
  datatype Fate = Fine | Aborted | UsedAfterEnd

  /** The first five fields are the object's, and so are `tags`, the callback
      tags that are set; `stage` is the position of StartCall. `inCore` holds
      the batches core has not completed, `lost` those that went to core without
      a callback tag and come back to nobody, `reacting` the callbacks that have
      not returned yet, `holds` the holds not removed; `issued`, `reacted` and
      `log` are history, `done` counts the calls of OnDone, each of which
      destroys the object. */
  datatype Call = Call(
    outstanding: int, started: bool, readAtStart: bool, writeAtStart: bool, writesDoneAtStart: bool,
    tags: set<Kind>, stage: nat, inCore: set<Kind>, lost: set<Kind>, reacting: multiset<Kind>, holds: nat,
    issued: multiset<Kind>, reacted: multiset<Kind>, log: seq<Event>, done: nat, fate: Fate)
  {
    /** An operation StartCall has yet to post. */
    predicate InBacklog(k: Kind) {
      || (k.Read? && readAtStart && stage < READ_POSTED)
      || (k.Write? && writeAtStart && stage < WRITE_POSTED)
      || (k.WritesDone? && writesDoneAtStart && stage < WRITES_DONE_POSTED)
    }

    function BacklogSize(): nat {
      (if InBacklog(Read) then 1 else 0) + (if InBacklog(Write) then 1 else 0)
        + (if InBacklog(WritesDone) then 1 else 0)
    }

    /** Waiting for StartCall or for core. */
    predicate Waiting(k: Kind) { k in inCore || k in lost || InBacklog(k) }
  }

  const CREATED :=
    Call(2, false, false, false, false, {}, NOT_CALLED, {}, {}, multiset{}, 0,
         multiset{}, multiset{}, [], 0, Fine)

  // ---- Steps ----

  function MaybeFinishStep(s: Call): Call {
    var t := s.(outstanding := s.outstanding - 1);
    if s.outstanding == 1 then t.(done := t.done + 1, log := t.log + [OnDone]) else t
  }

  /** PerformOps: core takes one batch of a kind at a time and answers to the
      tag the batch has then. */
  function Post(s: Call, k: Kind): Call {
    if k in s.inCore || k in s.lost then s.(fate := Aborted)
    else if k in s.tags then s.(inCore := s.inCore + {k})
    else s.(lost := s.lost + {k})
  }

  /** StartCall up to its first PerformOps. */
  function StartCallStep(s: Call): Call { Post(Begun(s), Start) }

  function Begun(s: Call): Call {
    s.(started := true, stage := START_POSTED, tags := s.tags + {Start}, issued := s.issued + multiset{Start})
  }

  /** What StartCall does next: on its way it sets tags and posts a batch. */
  function ContinueStep(s: Call): Call { if Posts(s) then Post(Advance(s), Posted(s)) else Advance(s) }

  function Advance(s: Call): Call {
    s.(stage := s.stage + 1,
       tags := s.tags + (if s.stage == START_POSTED then {Read, Write}
                         else if s.stage == WRITES_DONE_POSTED then {Finish} else {}),
       issued := s.issued + if s.stage == WRITES_DONE_POSTED then multiset{Finish} else multiset{})
  }

  function Posted(s: Call): Kind {
    if s.stage == TAGS_SET then Read else if s.stage == READ_POSTED then Write
    else if s.stage == WRITE_POSTED then WritesDone else Finish
  }

  predicate Posts(s: Call) {
    s.stage == WRITES_DONE_POSTED || (TAGS_SET <= s.stage < WRITES_DONE_POSTED && s.InBacklog(Posted(s)))
  }

  /** An operation counted and issued, with nothing posted yet. */
  function Issue(s: Call, k: UserKind): Call {
    s.(outstanding := s.outstanding + 1,
       issued := s.issued + multiset{k},
       tags := if k.WritesDone? then s.tags + {k} else s.tags)
  }

  /** Kept for StartCall. */
  function Keep(s: Call, k: UserKind): Call {
    match k
    case Read => s.(readAtStart := true)
    case Write => s.(writeAtStart := true)
    case WritesDone => s.(writesDoneAtStart := true)
  }

  /** Read, Write and WritesDone. WritesDone sets its own tag, and a tag can be
      set only once; those of reads and writes are set by StartCall. */
  function Operate(s: Call, k: UserKind): Call {
    if s.done > 0 then s.(fate := UsedAfterEnd)
    else if k.WritesDone? && k in s.tags then s.(fate := Aborted)
    else if s.started then Post(Issue(s, k), k)
    else Keep(Issue(s, k), k)
  }

  function AddHoldStep(s: Call, n: nat): Call { s.(outstanding := s.outstanding + n, holds := s.holds + n) }

  function RemoveHoldStep(s: Call): Call
    requires s.holds > 0
  {
    MaybeFinishStep(s.(holds := s.holds - 1))
  }

  /** Core completes a batch and its callback begins. */
  function Complete(s: Call, k: Kind): Call {
    s.(inCore := s.inCore - {k}, reacting := s.reacting + multiset{k},
       reacted := s.reacted + multiset{k}, log := s.log + [Reaction(k)])
  }

  /** The callback is through with the reactor and gives its count back. */
  function EndCallback(s: Call, k: Kind): Call { MaybeFinishStep(s.(reacting := s.reacting - multiset{k})) }

  datatype Action =
    | DoStartCall | DoContinue | DoOperate(op: UserKind) | DoAddHold(n: nat) | DoRemoveHold
    | DoComplete(kind: Kind) | DoEndCallback(kind: Kind)

  /** Before StartCall, inside a reaction, or under a hold. The callback of the
      finish batch calls no reaction. */
  predicate MayStart(s: Call) {
    !s.started || s.holds > 0 || exists k :: k in s.reacting && !k.Finish?
  }

  /** WritesDone is called once; a read or write is not posted before its tag is
      set. */
  predicate Ready(s: Call, k: UserKind) {
    if k.WritesDone? then k !in s.tags else !s.started || k in s.tags
  }

  /** The rules of the interface for the application and for core: one
      StartCall, at most one operation of each kind outstanding. */
  predicate Enabled(s: Call, a: Action) {
    s.fate.Fine? &&
    match a
    case DoStartCall => s.stage == NOT_CALLED
    case DoContinue => NOT_CALLED < s.stage < FINISH_POSTED
    case DoOperate(k) => MayStart(s) && !s.Waiting(k) && Ready(s, k)
    case DoAddHold(_) => MayStart(s)
    case DoRemoveHold => s.holds > 0
    case DoComplete(k) => k in s.inCore
    case DoEndCallback(k) => k in s.reacting
  }

  function Next(s: Call, a: Action): Call
    requires Enabled(s, a)
  {
    match a
    case DoStartCall => StartCallStep(s)
    case DoContinue => ContinueStep(s)
    case DoOperate(k) => Operate(s, k)
    case DoAddHold(n) => AddHoldStep(s, n)
    case DoRemoveHold => RemoveHoldStep(s)
    case DoComplete(k) => Complete(s, k)
    case DoEndCallback(k) => EndCallback(s, k)
  }

  // ---- The count ----

  /** What the count should be: start and finish as long as they are not posted,
      waiting operations, callbacks under way, holds. */
  function Due(s: Call): nat {
    (if s.stage == NOT_CALLED then 1 else 0) + (if s.stage < FINISH_POSTED then 1 else 0)
      + |s.inCore| + s.BacklogSize() + |s.reacting| + s.holds
  }

  /** Which batches can be where, and which tags are set. */
  predicate Placed(s: Call) {
    && s.stage <= FINISH_POSTED
    && (s.started <==> s.stage > NOT_CALLED)
    && (!s.started ==> s.inCore == s.lost == {} && s.reacting == multiset{})
    && (s.stage < FINISH_POSTED ==> Finish !in s.inCore)
    && s.inCore <= s.tags
    && (Read in s.tags <==> s.stage >= TAGS_SET)
    && (Write in s.tags <==> s.stage >= TAGS_SET)
    && (s.writesDoneAtStart ==> WritesDone in s.tags)
  }

  /** No operation is in core and in the backlog at once. */
  predicate Apart(s: Call) { forall k <- s.inCore :: !s.InBacklog(k) }

  predicate Tallied(s: Call, extra: nat) { Placed(s) && Apart(s) && s.outstanding == Due(s) + extra }

  /** The count is `extra` too high. */
  predicate Counted(s: Call, extra: nat) {
    && s.fate.Fine? && Tallied(s, extra)
    && s.done == (if s.outstanding == 0 then 1 else 0)
    && (extra == 0 ==> s.lost == {})
  }

  /** With a count too high an assertion may fail, but OnDone does not run. */
  predicate StillCounted(s: Call, extra: nat) {
    Counted(s, extra) || (extra > 0 && s.fate.Aborted? && s.done == 0)
  }

  /** What posting leaves alone. */
  lemma PostLeaves(s: Call, k: Kind)
    ensures var t := Post(s, k);
      && t.stage == s.stage && t.started == s.started && t.tags == s.tags && t.outstanding == s.outstanding
      && t.reacting == s.reacting && t.holds == s.holds && t.issued == s.issued
      && t.reacted == s.reacted && t.log == s.log && t.done == s.done
      && t.readAtStart == s.readAtStart && t.writeAtStart == s.writeAtStart
      && t.writesDoneAtStart == s.writesDoneAtStart
      && s.lost <= t.lost
  {
  }

  lemma PostSize(s: Call, k: Kind)
    ensures |Post(s, k).inCore| <= |s.inCore| + 1
  {
  }

  lemma SameBacklog(s: Call, t: Call)
    requires t.stage == s.stage && t.readAtStart == s.readAtStart && t.writeAtStart == s.writeAtStart
    requires t.writesDoneAtStart == s.writesDoneAtStart
    ensures (forall j :: t.InBacklog(j) == s.InBacklog(j)) && t.BacklogSize() == s.BacklogSize()
  {
  }

  lemma MaybeFinishKeepsCount(s: Call, extra: nat)
    requires s.fate.Fine? && Placed(s) && Apart(s) && (extra == 0 ==> s.lost == {})
    requires s.outstanding == Due(s) + extra + 1 && s.done == 0
    ensures Counted(MaybeFinishStep(s), extra)
  {
  }

  lemma StartKeepsCount(s: Call, extra: nat)
    requires Counted(s, extra) && s.stage == NOT_CALLED
    ensures Counted(StartCallStep(s), extra)
  {
    var t := StartCallStep(s);
    assert forall k :: t.InBacklog(k) == s.InBacklog(k);
    assert t.inCore == {Start};
  }

  /** What the backlog loses when StartCall goes on. */
  lemma BacklogShrinks(s: Call)
    requires NOT_CALLED < s.stage < FINISH_POSTED
    ensures var t := Advance(s);
      && (forall j :: t.InBacklog(j) == (s.InBacklog(j) && !(Posts(s) && j == Posted(s))))
      && t.BacklogSize() == s.BacklogSize() - (if Posts(s) && s.stage < WRITES_DONE_POSTED then 1 else 0)
      && (Posts(s) && s.stage < WRITES_DONE_POSTED ==> s.InBacklog(Posted(s)))
  {
    hide Advance;
    AdvanceLeaves(s);
    assert forall j :: Advance(s).InBacklog(j) == (s.InBacklog(j) && !(Posts(s) && j == Posted(s)));
  }

  lemma AdvanceLeaves(s: Call)
    ensures var t := Advance(s);
      && t.stage == s.stage + 1 && t.started == s.started && t.outstanding == s.outstanding
      && t.reacting == s.reacting && t.holds == s.holds && t.inCore == s.inCore && t.lost == s.lost
      && t.reacted == s.reacted && t.log == s.log && t.done == s.done && t.fate == s.fate
      && t.readAtStart == s.readAtStart && t.writeAtStart == s.writeAtStart
      && t.writesDoneAtStart == s.writesDoneAtStart
  {
  }

  /** The tag of what StartCall posts is set. */
  lemma PostedIsTagged(s: Call)
    requires Placed(s) && NOT_CALLED < s.stage < FINISH_POSTED && Posts(s)
    ensures Posted(s) in Advance(s).tags
  {
  }

  lemma AdvancePlaces(s: Call)
    requires Placed(s) && NOT_CALLED < s.stage < FINISH_POSTED
    ensures var t := Advance(s);
      && s.tags <= t.tags
      && (Read in t.tags <==> t.stage >= TAGS_SET) && (Write in t.tags <==> t.stage >= TAGS_SET)
  {
  }

  /** Posting the backlog changes nothing that is counted. */
  lemma ContinueKeepsCount(s: Call, extra: nat)
    requires Counted(s, extra) && NOT_CALLED < s.stage < FINISH_POSTED
    ensures StillCounted(ContinueStep(s), extra)
  {
    var u, k := Advance(s), Posted(s);
    AdvanceTallies(s, extra);
    AdvanceLeaves(s);
    if Posts(s) {
      PostedIsReady(s, extra);
      PostLeaves(u, k);
      PostDoes(u, k);
      hide Advance, Post, Posts, Posted, Tallied, Call.InBacklog;
      if k !in s.lost { PostTallies(u, k, extra); }
    } else {
      hide Advance, Posts, Tallied;
    }
  }

  lemma AdvanceTallies(s: Call, extra: nat)
    requires Tallied(s, extra) && NOT_CALLED < s.stage < FINISH_POSTED
    ensures Tallied(Advance(s), extra + if Posts(s) then 1 else 0)
  {
    BacklogShrinks(s);
    AdvanceLeaves(s);
    AdvancePlaces(s);
    hide Advance, Call.InBacklog, Call.BacklogSize, Posts, Posted;
  }

  /** A batch that had been counted goes to core. */
  lemma PostTallies(s: Call, k: Kind, extra: nat)
    requires Tallied(s, extra + 1) && s.started && k in s.tags && !s.Waiting(k)
    requires k.Finish? ==> s.stage == FINISH_POSTED
    ensures Tallied(Post(s, k), extra)
  {
    PostLeaves(s, k);
    PostDoes(s, k);
    SameBacklog(s, Post(s, k));
    hide Post, Call.InBacklog, Call.BacklogSize;
  }

  lemma PostedIsReady(s: Call, extra: nat)
    requires Tallied(s, extra) && NOT_CALLED < s.stage < FINISH_POSTED && Posts(s)
    ensures var u, k := Advance(s), Posted(s);
      && k in u.tags && k !in u.inCore && !u.InBacklog(k) && u.started
      && (k.Finish? ==> u.stage == FINISH_POSTED)
  {
    PostedIsTagged(s);
    AdvanceLeaves(s);
    BacklogShrinks(s);
    hide Advance;
  }

  lemma PostDoes(s: Call, k: Kind)
    requires k in s.tags && k !in s.inCore
    ensures var t := Post(s, k);
      if k in s.lost then t.fate.Aborted? && t.inCore == s.inCore
      else t.inCore == s.inCore + {k} && t.lost == s.lost && t.fate == s.fate
  {
  }

  lemma OperateKeepsCount(s: Call, k: UserKind, extra: nat)
    requires Counted(s, extra) && s.outstanding > 0 && !s.Waiting(k) && Ready(s, k)
    ensures Counted(Operate(s, k), extra)
  {
    if s.started {
      StartedTallies(s, k, extra);
      OperateDoes(s, k);
    } else {
      KeptTallies(s, k, extra);
      OperateDoes(s, k);
    }
    hide Operate, Tallied;
  }

  lemma StartedTallies(s: Call, k: UserKind, extra: nat)
    requires Counted(s, extra) && s.started && s.done == 0 && !s.Waiting(k) && Ready(s, k)
    ensures Tallied(Operate(s, k), extra)
  {
    var u := Issue(s, k);
    IssueLeaves(s, k);
    SameBacklog(s, u);
    assert Tallied(u, extra + 1) by { hide Issue, Call.InBacklog, Call.BacklogSize; }
    hide Issue, Tallied, Call.InBacklog, Post;
    PostTallies(u, k, extra);
  }

  lemma KeptTallies(s: Call, k: UserKind, extra: nat)
    requires Counted(s, extra) && !s.started && s.done == 0 && !s.Waiting(k) && Ready(s, k)
    ensures Tallied(Operate(s, k), extra)
  {
    OperateDoes(s, k);
    hide Operate, Call.InBacklog, Call.BacklogSize;
  }

  /** What an operation in turn does. */
  lemma OperateDoes(s: Call, k: UserKind)
    requires s.done == 0 && !s.Waiting(k) && Ready(s, k) && s.fate.Fine?
    ensures var t := Operate(s, k);
      && t.fate.Fine? && t.stage == s.stage && t.started == s.started && t.outstanding == s.outstanding + 1
      && t.tags == s.tags + (if k.WritesDone? then {k} else {})
      && t.reacting == s.reacting && t.holds == s.holds && t.issued == s.issued + multiset{k}
      && t.reacted == s.reacted && t.log == s.log && t.done == s.done && t.lost == s.lost
      && t.writesDoneAtStart == (s.writesDoneAtStart || (k.WritesDone? && !s.started))
    ensures var t := Operate(s, k);
      if s.started || s.stage > NOT_CALLED then
        s.started ==>
          && t.inCore == s.inCore + {k} && (forall j :: t.InBacklog(j) == s.InBacklog(j))
          && t.BacklogSize() == s.BacklogSize()
      else
        && t.inCore == s.inCore && (forall j :: t.InBacklog(j) == (s.InBacklog(j) || j == k))
        && t.BacklogSize() == s.BacklogSize() + 1
  {
    if s.started {
      IssueLeaves(s, k);
      PostLeaves(Issue(s, k), k);
      PostDoes(Issue(s, k), k);
      SameBacklog(s, Post(Issue(s, k), k));
      hide Issue, Post, Call.InBacklog, Call.BacklogSize;
    } else {
      IssueLeaves(s, k);
      SameBacklog(s, Issue(s, k));
      hide Issue;
      if s.stage == NOT_CALLED { assert forall j :: Operate(s, k).InBacklog(j) == (s.InBacklog(j) || j == k); }
    }
  }

  lemma IssueLeaves(s: Call, k: UserKind)
    ensures var t := Issue(s, k);
      && t.fate == s.fate && t.stage == s.stage && t.started == s.started && t.outstanding == s.outstanding + 1
      && t.tags == s.tags + (if k.WritesDone? then {k} else {})
      && t.reacting == s.reacting && t.holds == s.holds && t.issued == s.issued + multiset{k}
      && t.reacted == s.reacted && t.log == s.log && t.done == s.done && t.lost == s.lost && t.inCore == s.inCore
      && t.readAtStart == s.readAtStart && t.writeAtStart == s.writeAtStart
      && t.writesDoneAtStart == s.writesDoneAtStart
  {
  }

  /** On a call that counts nothing any more the rules allow nothing. */
  lemma EnabledIsAlive(s: Call, a: Action, extra: nat)
    requires Counted(s, extra) && Enabled(s, a)
    ensures s.outstanding > 0 && s.done == 0
  {
  }

  lemma CompleteKeepsCount(s: Call, k: Kind, extra: nat)
    requires Counted(s, extra) && k in s.inCore
    ensures Counted(Complete(s, k), extra)
  {
  }

  lemma HoldsKeepCount(s: Call, n: nat, extra: nat)
    requires Counted(s, extra) && s.outstanding > 0
    ensures Counted(AddHoldStep(s, n), extra)
  {
    assert forall j :: AddHoldStep(s, n).InBacklog(j) == s.InBacklog(j);
  }

  lemma NextKeepsCount(s: Call, a: Action, extra: nat)
    requires Counted(s, extra) && Enabled(s, a)
    ensures StillCounted(Next(s, a), extra)
  {
    EnabledIsAlive(s, a, extra);
    hide ContinueStep, Operate, MaybeFinishStep, StartCallStep, Complete, Post;
    match a
    case DoStartCall => StartKeepsCount(s, extra);
    case DoContinue => ContinueKeepsCount(s, extra);
    case DoOperate(k) => OperateKeepsCount(s, k, extra);
    case DoAddHold(n) => HoldsKeepCount(s, n, extra);
    case DoRemoveHold => MaybeFinishKeepsCount(s.(holds := s.holds - 1), extra);
    case DoComplete(k) => CompleteKeepsCount(s, k, extra);
    case DoEndCallback(k) => MaybeFinishKeepsCount(s.(reacting := s.reacting - multiset{k}), extra);
  }

  // ---- The history ----

  function Pending(s: Call, k: Kind): nat { (if k in s.inCore then 1 else 0) + if s.InBacklog(k) then 1 else 0 }

  /** Every operation issued is waiting or has reacted, once; every reaction is an
      event, and OnDone is the last. */
  predicate Recorded(s: Call) {
    && (forall k: Kind :: s.issued[k] == Pending(s, k) + s.reacted[k])
    && (forall k: Kind :: multiset(s.log)[Reaction(k)] == s.reacted[k])
    && s.reacting <= s.reacted
    && (forall i :: 0 <= i < |s.log| ==> (s.log[i].OnDone? <==> s.done == 1 && i == |s.log| - 1))
    && (s.done == 1 ==> |s.log| > 0)
  }

  predicate Inv(s: Call) { Counted(s, 0) && Recorded(s) }

  lemma CreatedIsInv()
    ensures Inv(CREATED)
  {
  }

  lemma ContinueKeepsRecord(s: Call)
    requires Inv(s) && NOT_CALLED < s.stage < FINISH_POSTED
    ensures Recorded(ContinueStep(s))
  {
    var t := ContinueStep(s);
    ContinueHistory(s);
    assert s.stage == WRITES_DONE_POSTED ==> Finish !in s.inCore;
    assert Placed(s) && Apart(s) && s.lost == {};
    hide ContinueStep, Counted, Apart, Placed;
    forall k: Kind
      ensures t.issued[k] == Pending(t, k) + t.reacted[k]
    {
      if s.stage < WRITES_DONE_POSTED { ContinueMoves(s, k); } else { ContinueEnds(s, k); }
    }
  }

  lemma ContinueHistory(s: Call)
    ensures var t := ContinueStep(s);
      && t.issued == s.issued + (if s.stage == WRITES_DONE_POSTED then multiset{Finish} else multiset{})
      && t.reacted == s.reacted && t.reacting == s.reacting && t.log == s.log && t.done == s.done
  {
    PostLeaves(Advance(s), Posted(s));
    hide Post;
  }

  lemma ContinueEnds(s: Call, k: Kind)
    requires s.stage == WRITES_DONE_POSTED && Finish !in s.inCore && s.lost == {}
    ensures Pending(ContinueStep(s), k) == Pending(s, k) + if k.Finish? then 1 else 0
  {
    var u := Advance(s);
    BacklogShrinks(s);
    AdvanceLeaves(s);
    PostLeaves(u, Finish);
    PostDoes(u, Finish);
    SameBacklog(u, Post(u, Finish));
    hide Advance, Post, Call.InBacklog;
  }

  lemma ContinueMoves(s: Call, k: Kind)
    requires Placed(s) && Apart(s) && s.lost == {} && NOT_CALLED < s.stage < WRITES_DONE_POSTED
    ensures Pending(ContinueStep(s), k) == Pending(s, k)
  {
    var u := Advance(s);
    BacklogShrinks(s);
    AdvanceLeaves(s);
    if Posts(s) {
      PostedIsTagged(s);
      assert Posted(s) !in s.inCore;
      PostLeaves(u, Posted(s));
      PostDoes(u, Posted(s));
      SameBacklog(u, Post(u, Posted(s)));
    }
    hide Advance, Post, Call.InBacklog, Posts, Posted;
  }

  lemma StartKeepsRecord(s: Call)
    requires Inv(s) && s.stage == NOT_CALLED
    ensures Recorded(StartCallStep(s))
  {
    var t := StartCallStep(s);
    assert forall k :: t.InBacklog(k) == s.InBacklog(k);
    assert t.inCore == {Start};
  }

  lemma CompleteKeepsRecord(s: Call, k: Kind)
    requires Inv(s) && k in s.inCore && s.done == 0
    ensures Recorded(Complete(s, k))
  {
    var t := Complete(s, k);
    assert forall j :: t.InBacklog(j) == s.InBacklog(j);
    assert forall i :: 0 <= i < |t.log| ==> !t.log[i].OnDone?;
  }

  lemma MaybeFinishKeepsRecord(s: Call)
    requires Recorded(s) && s.done == 0
    ensures Recorded(MaybeFinishStep(s))
  {
    var t := MaybeFinishStep(s);
    assert forall j :: t.InBacklog(j) == s.InBacklog(j);
  }

  lemma SameRecord(s: Call, t: Call)
    requires Recorded(s) && t.issued == s.issued && t.reacted == s.reacted && t.log == s.log && t.done == s.done
    requires t.inCore == s.inCore && t.reacting <= s.reacting && forall j :: t.InBacklog(j) == s.InBacklog(j)
    ensures Recorded(t)
  {
  }

  lemma NextKeepsRecord(s: Call, a: Action)
    requires Inv(s) && Enabled(s, a)
    ensures Recorded(Next(s, a))
  {
    EnabledIsAlive(s, a, 0);
    assert s.done == 0 && Recorded(s);
    hide Inv, Recorded, MaybeFinishStep, Operate, Complete, ContinueStep, StartCallStep;
    match a
    case DoStartCall => StartKeepsRecord(s);
    case DoContinue => ContinueKeepsRecord(s);
    case DoOperate(k) => OperateKeepsRecord(s, k);
    case DoAddHold(n) => SameRecord(s, AddHoldStep(s, n));
    case DoRemoveHold =>
      SameRecord(s, s.(holds := s.holds - 1));
      MaybeFinishKeepsRecord(s.(holds := s.holds - 1));
    case DoComplete(k) => CompleteKeepsRecord(s, k);
    case DoEndCallback(k) =>
      SameRecord(s, s.(reacting := s.reacting - multiset{k}));
      MaybeFinishKeepsRecord(s.(reacting := s.reacting - multiset{k}));
  }

  lemma NextKeepsInv(s: Call, a: Action)
    requires Inv(s) && Enabled(s, a)
    ensures Inv(Next(s, a))
  {
    NextKeepsCount(s, a, 0);
    NextKeepsRecord(s, a);
  }

  // ---- Runs ----

  predicate Legal(s: Call, actions: seq<Action>)
    decreases |actions|, 0
  {
    |actions| > 0 ==>
      var before := actions[..|actions| - 1];
      Legal(s, before) && Enabled(After(s, before), actions[|actions| - 1])
  }

  function After(s: Call, actions: seq<Action>): Call
    requires Legal(s, actions)
    decreases |actions|, 1
  {
    if |actions| == 0 then s else Next(After(s, actions[..|actions| - 1]), actions[|actions| - 1])
  }

  lemma {:induction false} RunFromKeepsInv(s: Call, actions: seq<Action>)
    requires Inv(s) && Legal(s, actions)
    ensures Inv(After(s, actions))
  {
    if |actions| > 0 {
      RunFromKeepsInv(s, actions[..|actions| - 1]);
      hide Inv;
      NextKeepsInv(After(s, actions[..|actions| - 1]), actions[|actions| - 1]);
    }
  }

  lemma RunKeepsInv(actions: seq<Action>)
    requires Legal(CREATED, actions)
    ensures Inv(After(CREATED, actions))
  {
    CreatedIsInv();
    RunFromKeepsInv(CREATED, actions);
  }

  predicate Quiet(s: Call) {
    s.stage == FINISH_POSTED && s.inCore == {} && s.reacting == multiset{} && s.holds == 0
  }

  lemma QuietExactlyWhenNothingDue(s: Call)
    requires Placed(s)
    ensures Quiet(s) <==> Due(s) == 0
  {
  }

  /** Over every run: the count is exact; OnDone is called at most once, and
      that exactly when StartCall is through and nothing is outstanding; then
      it is the last reaction, and every operation ever issued has had
      exactly one. */
  lemma OnDoneOnceAndLast(actions: seq<Action>)
    requires Legal(CREATED, actions)
    ensures var s := After(CREATED, actions);
      && s.outstanding == Due(s)
      && s.done <= 1
      && (s.done == 1 <==> Quiet(s))
      && (s.done == 1 ==> s.log != [] && s.log[|s.log| - 1] == OnDone && s.issued == s.reacted)
      && (forall i :: 0 <= i < |s.log| - 1 ==> !s.log[i].OnDone?)
      && (forall k: Kind :: multiset(s.log)[Reaction(k)] == s.reacted[k])
  {
    RunKeepsInv(actions);
    var s := After(CREATED, actions);
    QuietExactlyWhenNothingDue(s);
  }

  /** While StartCall runs, the object is there: the two counts taken at
      construction outlast every reaction that comes in between. */
  lemma AliveDuringStartCall(actions: seq<Action>)
    requires Legal(CREATED, actions)
    ensures After(CREATED, actions).stage < FINISH_POSTED ==> After(CREATED, actions).done == 0
  {
    RunKeepsInv(actions);
  }

  /** After OnDone the rules allow nothing more, so the destroyed object is
      never touched; before it, StartCall, core, a callback or a hold goes on. */
  lemma DoneExactlyWhenNothingCanHappen(actions: seq<Action>)
    requires Legal(CREATED, actions)
    ensures var s := After(CREATED, actions);
      s.done == 1 <==> forall a :: !Enabled(s, a)
  {
    RunKeepsInv(actions);
    var s := After(CREATED, actions);
    QuietExactlyWhenNothingDue(s);
    hide After, Legal, Work, Next;
    if s.done != 1 {
      var a := GoOn(s);
      assert Enabled(s, a);
    } else {
      hide Enabled, Quiet;
      forall a | Enabled(s, a)
        ensures false
      {
        EnabledIsAlive(s, a, 0);
      }
    }
  }

  // ---- Winding down ----

  /** How much is left to do. */
  function Work(s: Call): nat {
    (if s.stage < FINISH_POSTED then 10 * (FINISH_POSTED - s.stage) else 0)
      + 2 * |s.inCore| + |s.reacting| + s.holds
  }

  /** Something goes on as long as a call is not quiet, without any new
      operation. */
  lemma GoOn(s: Call) returns (a: Action)
    requires s.fate.Fine? && s.stage <= FINISH_POSTED && !Quiet(s)
    ensures Enabled(s, a) && Next(s, a).stage <= FINISH_POSTED && Work(Next(s, a)) < Work(s)
  {
    hide ContinueStep, Complete, EndCallback, StartCallStep;
    if s.stage == NOT_CALLED {
      a := DoStartCall;
      StartLeaves(s);
    } else if s.stage < FINISH_POSTED {
      a := DoContinue;
      ContinueLeaves(s);
    } else if s.holds > 0 {
      a := DoRemoveHold;
    } else if s.inCore != {} {
      var k :| k in s.inCore;
      a := DoComplete(k);
      CompleteLeaves(s, k);
    } else {
      var k :| k in s.reacting;
      a := DoEndCallback(k);
      EndLeaves(s, k);
    }
  }

  lemma CompleteLeaves(s: Call, k: Kind)
    requires k in s.inCore
    ensures Work(Complete(s, k)) == Work(s) - 1 && Complete(s, k).stage == s.stage
  {
  }

  lemma EndLeaves(s: Call, k: Kind)
    requires k in s.reacting
    ensures Work(EndCallback(s, k)) == Work(s) - 1 && EndCallback(s, k).stage == s.stage
  {
  }

  lemma StartLeaves(s: Call)
    ensures var t := StartCallStep(s);
      && t.stage == START_POSTED && t.reacting == s.reacting && t.holds == s.holds
      && |t.inCore| <= |s.inCore| + 1
  {
  }

  lemma ContinueLeaves(s: Call)
    ensures var t := ContinueStep(s);
      && t.stage == s.stage + 1 && t.reacting == s.reacting && t.holds == s.holds
      && |t.inCore| <= |s.inCore| + 1
  {
    PostLeaves(Advance(s), Posted(s));
    PostSize(Advance(s), Posted(s));
    hide Post;
  }

  lemma StepLegal(s: Call, actions: seq<Action>, a: Action)
    requires Legal(s, actions) && Enabled(After(s, actions), a)
    ensures Legal(s, actions + [a]) && After(s, actions + [a]) == Next(After(s, actions), a)
  {
    assert (actions + [a])[..|actions + [a]| - 1] == actions;
  }

  /** Every run can be brought to an end, or to a failed assertion. */
  lemma WindDown(s: Call, actions: seq<Action>) returns (longer: seq<Action>)
    requires Legal(s, actions) && After(s, actions).stage <= FINISH_POSTED
    ensures Legal(s, longer) && (Quiet(After(s, longer)) || !After(s, longer).fate.Fine?)
    decreases Work(After(s, actions))
  {
    longer := actions;
    hide Legal, Enabled, Next, Work;
    if !Quiet(After(s, actions)) && After(s, actions).fate.Fine? {
      var a := GoOn(After(s, actions));
      StepLegal(s, actions, a);
      longer := WindDown(s, actions + [a]);
    }
  }

  // ---- What an operation out of turn does ----

  lemma {:induction false} RunKeepsCount(s: Call, actions: seq<Action>, extra: nat)
    requires StillCounted(s, extra) && Legal(s, actions)
    ensures StillCounted(After(s, actions), extra)
  {
    if |actions| > 0 {
      var t, a := After(s, actions[..|actions| - 1]), actions[|actions| - 1];
      RunKeepsCount(s, actions[..|actions| - 1], extra);
      assert Enabled(t, a) && t.fate.Fine?;
      assert Counted(t, extra);
      hide Counted, StillCounted;
      NextKeepsCount(t, a, extra);
    }
  }

  /** However the run goes on, no assertion fails, OnDone runs once everything is
      through, and then only, and by then every operation has had its
      reaction. */
  ghost predicate EndsWell(s: Call) { forall actions :: Legal(s, actions) ==> WellAt(After(s, actions)) }

  predicate WellAt(t: Call) {
    && t.fate.Fine?
    && t.done == (if Quiet(t) then 1 else 0)
    && (Quiet(t) ==> t.issued == t.reacted)
  }

  ghost predicate NeverDone(s: Call) {
    forall actions :: Legal(s, actions) ==> After(s, actions).done == 0
  }

  /** However the run goes on, no operation of kind k reacts any more. */
  ghost predicate NeverReacts(s: Call, k: UserKind) {
    forall actions :: Legal(s, actions) ==> After(s, actions).reacted[k] == s.reacted[k]
  }

  lemma InvEndsWell(s: Call)
    requires Inv(s)
    ensures EndsWell(s)
  {
    forall actions | Legal(s, actions)
      ensures WellAt(After(s, actions))
    {
      RunFromKeepsInv(s, actions);
      hide After, Legal;
      InvIsWell(After(s, actions));
    }
  }

  lemma InvIsWell(s: Call)
    requires Inv(s)
    ensures WellAt(s)
  {
    QuietExactlyWhenNothingDue(s);
  }

  /** One count too many is never given back: OnDone is lost. */
  lemma OneTooMany(s: Call)
    requires StillCounted(s, 1)
    ensures NeverDone(s) && !EndsWell(s)
  {
    forall actions | Legal(s, actions)
      ensures After(s, actions).done == 0
    {
      RunKeepsCount(s, actions, 1);
      hide After, Legal, Due;
    }
    NothingDone(s);
    if s.fate.Fine? {
      var actions := WindDown(s, []);
      assert Legal(s, actions) && !WellAt(After(s, actions));
    } else {
      assert Legal(s, []) && !WellAt(After(s, []));
    }
  }

  lemma NothingDone(s: Call)
    ensures Legal(s, []) && After(s, []) == s
  {
  }

  /** Once an assertion has failed nothing follows. */
  lemma {:induction false} NothingFollows(s: Call, actions: seq<Action>)
    requires !s.fate.Fine? && Legal(s, actions)
    ensures After(s, actions) == s
  {
    if |actions| > 0 { NothingFollows(s, actions[..|actions| - 1]); }
  }

  lemma BrokenNeverEndsWell(s: Call)
    requires !s.fate.Fine?
    ensures !EndsWell(s) && (s.done == 0 ==> NeverDone(s))
  {
    NothingDone(s);
    assert Legal(s, []) && !WellAt(After(s, []));
    forall actions | Legal(s, actions)
      ensures After(s, actions) == s
    {
      NothingFollows(s, actions);
    }
  }

  // ---- An operation that has no tag ----

  /** It is in core for nobody, and StartCall can only run into it. */
  predicate LostAt(s: Call, k: UserKind) { k in s.lost && k !in s.inCore }

  lemma LostStays(s: Call, a: Action, k: UserKind)
    requires LostAt(s, k) && Enabled(s, a)
    ensures LostAt(Next(s, a), k) && Next(s, a).reacted[k] == s.reacted[k]
  {
    match a
    case DoStartCall => StartKeepsLost(s, k);
    case DoContinue => ContinueKeepsLost(s, k);
    case DoOperate(j) => OperateKeepsLost(s, j, k);
    case _ =>
  }

  lemma StartKeepsLost(s: Call, k: UserKind)
    requires LostAt(s, k)
    ensures LostAt(StartCallStep(s), k) && StartCallStep(s).reacted == s.reacted
  {
  }

  lemma OperateKeepsLost(s: Call, j: UserKind, k: UserKind)
    requires LostAt(s, k)
    ensures LostAt(Operate(s, j), k) && Operate(s, j).reacted == s.reacted
  {
    if s.started { PostKeepsLost(Issue(s, j), j, k); }
    hide Post;
  }

  lemma PostKeepsLost(s: Call, j: Kind, k: UserKind)
    requires LostAt(s, k)
    ensures LostAt(Post(s, j), k) && Post(s, j).reacted == s.reacted
  {
  }

  lemma ContinueKeepsLost(s: Call, k: UserKind)
    requires LostAt(s, k)
    ensures LostAt(ContinueStep(s), k) && ContinueStep(s).reacted == s.reacted
  {
    AdvanceLeaves(s);
    PostKeepsLost(Advance(s), Posted(s), k);
    hide Post, Advance;
  }

  lemma {:induction false} LostNeverReacts(s: Call, actions: seq<Action>, k: UserKind)
    requires LostAt(s, k) && Legal(s, actions)
    ensures LostAt(After(s, actions), k) && After(s, actions).reacted[k] == s.reacted[k]
  {
    if |actions| > 0 {
      LostNeverReacts(s, actions[..|actions| - 1], k);
      hide LostAt, Next, Enabled;
      LostStays(After(s, actions[..|actions| - 1]), actions[|actions| - 1], k);
    }
  }

  /** An operation posted before its tag is set gets no reaction, and the call
      never gets OnDone, over every continuation. */
  lemma UntaggedIsLost(s: Call, k: UserKind)
    requires Inv(s) && s.outstanding > 0 && s.started && !k.WritesDone? && k !in s.tags
    ensures NeverReacts(Operate(s, k), k) && NeverDone(Operate(s, k)) && !EndsWell(Operate(s, k))
  {
    var t := Operate(s, k);
    assert k !in s.inCore && t.lost == {k} && t.inCore == s.inCore;
    SameBacklog(s, t);
    hide Call.InBacklog, Call.BacklogSize;
    assert Counted(t, 1);
    hide Operate, Inv, Counted;
    OneTooMany(t);
    hide EndsWell, NeverDone;
    forall actions | Legal(t, actions)
      ensures After(t, actions).reacted[k] == t.reacted[k]
    {
      LostNeverReacts(t, actions, k);
    }
  }

  // ---- An operation while one of its kind waits ----

  /** An operation in core and in the backlog at once. */
  predicate Twice(s: Call, k: UserKind) {
    && s.fate.Fine? && Placed(s) && s.stage >= TAGS_SET && s.lost == {}
    && k in s.inCore && s.InBacklog(k)
    && (forall j <- s.inCore :: s.InBacklog(j) ==> j == k)
  }

  lemma TwiceContinues(s: Call, k: UserKind)
    requires Twice(s, k)
    ensures s.stage < FINISH_POSTED
    ensures Twice(ContinueStep(s), k) || ContinueStep(s).fate.Aborted?
  {
    var u := Advance(s);
    BacklogShrinks(s);
    AdvanceLeaves(s);
    AdvancePlaces(s);
    if Posts(s) {
      PostedIsTagged(s);
      PostLeaves(u, Posted(s));
      SameBacklog(u, Post(u, Posted(s)));
      if Posted(s) !in s.inCore { PostDoes(u, Posted(s)); }
      hide Advance, Call.InBacklog;
    } else {
      hide Advance, Post, Call.InBacklog;
    }
  }

  /** StartCall goes on until it posts that operation a second time. */
  lemma PostBacklog(s: Call, actions: seq<Action>, k: UserKind) returns (longer: seq<Action>)
    requires Legal(s, actions) && Twice(After(s, actions), k)
    ensures Legal(s, longer) && After(s, longer).fate.Aborted?
    decreases FINISH_POSTED - After(s, actions).stage
  {
    var t := After(s, actions);
    TwiceContinues(t, k);
    ContinueLeaves(t);
    StepLegal(s, actions, DoContinue);
    longer := actions + [DoContinue];
    hide Legal, Enabled, Twice, ContinueStep;
    if Twice(After(s, longer), k) {
      longer := PostBacklog(s, longer, k);
    }
  }

  lemma OutOfTurn(s: Call, k: UserKind)
    requires Inv(s) && s.outstanding > 0 && s.Waiting(k) && Ready(s, k)
    ensures !EndsWell(Operate(s, k))
    ensures k in s.inCore || !s.started ==> NeverDone(Operate(s, k))
  {
    var t := Operate(s, k);
    if k in s.inCore {
      BrokenNeverEndsWell(t);
    } else if !s.started {
      MergedInBacklog(s, k);
      OneTooMany(t);
    } else {
      PostedBeforeBacklog(s, k);
      NothingDone(t);
      var actions := PostBacklog(t, [], k);
      assert Legal(t, actions) && !WellAt(After(t, actions));
    }
  }

  lemma MergedInBacklog(s: Call, k: UserKind)
    requires Inv(s) && s.outstanding > 0 && !s.started && s.InBacklog(k) && Ready(s, k)
    ensures Counted(Operate(s, k), 1)
  {
    assert forall j :: Operate(s, k).InBacklog(j) == s.InBacklog(j);
  }

  lemma PostedBeforeBacklog(s: Call, k: UserKind)
    requires Inv(s) && s.outstanding > 0 && s.started && s.InBacklog(k) && Ready(s, k)
    ensures Twice(Operate(s, k), k)
  {
    assert forall j :: Operate(s, k).InBacklog(j) == s.InBacklog(j);
  }

  lemma OperatePends(s: Call, k: UserKind, j: Kind)
    requires Inv(s) && s.outstanding > 0 && !s.Waiting(k) && Ready(s, k)
    ensures Pending(Operate(s, k), j) == Pending(s, j) + if j == k then 1 else 0
  {
    OperateDoes(s, k);
    assert s.started || s.stage == NOT_CALLED;
    hide Operate, Inv, Call.InBacklog, Call.BacklogSize;
  }

  lemma OperateKeepsRecord(s: Call, k: UserKind)
    requires Inv(s) && s.outstanding > 0 && !s.Waiting(k) && Ready(s, k)
    ensures Recorded(Operate(s, k))
  {
    var t := Operate(s, k);
    OperateDoes(s, k);
    assert Recorded(s) && s.done == 0;
    forall j: Kind
      ensures Pending(t, j) == Pending(s, j) + if j == k then 1 else 0
    {
      OperatePends(s, k, j);
    }
    hide Operate, Counted, Pending;
    IssuedOnce(s, t, k);
  }

  lemma IssuedOnce(s: Call, t: Call, k: UserKind)
    requires Recorded(s) && s.done == 0 && t.done == 0 && t.log == s.log && t.reacted == s.reacted
    requires t.reacting == s.reacting && t.issued == s.issued + multiset{k}
    requires forall j: Kind :: Pending(t, j) == Pending(s, j) + if j == k then 1 else 0
    ensures Recorded(t)
  {
    hide Pending;
  }

  /** An operation is safe exactly when the call is alive, none of its kind is
      waiting, its tag is set if it is posted at once, and, for WritesDone, it is
      the first: then nothing fails, it gets its reaction, and OnDone still runs
      exactly when all is through. Otherwise, on a finished call it uses the
      destroyed object; a second WritesDone, or a second batch of a kind in core,
      fails an assertion; an untagged one and one merged into the backlog keep
      OnDone from ever running; and one that overtakes its like in the backlog
      lets StartCall fail. */
  lemma OperationSafeExactlyWhen(s: Call, k: UserKind)
    requires Inv(s)
    ensures EndsWell(Operate(s, k)) <==> s.outstanding > 0 && !s.Waiting(k) && Ready(s, k)
    ensures Inv(Operate(s, k)) <==> s.outstanding > 0 && !s.Waiting(k) && Ready(s, k)
    ensures s.outstanding == 0 ==> Operate(s, k).fate.UsedAfterEnd?
    ensures s.outstanding > 0 && (k in s.inCore || !Ready(s, k) || (!s.started && s.Waiting(k))) ==>
      NeverDone(Operate(s, k))
  {
    var t := Operate(s, k);
    if s.outstanding == 0 || (k.WritesDone? && k in s.tags) {
      BrokenNeverEndsWell(t);
    } else if !Ready(s, k) {
      UntaggedIsLost(s, k);
    } else if s.Waiting(k) {
      OutOfTurn(s, k);
    } else {
      OperateKeepsCount(s, k, 0);
      OperateKeepsRecord(s, k);
      InvEndsWell(t);
    }
    assert Inv(t) ==> EndsWell(t) by { NotBoth(t); }
  }

  lemma NotBoth(s: Call)
    ensures Inv(s) ==> EndsWell(s)
  {
    if Inv(s) { InvEndsWell(s); }
  }

  // ---- Runs that fail ----

  lemma FirstStep(a: Action)
    requires Enabled(CREATED, a)
    ensures Legal(CREATED, [a]) && After(CREATED, [a]) == Next(CREATED, a)
  {
    NothingDone(CREATED);
    StepLegal(CREATED, [], a);
    assert [] + [a] == [a];
  }

  /** Two Reads before StartCall: both are counted, one will react, and OnDone
      never runs. */
  lemma PostedTwice()
    ensures Legal(CREATED, [DoOperate(Read)])
    ensures NeverDone(Operate(After(CREATED, [DoOperate(Read)]), Read))
  {
    FirstStep(DoOperate(Read));
    RunKeepsInv([DoOperate(Read)]);
    OperationSafeExactlyWhen(After(CREATED, [DoOperate(Read)]), Read);
  }

  /** A Read started in the first reaction can overtake StartCall: the reaction
      runs, and allows the Read, while the tag of reads is not yet set. The Read
      gets no reaction and the call no OnDone. */
  lemma ReactionCanOvertakeTags()
    ensures Legal(CREATED, [DoStartCall, DoComplete(Start)])
    ensures var s := After(CREATED, [DoStartCall, DoComplete(Start)]);
      && MayStart(s) && !s.Waiting(Read)
      && NeverReacts(Operate(s, Read), Read) && NeverDone(Operate(s, Read))
  {
    FirstStep(DoStartCall);
    StepLegal(CREATED, [DoStartCall], DoComplete(Start));
    assert [DoStartCall] + [DoComplete(Start)] == [DoStartCall, DoComplete(Start)];
    RunKeepsInv([DoStartCall, DoComplete(Start)]);
    var s := After(CREATED, [DoStartCall, DoComplete(Start)]);
    assert Start in s.reacting;
    UntaggedIsLost(s, Read);
  }

  /** A WritesDone after the reaction of the first, under a hold. */
  lemma SecondWritesDoneAborts() returns (actions: seq<Action>)
    ensures Legal(CREATED, actions)
    ensures var s := After(CREATED, actions);
      MayStart(s) && !s.Waiting(WritesDone) && Operate(s, WritesDone).fate.Aborted?
  {
    FirstStep(DoAddHold(1));
    actions := [DoAddHold(1)];
    StepLegal(CREATED, actions, DoStartCall);
    actions := actions + [DoStartCall];
    StepLegal(CREATED, actions, DoOperate(WritesDone));
    actions := actions + [DoOperate(WritesDone)];
    StepLegal(CREATED, actions, DoComplete(WritesDone));
    actions := actions + [DoComplete(WritesDone)];
    StepLegal(CREATED, actions, DoEndCallback(WritesDone));
    actions := actions + [DoEndCallback(WritesDone)];
  }

  lemma FinishIsNext(s: Call)
    requires s.fate.Fine? && s.stage == WRITES_DONE_POSTED
    ensures Enabled(s, DoContinue) && Next(s, DoContinue) == Post(Advance(s), Finish)
  {
  }

  // ---- The object ----

  class ClientCallbackReaderWriterImpl {
    var callbacksOutstanding: int
    var started: bool
    var readOpsAtStart: bool
    var writeOpsAtStart: bool
    var writesDoneOpsAtStart: bool

    /** The callback tags that are set, each with its op set. */
    var tags: set<Kind>

    /** The environment: where StartCall, core and the callbacks are. */
    var stage: nat
    var inCore: set<Kind>
    var lost: set<Kind>
    var fate: Fate
    var reacting: multiset<Kind>
    var holds: nat

    ghost var issued: multiset<Kind>
    ghost var reacted: multiset<Kind>
    ghost var log: seq<Event>
    ghost var done: nat
    ghost var trace: seq<Action>

    function Now(): Call
      reads this
    {
      Call(callbacksOutstanding, started, readOpsAtStart, writeOpsAtStart, writesDoneOpsAtStart,
           tags, stage, inCore, lost, reacting, holds, multiset{}, multiset{}, [], 0, fate)
    }

    ghost function State(): Call
      reads this
    {
      Call(callbacksOutstanding, started, readOpsAtStart, writeOpsAtStart, writesDoneOpsAtStart,
           tags, stage, inCore, lost, reacting, holds, issued, reacted, log, done, fate)
    }

    /** The object is where some run of the machine has led. */
    ghost predicate Valid()
      reads this
    {
      Legal(CREATED, trace) && After(CREATED, trace) == State()
    }

    constructor ()
      ensures State() == CREATED && Valid()
    {
      callbacksOutstanding, started := 2, false;
      readOpsAtStart, writeOpsAtStart, writesDoneOpsAtStart := false, false, false;
      tags, inCore, lost, reacting, holds, fate := {}, {}, {}, multiset{}, 0, Fine;
      stage, issued, reacted, log, done, trace := NOT_CALLED, multiset{}, multiset{}, [], 0, [];
    }

    /** Whoever keeps the rules never sees an assertion fail. */
    lemma NothingFails()
      requires Valid()
      ensures fate.Fine? && (stage < FINISH_POSTED ==> done == 0)
    {
      RunKeepsInv(trace);
    }

    ghost method Record(a: Action, before: Call)
      requires Legal(CREATED, trace) && After(CREATED, trace) == before
      requires Enabled(before, a) && State() == Next(before, a)
      modifies this`trace
      ensures Valid()
    {
      StepLegal(CREATED, trace, a);
      trace := trace + [a];
    }

    /** Core asserts that no batch of the kind is with it, and answers to the
        tag, if it is set by now. */
    method PerformOps(k: Kind)
      modifies this`inCore, this`lost, this`fate
      ensures State() == Post(old(State()), k)
    {
      if k in inCore || k in lost {
        fate := Aborted;
      } else if k in tags {
        inCore := inCore + {k};
      } else {
        lost := lost + {k};
      }
    }

    method MaybeFinish()
      modifies this`callbacksOutstanding, this`done, this`log
      ensures State() == MaybeFinishStep(old(State()))
    {
      var before := callbacksOutstanding;
      callbacksOutstanding := callbacksOutstanding - 1;
      if before == 1 {
        done, log := done + 1, log + [OnDone];
      }
    }

    /** StartCall, with whatever reactions and other threads do between any two
        of its posts. */
    method StartCall()
      requires Valid() && stage == NOT_CALLED
      modifies this
      ensures Valid() && stage == FINISH_POSTED
    {
      hide ClientCallbackReaderWriterImpl.Valid;
      PostStart();
      Meanwhile();
      SetTags();
      Meanwhile();
      PostRead();
      Meanwhile();
      PostWrite();
      Meanwhile();
      PostWritesDone();
      Meanwhile();
      PostFinish();
    }

    method PostStart()
      requires Valid() && stage == NOT_CALLED
      modifies this`started, this`stage, this`tags, this`inCore, this`lost, this`fate, this`issued, this`trace
      ensures Valid() && stage == START_POSTED
    {
      NothingFails();
      hide Legal, After, Post, Begun;
      ghost var s := State();
      Begin();
      PerformOps(Kind.Start);
      Record(DoStartCall, s);
    }

    method Begin()
      modifies this`started, this`stage, this`tags, this`issued
      ensures State() == Begun(old(State())) && stage == START_POSTED
    {
      started := true;
      tags := tags + {Kind.Start};
      stage, issued := START_POSTED, issued + multiset{Kind.Start};
    }

    /** write_tag_ and read_tag_, with set_core_cq_tag. */
    method SetTags()
      requires Valid() && stage == START_POSTED
      modifies this`stage, this`tags, this`trace
      ensures Valid() && stage == TAGS_SET
    {
      NothingFails();
      hide Legal, After;
      ghost var s := State();
      tags := tags + {Kind.Write, Kind.Read};
      stage := TAGS_SET;
      assert State() == Advance(s);
      Record(DoContinue, s);
    }

    method PostRead()
      requires Valid() && stage == TAGS_SET
      modifies this`stage, this`inCore, this`lost, this`fate, this`trace
      ensures Valid() && stage == READ_POSTED
    {
      PostNext(readOpsAtStart, Kind.Read);
    }

    method PostWrite()
      requires Valid() && stage == READ_POSTED
      modifies this`stage, this`inCore, this`lost, this`fate, this`trace
      ensures Valid() && stage == WRITE_POSTED
    {
      PostNext(writeOpsAtStart, Kind.Write);
    }

    method PostWritesDone()
      requires Valid() && stage == WRITE_POSTED
      modifies this`stage, this`inCore, this`lost, this`fate, this`trace
      ensures Valid() && stage == WRITES_DONE_POSTED
    {
      PostNext(writesDoneOpsAtStart, Kind.WritesDone);
    }

    /** One operation of the backlog, if it was started before StartCall. */
    method PostNext(atStart: bool, k: Kind)
      requires Valid() && TAGS_SET <= stage < WRITES_DONE_POSTED && k == Posted(State())
      requires atStart == State().InBacklog(k)
      modifies this`stage, this`inCore, this`lost, this`fate, this`trace
      ensures Valid() && stage == old(stage) + 1
    {
      NothingFails();
      hide Legal, After, Post;
      ghost var s := State();
      stage := stage + 1;
      assert State() == Advance(s) by {
        assert tags + {} == tags && issued + multiset{} == issued;
      }
      if atStart { PerformOps(k); }
      Record(DoContinue, s);
    }

    method PostFinish()
      requires Valid() && stage == WRITES_DONE_POSTED
      modifies this`stage, this`tags, this`inCore, this`lost, this`fate, this`issued, this`trace
      ensures Valid() && stage == FINISH_POSTED
    {
      NothingFails();
      hide Legal, After, Post, Advance, Enabled, Next, ContinueStep, Posts, Posted;
      ghost var s := State();
      FinishIsNext(s);
      SetFinishTag();
      PerformOps(Kind.Finish);
      Record(DoContinue, s);
    }

    method SetFinishTag()
      requires stage == WRITES_DONE_POSTED
      modifies this`stage, this`tags, this`issued
      ensures State() == Advance(old(State())) && stage == FINISH_POSTED
    {
      tags := tags + {Kind.Finish};
      stage, issued := FINISH_POSTED, issued + multiset{Kind.Finish};
    }

    /** The three operations, on an object that is still there. */
    method Read()
      modifies this`callbacksOutstanding, this`readOpsAtStart, this`inCore, this`lost, this`fate, this`issued
      ensures old(done) == 0 ==> State() == Operate(old(State()), Kind.Read)
    {
      hide Post, Issue;
      CountOne(Kind.Read);
      if started { PerformOps(Kind.Read); } else { readOpsAtStart := true; }
    }

    method Write()
      modifies this`callbacksOutstanding, this`writeOpsAtStart, this`inCore, this`lost, this`fate, this`issued
      ensures old(done) == 0 ==> State() == Operate(old(State()), Kind.Write)
    {
      hide Post, Issue;
      CountOne(Kind.Write);
      if started { PerformOps(Kind.Write); } else { writeOpsAtStart := true; }
    }

    method WritesDone()
      modifies this`callbacksOutstanding, this`writesDoneOpsAtStart, this`tags
      modifies this`inCore, this`lost, this`fate, this`issued
      ensures old(done) == 0 ==> State() == Operate(old(State()), Kind.WritesDone)
    {
      hide Post, Issue;
      if Kind.WritesDone in tags {
        fate := Aborted;
        return;
      }
      SetWritesDoneTag();
      if started { PerformOps(Kind.WritesDone); } else { writesDoneOpsAtStart := true; }
    }

    method CountOne(k: UserKind)
      requires k.Read? || k.Write?
      modifies this`callbacksOutstanding, this`issued
      ensures State() == Issue(old(State()), k)
    {
      issued := issued + multiset{k};
      callbacksOutstanding := callbacksOutstanding + 1;
    }

    method SetWritesDoneTag()
      modifies this`callbacksOutstanding, this`tags, this`issued
      ensures State() == Issue(old(State()), Kind.WritesDone)
    {
      tags := tags + {Kind.WritesDone};
      issued := issued + multiset{Kind.WritesDone};
      callbacksOutstanding := callbacksOutstanding + 1;
    }

    method AddHold(n: nat)
      modifies this`callbacksOutstanding, this`holds
      ensures State() == AddHoldStep(old(State()), n)
    {
      holds := holds + n;
      callbacksOutstanding := callbacksOutstanding + n;
    }

    method RemoveHold()
      requires holds > 0
      modifies this`callbacksOutstanding, this`holds, this`done, this`log
      ensures State() == RemoveHoldStep(old(State()))
    {
      holds := holds - 1;
      MaybeFinish();
    }

    /** The two halves of a callback: the reaction, and the end. */
    method React(k: Kind)
      requires k in inCore
      modifies this`inCore, this`reacting, this`reacted, this`log
      ensures State() == Complete(old(State()), k)
    {
      inCore, reacting := inCore - {k}, reacting + multiset{k};
      reacted, log := reacted + multiset{k}, log + [Reaction(k)];
    }

    method FinishCallback(k: Kind)
      requires k in reacting
      modifies this`reacting, this`callbacksOutstanding, this`done, this`log
      ensures State() == EndCallback(old(State()), k)
    {
      reacting := reacting - multiset{k};
      MaybeFinish();
    }

    // ---- The environment ----

    /** Core, callbacks and the application do anything the rules allow, any
        number of times. */
    method Meanwhile()
      requires Valid()
      modifies this
      ensures Valid() && stage == old(stage)
    {
      var n: nat := *;
      while n > 0
        invariant Valid() && stage == old(stage)
      {
        n := n - 1;
        if {
          case true => Application();
          case inCore != {} =>
            var k :| k in inCore;
            CoreCompletes(k);
          case reacting != multiset{} =>
            var k :| k in reacting;
            CallbackEnds(k);
        }
      }
    }

    method Application()
      requires Valid()
      modifies this
      ensures Valid() && stage == old(stage)
    {
      hide ClientCallbackReaderWriterImpl.Valid;
      var n: nat := *;
      if {
        case true => TryRead();
        case true => TryWrite();
        case true => TryWritesDone();
        case true => TryHolds(n);
      }
    }

    method TryRead()
      requires Valid()
      modifies this
      ensures Valid() && stage == old(stage)
    {
      NothingLeftToDo();
      hide Legal, After, Operate;
      ghost var s := State();
      if Enabled(Now(), DoOperate(Kind.Read)) {
        assert Enabled(s, DoOperate(Kind.Read));
        hide Enabled;
        Read();
        Record(DoOperate(Kind.Read), s);
      }
    }

    method TryWrite()
      requires Valid()
      modifies this
      ensures Valid() && stage == old(stage)
    {
      NothingLeftToDo();
      hide Legal, After, Operate;
      ghost var s := State();
      if Enabled(Now(), DoOperate(Kind.Write)) {
        assert Enabled(s, DoOperate(Kind.Write));
        hide Enabled;
        Write();
        Record(DoOperate(Kind.Write), s);
      }
    }

    method TryWritesDone()
      requires Valid()
      modifies this
      ensures Valid() && stage == old(stage)
    {
      NothingLeftToDo();
      hide Legal, After, Operate;
      ghost var s := State();
      if Enabled(Now(), DoOperate(Kind.WritesDone)) {
        assert Enabled(s, DoOperate(Kind.WritesDone));
        hide Enabled;
        WritesDone();
        Record(DoOperate(Kind.WritesDone), s);
      }
    }

    method TryHolds(n: nat)
      requires Valid()
      modifies this
      ensures Valid() && stage == old(stage)
    {
      NothingLeftToDo();
      hide Legal, After;
      ghost var s := State();
      if {
        case MayStart(Now()) =>
          AddHold(n);
          Record(DoAddHold(n), s);
        case holds > 0 =>
          RemoveHold();
          Record(DoRemoveHold, s);
        case true =>
      }
    }

    /** After the end the rules allow nothing. */
    lemma NothingLeftToDo()
      requires Valid()
      ensures fate.Fine? && (done > 0 ==> forall a :: !Enabled(State(), a))
    {
      RunKeepsInv(trace);
      forall a | Enabled(State(), a)
        ensures done == 0
      {
        EnabledIsAlive(State(), a, 0);
      }
    }

    method CoreCompletes(k: Kind)
      requires Valid() && k in inCore
      modifies this
      ensures Valid() && stage == old(stage)
    {
      NothingFails();
      hide Legal, After;
      ghost var s := State();
      React(k);
      Record(DoComplete(k), s);
    }

    method CallbackEnds(k: Kind)
      requires Valid() && k in reacting
      modifies this
      ensures Valid() && stage == old(stage)
    {
      NothingFails();
      hide Legal, After;
      ghost var s := State();
      FinishCallback(k);
      Record(DoEndCallback(k), s);
    }
  }
}
