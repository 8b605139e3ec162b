/** The stream worker of Source/Speechly/Private/SpeechlyClient.cpp as a state
  machine: the worker thread against a completion queue that returns pending
  tags in any order with any success bit, while other threads enqueue requests,
  take responses and stop the client. Each step of the worker touches state it
  shares with other threads at most once. */
module StreamClient {
  import opened Protocol
  import Responses

  /** `fromStream` is history: the message was read from the stream. */
  datatype Response = Response(message: Responses.Message, fromStream: bool)

  const NO_RESPONSE := Response(Responses.Message("", 0, Responses.Ignored), false)

  /** What was posted on the completion queue; the tag of posts[i] is i + 1. */
  datatype Post = OpenPost | WritePost(request: Request) | ReadPost | FinishPost

  /** The fields of SpeechlyClient. */
  datatype Client = Client(
    seqNo: nat, lastWrite: nat, lastRead: nat, writeAllowed: bool, readAllowed: bool,
    running: bool, hasError: bool, response: Response, requests: seq<Request>, responses: seq<Response>)

  /** The completion queue and the history: `accepted` are the requests Write
      took, `readOk` the messages of the successful reads the queue has
      delivered, `arrived` everything ever put on ResponseQueue. */
  datatype World = World(
    posts: seq<Post>, pending: set<nat>, delivered: seq<nat>, shutdown: bool,
    accepted: seq<Request>, readOk: seq<Response>, arrived: seq<Response>)

  datatype Phase =
    | Fresh | AwaitOpen(streamSeq: nat) | AwaitConfig
    | LoopTest | LoopWrite | LoopRead | LoopPoll | RunReturned(code: nat)
    | DrainRead | DrainPoll | AwaitFinish(finishSeq: nat) | Draining | Exited(drained: bool)

  datatype State = State(phase: Phase, c: Client, w: World)

  datatype Outcome = Event(tag: nat, ok: bool, payload: Response) | Timeout | ShutDown

  datatype Action =
    | PutRequest(r: Request) | TakeResponse | PushResponse(p: Response) | Stop
    | Worker(outcome: Outcome)

  const INITIAL := State(Fresh,
    Client(0, 0, 0, true, true, true, false, NO_RESPONSE, [], []),
    World([], {}, [], false, [], [], []))

  // ---- Steps ----

  function Posted(s: State, p: Post): State {
    s.(c := s.c.(seqNo := s.c.seqNo + 1),
       w := s.w.(posts := s.w.posts + [p], pending := s.w.pending + {s.c.seqNo + 1}))
  }

  /** StreamWrite; its check is the precondition. */
  function StreamWriteStep(s: State, r: Request): State
    requires s.c.writeAllowed
  {
    var t := Posted(s, WritePost(r));
    t.(c := t.c.(lastWrite := t.c.seqNo, writeAllowed := false))
  }

  function StreamReadStep(s: State): State
    requires s.c.readAllowed
  {
    var t := Posted(s, ReadPost);
    t.(c := t.c.(lastRead := t.c.seqNo, readAllowed := false))
  }

  /** The event is the success of an operation posted as a read. */
  predicate IsRead(posts: seq<Post>, o: Outcome) {
    o.Event? && o.ok && 1 <= o.tag <= |posts| && posts[o.tag - 1].ReadPost?
  }

  /** The queue hands out a tag; a successful read has filled the buffer. */
  function Deliver(s: State, o: Outcome): State
    requires o.Event?
  {
    var read := IsRead(s.w.posts, o);
    s.(c := if read then s.c.(response := o.payload) else s.c,
       w := s.w.(pending := s.w.pending - {o.tag}, delivered := s.w.delivered + [o.tag],
                 readOk := s.w.readOk + if read then [o.payload] else []))
  }

  function HandleTagStep(s: State, tag: nat): State {
    if tag == s.c.lastWrite then s.(c := s.c.(writeAllowed := true))
    else if tag == s.c.lastRead then s.(c := s.c.(readAllowed := true))
    else s
  }

  function SetErrorStep(s: State): State { s.(c := s.c.(hasError := true, running := false)) }

  function EnqueueResponse(s: State, p: Response): State {
    s.(c := s.c.(responses := s.c.responses + [p]), w := s.w.(arrived := s.w.arrived + [p]))
  }

  function OpenStep(s: State, o: Outcome, streamSeq: nat): State
    requires s.c.writeAllowed
  {
    if !o.Event? then s.(c := s.c.(hasError := true), phase := RunReturned(1))
    else
      var t := Deliver(s, o);
      if !o.ok || o.tag != streamSeq then t.(c := t.c.(hasError := true), phase := RunReturned(1))
      else StreamWriteStep(t, Config).(phase := AwaitConfig)
  }

  function ConfigStep(s: State, o: Outcome): State {
    if !o.Event? then SetErrorStep(s).(phase := RunReturned(1))
    else
      var t := HandleTagStep(Deliver(s, o), o.tag);
      if !o.ok || o.tag != t.c.lastWrite then SetErrorStep(t).(phase := RunReturned(1))
      else t.(phase := LoopTest)
  }

  function WriteStep(s: State): State {
    if s.c.writeAllowed && s.c.requests != [] then
      StreamWriteStep(s.(c := s.c.(requests := s.c.requests[1..])), s.c.requests[0]).(phase := LoopRead)
    else s.(phase := LoopRead)
  }

  function PollStep(s: State, o: Outcome): State {
    match o
    case Timeout => s.(phase := LoopTest)
    case ShutDown => s.(c := s.c.(running := false), phase := RunReturned(0))
    case Event(tag, ok, _) => ReactStep(Deliver(s, o), tag, ok)
  }

  /** What the main loop does about an event. */
  function ReactStep(s: State, tag: nat, ok: bool): State {
    var t := HandleTagStep(s, tag);
    if !ok then SetErrorStep(t).(phase := RunReturned(1))
    else if tag == t.c.lastWrite then t.(phase := LoopTest)
    else if tag == t.c.lastRead then EnqueueResponse(t, t.c.response).(phase := LoopTest)
    else t.(phase := LoopTest)
  }

  function FinishStep(s: State): State {
    var t := Posted(s, FinishPost);
    t.(phase := AwaitFinish(t.c.seqNo))
  }

  function DrainStep(s: State, o: Outcome): State {
    if !o.Event? then FinishStep(s)
    else
      var t := HandleTagStep(Deliver(s, o), o.tag);
      if o.ok then t.(phase := DrainRead) else FinishStep(t)
  }

  function ShutdownStep(s: State): State { s.(w := s.w.(shutdown := true), phase := Draining) }

  function AwaitFinishStep(s: State, o: Outcome, finishSeq: nat): State {
    if !o.Event? then ShutdownStep(s)
    else if o.tag == finishSeq || !o.ok then ShutdownStep(Deliver(s, o))
    else Deliver(s, o)
  }

  function WorkerStep(s: State, o: Outcome): State
    requires s.phase.AwaitOpen? ==> s.c.writeAllowed
  {
    match s.phase
    case Fresh =>
      var t := Posted(s, OpenPost);
      t.(phase := AwaitOpen(t.c.seqNo))
    case AwaitOpen(streamSeq) => OpenStep(s, o, streamSeq)
    case AwaitConfig => ConfigStep(s, o)
    case LoopTest => s.(phase := if s.c.running && !s.c.hasError then LoopWrite else RunReturned(0))
    case LoopWrite => WriteStep(s)
    case LoopRead => if s.c.readAllowed then StreamReadStep(s).(phase := LoopPoll) else s.(phase := LoopPoll)
    case LoopPoll => PollStep(s, o)
    case RunReturned(_) => s.(phase := DrainRead)
    case DrainRead => if s.c.readAllowed then StreamReadStep(s).(phase := DrainPoll) else s.(phase := DrainPoll)
    case DrainPoll => DrainStep(s, o)
    case AwaitFinish(finishSeq) => AwaitFinishStep(s, o, finishSeq)
    case Draining =>
      (match o
       case Event(_, _, _) => Deliver(s, o)
       case Timeout => s.(phase := Exited(false))
       case ShutDown => s.(phase := Exited(true)))
    case Exited(_) => s
  }

  // ---- The environment ----

  /** The completion queue's contract: it returns pending tags, each once, and
      reports shutdown only when shut down and drained. Next has no deadline. */
  predicate Allowed(s: State, o: Outcome) {
    match o
    case Event(tag, _, payload) => tag in s.w.pending && payload.fromStream
    case Timeout => !s.phase.AwaitOpen? && !s.phase.AwaitConfig?
    case ShutDown => s.w.shutdown && s.w.pending == {}
  }

  predicate Polls(p: Phase) {
    p.AwaitOpen? || p.AwaitConfig? || p.LoopPoll? || p.DrainPoll? || p.AwaitFinish? || p.Draining?
  }

  predicate Enabled(s: State, a: Action) {
    match a
    case PutRequest(_) => !s.c.hasError && s.c.running
    case TakeResponse => !s.c.hasError && s.c.running && s.c.responses != []
    case PushResponse(p) => !p.fromStream
    case Stop => true
    case Worker(o) => !s.phase.Exited? && (Polls(s.phase) ==> Allowed(s, o))
  }

  function Next(s: State, a: Action): State
    requires Enabled(s, a) && (a.Worker? && s.phase.AwaitOpen? ==> s.c.writeAllowed)
  {
    match a
    case PutRequest(r) =>
      s.(c := s.c.(requests := s.c.requests + [r]), w := s.w.(accepted := s.w.accepted + [r]))
    case TakeResponse => s.(c := s.c.(responses := s.c.responses[1..]))
    case PushResponse(p) => EnqueueResponse(s, p)
    case Stop => s.(c := s.c.(running := false))
    case Worker(o) => WorkerStep(s, o)
  }

  // ---- The invariant ----

  predicate IsTag(s: State, t: nat) { 1 <= t <= |s.w.posts| }

  predicate Distinct(xs: seq<nat>) { forall i, j :: 0 <= i < j < |xs| ==> xs[i] != xs[j] }

  /** Tags are fresh, and each is pending or was delivered once. */
  ghost predicate TagsInv(s: State) {
    && s.c.seqNo == |s.w.posts|
    && (forall t: nat :: IsTag(s, t) <==> t in s.w.pending || t in s.w.delivered)
    && (forall t: nat :: t in s.w.pending ==> t !in s.w.delivered)
    && Distinct(s.w.delivered)
  }

  predicate Finishing(p: Phase) { p.AwaitFinish? || p.Draining? || p.Exited? }

  predicate Opening(p: Phase) { p.Fresh? || p.AwaitOpen? }

  predicate Running(p: Phase) { p.AwaitConfig? || p.LoopTest? || p.LoopWrite? || p.LoopRead? || p.LoopPoll? }

  function Outstanding(s: State): set<nat> {
    (if s.c.writeAllowed then {} else {s.c.lastWrite}) + (if s.c.readAllowed then {} else {s.c.lastRead})
  }

  /** The flags say exactly which operations are pending. */
  predicate FlagsInv(s: State) {
    && s.c.lastWrite <= s.c.seqNo && s.c.lastRead <= s.c.seqNo
    && (s.c.lastWrite > 0 ==> s.c.lastWrite != s.c.lastRead)
    && (!s.c.writeAllowed ==> s.c.lastWrite > 0)
    && (!s.c.readAllowed ==> s.c.lastRead > 0)
    && (s.phase.Fresh? ==> s.c.seqNo == 0)
    && (Opening(s.phase) ==> s.c.lastWrite == 0 && s.c.lastRead == 0 && s.c.writeAllowed && s.c.readAllowed)
    && (s.phase.AwaitOpen? ==> s.phase.streamSeq == s.c.seqNo && s.w.pending == {s.c.seqNo})
    && (s.phase.AwaitConfig? ==> !s.c.writeAllowed && s.c.readAllowed)
    && (s.phase.LoopPoll? || s.phase.DrainPoll? ==> !s.c.readAllowed)
    && (!s.phase.AwaitOpen? && !Finishing(s.phase) ==> s.w.pending == Outstanding(s))
    && (Finishing(s.phase) ==> s.w.pending <= Outstanding(s) + {s.c.seqNo})
  }

  /** The tags last used for writing and reading are those of the last write
      and the last read that were posted. */
  predicate KindsInv(s: State) {
    && s.c.seqNo == |s.w.posts|
    && s.c.lastWrite <= |s.w.posts| && s.c.lastRead <= |s.w.posts|
    && (s.c.lastWrite > 0 ==> s.w.posts[s.c.lastWrite - 1].WritePost?)
    && (s.c.lastRead > 0 ==> s.w.posts[s.c.lastRead - 1].ReadPost?)
    && (s.phase.AwaitOpen? ==> s.w.posts == [OpenPost])
    && (s.phase.Fresh? ==> s.w.posts == [])
  }

  /** Finish is posted once, last; Shutdown comes after it. */
  predicate FinishInv(s: State) {
    && s.c.seqNo == |s.w.posts|
    && (forall i :: 0 <= i < |s.w.posts| ==> (s.w.posts[i].FinishPost? <==> Finishing(s.phase) && i == |s.w.posts| - 1))
    && (Finishing(s.phase) ==> s.w.posts != [])
    && (s.phase.AwaitFinish? ==> s.phase.finishSeq == |s.w.posts|)
    && (s.w.shutdown <==> s.phase.Draining? || s.phase.Exited?)
    && (s.phase == Exited(true) ==> s.w.pending == {})
  }

  function Writes(posts: seq<Post>): seq<Request> {
    if |posts| == 0 then []
    else
      var last := posts[|posts| - 1];
      Writes(posts[..|posts| - 1]) + if last.WritePost? then [last.request] else []
  }

  function FromStream(rs: seq<Response>): seq<Response> {
    if |rs| == 0 then []
    else
      var last := rs[|rs| - 1];
      FromStream(rs[..|rs| - 1]) + if last.fromStream then [last] else []
  }

  predicate IsSuffix<T(==)>(suffix: seq<T>, whole: seq<T>) {
    |suffix| <= |whole| && suffix == whole[|whole| - |suffix|..]
  }

  /** The stream's writes are the config, then the accepted requests up to
      those still queued. */
  predicate RequestsInv(s: State) {
    && IsSuffix(s.c.requests, s.w.accepted)
    && (if Writes(s.w.posts) == [] then s.c.requests == s.w.accepted
        else Writes(s.w.posts) == [Config] + s.w.accepted[..|s.w.accepted| - |s.c.requests|])
    && (Opening(s.phase) ==> Writes(s.w.posts) == [])
    && (Running(s.phase) ==> Writes(s.w.posts) != [])
  }

  /** Exit has begun to drain. */
  predicate Leaving(p: Phase) { p.DrainRead? || p.DrainPoll? || Finishing(p) }

  /** Of the responses that ever arrived, those from the stream are all the
      successful reads until Exit begins, and from then on no more; the newest
      are still queued. */
  predicate ResponsesInv(s: State) {
    && IsSuffix(s.c.responses, s.w.arrived)
    && FromStream(s.w.arrived) <= s.w.readOk
    && (!Leaving(s.phase) ==> FromStream(s.w.arrived) == s.w.readOk)
  }

  ghost predicate Inv(s: State) {
    && TagsInv(s) && FlagsInv(s) && KindsInv(s) && FinishInv(s) && RequestsInv(s) && ResponsesInv(s)
  }

  // ---- Every step keeps it ----

  lemma PostedTags(s: State, p: Post)
    requires TagsInv(s)
    ensures TagsInv(Posted(s, p))
  {
    var t := Posted(s, p);
    forall x: nat
      ensures IsTag(t, x) <==> x in t.w.pending || x in t.w.delivered
    {
      assert IsTag(t, x) <==> IsTag(s, x) || x == |t.w.posts|;
    }
    assert !IsTag(s, |t.w.posts|);
  }

  lemma DeliverTags(s: State, o: Outcome)
    requires TagsInv(s) && o.Event? && o.tag in s.w.pending
    ensures TagsInv(Deliver(s, o))
  {
    var t := Deliver(s, o);
    assert forall x: nat :: IsTag(s, x) == IsTag(t, x);
  }

  /** The part of the invariant about tags and operations. */
  ghost predicate OpsInv(s: State) { TagsInv(s) && FlagsInv(s) && KindsInv(s) && FinishInv(s) }

  lemma FreshKeeps(s: State)
    requires OpsInv(s) && s.phase.Fresh?
    ensures OpsInv(WorkerStep(s, Timeout))
  {
    PostedTags(s, OpenPost);
  }

  lemma OpenKeeps(s: State, o: Outcome)
    requires OpsInv(s) && s.phase.AwaitOpen? && Allowed(s, o)
    ensures OpsInv(OpenStep(s, o, s.phase.streamSeq))
  {
    if o.Event? {
      DeliverTags(s, o);
      PostedTags(Deliver(s, o), WritePost(Config));
    }
  }

  lemma ConfigKeeps(s: State, o: Outcome)
    requires OpsInv(s) && s.phase.AwaitConfig? && Allowed(s, o)
    ensures OpsInv(ConfigStep(s, o))
  {
    if o.Event? { DeliverTags(s, o); }
  }

  lemma WriteKeeps(s: State)
    requires OpsInv(s) && s.phase.LoopWrite?
    ensures OpsInv(WriteStep(s))
  {
    if s.c.requests != [] {
      PostedTags(s.(c := s.c.(requests := s.c.requests[1..])), WritePost(s.c.requests[0]));
    }
  }

  lemma ReadKeeps(s: State, next: Phase)
    requires OpsInv(s) && ((s.phase.LoopRead? && next.LoopPoll?) || (s.phase.DrainRead? && next.DrainPoll?))
    ensures OpsInv((if s.c.readAllowed then StreamReadStep(s) else s).(phase := next))
  {
    PostedTags(s, ReadPost);
  }

  /** Delivering a tag and handling it, on the way to a phase that asks for
      nothing in particular. */
  lemma HandledKeeps(s: State, o: Outcome, next: Phase)
    requires OpsInv(s) && (s.phase.LoopPoll? || s.phase.DrainPoll?) && o.Event? && Allowed(s, o)
    requires next.LoopTest? || next.RunReturned? || next.DrainRead?
    ensures OpsInv(HandleTagStep(Deliver(s, o), o.tag).(phase := next))
  {
    DeliverTags(s, o);
    hide IsRead;
  }

  lemma PollKeeps(s: State, o: Outcome)
    requires OpsInv(s) && s.phase.LoopPoll? && Allowed(s, o)
    ensures OpsInv(PollStep(s, o))
  {
    var t := PollStep(s, o);
    if o.Event? {
      var u := HandleTagStep(Deliver(s, o), o.tag).(phase := t.phase);
      HandledKeeps(s, o, t.phase);
      hide HandleTagStep, Deliver;
      SameOps(u, t);
    }
  }

  lemma SameOps(s: State, t: State)
    requires OpsInv(s) && s.phase == t.phase
    requires s.c.seqNo == t.c.seqNo && s.c.lastWrite == t.c.lastWrite && s.c.lastRead == t.c.lastRead
    requires s.c.writeAllowed == t.c.writeAllowed && s.c.readAllowed == t.c.readAllowed
    requires s.w.posts == t.w.posts && s.w.pending == t.w.pending && s.w.delivered == t.w.delivered
    requires s.w.shutdown == t.w.shutdown
    ensures OpsInv(t)
  {
    assert forall x: nat :: IsTag(s, x) == IsTag(t, x);
  }

  lemma FinishKeeps(s: State)
    requires OpsInv(s) && s.phase.DrainRead?
    ensures OpsInv(FinishStep(s))
  {
    PostedTags(s, FinishPost);
  }

  lemma DrainKeeps(s: State, o: Outcome)
    requires OpsInv(s) && s.phase.DrainPoll? && Allowed(s, o)
    ensures OpsInv(DrainStep(s, o))
  {
    if o.Event? {
      HandledKeeps(s, o, DrainRead);
      hide HandleTagStep, Deliver, OpsInv;
      FinishKeeps(HandleTagStep(Deliver(s, o), o.tag).(phase := DrainRead));
    } else {
      BackToRead(s);
      hide OpsInv;
      FinishKeeps(s.(phase := DrainRead));
    }
  }

  lemma BackToRead(s: State)
    requires OpsInv(s) && s.phase.DrainPoll?
    ensures OpsInv(s.(phase := DrainRead))
  {
    assert forall x: nat :: IsTag(s, x) == IsTag(s.(phase := DrainRead), x);
  }

  lemma AwaitFinishKeeps(s: State, o: Outcome)
    requires OpsInv(s) && s.phase.AwaitFinish? && Allowed(s, o)
    ensures OpsInv(AwaitFinishStep(s, o, s.phase.finishSeq))
  {
    if o.Event? { DeliverTags(s, o); }
  }

  lemma DrainingKeeps(s: State, o: Outcome)
    requires OpsInv(s) && s.phase.Draining? && Allowed(s, o)
    ensures OpsInv(WorkerStep(s, o))
  {
    if o.Event? { DeliverTags(s, o); }
  }

  // ---- Messages ----

  lemma PostedWrites(s: State, p: Post)
    ensures Writes(Posted(s, p).w.posts) == Writes(s.w.posts) + if p.WritePost? then [p.request] else []
  {
    assert (s.w.posts + [p])[..|s.w.posts|] == s.w.posts;
  }

  lemma RequestTaken(s: State)
    requires RequestsInv(s) && s.phase.LoopWrite? && s.c.requests != []
    ensures var k := |s.w.accepted| - |s.c.requests|;
      && IsSuffix(s.c.requests[1..], s.w.accepted)
      && Writes(s.w.posts) + [s.c.requests[0]] == [Config] + s.w.accepted[..k + 1]
  {
    var k := |s.w.accepted| - |s.c.requests|;
    assert s.c.requests[0] == s.w.accepted[k];
    assert s.w.accepted[..k + 1] == s.w.accepted[..k] + [s.w.accepted[k]];
    assert s.c.requests[1..] == s.w.accepted[k + 1..];
  }

  lemma WriteKeepsRequests(s: State)
    requires RequestsInv(s) && s.phase.LoopWrite?
    ensures RequestsInv(WriteStep(s))
  {
    if s.c.requests != [] {
      RequestTaken(s);
      PostedWrites(s.(c := s.c.(requests := s.c.requests[1..])), WritePost(s.c.requests[0]));
    }
    hide Writes;
  }

  lemma OpenKeepsRequests(s: State, o: Outcome)
    requires RequestsInv(s) && s.phase.AwaitOpen? && s.c.writeAllowed
    ensures RequestsInv(OpenStep(s, o, s.phase.streamSeq))
  {
    OpenEffects(s, o);
    PostedWrites(s, WritePost(Config));
    assert [] + [Config] == [Config] + s.w.accepted[..0];
    hide Writes, OpenStep;
  }

  /** The requests a step does not touch. */
  lemma StepEffects(s: State, o: Outcome)
    requires FlagsInv(s) && Enabled(s, Worker(o))
    ensures var t := WorkerStep(s, o);
      && t.w.accepted == s.w.accepted
      && (!s.phase.LoopWrite? ==> t.c.requests == s.c.requests)
      && (Running(t.phase) ==> Running(s.phase) || s.phase.AwaitOpen?)
      && (Opening(t.phase) ==> s.phase.Fresh?)
  {
    match s.phase
    case AwaitOpen(_) => OpenEffects(s, o);
    case AwaitConfig => ConfigEffects(s, o);
    case DrainPoll => DrainEffects(s, o);
    case LoopPoll => PollEffects(s, o);
    case LoopWrite =>
    case _ => PlainEffects(s, o);
  }

  lemma PlainEffects(s: State, o: Outcome)
    requires !s.phase.AwaitOpen? && !s.phase.AwaitConfig? && !s.phase.DrainPoll?
    requires !s.phase.LoopPoll? && !s.phase.LoopWrite?
    ensures var t := WorkerStep(s, o);
      && t.w.accepted == s.w.accepted && t.c.requests == s.c.requests
      && (Running(t.phase) ==> Running(s.phase))
      && (Opening(t.phase) ==> s.phase.Fresh?)
  {
  }

  lemma OpenEffects(s: State, o: Outcome)
    requires s.phase.AwaitOpen? && s.c.writeAllowed
    ensures var t := OpenStep(s, o, s.phase.streamSeq);
      && (t.phase.RunReturned? || t.phase.AwaitConfig?)
      && t.w.posts == s.w.posts + (if t.phase.AwaitConfig? then [WritePost(Config)] else [])
      && t.w.accepted == s.w.accepted && t.c.requests == s.c.requests
  {
  }

  lemma ConfigEffects(s: State, o: Outcome)
    ensures var t := ConfigStep(s, o);
      && (t.phase.RunReturned? || t.phase.LoopTest?)
      && t.w.accepted == s.w.accepted && t.c.requests == s.c.requests && t.w.posts == s.w.posts
  {
  }

  lemma DrainEffects(s: State, o: Outcome)
    ensures var t := DrainStep(s, o);
      && (t.phase.DrainRead? || t.phase.AwaitFinish?)
      && t.w.accepted == s.w.accepted && t.c.requests == s.c.requests
      && (t.w.posts == s.w.posts || t.w.posts == s.w.posts + [FinishPost])
  {
  }

  lemma PollEffects(s: State, o: Outcome)
    ensures var t := PollStep(s, o);
      && (t.phase.RunReturned? || t.phase.LoopTest?)
      && t.w.accepted == s.w.accepted && t.c.requests == s.c.requests && t.w.posts == s.w.posts
  {
  }

  lemma PostsOfOtherSteps(s: State, o: Outcome) returns (p: Post)
    requires !s.phase.LoopWrite? && !s.phase.AwaitOpen?
    ensures !p.WritePost?
    ensures WorkerStep(s, o).w.posts == s.w.posts || WorkerStep(s, o).w.posts == s.w.posts + [p]
  {
    p := OpenPost;
    match s.phase
    case LoopRead => p := ReadPost;
    case DrainRead => p := ReadPost;
    case DrainPoll => p := FinishPost; DrainEffects(s, o);
    case AwaitConfig => ConfigEffects(s, o);
    case LoopPoll => PollEffects(s, o);
    case _ =>
  }

  lemma OtherStepsKeepRequests(s: State, o: Outcome)
    requires RequestsInv(s) && FlagsInv(s) && Enabled(s, Worker(o))
    requires !s.phase.LoopWrite? && !s.phase.AwaitOpen?
    ensures RequestsInv(WorkerStep(s, o))
  {
    StepEffects(s, o);
    var p := PostsOfOtherSteps(s, o);
    PostedWrites(s, p);
    hide Writes, FlagsInv, WorkerStep, IsSuffix;
  }

  lemma EnqueuedResponses(s: State, r: Response)
    requires IsSuffix(s.c.responses, s.w.arrived)
    ensures IsSuffix(s.c.responses + [r], s.w.arrived + [r])
    ensures FromStream(s.w.arrived + [r]) == FromStream(s.w.arrived) + if r.fromStream then [r] else []
  {
    assert (s.w.arrived + [r])[..|s.w.arrived|] == s.w.arrived;
  }

  /** A poll puts on the response queue exactly the message that a read
      delivered by it has left in the buffer: the tag is that of the last read,
      so the branch for reads is taken, and no other read has filled the buffer
      since. */
  lemma PollArrivals(s: State, o: Outcome)
    requires FlagsInv(s) && KindsInv(s) && s.phase.LoopPoll? && Allowed(s, o)
    ensures var t := PollStep(s, o);
      var gain := if IsRead(s.w.posts, o) then [o.payload] else [];
      && t.w.readOk == s.w.readOk + gain
      && t.w.arrived == s.w.arrived + gain
      && t.c.responses == s.c.responses + gain
      && !Leaving(t.phase)
  {
    if o.Event? {
      assert o.tag == s.c.lastWrite || o.tag == s.c.lastRead;
      assert IsRead(s.w.posts, o) <==> o.ok && o.tag == s.c.lastRead && o.tag != s.c.lastWrite;
    }
  }

  lemma NotLeaving(s: State)
    ensures s.phase.LoopPoll? ==> !Leaving(s.phase)
  {
  }

  lemma PollKeepsResponses(s: State, o: Outcome)
    requires ResponsesInv(s) && FlagsInv(s) && KindsInv(s) && s.phase.LoopPoll? && Allowed(s, o)
    ensures ResponsesInv(PollStep(s, o))
  {
    hide FromStream, IsSuffix, PollStep, FlagsInv, KindsInv, Leaving;
    assert !Leaving(s.phase) by { NotLeaving(s); }
    PollArrivals(s, o);
    if o.Event? { EnqueuedResponses(s, o.payload); }
    assert s.w.arrived + [] == s.w.arrived && s.w.readOk + [] == s.w.readOk && s.c.responses + [] == s.c.responses;
  }

  /** No other step touches the response queue, and only while Exit drains can
      one deliver a read. */
  lemma OtherArrivals(s: State, o: Outcome)
    requires FlagsInv(s) && KindsInv(s) && Enabled(s, Worker(o)) && !s.phase.LoopPoll?
    ensures var t := WorkerStep(s, o);
      && t.w.arrived == s.w.arrived && t.c.responses == s.c.responses
      && s.w.readOk <= t.w.readOk
      && (!Leaving(t.phase) ==> t.w.readOk == s.w.readOk && !Leaving(s.phase))
  {
    match s.phase
    case AwaitOpen(_) =>
      assert o.Event? ==> !IsRead(s.w.posts, o);
    case AwaitConfig =>
      assert o.Event? ==> o.tag == s.c.lastWrite && !IsRead(s.w.posts, o);
    case DrainPoll => hide FlagsInv, KindsInv;
    case AwaitFinish(_) => hide FlagsInv, KindsInv;
    case Draining => hide FlagsInv, KindsInv;
    case _ => hide FlagsInv, KindsInv;
  }

  /** A step of the worker accepts no request, and what it adds to the response
      queue is what has arrived by it. */
  lemma WorkerOnlyAdds(s: State, o: Outcome) returns (gain: seq<Response>)
    requires FlagsInv(s) && KindsInv(s) && Enabled(s, Worker(o))
    ensures s.phase.AwaitOpen? ==> s.c.writeAllowed
    ensures var t := WorkerStep(s, o);
      && t.w.accepted == s.w.accepted
      && t.w.arrived == s.w.arrived + gain
      && t.c.responses == s.c.responses + gain
  {
    gain := [];
    StepEffects(s, o);
    if s.phase.LoopPoll? {
      PollArrivals(s, o);
      gain := if IsRead(s.w.posts, o) then [o.payload] else [];
    } else {
      OtherArrivals(s, o);
      hide WorkerStep;
    }
  }

  lemma WorkerKeepsResponses(s: State, o: Outcome)
    requires ResponsesInv(s) && FlagsInv(s) && KindsInv(s) && Enabled(s, Worker(o))
    ensures ResponsesInv(WorkerStep(s, o))
  {
    if s.phase.LoopPoll? {
      PollKeepsResponses(s, o);
    } else {
      OtherArrivals(s, o);
      hide FromStream, IsSuffix, FlagsInv, KindsInv, WorkerStep, Leaving;
    }
  }

  lemma WorkerKeepsRequests(s: State, o: Outcome)
    requires RequestsInv(s) && FlagsInv(s) && Enabled(s, Worker(o))
    ensures RequestsInv(WorkerStep(s, o))
  {
    match s.phase
    case LoopWrite => WriteKeepsRequests(s);
    case AwaitOpen(_) => OpenKeepsRequests(s, o);
    case _ => OtherStepsKeepRequests(s, o);
  }

  lemma WorkerKeepsInv(s: State, o: Outcome)
    requires Inv(s) && Enabled(s, Worker(o))
    ensures s.phase.AwaitOpen? ==> s.c.writeAllowed
    ensures Inv(WorkerStep(s, o))
  {
    assert FlagsInv(s) && KindsInv(s);
    WorkerKeepsOps(s, o);
    hide TagsInv, KindsInv, FinishInv, FlagsInv;
    WorkerKeepsResponses(s, o);
    WorkerKeepsRequests(s, o);
    hide RequestsInv, ResponsesInv, WorkerStep;
  }

  lemma WorkerKeepsOps(s: State, o: Outcome)
    requires OpsInv(s) && Enabled(s, Worker(o))
    ensures s.phase.AwaitOpen? ==> s.c.writeAllowed
    ensures OpsInv(WorkerStep(s, o))
  {
    match s.phase
    case Fresh => FreshKeeps(s);
    case AwaitOpen(_) => OpenKeeps(s, o);
    case AwaitConfig => ConfigKeeps(s, o);
    case LoopTest => PhaseKeeps(s, WorkerStep(s, o).phase);
    case LoopWrite => WriteKeeps(s);
    case LoopRead => ReadKeeps(s, LoopPoll);
    case LoopPoll => PollKeeps(s, o);
    case RunReturned(_) => PhaseKeeps(s, DrainRead);
    case DrainRead => ReadKeeps(s, DrainPoll);
    case DrainPoll => DrainKeeps(s, o);
    case AwaitFinish(_) => AwaitFinishKeeps(s, o);
    case Draining => DrainingKeeps(s, o);
  }

  lemma PhaseKeeps(s: State, next: Phase)
    requires OpsInv(s)
    requires (s.phase.LoopTest? && (next.LoopWrite? || next.RunReturned?)) || (s.phase.RunReturned? && next.DrainRead?)
    ensures OpsInv(s.(phase := next))
  {
    assert forall x: nat :: IsTag(s, x) == IsTag(s.(phase := next), x);
  }

  lemma PutKeepsRequests(s: State, r: Request)
    requires RequestsInv(s)
    ensures RequestsInv(s.(c := s.c.(requests := s.c.requests + [r]), w := s.w.(accepted := s.w.accepted + [r])))
  {
    hide Writes;
    var k := |s.w.accepted| - |s.c.requests|;
    assert (s.w.accepted + [r])[..k] == s.w.accepted[..k];
  }

  lemma OthersKeepRequests(s: State, a: Action)
    requires RequestsInv(s) && Enabled(s, a) && !a.Worker?
    ensures RequestsInv(Next(s, a))
  {
    if a.PutRequest? { PutKeepsRequests(s, a.r); }
    hide Writes, IsSuffix;
  }

  lemma OthersKeepResponses(s: State, a: Action)
    requires ResponsesInv(s) && Enabled(s, a) && !a.Worker?
    ensures ResponsesInv(Next(s, a))
  {
    if a.PushResponse? { EnqueuedResponses(s, a.p); }
    hide FromStream;
  }

  lemma OthersKeepInv(s: State, a: Action)
    requires Inv(s) && Enabled(s, a) && !a.Worker?
    ensures Inv(Next(s, a))
  {
    OthersKeepRequests(s, a);
    OthersKeepResponses(s, a);
    assert OpsInv(s);
    hide TagsInv, FlagsInv, KindsInv, FinishInv, RequestsInv, ResponsesInv;
    SameOps(s, Next(s, a));
  }

  lemma NextKeepsInv(s: State, a: Action)
    requires Inv(s) && Enabled(s, a)
    ensures s.phase.AwaitOpen? ==> s.c.writeAllowed
    ensures Inv(Next(s, a))
  {
    if a.Worker? {
      WorkerKeepsInv(s, a.outcome);
    } else {
      OthersKeepInv(s, a);
    }
  }

  // ---- Runs ----

  predicate CanFollow(s: State, a: Action) {
    Enabled(s, a) && (a.Worker? && s.phase.AwaitOpen? ==> s.c.writeAllowed)
  }

  predicate Legal(actions: seq<Action>)
    decreases |actions|, 0
  {
    |actions| > 0 ==>
      var before := actions[..|actions| - 1];
      Legal(before) && CanFollow(After(before), actions[|actions| - 1])
  }

  function After(actions: seq<Action>): State
    requires Legal(actions)
    decreases |actions|, 1
  {
    if |actions| == 0 then INITIAL else Next(After(actions[..|actions| - 1]), actions[|actions| - 1])
  }

  lemma {:induction false} RunKeepsInv(actions: seq<Action>)
    requires Legal(actions)
    ensures Inv(After(actions))
  {
    if |actions| > 0 {
      RunKeepsInv(actions[..|actions| - 1]);
      NextKeepsInv(After(actions[..|actions| - 1]), actions[|actions| - 1]);
    }
  }

  /** How often the worker has asked the queue. */
  function Polled(actions: seq<Action>): nat
    requires Legal(actions)
  {
    if |actions| == 0 then 0
    else
      var before, last := actions[..|actions| - 1], actions[|actions| - 1];
      Polled(before) + if last.Worker? && Polls(After(before).phase) then 1 else 0
  }

  /** The check of StreamWrite right after opening never fails, so any action
      the environment offers can follow. */
  lemma ChecksNeverFail(actions: seq<Action>, a: Action)
    requires Legal(actions)
    ensures CanFollow(After(actions), a) <==> Enabled(After(actions), a)
  {
    RunKeepsInv(actions);
  }

  predicate PostedTag(s: State) { forall t <- s.w.pending :: IsTag(s, t) }

  function PendingWrites(s: State): set<nat>
    requires PostedTag(s)
  {
    set t <- s.w.pending | s.w.posts[t - 1].WritePost?
  }

  function PendingReads(s: State): set<nat>
    requires PostedTag(s)
  {
    set t <- s.w.pending | s.w.posts[t - 1].ReadPost?
  }

  lemma FlagsTell(s: State)
    requires FlagsInv(s) && KindsInv(s) && !Finishing(s.phase) && PostedTag(s)
    requires s.phase.AwaitOpen? ==> s.w.posts[s.c.seqNo - 1].OpenPost?
    ensures PendingWrites(s) == (if s.c.writeAllowed then {} else {s.c.lastWrite})
    ensures PendingReads(s) == (if s.c.readAllowed then {} else {s.c.lastRead})
  {
  }

  /** Until Exit gives up tracking: bWriteAllowed is false exactly when one
      write, tagged LastWriteSeq, is pending; the same for reads; so there is
      never more than one of each. */
  lemma FlagsTellWhatIsPending(actions: seq<Action>)
    requires Legal(actions) && !Finishing(After(actions).phase)
    ensures var s := After(actions);
      && PostedTag(s)
      && PendingWrites(s) == (if s.c.writeAllowed then {} else {s.c.lastWrite})
      && PendingReads(s) == (if s.c.readAllowed then {} else {s.c.lastRead})
  {
    RunKeepsInv(actions);
    FlagsTell(After(actions));
  }

  /** In the main loop every tag the queue returns is known: the branch for
      unknown tags is dead. */
  lemma EveryPolledTagIsKnown(actions: seq<Action>, o: Outcome)
    requires Legal(actions) && After(actions).phase.LoopPoll? && o.Event? && Enabled(After(actions), Worker(o))
    ensures var s := After(actions);
      && (o.tag == s.c.lastWrite || o.tag == s.c.lastRead)
      && s.c.lastWrite != s.c.lastRead
      && s.w.posts != []
  {
    RunKeepsInv(actions);
    assert IsTag(After(actions), o.tag);
  }

  /** Conservation over every run: the stream's writes are the config followed
      by the accepted requests in order, up to those still queued; what ever
      arrived on ResponseQueue from the stream is every message that a read
      posted on the queue has delivered, once and in order, but for those that
      Exit drains; what is queued is the newest of it. */
  lemma MessagesConserved(actions: seq<Action>)
    requires Legal(actions)
    ensures var s := After(actions);
      && (Writes(s.w.posts) == [] ==> s.c.requests == s.w.accepted)
      && (Writes(s.w.posts) != [] ==> Writes(s.w.posts) + s.c.requests == [Config] + s.w.accepted)
      && FromStream(s.w.arrived) <= s.w.readOk
      && (!Leaving(s.phase) ==> FromStream(s.w.arrived) == s.w.readOk)
      && IsSuffix(s.c.responses, s.w.arrived)
  {
    RunKeepsInv(actions);
    Regrouped(After(actions));
    hide After, Writes, FromStream, TagsInv, FlagsInv, KindsInv, FinishInv, RequestsInv;
  }

  lemma Regrouped(s: State)
    requires RequestsInv(s)
    ensures Writes(s.w.posts) == [] ==> s.c.requests == s.w.accepted
    ensures Writes(s.w.posts) != [] ==> Writes(s.w.posts) + s.c.requests == [Config] + s.w.accepted
  {
    hide Writes;
    var k := |s.w.accepted| - |s.c.requests|;
    assert s.w.accepted == s.w.accepted[..k] + s.w.accepted[k..];
    assert [Config] + s.w.accepted[..k] + s.w.accepted[k..] == [Config] + s.w.accepted;
  }

  /** Finish is posted at most once, by Exit, and nothing after it; Shutdown
      only after Finish; and when Exit returns on SHUTDOWN every tag ever
      posted has been delivered exactly once. */
  lemma ExitFinishesOnce(actions: seq<Action>)
    requires Legal(actions)
    ensures var s := After(actions);
      && (forall i :: 0 <= i < |s.w.posts| && s.w.posts[i].FinishPost? ==> i == |s.w.posts| - 1 && Finishing(s.phase))
      && (Finishing(s.phase) ==> s.w.posts != [] && s.w.posts[|s.w.posts| - 1].FinishPost?)
      && (s.w.shutdown ==> Finishing(s.phase))
      && (s.phase == Exited(true) ==>
            && Distinct(s.w.delivered)
            && forall t: nat :: t in s.w.delivered <==> 1 <= t <= |s.w.posts|)
  {
    RunKeepsInv(actions);
    assert forall t: nat :: IsTag(After(actions), t) <==> 1 <= t <= |After(actions).w.posts|;
  }

  /** Finish wants no read or write to be pending. What is pending when the
      drain loop ends is known from the flags: at most one operation after a
      failed event, and none exactly when that event was the read's and no
      write was outstanding. */
  lemma PendingAtFinish(actions: seq<Action>, o: Outcome)
    requires Legal(actions) && After(actions).phase.DrainPoll? && Enabled(After(actions), Worker(o))
    requires !o.Event? || !o.ok
    ensures var s := After(actions);
      var t := DrainStep(s, o);
      && Next(s, Worker(o)) == t
      && var left := t.w.pending - {t.c.seqNo};
      && t.phase.AwaitFinish?
      && left == Outstanding(t)
      && (o.Event? ==> |left| <= 1)
      && (left == {} <==> o.Event? && o.tag == s.c.lastRead && s.c.writeAllowed)
  {
    RunKeepsInv(actions);
    var s := After(actions);
    assert TagsInv(s) && FlagsInv(s);
    hide After, Legal, TagsInv, FlagsInv, RequestsInv, ResponsesInv, FinishInv, KindsInv, DrainStep, IsRead;
    hide OpenStep, ConfigStep, PollStep, AwaitFinishStep, Deliver;
    FinishLeaves(s, o);
  }

  lemma HandledOutstanding(s: State, o: Outcome)
    requires FlagsInv(s) && s.phase.DrainPoll? && o.Event? && o.tag in s.w.pending
    ensures var t := HandleTagStep(Deliver(s, o), o.tag);
      && t.w.pending == Outstanding(t)
      && t.c.seqNo == s.c.seqNo
      && |t.w.pending| <= 1
      && (t.w.pending == {} <==> o.tag == s.c.lastRead && s.c.writeAllowed)
  {
    var t := HandleTagStep(Deliver(s, o), o.tag);
    if o.tag == s.c.lastWrite {
      assert t.w.pending == {s.c.lastRead};
    } else {
      assert t.w.pending == if s.c.writeAllowed then {} else {s.c.lastWrite};
    }
  }

  lemma FinishLeaves(s: State, o: Outcome)
    requires TagsInv(s) && FlagsInv(s) && s.phase.DrainPoll? && Allowed(s, o) && (!o.Event? || !o.ok)
    ensures var t := DrainStep(s, o);
      var left := t.w.pending - {t.c.seqNo};
      && t.phase.AwaitFinish?
      && left == Outstanding(t)
      && (o.Event? ==> |left| <= 1)
      && (left == {} <==> o.Event? && o.tag == s.c.lastRead && s.c.writeAllowed)
  {
    assert !IsTag(s, s.c.seqNo + 1);
    hide TagsInv;
    if o.Event? {
      HandledOutstanding(s, o);
      hide FlagsInv, HandleTagStep;
      assert DrainStep(s, o).w.pending - {s.c.seqNo + 1} == HandleTagStep(Deliver(s, o), o.tag).w.pending;
    } else {
      assert s.c.lastRead in s.w.pending;
      assert DrainStep(s, o).w.pending - {s.c.seqNo + 1} == s.w.pending;
    }
  }

  // ---- What the worker does about what the queue returns ----

  predicate WaitsInRun(p: Phase) { p.AwaitOpen? || p.AwaitConfig? || p.LoopPoll? }

  /** Over every run, a failed event that Run waits for ends it: an error is
      recorded, 1 is returned, and nothing more is posted; once the stream is
      open the client also stops running. */
  lemma FailedEventEndsRun(actions: seq<Action>, o: Outcome)
    requires Legal(actions) && Enabled(After(actions), Worker(o)) && WaitsInRun(After(actions).phase)
    requires o.Event? && !o.ok
    ensures CanFollow(After(actions), Worker(o))
    ensures var s, t := After(actions), Next(After(actions), Worker(o));
      && t.phase == RunReturned(1) && t.c.hasError && t.w.posts == s.w.posts
      && (!s.phase.AwaitOpen? ==> !t.c.running)
  {
    ChecksNeverFail(actions, Worker(o));
    hide After, IsRead;
  }

  /** And Run goes on exactly after a successful event, or, in the loop, when
      none came in time. Opening and configuring get the very event they wait
      for; the configuration is written when the stream is open and not before. */
  lemma RunGoesOnExactlyWhen(actions: seq<Action>, o: Outcome)
    requires Legal(actions) && Enabled(After(actions), Worker(o)) && WaitsInRun(After(actions).phase)
    ensures CanFollow(After(actions), Worker(o))
    ensures var s, t := After(actions), Next(After(actions), Worker(o));
      && (!t.phase.RunReturned? <==> (o.Event? && o.ok) || (o.Timeout? && s.phase.LoopPoll?))
      && (t.phase.RunReturned? || t.phase == if s.phase.AwaitOpen? then AwaitConfig else LoopTest)
      && (o.Event? && 1 <= o.tag <= |s.w.posts| && s.phase.AwaitOpen? ==> s.w.posts[o.tag - 1] == OpenPost)
      && (o.Event? && s.phase.AwaitConfig? ==> o.tag == s.c.lastWrite)
      && t.w.posts == s.w.posts + (if t.phase.AwaitConfig? then [WritePost(Config)] else [])
      && (o.ShutDown? ==> t.phase == RunReturned(0) && !t.c.running)
  {
    ChecksNeverFail(actions, Worker(o));
    RunKeepsInv(actions);
    var s := After(actions);
    assert TagsInv(s) && FlagsInv(s) && KindsInv(s);
    hide After, IsRead, RequestsInv, ResponsesInv, FinishInv;
    WaitsForOwn(s, o);
    hide TagsInv, FlagsInv, KindsInv;
    GoesOn(s, o);
  }

  /** While the stream is opened and configured nothing else is pending. */
  lemma WaitsForOwn(s: State, o: Outcome)
    requires FlagsInv(s) && KindsInv(s) && Allowed(s, o)
    ensures s.phase.AwaitOpen? && o.Event? ==> o.tag == s.phase.streamSeq == 1 && s.w.posts == [OpenPost]
    ensures s.phase.AwaitConfig? && o.Event? ==> o.tag == s.c.lastWrite
    ensures s.phase.AwaitOpen? || s.phase.AwaitConfig? ==> s.w.pending != {}
  {
  }

  lemma GoesOn(s: State, o: Outcome)
    requires WaitsInRun(s.phase) && CanFollow(s, Worker(o))
    requires s.phase.AwaitOpen? && o.Event? ==> o.tag == s.phase.streamSeq
    requires s.phase.AwaitConfig? && o.Event? ==> o.tag == s.c.lastWrite
    ensures var t := WorkerStep(s, o);
      && (!t.phase.RunReturned? <==> (o.Event? && o.ok) || (o.Timeout? && s.phase.LoopPoll?))
      && (t.phase.RunReturned? || t.phase == if s.phase.AwaitOpen? then AwaitConfig else LoopTest)
      && t.w.posts == s.w.posts + (if t.phase.AwaitConfig? then [WritePost(Config)] else [])
      && (o.ShutDown? && s.phase.LoopPoll? ==> t.phase == RunReturned(0) && !t.c.running)
  {
    hide IsRead;
    match s.phase
    case AwaitOpen(_) => OpenEffects(s, o);
    case AwaitConfig => ConfigEffects(s, o);
    case LoopPoll => PollEffects(s, o);
  }

  /** Between events: the loop is left exactly when the client has been stopped
      or an error recorded; it writes the oldest request whenever it may, and it
      always has a read out. Exit has one out, too, as long as it drains. */
  lemma LoopDoesItsWork(actions: seq<Action>, o: Outcome)
    requires Legal(actions) && Enabled(After(actions), Worker(o))
    ensures CanFollow(After(actions), Worker(o))
    ensures var s, t := After(actions), Next(After(actions), Worker(o));
      && (s.phase.LoopTest? ==> t == s.(phase := if s.c.running && !s.c.hasError then LoopWrite else RunReturned(0)))
      && (s.phase.LoopWrite? ==>
            if s.c.writeAllowed && s.c.requests != [] then
              t.w.posts == s.w.posts + [WritePost(s.c.requests[0])] && t.c.requests == s.c.requests[1..]
            else t.w.posts == s.w.posts && t.c.requests == s.c.requests)
      && (s.phase.LoopRead? || s.phase.DrainRead? ==>
            t.w.posts == s.w.posts + (if s.c.readAllowed then [ReadPost] else []) && !t.c.readAllowed)
  {
    ChecksNeverFail(actions, Worker(o));
    hide After, IsRead, OpenStep, ConfigStep, PollStep, DrainStep, AwaitFinishStep;
  }

  /** The drain loop goes on exactly after a successful event, and ends by posting
      Finish; the last loop goes on after every event, and ends on SHUTDOWN or
      when the time is up. */
  lemma ExitGoesOnExactlyWhen(actions: seq<Action>, o: Outcome)
    requires Legal(actions) && Enabled(After(actions), Worker(o))
    ensures CanFollow(After(actions), Worker(o))
    ensures var s, t := After(actions), Next(After(actions), Worker(o));
      && (s.phase.DrainPoll? ==>
            if o.Event? && o.ok then t.phase == DrainRead && t.w.posts == s.w.posts
            else t.phase == AwaitFinish(|t.w.posts|) && t.w.posts == s.w.posts + [FinishPost])
      && (s.phase.Draining? ==> t.phase == if o.Event? then Draining else Exited(o.ShutDown?))
      && (s.phase.RunReturned? ==> t == s.(phase := DrainRead))
  {
    ChecksNeverFail(actions, Worker(o));
    RunKeepsInv(actions);
    assert TagsInv(After(actions));
    hide After, IsRead, FlagsInv, KindsInv, RequestsInv, ResponsesInv, FinishInv;
    hide OpenStep, ConfigStep, PollStep, AwaitFinishStep;
  }

  /** A stopped client never runs again. */
  lemma {:induction false} StoppedForGood(actions: seq<Action>, more: seq<Action>)
    requires Legal(actions) && Legal(actions + more) && !After(actions).c.running
    ensures !After(actions + more).c.running
  {
    if |more| == 0 {
      assert actions + more == actions;
    } else {
      var before, last := more[..|more| - 1], more[|more| - 1];
      assert (actions + more)[..|actions + more| - 1] == actions + before;
      StoppedForGood(actions, before);
      var s := After(actions + before);
      assert CanFollow(s, last) && After(actions + more) == Next(s, last);
      hide After, Legal;
      StaysStopped(s, last);
    }
  }

  lemma StaysStopped(s: State, a: Action)
    requires CanFollow(s, a) && !s.c.running
    ensures !Next(s, a).c.running
  {
    if a.Worker? {
      hide IsRead, OpenStep, ConfigStep, PollStep, DrainStep, Deliver, AwaitFinishStep;
      match s.phase
      case AwaitOpen(_) => OpenStaysStopped(s, a.outcome);
      case AwaitConfig => ConfigStaysStopped(s, a.outcome);
      case LoopPoll => PollStaysStopped(s, a.outcome);
      case DrainPoll => DrainStaysStopped(s, a.outcome);
      case AwaitFinish(finishSeq) => AwaitStaysStopped(s, a.outcome, finishSeq);
      case Draining => if a.outcome.Event? { DeliverStaysStopped(s, a.outcome); }
      case _ =>
    }
  }

  lemma DeliverStaysStopped(s: State, o: Outcome)
    requires o.Event?
    ensures Deliver(s, o).c.running == s.c.running
  {
    hide IsRead;
  }

  lemma OpenStaysStopped(s: State, o: Outcome)
    requires s.phase.AwaitOpen? && s.c.writeAllowed && !s.c.running
    ensures !OpenStep(s, o, s.phase.streamSeq).c.running
  {
    hide IsRead;
  }

  lemma ConfigStaysStopped(s: State, o: Outcome)
    requires !s.c.running
    ensures !ConfigStep(s, o).c.running
  {
    hide IsRead;
  }

  lemma PollStaysStopped(s: State, o: Outcome)
    requires !s.c.running
    ensures !PollStep(s, o).c.running
  {
    hide IsRead;
  }

  lemma DrainStaysStopped(s: State, o: Outcome)
    requires !s.c.running
    ensures !DrainStep(s, o).c.running
  {
    hide IsRead;
  }

  lemma AwaitStaysStopped(s: State, o: Outcome, finishSeq: nat)
    requires !s.c.running
    ensures !AwaitFinishStep(s, o, finishSeq).c.running
  {
    hide IsRead;
  }

  // ---- What Exit knows when it reads the status ----

  /** Finish is waited for only as long as it is pending. */
  predicate FinishAwaited(s: State) { s.phase.AwaitFinish? ==> s.phase.finishSeq in s.w.pending }

  lemma FinishAwaitedStep(s: State, a: Action)
    requires FinishAwaited(s) && CanFollow(s, a)
    ensures FinishAwaited(Next(s, a))
  {
    hide IsRead;
    if a.Worker? && !s.phase.AwaitFinish? {
      match s.phase
      case DrainPoll => DrainAwaits(s, a.outcome);
      case LoopPoll => PollEffects(s, a.outcome); hide PollStep;
      case AwaitOpen(_) => OpenEffects(s, a.outcome); hide OpenStep;
      case AwaitConfig => ConfigEffects(s, a.outcome); hide ConfigStep;
      case _ =>
    }
  }

  lemma DrainAwaits(s: State, o: Outcome)
    ensures FinishAwaited(DrainStep(s, o))
  {
    hide IsRead;
  }

  lemma {:induction false} FinishStaysAwaited(actions: seq<Action>)
    requires Legal(actions)
    ensures FinishAwaited(After(actions))
  {
    if |actions| > 0 {
      FinishStaysAwaited(actions[..|actions| - 1]);
      hide FinishAwaited;
      FinishAwaitedStep(After(actions[..|actions| - 1]), actions[|actions| - 1]);
    }
  }

  /** When the finish loop ends and Exit goes on to read the status, Finish has
      been delivered exactly if the last event was its own, and not a failed
      event of an older operation or a timeout. With nothing else pending, any
      event is its own. */
  lemma StatusIsThereExactlyWhen(actions: seq<Action>, o: Outcome)
    requires Legal(actions) && After(actions).phase.AwaitFinish? && Enabled(After(actions), Worker(o))
    ensures var s := After(actions);
      var finish, t := s.phase.finishSeq, WorkerStep(s, o);
      && (t.phase.Draining? <==> !o.Event? || o.tag == finish || !o.ok)
      && (finish in t.w.delivered <==> o.Event? && o.tag == finish)
      && (s.w.pending == {finish} && o.Event? ==> finish in t.w.delivered)
  {
    RunKeepsInv(actions);
    FinishStaysAwaited(actions);
    assert TagsInv(After(actions));
    hide After, FlagsInv, KindsInv, FinishInv, RequestsInv, ResponsesInv, IsRead;
  }

  // ---- Errors ----

  predicate ErrorsTold(s: State) {
    && (Opening(s.phase) || Running(s.phase) ==> !s.c.hasError)
    && (s.phase.RunReturned? ==> s.phase.code == if s.c.hasError then 1 else 0)
  }

  lemma ErrorsToldStep(s: State, a: Action)
    requires ErrorsTold(s) && CanFollow(s, a)
    ensures ErrorsTold(Next(s, a))
    ensures s.c.hasError ==> Next(s, a).c.hasError
  {
    hide IsRead;
    if a.Worker? {
      match s.phase
      case AwaitOpen(_) => assert Next(s, a) == OpenStep(s, a.outcome, s.phase.streamSeq);
      case AwaitConfig => assert Next(s, a) == ConfigStep(s, a.outcome);
      case LoopPoll => PollTellsErrors(s, a.outcome); hide PollStep;
      case DrainPoll => hide ErrorsTold; DrainTellsErrors(s, a.outcome);
      case _ =>
    }
  }

  lemma PollTellsErrors(s: State, o: Outcome)
    requires !s.c.hasError
    ensures ErrorsTold(PollStep(s, o))
  {
    hide IsRead;
  }

  lemma DrainTellsErrors(s: State, o: Outcome)
    ensures ErrorsTold(DrainStep(s, o)) && DrainStep(s, o).c.hasError == s.c.hasError
  {
    hide IsRead;
  }

  /** Run works without an error and returns 1 exactly when one was recorded;
      once recorded it stays. */
  lemma {:induction false} ReturnCodeTellsError(actions: seq<Action>)
    requires Legal(actions)
    ensures ErrorsTold(After(actions))
    ensures forall k :: 0 <= k <= |actions| && Legal(actions[..k]) && After(actions[..k]).c.hasError ==>
      After(actions).c.hasError
  {
    assert actions[..|actions|] == actions;
    if |actions| > 0 {
      var before := actions[..|actions| - 1];
      ReturnCodeTellsError(before);
      ErrorsToldStep(After(before), actions[|actions| - 1]);
      hide ErrorsTold;
      forall k | 0 <= k < |actions| && Legal(actions[..k]) && After(actions[..k]).c.hasError
        ensures After(actions).c.hasError
      {
        assert before[..k] == actions[..k];
      }
    }
  }

  // ---- The end of Exit terminates ----

  /** The phase, then the tags still to come. */
  function Remaining(s: State): (nat, nat) {
    (if s.phase.AwaitFinish? then 2 else if s.phase.Draining? then 1 else 0, |s.w.pending|)
  }

  lemma ExitGetsCloser(s: State, o: Outcome)
    requires (s.phase.AwaitFinish? || s.phase.Draining?) && Allowed(s, o)
    ensures var t := WorkerStep(s, o);
      && Finishing(t.phase)
      && (Remaining(t).0 < Remaining(s).0 || (Remaining(t).0 == Remaining(s).0 && Remaining(t).1 < Remaining(s).1))
  {
  }

  // ---- A run that finishes with a write pending ----

  const HEARD := NO_RESPONSE.(fromStream := true)

  function Ok(tag: nat): Action { Worker(Event(tag, true, HEARD)) }

  const SILENT := Worker(Timeout)

  /** Open, configure, enqueue a request, write it, read, be stopped: Exit then
      drains with the write and the read pending. */
  const WRITE_IN_FLIGHT := [SILENT, Ok(1), Ok(2), PutRequest(StopEvent), SILENT, SILENT, SILENT, Stop,
                          SILENT, SILENT, SILENT, SILENT]

  lemma FollowsTo(k: nat, s: State)
    requires k < |WRITE_IN_FLIGHT| && Legal(WRITE_IN_FLIGHT[..k]) && After(WRITE_IN_FLIGHT[..k]) == s
    requires CanFollow(s, WRITE_IN_FLIGHT[k])
    ensures Legal(WRITE_IN_FLIGHT[..k + 1]) && After(WRITE_IN_FLIGHT[..k + 1]) == Next(s, WRITE_IN_FLIGHT[k])
  {
    assert WRITE_IN_FLIGHT[..k + 1][..k] == WRITE_IN_FLIGHT[..k];
  }

  const CONFIGURED := State(LoopTest,
    Client(2, 2, 0, true, true, true, false, NO_RESPONSE, [], []),
    World([OpenPost, WritePost(Config)], {}, [1, 2], false, [], [], []))

  const BOTH_PENDING := State(LoopPoll,
    Client(4, 3, 4, false, false, true, false, NO_RESPONSE, [], []),
    World([OpenPost, WritePost(Config), WritePost(StopEvent), ReadPost], {3, 4}, [1, 2], false, [StopEvent], [], []))

  lemma RunStarts()
    ensures Legal(WRITE_IN_FLIGHT[..0]) && After(WRITE_IN_FLIGHT[..0]) == INITIAL
  {
    assert WRITE_IN_FLIGHT[..0] == [];
    var none: seq<Action> := [];
    assert Legal(none) && After(none) == INITIAL;
  }

  lemma ReachesConfigured()
    ensures Legal(WRITE_IN_FLIGHT[..3]) && After(WRITE_IN_FLIGHT[..3]) == CONFIGURED
  {
    RunStarts();
    hide After, Legal;
    FollowsTo(0, INITIAL);
    var s := Next(INITIAL, SILENT);
    assert s.w.pending == {1};
    FollowsTo(1, s);
    var t := Next(s, Ok(1));
    assert t.w.pending == {2};
    FollowsTo(2, t);
    assert Next(t, Ok(2)).w.pending == {};
  }

  lemma ReachesBothPending()
    ensures Legal(WRITE_IN_FLIGHT[..7]) && After(WRITE_IN_FLIGHT[..7]) == BOTH_PENDING
  {
    ReachesConfigured();
    hide After, Legal;
    FollowsTo(3, CONFIGURED);
    var s := Next(CONFIGURED, PutRequest(StopEvent));
    FollowsTo(4, s);
    FollowsTo(5, s.(phase := LoopWrite));
    var t := Next(s.(phase := LoopWrite), SILENT);
    FollowsTo(6, t);
    assert Next(t, SILENT).w.pending == {3, 4};
  }

  const STOPPED := BOTH_PENDING.c.(running := false)

  lemma ReachesDrain()
    ensures Legal(WRITE_IN_FLIGHT) && After(WRITE_IN_FLIGHT) == State(DrainPoll, STOPPED, BOTH_PENDING.w)
  {
    ReachesBothPending();
    hide After, Legal;
    FollowsTo(7, BOTH_PENDING);
    FollowsTo(8, BOTH_PENDING.(c := STOPPED));
    FollowsTo(9, State(LoopTest, STOPPED, BOTH_PENDING.w));
    FollowsTo(10, State(RunReturned(0), STOPPED, BOTH_PENDING.w));
    FollowsTo(11, State(DrainRead, STOPPED, BOTH_PENDING.w));
    assert WRITE_IN_FLIGHT[..12] == WRITE_IN_FLIGHT;
  }

  /** So the rule for Finish can be broken: the cancelled read fails first
      while the write is still pending. */
  lemma FinishCanMeetPendingWrite()
    ensures Legal(WRITE_IN_FLIGHT)
    ensures var s := After(WRITE_IN_FLIGHT);
      && s.phase.DrainPoll? && s.c.lastWrite == 3 && s.c.lastRead == 4
      && var o := Event(4, false, HEARD);
         Enabled(s, Worker(o)) && WorkerStep(s, o).phase == AwaitFinish(5) && WorkerStep(s, o).w.pending == {3, 5}
  {
    ReachesDrain();
    hide After, Legal;
  }

  /** Going on from there: the write fails next, and Exit reads the status while
      Finish is still pending. */
  lemma StatusCanBeReadTooEarly()
    ensures Legal(WRITE_IN_FLIGHT)
    ensures var read, write, s := Event(4, false, HEARD), Event(3, false, HEARD), After(WRITE_IN_FLIGHT);
      && s.phase.DrainPoll? && Enabled(s, Worker(read))
      && var t := WorkerStep(s, read);
         && t.phase == AwaitFinish(5) && Enabled(t, Worker(write))
         && WorkerStep(t, write).phase.Draining? && WorkerStep(t, write).w.pending == {5}
  {
    ReachesDrain();
    hide After, Legal;
  }
}
