/** SpeechlyClient as an object. Its methods are those of
  Source/Speechly/Private/SpeechlyClient.cpp; Run and Exit are proved to be
  runs of the state machine of StreamClient.dfy, so every law about runs holds
  for them, whatever the completion queue returns and whatever other threads do
  between two steps of the worker. */
module SpeechlyClientModel {
  import opened Protocol
  import opened StreamClient
  import Responses

  lemma Extends(actions: seq<Action>, a: Action)
    requires Legal(actions) && CanFollow(After(actions), a)
    ensures Legal(actions + [a]) && After(actions + [a]) == Next(After(actions), a)
    ensures Polled(actions + [a]) == Polled(actions) + if a.Worker? && Polls(After(actions).phase) then 1 else 0
  {
    assert (actions + [a])[..|actions|] == actions;
  }

  class SpeechlyClient {
    var seqNo: nat
    var lastWriteSeq: nat
    var lastReadSeq: nat
    var writeAllowed: bool
    var readAllowed: bool
    var response: Response
    var isRunning: bool
    var hasError: bool
    var errorMessage: string
    var requestQueue: seq<Request>
    var responseQueue: seq<Response>

    /** The completion queue and the history. */
    var world: World

    ghost var phase: Phase
    ghost var trace: seq<Action>

    ghost function State(): State
      reads this
    {
      StreamClient.State(phase,
        Client(seqNo, lastWriteSeq, lastReadSeq, writeAllowed, readAllowed, isRunning, hasError,
               response, requestQueue, responseQueue),
        world)
    }

    /** The object is where some run of the machine has led. */
    ghost predicate Valid()
      reads this
    {
      Legal(trace) && After(trace) == State()
    }

    constructor ()
      ensures Valid() && phase.Fresh? && !hasError && isRunning
      ensures requestQueue == [] && responseQueue == [] && world.accepted == [] && world.arrived == []
    {
      errorMessage := "";
      seqNo, lastWriteSeq, lastReadSeq := 0, 0, 0;
      writeAllowed, readAllowed, isRunning, hasError := true, true, true, false;
      response, requestQueue, responseQueue := NO_RESPONSE, [], [];
      world := World([], {}, [], false, [], [], []);
      phase, trace := Fresh, [];
    }

    /** How often the worker has asked the queue. */
    ghost function Rounds(): nat
      requires Valid()
      reads this
    {
      Polled(trace)
    }

    /** Every law of the machine applies. */
    lemma Reached()
      requires Valid()
      ensures Inv(State())
    {
      RunKeepsInv(trace);
    }

    /** While the stream is opened or configured there is something to wait
        for, and the first write is free to go. */
    lemma SomethingPending()
      requires Valid()
      ensures phase.AwaitOpen? || phase.AwaitConfig? ==> world.pending != {}
      ensures phase.AwaitOpen? ==> writeAllowed
    {
      Reached();
    }

    ghost method Record(a: Action, before: State)
      requires Legal(trace) && After(trace) == before && CanFollow(before, a) && State() == Next(before, a)
      modifies this`trace
      ensures Valid() && trace == old(trace) + [a]
      ensures Rounds() == old(Polled(trace)) + if a.Worker? && Polls(before.phase) then 1 else 0
    {
      Extends(trace, a);
      trace := trace + [a];
    }

    // ---- The operations of the source ----

    method Post(p: Post)
      modifies this`world, this`seqNo
      ensures State() == Posted(old(State()), p)
    {
      seqNo := seqNo + 1;
      world := world.(posts := world.posts + [p], pending := world.pending + {seqNo});
    }

    method StreamWrite(r: Request)
      requires writeAllowed
      modifies this`world, this`seqNo, this`lastWriteSeq, this`writeAllowed
      ensures State() == StreamWriteStep(old(State()), r)
    {
      Post(WritePost(r));
      lastWriteSeq := seqNo;
      writeAllowed := false;
    }

    method StreamRead()
      requires readAllowed
      modifies this`world, this`seqNo, this`lastReadSeq, this`readAllowed
      ensures State() == StreamReadStep(old(State()))
    {
      Post(ReadPost);
      lastReadSeq := seqNo;
      readAllowed := false;
    }

    method HandleTag(tag: nat)
      modifies this`writeAllowed, this`readAllowed
      ensures State() == HandleTagStep(old(State()), tag)
    {
      if tag == lastWriteSeq {
        writeAllowed := true;
      } else if tag == lastReadSeq {
        readAllowed := true;
      }
    }

    method SetError(message: string)
      modifies this`hasError, this`isRunning, this`errorMessage
      ensures State() == SetErrorStep(old(State())) && errorMessage == message
    {
      errorMessage := message;
      hasError := true;
      isRunning := false;
    }

    /** Write, called by other threads. */
    method Write(r: Request) returns (ok: bool)
      requires Valid()
      modifies this`requestQueue, this`world, this`trace
      ensures Valid() && phase == old(phase)
      ensures ok == (!hasError && isRunning)
      ensures requestQueue == old(requestQueue) + if ok then [r] else []
      ensures world == old(world).(accepted := old(world.accepted) + if ok then [r] else [])
      ensures Rounds() == old(Rounds())
    {
      if hasError || !isRunning {
        assert world.accepted + [] == world.accepted;
        return false;
      }
      ghost var s := State();
      requestQueue := requestQueue + [r];
      world := world.(accepted := world.accepted + [r]);
      Record(PutRequest(r), s);
      return true;
    }

    /** Read, called by other threads. */
    method Read() returns (ok: bool, r: Response)
      requires Valid()
      modifies this`responseQueue, this`trace
      ensures Valid() && phase == old(phase)
      ensures ok == (!hasError && isRunning && old(responseQueue) != [])
      ensures if ok then old(responseQueue) == [r] + responseQueue else responseQueue == old(responseQueue)
      ensures Rounds() == old(Rounds())
    {
      r := NO_RESPONSE;
      if hasError || !isRunning || responseQueue == [] {
        return false, r;
      }
      ghost var s := State();
      r, responseQueue := responseQueue[0], responseQueue[1..];
      Record(TakeResponse, s);
      return true, r;
    }

    /** One message WLUSync puts on the response queue. */
    method Push(r: Response)
      requires Valid() && !r.fromStream
      modifies this`responseQueue, this`world, this`trace
      ensures Valid() && phase == old(phase)
      ensures responseQueue == old(responseQueue) + [r]
      ensures world == old(world).(arrived := old(world.arrived) + [r])
      ensures Rounds() == old(Rounds())
    {
      ghost var s := State();
      Enqueue(r);
      Record(PushResponse(r), s);
    }

    method Enqueue(r: Response)
      modifies this`responseQueue, this`world
      ensures State() == EnqueueResponse(old(State()), r)
    {
      responseQueue := responseQueue + [r];
      world := world.(arrived := world.arrived + [r]);
    }

    method StopClient()
      requires Valid()
      modifies this`isRunning, this`trace
      ensures Valid() && phase == old(phase) && !isRunning
      ensures Rounds() == old(Rounds())
    {
      ghost var s := State();
      isRunning := false;
      Record(Stop, s);
    }

    // ---- The environment ----

    /** Any other threads may do anything between two steps of the worker. */
    method Others()
      requires Valid()
      modifies this`requestQueue, this`responseQueue, this`isRunning, this`world, this`trace
      ensures Valid() && phase == old(phase) && world.pending == old(world.pending)
      ensures Rounds() == old(Rounds())
    {
      var n: nat := *;
      while n > 0
        invariant Valid() && phase == old(phase) && world.pending == old(world.pending)
        invariant Rounds() == old(Rounds())
      {
        if {
          case true =>
            var r: Request := *;
            var ok := Write(r);
          case true =>
            var ok, r := Read();
          case true =>
            var message: Responses.Message := *;
            Push(Response(message, false));
          case true =>
            StopClient();
        }
        n := n - 1;
      }
    }

    /** What the queue returns next: any pending tag with any success bit, or
        nothing in time; SHUTDOWN only when shut down and drained. A queue asked
        without deadline returns a tag if there is one. */
    method AsyncNext(deadline: bool) returns (o: Outcome)
      requires deadline || world.pending != {}
      requires deadline <==> !phase.AwaitOpen? && !phase.AwaitConfig?
      modifies this`world, this`response
      ensures Allowed(old(State()), o)
      ensures State() == if o.Event? then Deliver(old(State()), o) else old(State())
    {
      var tag: nat := *;
      var ok: bool := *;
      var message: Responses.Message := *;
      if !deadline {
        tag :| tag in world.pending;
      }
      if tag in world.pending {
        o := Event(tag, ok, Response(message, true));
        if IsRead(world.posts, o) {
          response := o.payload;
          world := world.(readOk := world.readOk + [o.payload]);
        } else {
          assert world.readOk + [] == world.readOk;
        }
        world := world.(pending := world.pending - {tag}, delivered := world.delivered + [tag]);
      } else if world.shutdown && world.pending == {} {
        o := ShutDown;
      } else {
        o := Timeout;
      }
    }

    // ---- Run ----

    method OpenStream() returns (streamSeq: nat)
      requires Valid() && phase.Fresh?
      modifies this
      ensures Valid() && phase == AwaitOpen(streamSeq)
      ensures Rounds() == old(Rounds())
    {
      ghost var s := State();
      Post(OpenPost);
      streamSeq := seqNo;
      phase := AwaitOpen(seqNo);
      Record(Worker(Timeout), s);
    }

    /** Waits for the stream to open and sends the configuration. */
    method AwaitStream(streamSeq: nat) returns (ok: bool)
      requires Valid() && phase == AwaitOpen(streamSeq)
      modifies this
      ensures Valid() && phase == if ok then AwaitConfig else RunReturned(1)
      ensures Rounds() == old(Rounds()) + 1
    {
      hide After, Legal, IsRead, Polled;
      SomethingPending();
      ghost var s := State();
      var o := AsyncNext(false);
      if !o.Event? || !o.ok || o.tag != streamSeq {
        hasError := true;
        phase := RunReturned(1);
        Record(Worker(o), s);
        return false;
      }
      StreamWrite(Config);
      phase := AwaitConfig;
      Record(Worker(o), s);
      return true;
    }

    method AwaitConfigured() returns (ok: bool)
      requires Valid() && phase.AwaitConfig?
      modifies this
      ensures Valid() && phase == if ok then LoopTest else RunReturned(1)
      ensures Rounds() == old(Rounds()) + 1
    {
      hide After, Legal, IsRead, Polled;
      SomethingPending();
      ghost var s := State();
      var o := AsyncNext(false);
      if o.Event? {
        HandleTag(o.tag);
      }
      if !o.Event? || !o.ok || o.tag != lastWriteSeq {
        SetError(if o.Event? then "Could not configure stream" else "Stream error");
        phase := RunReturned(1);
        Record(Worker(o), s);
        return false;
      }
      phase := LoopTest;
      Record(Worker(o), s);
      return true;
    }

    method TryWrite()
      requires Valid() && phase.LoopWrite?
      modifies this
      ensures Valid() && phase == LoopRead
      ensures Rounds() == old(Rounds())
    {
      ghost var s := State();
      hide After, Legal, IsRead, Polled;
      if writeAllowed && requestQueue != [] {
        var r := requestQueue[0];
        requestQueue := requestQueue[1..];
        StreamWrite(r);
      }
      phase := LoopRead;
      Record(Worker(Timeout), s);
    }

    method TryRead(ghost next: Phase)
      requires Valid() && ((phase.LoopRead? && next.LoopPoll?) || (phase.DrainRead? && next.DrainPoll?))
      modifies this
      ensures Valid() && phase == next
      ensures Rounds() == old(Rounds())
    {
      ghost var s := State();
      hide After, Legal, IsRead, Polled;
      if readAllowed {
        StreamRead();
      }
      phase := next;
      Record(Worker(Timeout), s);
    }

    /** The rest of an iteration: one event or none. */
    method Poll() returns (go: bool, code: nat)
      requires Valid() && phase.LoopPoll?
      modifies this
      ensures Valid() && phase == if go then LoopTest else RunReturned(code)
      ensures Rounds() == old(Rounds()) + 1
    {
      ghost var s := State();
      hide After, Legal, IsRead, ReactStep, Deliver, Polled;
      var o := AsyncNext(true);
      go, code := true, 0;
      match o {
        case Timeout =>
        case ShutDown =>
          isRunning := false;
          go := false;
        case Event(tag, ok, _) =>
          go := React(tag, ok);
          code := if go then 0 else 1;
      }
      phase := if go then LoopTest else RunReturned(code);
      Record(Worker(o), s);
    }

    method React(tag: nat, ok: bool) returns (go: bool)
      modifies this`writeAllowed, this`readAllowed, this`hasError, this`isRunning, this`errorMessage
      modifies this`responseQueue, this`world
      ensures go == ok
      ensures ReactStep(old(State()), tag, ok) == State().(phase := if go then LoopTest else RunReturned(1))
    {
      HandleTag(tag);
      if !ok {
        SetError(if tag == lastWriteSeq then "Speechly Write failed"
                 else if tag == lastReadSeq then "Speechly Read failed" else "Unknown tag with an error");
        return false;
      } else if tag == lastWriteSeq {
      } else if tag == lastReadSeq {
        Enqueue(response);
      }
      return true;
    }

    method StillRunning() returns (go: bool)
      requires Valid() && phase.LoopTest?
      modifies this`phase, this`trace
      ensures Valid() && phase == if go then LoopWrite else RunReturned(0)
      ensures Rounds() == old(Rounds())
    {
      ghost var s := State();
      hide After, Legal, IsRead, Polled;
      go := isRunning && !hasError;
      phase := if go then LoopWrite else RunReturned(0);
      Record(Worker(Timeout), s);
    }

    /** Run, observed for `budget` iterations of its main loop, if it has not
        returned by then. */
    method Run(budget: nat) returns (code: nat)
      requires Valid() && phase.Fresh?
      modifies this
      ensures Valid()
      ensures phase == RunReturned(code) || phase == LoopTest
      ensures phase == LoopTest ==> Rounds() >= budget
    {
      Others();
      var streamSeq := OpenStream();
      Others();
      var ok := AwaitStream(streamSeq);
      if !ok { return 1; }
      Others();
      ok := AwaitConfigured();
      if !ok { return 1; }
      var left := budget;
      while left > 0
        invariant Valid() && phase == LoopTest && left <= budget && Rounds() >= budget - left
      {
        left := left - 1;
        Others();
        var go := StillRunning();
        if !go { return 0; }
        Others();
        TryWrite();
        Others();
        TryRead(LoopPoll);
        Others();
        go, code := Poll();
        if !go { return code; }
      }
      code := 0;
    }

    // ---- Exit ----

    method BeginExit()
      requires Valid() && phase.RunReturned?
      modifies this`phase, this`trace
      ensures Valid() && phase == DrainRead
      ensures Rounds() == old(Rounds())
    {
      ghost var s := State();
      phase := DrainRead;
      Record(Worker(Timeout), s);
    }

    /** One event of the drain loop; when the loop ends, Finish is posted. */
    method DrainEvent() returns (finished: bool, finishSeq: nat)
      requires Valid() && phase.DrainPoll?
      modifies this
      ensures Valid() && phase == if finished then AwaitFinish(finishSeq) else DrainRead
      ensures Rounds() == old(Rounds()) + 1
    {
      ghost var s := State();
      hide After, Legal, IsRead, Polled;
      var o := AsyncNext(true);
      finished, finishSeq := true, 0;
      if o.Event? {
        HandleTag(o.tag);
        finished := !o.ok;
      }
      if finished {
        Post(FinishPost);
        finishSeq := seqNo;
      }
      phase := if finished then AwaitFinish(finishSeq) else DrainRead;
      Record(Worker(o), s);
    }

    /** One event of the finish loop; when it ends, the queue is shut down. */
    method FinishEvent(finishSeq: nat) returns (finished: bool)
      requires Valid() && phase == AwaitFinish(finishSeq)
      modifies this
      ensures Valid() && phase == if finished then Draining else AwaitFinish(finishSeq)
      ensures !finished ==> world.pending < old(world.pending)
    {
      ghost var s := State();
      hide After, Legal, IsRead, Polled;
      var o := AsyncNext(true);
      finished := !o.Event? || o.tag == finishSeq || !o.ok;
      if finished {
        world := world.(shutdown := true);
        phase := Draining;
      }
      Record(Worker(o), s);
    }

    method ShutdownEvent() returns (finished: bool)
      requires Valid() && phase.Draining?
      modifies this
      ensures Valid() && if finished then phase.Exited? else phase == Draining
      ensures !finished ==> world.pending < old(world.pending)
    {
      ghost var s := State();
      hide After, Legal, IsRead, Polled;
      var o := AsyncNext(true);
      finished := !o.Event?;
      if finished {
        phase := Exited(o.ShutDown?);
      }
      Record(Worker(o), s);
    }

    /** Exit. The drain loop is observed for `budget` events, if it goes on so long;
        the two other loops end because every event leaves fewer tags pending. Other
        threads go on meanwhile, but they post nothing. */
    method Exit(budget: nat)
      requires Valid() && phase.RunReturned?
      modifies this
      ensures Valid()
      ensures phase.Exited? || phase == DrainRead
      ensures phase == Exited(true) ==>
        && Distinct(world.delivered)
        && forall t: nat :: t in world.delivered <==> 1 <= t <= |world.posts|
      ensures phase == DrainRead ==> Rounds() >= old(Rounds()) + budget
    {
      BeginExit();
      var left, finished, finishSeq := budget, false, 0;
      while left > 0 && !finished
        invariant Valid() && phase == if finished then AwaitFinish(finishSeq) else DrainRead
        invariant left <= budget && Rounds() >= old(Rounds()) + (budget - left)
      {
        left := left - 1;
        Others();
        TryRead(DrainPoll);
        Others();
        finished, finishSeq := DrainEvent();
      }
      if !finished { return; }
      finished := false;
      while !finished
        invariant Valid() && phase == if finished then Draining else AwaitFinish(finishSeq)
        decreases !finished, |world.pending|
      {
        ghost var before := world.pending;
        Others();
        finished := FinishEvent(finishSeq);
        Shrinks(world.pending, before);
      }
      finished := false;
      while !finished
        invariant Valid() && if finished then phase.Exited? else phase == Draining
        decreases !finished, |world.pending|
      {
        ghost var before := world.pending;
        Others();
        finished := ShutdownEvent();
        Shrinks(world.pending, before);
      }
      ExitFinishesOnce(trace);
    }
  }

  lemma Shrinks(a: set<nat>, b: set<nat>)
    ensures a < b ==> |a| < |b|
  {
    if a < b {
      assert b == a + (b - a);
    }
  }
}
