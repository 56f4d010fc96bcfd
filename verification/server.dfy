/**
One server session: a reader that numbers packets, a dispatcher, eight read/write workers, a
worker for everything else, and the packet manager's controller, joined by channels with room
for eight. Packets are known by their order id; `stream` is what the client sends, packet o
being stream[o - 1].
*/
module ServerPipeline {
  import opened Basics
  import opened Allocators
  import opened PacketManagers

  /** SftpServerWorkerCount: read/write workers, and the buffer of every channel. */
  const WORKER_COUNT: nat := 8

  /** The index of the worker that serves everything but reads and writes. */
  const CMD: nat := WORKER_COUNT

  datatype Kind = Read | Write | Close | Other

  datatype Packet = Packet(id: nat, kind: Kind)

  /** Before GetPage; holding a page and waiting for bytes; blocked handing on the last packet. */
  datatype Reader = Fetching | Receiving | Offering

  /** Barrier: a Close waits for `working` to drain. Registering: counted in `working` and
      blocked on the requests channel. Forwarding: registered and blocked on a worker channel. */
  datatype Dispatcher = Ready | Barrier(o: nat) | Registering(o: nat) | Forwarding(o: nat)

  /** Answering: the handler is done, blocked on the responses channel. Counted: the response
      is in the channel, working.Done is still to come. */
  datatype Worker = Idle | Handling(o: nat) | Answering(o: nat) | Counted(o: nat)

  /** `started` records the worker that took each packet, `handled` the packets whose handler
      has finished, `put` those whose response has been put on the channel, `cmdLog` what the
      command worker was given. */
  datatype State = State(
    reader: Reader,
    count: nat,
    pktChan: seq<nat>,
    disp: Dispatcher,
    requests: seq<nat>,
    rwChan: seq<nat>,
    workers: seq<Worker>,
    responses: seq<nat>,
    working: nat,
    q: Queues,
    pool: Pool,
    started: map<nat, nat>,
    handled: set<nat>,
    put: set<nat>,
    cmdLog: seq<nat>)

  datatype Event =
    | FetchPage
    | Recv
    | Push
    | Dispatch
    | PassBarrier
    | Register
    | ForwardRw
    | ForwardCmd
    | TakeRw(w: nat)
    | DataPage(w: nat)
    | Finish(w: nat)
    | Respond(w: nat)
    | Done(w: nat)
    | CtlRequest
    | CtlResponse

  predicate InStream(stream: seq<Packet>, o: nat) {
    1 <= o <= |stream|
  }

  predicate IsRw(stream: seq<Packet>, o: nat)
    requires InStream(stream, o)
  {
    stream[o - 1].kind in {Read, Write}
  }

  /** A packet for the command worker. */
  predicate IsCmd(stream: seq<Packet>, o: nat) {
    InStream(stream, o) && !IsRw(stream, o)
  }

  predicate IsClose(stream: seq<Packet>, o: nat) {
    InStream(stream, o) && stream[o - 1].kind == Close
  }

  function Tagged(stream: seq<Packet>, o: nat): Ordered {
    Ordered(o, if InStream(stream, o) then stream[o - 1].id else 0)
  }

  function Init(): State {
    State(Fetching, 0, [], Ready, [], [], seq(WORKER_COUNT + 1, i => Idle), [], 0,
          Queues([], [], []), EMPTY_POOL, map[], {}, {}, [])
  }

  predicate Enabled(stream: seq<Packet>, s: State, e: Event) {
    match e
    case FetchPage => s.reader == Fetching
    case Recv => s.reader == Receiving && s.count < |stream|
    case Push => s.reader == Offering && |s.pktChan| < WORKER_COUNT
    case Dispatch => s.disp == Ready && s.pktChan != [] && InStream(stream, s.pktChan[0])
    case PassBarrier => s.disp.Barrier? && s.working == 0
    case Register => s.disp.Registering? && |s.requests| < WORKER_COUNT
    case ForwardRw =>
      s.disp.Forwarding? && InStream(stream, s.disp.o) && IsRw(stream, s.disp.o) && |s.rwChan| < WORKER_COUNT
    case ForwardCmd =>
      && s.disp.Forwarding? && InStream(stream, s.disp.o) && !IsRw(stream, s.disp.o)
      && CMD < |s.workers| && s.workers[CMD] == Idle
    case TakeRw(w) => w < CMD && w < |s.workers| && s.workers[w] == Idle && s.rwChan != []
    case DataPage(w) =>
      && w < |s.workers| && s.workers[w].Handling?
      && InStream(stream, s.workers[w].o) && stream[s.workers[w].o - 1].kind == Read
    case Finish(w) => w < |s.workers| && s.workers[w].Handling?
    case Respond(w) => w < |s.workers| && s.workers[w].Answering? && |s.responses| < WORKER_COUNT
    case Done(w) => w < |s.workers| && s.workers[w].Counted? && s.working > 0
    case CtlRequest => s.requests != []
    case CtlResponse => s.responses != []
  }

  /** The controller's step: the queues move on and the pages of what was sent are released. */
  function Control(s: State, q: Queues): State {
    s.(q := q, pool := ReleaseAll(s.pool, if |s.q.sent| <= |q.sent| then q.sent[|s.q.sent|..] else []))
  }

  function Apply(stream: seq<Packet>, s: State, e: Event): State
    requires Enabled(stream, s, e)
  {
    match e
    case FetchPage => s.(reader := Receiving, pool := GetPage(s.pool, s.count + 1))
    case Recv => s.(reader := Offering, count := s.count + 1)
    case Push => s.(reader := Fetching, pktChan := s.pktChan + [s.count])
    case Dispatch =>
      var o := s.pktChan[0];
      if stream[o - 1].kind == Close then s.(pktChan := s.pktChan[1..], disp := Barrier(o))
      else s.(pktChan := s.pktChan[1..], disp := Registering(o), working := s.working + 1)
    case PassBarrier => s.(disp := Registering(s.disp.o), working := s.working + 1)
    case Register => s.(disp := Forwarding(s.disp.o), requests := s.requests + [s.disp.o])
    case ForwardRw => s.(disp := Ready, rwChan := s.rwChan + [s.disp.o])
    case ForwardCmd =>
      var o := s.disp.o;
      s.(disp := Ready, workers := s.workers[CMD := Handling(o)], started := s.started[o := CMD],
         cmdLog := s.cmdLog + [o])
    case TakeRw(w) =>
      var o := s.rwChan[0];
      s.(rwChan := s.rwChan[1..], workers := s.workers[w := Handling(o)], started := s.started[o := w])
    case DataPage(w) => s.(pool := GetPage(s.pool, s.workers[w].o))
    case Finish(w) =>
      var o := s.workers[w].o;
      s.(workers := s.workers[w := Answering(o)], handled := s.handled + {o})
    case Respond(w) =>
      var o := s.workers[w].o;
      s.(workers := s.workers[w := Counted(o)], responses := s.responses + [o], put := s.put + {o})
    case Done(w) => s.(workers := s.workers[w := Idle], working := s.working - 1)
    case CtlRequest =>
      Control(s, OnRequest(s.q, Tagged(stream, s.requests[0]))).(requests := s.requests[1..])
    case CtlResponse =>
      Control(s, OnResponse(s.q, Tagged(stream, s.responses[0]))).(responses := s.responses[1..])
  }

  ghost predicate Run(stream: seq<Packet>, s: State, es: seq<Event>, t: State)
    decreases |es|
  {
    if es == [] then s == t
    else Enabled(stream, s, es[0]) && Run(stream, Apply(stream, s, es[0]), es[1..], t)
  }

  ghost predicate Reachable(stream: seq<Packet>, s: State) {
    exists es :: Run(stream, Init(), es, s)
  }

  // ---------------------------------------------------------------- invariant

  /** The last order id the dispatcher has taken from the reader. */
  function Dispatched(s: State): int {
    s.count - |s.pktChan| - if s.reader == Offering then 1 else 0
  }

  /** The last one on the requests channel. */
  function Registered(s: State): int {
    Dispatched(s) - if s.disp.Barrier? || s.disp.Registering? then 1 else 0
  }

  /** The last one the controller has received. */
  function Received(s: State): int {
    Registered(s) - |s.requests|
  }

  /** Order ids move through reader, dispatcher and requests channel without gap. */
  ghost predicate NumbersOk(stream: seq<Packet>, s: State) {
    && s.count <= |stream|
    && 0 <= Received(s)
    && (forall i :: 0 <= i < |s.pktChan| ==> s.pktChan[i] == Dispatched(s) + 1 + i)
    && (!s.disp.Ready? ==> s.disp.o == Dispatched(s) >= 1)
    && (s.disp.Barrier? ==> stream[s.disp.o - 1].kind == Close)
    && (forall i :: 0 <= i < |s.requests| ==> s.requests[i] == Received(s) + 1 + i)
  }

  /** Each packet started was taken by the worker recorded for it, which handles it or has done so. */
  ghost predicate TakenOk(stream: seq<Packet>, s: State)
    requires NumbersOk(stream, s)
  {
    && |s.workers| == WORKER_COUNT + 1
    && (forall o :: o in s.started ==>
          && 1 <= o <= Registered(s) && s.started[o] < |s.workers|
          && (s.started[o] == CMD <==> !IsRw(stream, o))
          && (o in s.handled || s.workers[s.started[o]] == Handling(o)))
    && s.handled <= s.started.Keys
    && (forall w :: 0 <= w < |s.workers| && s.workers[w] != Idle ==>
          && s.workers[w].o in s.started && s.started[s.workers[w].o] == w
          && (s.workers[w].Handling? <==> s.workers[w].o !in s.handled))
  }

  /** Every packet registered and not yet started is in the read/write channel, in order, or
      with the dispatcher. */
  ghost predicate WaitingOk(stream: seq<Packet>, s: State)
    requires NumbersOk(stream, s)
  {
    && (forall i :: 0 <= i < |s.rwChan| ==>
          && 1 <= s.rwChan[i] <= Registered(s) && s.rwChan[i] !in s.started && IsRw(stream, s.rwChan[i]))
    && (forall i, j :: 0 <= i < j < |s.rwChan| ==> s.rwChan[i] < s.rwChan[j])
    && (s.disp.Forwarding? ==>
          && s.disp.o !in s.started
          && (forall i :: 0 <= i < |s.rwChan| ==> s.rwChan[i] < s.disp.o))
    && (forall o: nat :: 1 <= o <= Registered(s) ==> o in s.started || o in s.rwChan || s.disp == Forwarding(o))
  }

  ghost predicate WorkOk(stream: seq<Packet>, s: State)
    requires NumbersOk(stream, s)
  {
    TakenOk(stream, s) && WaitingOk(stream, s)
  }

  function BusyRank(w: Worker): nat {
    if w == Idle then 0 else 1
  }

  /** `working` counts the packets registered and not yet signed off. */
  ghost predicate CountOk(s: State) {
    s.working == |s.rwChan| + SumBy(BusyRank, s.workers)
                 + if s.disp.Registering? || s.disp.Forwarding? then 1 else 0
  }

  ghost predicate WithWorker(s: State, o: nat) {
    o in s.started && s.started[o] < |s.workers| && s.workers[s.started[o]] == Answering(o)
  }

  /** Each handled packet's response is with its worker, in the channel, or with the controller. */
  ghost predicate ResponsesOk(stream: seq<Packet>, s: State)
  {
    && s.put <= s.handled
    && (forall o :: o in s.handled && o !in s.put ==> WithWorker(s, o))
    && (forall w :: 0 <= w < |s.workers| && s.workers[w].Answering? ==> s.workers[w].o !in s.put)
    && (forall i :: 0 <= i < |s.responses| ==> s.responses[i] in s.put && !Answered(s.q, s.responses[i]))
    && (forall i, j :: 0 <= i < j < |s.responses| ==> s.responses[i] != s.responses[j])
    && (forall o: nat :: Answered(s.q, o) ==> o in s.put)
    && (forall o :: o in s.put ==> o in s.responses || Answered(s.q, o))
  }

  /** All packets before o have finished their handlers. */
  ghost predicate AllHandledBefore(s: State, o: nat) {
    forall j: nat :: 1 <= j < o ==> j in s.handled
  }

  ghost predicate BarrierOk(stream: seq<Packet>, s: State) {
    && ((s.disp.Registering? || s.disp.Forwarding?) && IsClose(stream, s.disp.o) ==> AllHandledBefore(s, s.disp.o))
    && (forall w :: 0 <= w < |s.workers| && s.workers[w].Handling? && IsClose(stream, s.workers[w].o) ==>
          AllHandledBefore(s, s.workers[w].o))
  }

  /** What the command worker was given: in arrival order, all done but perhaps the last. */
  ghost predicate CmdOk(stream: seq<Packet>, s: State) {
    && (forall i, j :: 0 <= i < j < |s.cmdLog| ==> s.cmdLog[i] < s.cmdLog[j])
    && (forall i :: 0 <= i < |s.cmdLog| ==> s.cmdLog[i] in s.started && IsCmd(stream, s.cmdLog[i]))
    && (forall i :: 0 <= i < |s.cmdLog| - 1 ==> s.cmdLog[i] in s.handled)
    && (forall o :: o in s.started && IsCmd(stream, o) ==> o in s.cmdLog)
  }

  ghost predicate QueueOk(stream: seq<Packet>, s: State)
    requires NumbersOk(stream, s)
  {
    QueuesOk(s.q, Received(s)) && Eager(s.q)
  }

  /** Pages are recorded only for packets not yet answered, or the one being received. */
  ghost predicate PagesOk(s: State) {
    && PoolOk(s.pool)
    && forall k: nat, x: nat :: UsedFor(s.pool, k, x) ==> |s.q.sent| < k <= s.count + 1
  }

  lemma ReaderKeepsNumbers(stream: seq<Packet>, s: State, e: Event)
    requires NumbersOk(stream, s) && Enabled(stream, s, e) && (e.FetchPage? || e.Recv? || e.Push?)
    ensures NumbersOk(stream, Apply(stream, s, e))
  {}

  lemma DispatcherKeepsNumbers(stream: seq<Packet>, s: State, e: Event)
    requires NumbersOk(stream, s) && Enabled(stream, s, e) && (e.Dispatch? || e.PassBarrier? || e.Register?)
    ensures NumbersOk(stream, Apply(stream, s, e))
  {}

  lemma ForwardKeepsNumbers(stream: seq<Packet>, s: State, e: Event)
    requires NumbersOk(stream, s) && Enabled(stream, s, e) && (e.ForwardRw? || e.ForwardCmd?)
    ensures NumbersOk(stream, Apply(stream, s, e))
  {}

  lemma RequestKeepsNumbers(stream: seq<Packet>, s: State)
    requires NumbersOk(stream, s) && Enabled(stream, s, CtlRequest)
    ensures NumbersOk(stream, Apply(stream, s, CtlRequest))
  {}

  /** Events of the workers and the responses channel. */
  lemma OthersKeepNumbers(stream: seq<Packet>, s: State, t: State)
    requires NumbersOk(stream, s)
    requires t.reader == s.reader && t.count == s.count && t.pktChan == s.pktChan
    requires t.disp == s.disp && t.requests == s.requests
    ensures NumbersOk(stream, t)
  {}

  lemma StepKeepsNumbers(stream: seq<Packet>, s: State, e: Event)
    requires NumbersOk(stream, s) && Enabled(stream, s, e)
    ensures NumbersOk(stream, Apply(stream, s, e))
  {
    if e.FetchPage? || e.Recv? || e.Push? {
      ReaderKeepsNumbers(stream, s, e);
    } else if e.Dispatch? || e.PassBarrier? || e.Register? {
      DispatcherKeepsNumbers(stream, s, e);
    } else if e.ForwardRw? || e.ForwardCmd? {
      ForwardKeepsNumbers(stream, s, e);
    } else if e.CtlRequest? {
      RequestKeepsNumbers(stream, s);
    } else {
      OthersKeepNumbers(stream, s, Apply(stream, s, e));
    }
  }

  lemma FinishKeepsWork(stream: seq<Packet>, s: State, w: nat)
    requires NumbersOk(stream, s) && WorkOk(stream, s) && Enabled(stream, s, Finish(w))
    requires NumbersOk(stream, Apply(stream, s, Finish(w)))
    ensures WorkOk(stream, Apply(stream, s, Finish(w)))
  {}

  lemma SignOffKeepsWork(stream: seq<Packet>, s: State, e: Event)
    requires NumbersOk(stream, s) && WorkOk(stream, s) && Enabled(stream, s, e) && (e.Respond? || e.Done?)
    requires NumbersOk(stream, Apply(stream, s, e))
    ensures WorkOk(stream, Apply(stream, s, e))
  {}

  lemma TakeRwKeepsTaken(stream: seq<Packet>, s: State, w: nat)
    requires NumbersOk(stream, s) && WorkOk(stream, s) && Enabled(stream, s, TakeRw(w))
    requires NumbersOk(stream, Apply(stream, s, TakeRw(w)))
    ensures TakenOk(stream, Apply(stream, s, TakeRw(w)))
  {}

  /** The head of the channel becomes a started packet; the rest stays as it was. */
  lemma TakeRwKeepsWaiting(stream: seq<Packet>, s: State, t: State)
    requires NumbersOk(stream, s) && NumbersOk(stream, t) && WaitingOk(stream, s)
    requires s.rwChan != [] && t.rwChan == s.rwChan[1..] && t.disp == s.disp && Registered(t) == Registered(s)
    requires t.started.Keys == s.started.Keys + {s.rwChan[0]}
    ensures WaitingOk(stream, t)
  {
    var head := s.rwChan[0];
    assert s.rwChan == [head] + t.rwChan;
    forall i | 0 <= i < |t.rwChan| ensures t.rwChan[i] == s.rwChan[i + 1] && t.rwChan[i] > head {}
    forall o: nat | 1 <= o <= Registered(t) ensures o in t.started || o in t.rwChan || t.disp == Forwarding(o) {
      assert o in s.started || o in s.rwChan || s.disp == Forwarding(o);
      assert o in s.rwChan ==> o == head || o in t.rwChan;
    }
  }

  lemma ForwardRwKeepsWork(stream: seq<Packet>, s: State)
    requires NumbersOk(stream, s) && WorkOk(stream, s) && Enabled(stream, s, ForwardRw)
    requires NumbersOk(stream, Apply(stream, s, ForwardRw))
    ensures WorkOk(stream, Apply(stream, s, ForwardRw))
  {}

  lemma ForwardCmdKeepsWork(stream: seq<Packet>, s: State)
    requires NumbersOk(stream, s) && WorkOk(stream, s) && Enabled(stream, s, ForwardCmd)
    requires NumbersOk(stream, Apply(stream, s, ForwardCmd))
    ensures WorkOk(stream, Apply(stream, s, ForwardCmd))
  {}

  lemma RegisterKeepsWork(stream: seq<Packet>, s: State)
    requires NumbersOk(stream, s) && WorkOk(stream, s) && Enabled(stream, s, Register)
    requires NumbersOk(stream, Apply(stream, s, Register))
    ensures WorkOk(stream, Apply(stream, s, Register))
  {}

  /** Events that touch neither workers nor their channel, and register nothing. */
  lemma OthersKeepWork(stream: seq<Packet>, s: State, t: State)
    requires NumbersOk(stream, s) && WorkOk(stream, s) && NumbersOk(stream, t)
    requires t.workers == s.workers && t.rwChan == s.rwChan && t.started == s.started && t.handled == s.handled
    requires Registered(t) == Registered(s) && (t.disp == s.disp || (!t.disp.Forwarding? && !s.disp.Forwarding?))
    ensures WorkOk(stream, t)
  {}

  lemma TakeRwKeepsWork(stream: seq<Packet>, s: State, w: nat)
    requires NumbersOk(stream, s) && WorkOk(stream, s) && Enabled(stream, s, TakeRw(w))
    requires NumbersOk(stream, Apply(stream, s, TakeRw(w)))
    ensures WorkOk(stream, Apply(stream, s, TakeRw(w)))
  {
    TakeRwKeepsTaken(stream, s, w);
    TakeRwKeepsWaiting(stream, s, Apply(stream, s, TakeRw(w)));
  }

  predicate TouchesWork(e: Event) {
    e.Finish? || e.Respond? || e.Done? || e.TakeRw? || e.ForwardRw? || e.ForwardCmd? || e.Register?
  }

  lemma QuietStepKeepsWork(stream: seq<Packet>, s: State, e: Event)
    requires NumbersOk(stream, s) && WorkOk(stream, s) && Enabled(stream, s, e) && !TouchesWork(e)
    requires NumbersOk(stream, Apply(stream, s, e))
    ensures WorkOk(stream, Apply(stream, s, e))
  {
    OthersKeepWork(stream, s, Apply(stream, s, e));
  }

  lemma StepKeepsWork(stream: seq<Packet>, s: State, e: Event)
    requires NumbersOk(stream, s) && WorkOk(stream, s) && Enabled(stream, s, e)
    requires NumbersOk(stream, Apply(stream, s, e))
    ensures WorkOk(stream, Apply(stream, s, e))
  {
    if !TouchesWork(e) {
      QuietStepKeepsWork(stream, s, e);
    } else {
      match e {
        case Finish(w) => FinishKeepsWork(stream, s, w);
        case Respond(_) => SignOffKeepsWork(stream, s, e);
        case Done(_) => SignOffKeepsWork(stream, s, e);
        case TakeRw(w) => TakeRwKeepsWork(stream, s, w);
        case ForwardRw => ForwardRwKeepsWork(stream, s);
        case ForwardCmd => ForwardCmdKeepsWork(stream, s);
        case Register => RegisterKeepsWork(stream, s);
      }
    }
  }

  /** A step at worker w changes the count of busy workers by its own change. */
  lemma WorkerStepKeepsCount(stream: seq<Packet>, s: State, e: Event, w: nat)
    requires |s.workers| == WORKER_COUNT + 1 && CountOk(s) && Enabled(stream, s, e)
    requires if e.ForwardCmd? then w == CMD else (e.TakeRw? || e.Finish? || e.Respond? || e.Done?) && w == e.w
    ensures CountOk(Apply(stream, s, e))
  {
    SumByUpdate(BusyRank, s.workers, w, Apply(stream, s, e).workers[w]);
  }

  lemma StepKeepsCount(stream: seq<Packet>, s: State, e: Event)
    requires |s.workers| == WORKER_COUNT + 1 && CountOk(s) && Enabled(stream, s, e)
    ensures CountOk(Apply(stream, s, e))
  {
    if e.ForwardCmd? {
      WorkerStepKeepsCount(stream, s, e, CMD);
    } else if e.TakeRw? || e.Finish? || e.Respond? || e.Done? {
      WorkerStepKeepsCount(stream, s, e, e.w);
    }
  }

  lemma RequestKeepsQueue(stream: seq<Packet>, s: State)
    requires NumbersOk(stream, s) && QueueOk(stream, s) && Enabled(stream, s, CtlRequest)
    ensures QueuesOk(Apply(stream, s, CtlRequest).q, Received(s) + 1) && Eager(Apply(stream, s, CtlRequest).q)
    ensures forall o: nat :: Answered(Apply(stream, s, CtlRequest).q, o) <==> Answered(s.q, o)
  {
    OnRequestOk(s.q, Received(s), Tagged(stream, s.requests[0]));
  }

  lemma ResponseKeepsQueue(stream: seq<Packet>, s: State)
    requires NumbersOk(stream, s) && WorkOk(stream, s) && ResponsesOk(stream, s) && QueueOk(stream, s)
    requires Enabled(stream, s, CtlResponse)
    ensures QueuesOk(Apply(stream, s, CtlResponse).q, Received(s)) && Eager(Apply(stream, s, CtlResponse).q)
    ensures forall o: nat :: Answered(Apply(stream, s, CtlResponse).q, o) <==> Answered(s.q, o) || o == s.responses[0]
  {
    OnResponseOk(s.q, Received(s), Tagged(stream, s.responses[0]));
  }

  lemma StepKeepsQueue(stream: seq<Packet>, s: State, e: Event)
    requires NumbersOk(stream, s) && WorkOk(stream, s) && ResponsesOk(stream, s) && QueueOk(stream, s)
    requires Enabled(stream, s, e) && NumbersOk(stream, Apply(stream, s, e))
    ensures QueueOk(stream, Apply(stream, s, e))
  {
    if e.CtlRequest? {
      RequestKeepsQueue(stream, s);
    } else if e.CtlResponse? {
      ResponseKeepsQueue(stream, s);
    } else {
      ReceivedSame(stream, s, e);
    }
  }

  lemma ReceivedSame(stream: seq<Packet>, s: State, e: Event)
    requires NumbersOk(stream, s) && Enabled(stream, s, e) && !e.CtlRequest? && !e.CtlResponse?
    ensures Received(Apply(stream, s, e)) == Received(s) && Apply(stream, s, e).q == s.q
  {}

  lemma FinishKeepsResponses(stream: seq<Packet>, s: State, w: nat)
    requires NumbersOk(stream, s) && WorkOk(stream, s) && ResponsesOk(stream, s) && Enabled(stream, s, Finish(w))
    ensures ResponsesOk(stream, Apply(stream, s, Finish(w)))
  {}

  lemma RespondKeepsResponses(stream: seq<Packet>, s: State, w: nat)
    requires NumbersOk(stream, s) && WorkOk(stream, s) && ResponsesOk(stream, s) && Enabled(stream, s, Respond(w))
    ensures ResponsesOk(stream, Apply(stream, s, Respond(w)))
  {
    var t := Apply(stream, s, Respond(w));
    assert t.responses[|s.responses|] == s.workers[w].o;
    assert forall o :: o in s.responses ==> o in t.responses;
  }

  lemma DoneKeepsResponses(stream: seq<Packet>, s: State, w: nat)
    requires ResponsesOk(stream, s) && Enabled(stream, s, Done(w))
    ensures ResponsesOk(stream, Apply(stream, s, Done(w)))
  {}

  /** The controller moves the answers it holds; at most the response it takes is new. */
  lemma ControlKeepsResponses(stream: seq<Packet>, s: State, t: State)
    requires ResponsesOk(stream, s)
    requires t.put == s.put && t.handled == s.handled && t.workers == s.workers && t.started == s.started
    requires || (t.responses == s.responses && forall o: nat :: Answered(t.q, o) <==> Answered(s.q, o))
             || (s.responses != [] && t.responses == s.responses[1..]
                 && forall o: nat :: Answered(t.q, o) <==> Answered(s.q, o) || o == s.responses[0])
    ensures ResponsesOk(stream, t)
  {
    if t.responses != s.responses { assert s.responses == [s.responses[0]] + t.responses; }
  }

  /** Events that start handlers or hand packets on leave the responses alone. */
  lemma OthersKeepResponses(stream: seq<Packet>, s: State, t: State)
    requires ResponsesOk(stream, s)
    requires t.put == s.put && t.handled == s.handled && t.responses == s.responses && t.q == s.q
    requires forall o :: o in s.started ==> o in t.started && t.started[o] == s.started[o]
    requires |t.workers| == |s.workers|
    requires forall w :: 0 <= w < |s.workers| && (s.workers[w].Answering? || t.workers[w].Answering?) ==>
               t.workers[w] == s.workers[w]
    ensures ResponsesOk(stream, t)
  {}

  lemma StartKeepsResponses(stream: seq<Packet>, s: State, e: Event)
    requires NumbersOk(stream, s) && WorkOk(stream, s) && ResponsesOk(stream, s) && Enabled(stream, s, e)
    requires e.TakeRw? || e.ForwardCmd?
    ensures ResponsesOk(stream, Apply(stream, s, e))
  {
    OthersKeepResponses(stream, s, Apply(stream, s, e));
  }

  lemma ControlStepKeepsResponses(stream: seq<Packet>, s: State, e: Event)
    requires NumbersOk(stream, s) && WorkOk(stream, s) && ResponsesOk(stream, s) && QueueOk(stream, s)
    requires Enabled(stream, s, e) && (e.CtlRequest? || e.CtlResponse?)
    ensures ResponsesOk(stream, Apply(stream, s, e))
  {
    if e.CtlRequest? { RequestKeepsQueue(stream, s); } else { ResponseKeepsQueue(stream, s); }
    ControlKeepsResponses(stream, s, Apply(stream, s, e));
  }

  lemma QuietStepKeepsResponses(stream: seq<Packet>, s: State, e: Event)
    requires ResponsesOk(stream, s) && Enabled(stream, s, e)
    requires !e.CtlRequest? && !e.CtlResponse? && !e.Finish? && !e.Respond? && !e.Done? && !e.TakeRw? && !e.ForwardCmd?
    ensures ResponsesOk(stream, Apply(stream, s, e))
  {
    OthersKeepResponses(stream, s, Apply(stream, s, e));
  }

  lemma StepKeepsResponses(stream: seq<Packet>, s: State, e: Event)
    requires NumbersOk(stream, s) && WorkOk(stream, s) && ResponsesOk(stream, s) && QueueOk(stream, s)
    requires Enabled(stream, s, e)
    ensures ResponsesOk(stream, Apply(stream, s, e))
  {
    match e {
      case Finish(w) => FinishKeepsResponses(stream, s, w);
      case Respond(w) => RespondKeepsResponses(stream, s, w);
      case Done(w) => DoneKeepsResponses(stream, s, w);
      case CtlRequest => ControlStepKeepsResponses(stream, s, e);
      case CtlResponse => ControlStepKeepsResponses(stream, s, e);
      case TakeRw(w) => StartKeepsResponses(stream, s, e);
      case ForwardCmd => StartKeepsResponses(stream, s, e);
      case _ => QuietStepKeepsResponses(stream, s, e);
    }
  }

  /** With `working` at zero every registered packet has been handled. */
  lemma DrainedAllHandled(stream: seq<Packet>, s: State)
    requires NumbersOk(stream, s) && WorkOk(stream, s) && CountOk(s) && s.working == 0
    ensures forall o: nat :: 1 <= o <= Registered(s) ==> o in s.handled
  {
    forall w | 0 <= w < |s.workers| ensures s.workers[w] == Idle {
      SumByTerm(BusyRank, s.workers, w);
    }
    assert s.rwChan == [];
  }

  /** A worker's step starts no handler. */
  lemma WorkerKeepsBarrier(stream: seq<Packet>, s: State, t: State, w: nat)
    requires BarrierOk(stream, s)
    requires t.disp == s.disp && s.handled <= t.handled
    requires w < |s.workers| && |t.workers| == |s.workers| && t.workers == s.workers[w := t.workers[w]]
    requires !t.workers[w].Handling?
    ensures BarrierOk(stream, t)
  {}

  lemma WorkerStepKeepsBarrier(stream: seq<Packet>, s: State, e: Event)
    requires BarrierOk(stream, s) && Enabled(stream, s, e)
    requires e.Finish? || e.Respond? || e.Done?
    ensures BarrierOk(stream, Apply(stream, s, e))
  {
    WorkerKeepsBarrier(stream, s, Apply(stream, s, e), e.w);
  }

  lemma StartKeepsBarrier(stream: seq<Packet>, s: State, t: State, w: nat, o: nat)
    requires BarrierOk(stream, s)
    requires w < |s.workers| && t.workers == s.workers[w := Handling(o)] && t.handled == s.handled
    requires t.disp == Ready || t.disp == s.disp
    requires IsClose(stream, o) ==> AllHandledBefore(s, o)
    ensures BarrierOk(stream, t)
  {}

  lemma TakeRwKeepsBarrier(stream: seq<Packet>, s: State, w: nat)
    requires NumbersOk(stream, s) && WorkOk(stream, s) && BarrierOk(stream, s) && Enabled(stream, s, TakeRw(w))
    ensures BarrierOk(stream, Apply(stream, s, TakeRw(w)))
  {
    StartKeepsBarrier(stream, s, Apply(stream, s, TakeRw(w)), w, s.rwChan[0]);
  }

  lemma ForwardKeepsBarrier(stream: seq<Packet>, s: State)
    requires NumbersOk(stream, s) && WorkOk(stream, s) && BarrierOk(stream, s) && Enabled(stream, s, ForwardCmd)
    ensures BarrierOk(stream, Apply(stream, s, ForwardCmd))
  {
    StartKeepsBarrier(stream, s, Apply(stream, s, ForwardCmd), CMD, s.disp.o);
  }

  /** Events that start or finish no handler: only the dispatcher's packet may have changed. */
  lemma DispatcherKeepsBarrier(stream: seq<Packet>, s: State, t: State)
    requires BarrierOk(stream, s)
    requires t.workers == s.workers && t.handled == s.handled
    requires (t.disp.Registering? || t.disp.Forwarding?) && IsClose(stream, t.disp.o) ==> AllHandledBefore(s, t.disp.o)
    ensures BarrierOk(stream, t)
  {}

  /** Passing the barrier establishes what the Close relies on. */
  lemma PassBarrierKeepsBarrier(stream: seq<Packet>, s: State)
    requires NumbersOk(stream, s) && WorkOk(stream, s) && CountOk(s) && BarrierOk(stream, s)
    requires Enabled(stream, s, PassBarrier)
    ensures BarrierOk(stream, Apply(stream, s, PassBarrier))
  {
    DrainedAllHandled(stream, s);
    DispatcherKeepsBarrier(stream, s, Apply(stream, s, PassBarrier));
  }

  lemma QuietStepKeepsBarrier(stream: seq<Packet>, s: State, e: Event)
    requires NumbersOk(stream, s) && WorkOk(stream, s) && BarrierOk(stream, s) && Enabled(stream, s, e)
    requires !e.Finish? && !e.Respond? && !e.Done? && !e.TakeRw? && !e.ForwardCmd? && !e.PassBarrier?
    ensures BarrierOk(stream, Apply(stream, s, e))
  {
    DispatcherKeepsBarrier(stream, s, Apply(stream, s, e));
  }

  lemma StepKeepsBarrier(stream: seq<Packet>, s: State, e: Event)
    requires NumbersOk(stream, s) && WorkOk(stream, s) && CountOk(s) && BarrierOk(stream, s)
    requires Enabled(stream, s, e)
    ensures BarrierOk(stream, Apply(stream, s, e))
  {
    if e.Finish? || e.Respond? || e.Done? {
      WorkerStepKeepsBarrier(stream, s, e);
    } else if e.TakeRw? {
      TakeRwKeepsBarrier(stream, s, e.w);
    } else if e.ForwardCmd? {
      ForwardKeepsBarrier(stream, s);
    } else if e.PassBarrier? {
      PassBarrierKeepsBarrier(stream, s);
    } else {
      QuietStepKeepsBarrier(stream, s, e);
    }
  }

  /** The command worker was idle: what it was given before has been handled, and came before. */
  lemma CmdLogDone(stream: seq<Packet>, s: State, i: nat)
    requires NumbersOk(stream, s) && WorkOk(stream, s) && CmdOk(stream, s) && Enabled(stream, s, ForwardCmd)
    requires i < |s.cmdLog|
    ensures s.cmdLog[i] < s.disp.o && s.cmdLog[i] in s.handled
  {
    assert s.cmdLog[i] in s.started;
  }

  lemma ForwardKeepsCmd(stream: seq<Packet>, s: State, t: State, o: nat)
    requires CmdOk(stream, s) && IsCmd(stream, o) && o !in s.started
    requires forall i :: 0 <= i < |s.cmdLog| ==> s.cmdLog[i] < o && s.cmdLog[i] in s.handled
    requires t.cmdLog == s.cmdLog + [o] && t.handled == s.handled && t.started.Keys == s.started.Keys + {o}
    ensures CmdOk(stream, t)
  {
    assert t.cmdLog[|s.cmdLog|] == o;
    assert forall x :: x in s.cmdLog ==> x in t.cmdLog;
  }

  lemma OthersKeepCmd(stream: seq<Packet>, s: State, t: State)
    requires CmdOk(stream, s)
    requires t.cmdLog == s.cmdLog && s.handled <= t.handled && s.started.Keys <= t.started.Keys
    requires forall o :: o in t.started ==> o in s.started || !IsCmd(stream, o)
    ensures CmdOk(stream, t)
  {}

  lemma StepKeepsCmd(stream: seq<Packet>, s: State, e: Event)
    requires NumbersOk(stream, s) && WorkOk(stream, s) && CmdOk(stream, s) && Enabled(stream, s, e)
    ensures CmdOk(stream, Apply(stream, s, e))
  {
    if e.ForwardCmd? {
      forall i | 0 <= i < |s.cmdLog| ensures s.cmdLog[i] < s.disp.o && s.cmdLog[i] in s.handled {
        CmdLogDone(stream, s, i);
      }
      ForwardKeepsCmd(stream, s, Apply(stream, s, e), s.disp.o);
    } else {
      OthersKeepCmd(stream, s, Apply(stream, s, e));
    }
  }

  // ---------------------------------------------------------------- pages

  /** Releasing the order ids of a run of responses removes exactly their pages. */
  lemma {:induction false} ReleaseAllOk(p: Pool, sent: seq<Ordered>)
    requires PoolOk(p)
    ensures PoolOk(ReleaseAll(p, sent))
    ensures forall k: nat, x: nat :: UsedFor(ReleaseAll(p, sent), k, x) <==>
              UsedFor(p, k, x) && forall i :: 0 <= i < |sent| ==> sent[i].orderid != k
  {
    if sent != [] {
      ReleaseAllOk(p, sent[..|sent| - 1]);
      ReleasePagesOk(ReleaseAll(p, sent[..|sent| - 1]), sent[|sent| - 1].orderid);
    }
  }

  /** A packet whose handler runs has not been answered, so its order id is not yet sent. */
  lemma HandlingUnsent(stream: seq<Packet>, s: State, w: nat)
    requires NumbersOk(stream, s) && WorkOk(stream, s) && ResponsesOk(stream, s)
    requires w < |s.workers| && s.workers[w].Handling?
    ensures |s.q.sent| < s.workers[w].o <= Registered(s) <= s.count
  {
    assert !Answered(s.q, s.workers[w].o);
  }

  lemma ControlQueues(stream: seq<Packet>, s: State, e: Event)
    requires NumbersOk(stream, s) && WorkOk(stream, s) && ResponsesOk(stream, s) && QueueOk(stream, s)
    requires Enabled(stream, s, e) && (e.CtlRequest? || e.CtlResponse?)
    ensures var t := Apply(stream, s, e);
            && s.q.sent <= t.q.sent && t.pool == ReleaseAll(s.pool, t.q.sent[|s.q.sent|..])
            && forall i :: 0 <= i < |t.q.sent| ==> t.q.sent[i].orderid == i + 1
  {
    if e.CtlRequest? {
      OnRequestOk(s.q, Received(s), Tagged(stream, s.requests[0]));
    } else {
      OnResponseOk(s.q, Received(s), Tagged(stream, s.responses[0]));
    }
  }

  lemma ControlPages(stream: seq<Packet>, s: State, e: Event)
    requires NumbersOk(stream, s) && WorkOk(stream, s) && ResponsesOk(stream, s) && QueueOk(stream, s)
    requires PagesOk(s) && Enabled(stream, s, e) && (e.CtlRequest? || e.CtlResponse?)
    ensures var t := Apply(stream, s, e);
            && PagesOk(t)
            && forall k: nat, x: nat :: UsedFor(t.pool, k, x) <==> UsedFor(s.pool, k, x) && k > |t.q.sent|
  {
    var t := Apply(stream, s, e);
    ControlQueues(stream, s, e);
    var justSent := t.q.sent[|s.q.sent|..];
    ReleaseAllOk(s.pool, justSent);
    forall k: nat, x: nat
      ensures UsedFor(t.pool, k, x) <==> UsedFor(s.pool, k, x) && k > |t.q.sent|
    {
      if |s.q.sent| < k <= |t.q.sent| { assert justSent[k - 1 - |s.q.sent|].orderid == k; }
    }
  }

  lemma QuietStepKeepsPages(stream: seq<Packet>, s: State, e: Event)
    requires PagesOk(s) && Enabled(stream, s, e)
    requires !e.FetchPage? && !e.DataPage? && !e.CtlRequest? && !e.CtlResponse?
    ensures PagesOk(Apply(stream, s, e)) && Apply(stream, s, e).pool == s.pool && Apply(stream, s, e).q == s.q
  {
    var t := Apply(stream, s, e);
    assert t.pool == s.pool && t.q == s.q && s.count <= t.count;
  }

  lemma FetchKeepsPages(stream: seq<Packet>, s: State)
    requires PagesOk(s) && Enabled(stream, s, FetchPage) && |s.q.sent| <= s.count
    ensures PagesOk(Apply(stream, s, FetchPage))
  {
    GetPageOk(s.pool, s.count + 1);
  }

  lemma DataKeepsPages(stream: seq<Packet>, s: State, w: nat)
    requires PagesOk(s) && Enabled(stream, s, DataPage(w)) && |s.q.sent| < s.workers[w].o <= s.count
    ensures PagesOk(Apply(stream, s, DataPage(w)))
  {
    GetPageOk(s.pool, s.workers[w].o);
  }

  lemma StepKeepsPages(stream: seq<Packet>, s: State, e: Event)
    requires NumbersOk(stream, s) && WorkOk(stream, s) && ResponsesOk(stream, s) && QueueOk(stream, s)
    requires PagesOk(s) && Enabled(stream, s, e)
    ensures PagesOk(Apply(stream, s, e))
  {
    if e.FetchPage? {
      FetchKeepsPages(stream, s);
    } else if e.DataPage? {
      HandlingUnsent(stream, s, e.w);
      DataKeepsPages(stream, s, e.w);
    } else if e.CtlRequest? || e.CtlResponse? {
      ControlPages(stream, s, e);
    } else {
      QuietStepKeepsPages(stream, s, e);
    }
  }

  // ---------------------------------------------------------------- the whole invariant

  /** No channel holds more than it has room for. */
  ghost predicate RoomOk(s: State) {
    && |s.pktChan| <= WORKER_COUNT && |s.rwChan| <= WORKER_COUNT
    && |s.requests| <= WORKER_COUNT && |s.responses| <= WORKER_COUNT
  }

  lemma StepKeepsRoom(stream: seq<Packet>, s: State, e: Event)
    requires RoomOk(s) && Enabled(stream, s, e)
    ensures RoomOk(Apply(stream, s, e))
  {}

  ghost predicate Inv(stream: seq<Packet>, s: State) {
    && NumbersOk(stream, s) && WorkOk(stream, s) && CountOk(s) && ResponsesOk(stream, s)
    && QueueOk(stream, s) && BarrierOk(stream, s) && CmdOk(stream, s) && PagesOk(s)
    && LabelsOk(stream, s) && RoomOk(s)
  }

  /** These packets carry the request ids of the stream. */
  ghost predicate Labelled(stream: seq<Packet>, s: seq<Ordered>) {
    forall i :: 0 <= i < |s| ==> s[i] == Tagged(stream, s[i].orderid)
  }

  /** Every response the controller holds or has sent carries the request id of its packet. */
  ghost predicate LabelsOk(stream: seq<Packet>, s: State) {
    Labelled(stream, s.q.outgoing) && Labelled(stream, s.q.sent)
  }

  lemma {:induction false} FlushKeepsLabels(stream: seq<Packet>, q: Queues)
    requires Labelled(stream, q.outgoing) && Labelled(stream, q.sent)
    ensures Labelled(stream, Flush(q).outgoing) && Labelled(stream, Flush(q).sent)
    decreases |q.incoming|
  {
    if !Eager(q) {
      var t := Queues(q.incoming[1..], q.outgoing[1..], q.sent + [q.outgoing[0]]);
      FlushKeepsLabels(stream, t);
      assert Flush(q) == Flush(t);
    }
  }

  lemma RequestKeepsLabels(stream: seq<Packet>, q: Queues, r: Ordered)
    requires Labelled(stream, q.outgoing) && Labelled(stream, q.sent)
    ensures Labelled(stream, OnRequest(q, r).outgoing) && Labelled(stream, OnRequest(q, r).sent)
  {
    FlushKeepsLabels(stream, q.(incoming := SortById(q.incoming + [r])));
  }

  lemma ResponseKeepsLabels(stream: seq<Packet>, q: Queues, o: nat)
    requires SortedById(q.outgoing) && Labelled(stream, q.outgoing) && Labelled(stream, q.sent)
    ensures var t := OnResponse(q, Tagged(stream, o)); Labelled(stream, t.outgoing) && Labelled(stream, t.sent)
  {
    var at := SortAppended(q.outgoing, Tagged(stream, o));
    FlushKeepsLabels(stream, q.(outgoing := SortById(q.outgoing + [Tagged(stream, o)])));
  }

  lemma StepKeepsLabels(stream: seq<Packet>, s: State, e: Event)
    requires NumbersOk(stream, s) && QueueOk(stream, s) && LabelsOk(stream, s) && Enabled(stream, s, e)
    ensures LabelsOk(stream, Apply(stream, s, e))
  {
    match e {
      case CtlRequest => RequestKeepsLabels(stream, s.q, Tagged(stream, s.requests[0]));
      case CtlResponse => ResponseKeepsLabels(stream, s.q, s.responses[0]);
      case _ =>
    }
  }

  lemma StepKeepsInv(stream: seq<Packet>, s: State, e: Event)
    requires Inv(stream, s) && Enabled(stream, s, e)
    ensures Inv(stream, Apply(stream, s, e))
  {
    StepKeepsNumbers(stream, s, e);
    StepKeepsWork(stream, s, e);
    StepKeepsCount(stream, s, e);
    StepKeepsResponses(stream, s, e);
    StepKeepsQueue(stream, s, e);
    StepKeepsBarrier(stream, s, e);
    StepKeepsCmd(stream, s, e);
    StepKeepsPages(stream, s, e);
    StepKeepsLabels(stream, s, e);
    StepKeepsRoom(stream, s, e);
  }

  lemma InitInv(stream: seq<Packet>)
    ensures Inv(stream, Init())
  {
    SumByConstant(BusyRank, Init().workers, 0);
    EmptyPoolOk(Init().pool);
  }

  lemma {:induction false} RunKeepsInv(stream: seq<Packet>, s: State, es: seq<Event>, t: State)
    requires Inv(stream, s) && Run(stream, s, es, t)
    ensures Inv(stream, t)
    decreases |es|
  {
    if es != [] {
      StepKeepsInv(stream, s, es[0]);
      RunKeepsInv(stream, Apply(stream, s, es[0]), es[1..], t);
    }
  }

  lemma ReachableInv(stream: seq<Packet>, s: State)
    requires Reachable(stream, s)
    ensures Inv(stream, s)
  {
    var es :| Run(stream, Init(), es, s);
    InitInv(stream);
    RunKeepsInv(stream, Init(), es, s);
  }

  // ---------------------------------------------------------------- theorems

  lemma SentTagged(stream: seq<Packet>, q: Queues, received: nat)
    requires QueuesOk(q, received) && received <= |stream| && Labelled(stream, q.sent)
    ensures |q.sent| <= received && forall i :: 0 <= i < |q.sent| ==> q.sent[i] == Ordered(i + 1, stream[i].id)
  {}

  /** In every reachable state the responses sent are exactly those to the first k packets the
      client sent, in that order. */
  lemma ResponsesInOrder(stream: seq<Packet>, s: State)
    requires Reachable(stream, s)
    ensures |s.q.sent| <= s.count <= |stream|
    ensures forall i :: 0 <= i < |s.q.sent| ==> s.q.sent[i] == Ordered(i + 1, stream[i].id)
  {
    ReachableInv(stream, s);
    SentTagged(stream, s.q, Received(s));
  }

  /** No response is stranded: with both channels empty and every received request answered,
      the queues are empty and everything received has been sent. */
  lemma NoneStranded(stream: seq<Packet>, s: State)
    requires Reachable(stream, s)
    requires s.requests == [] && s.responses == []
    requires forall o: nat :: 1 <= o <= Registered(s) ==> o in s.put
    ensures s.q.incoming == [] && s.q.outgoing == [] && |s.q.sent| == Registered(s)
  {
    ReachableInv(stream, s);
    forall o: nat | 1 <= o <= Received(s) ensures Answered(s.q, o) {
      assert o in s.put;
    }
    forall i | 0 <= i < |s.q.outgoing| ensures s.q.outgoing[i].orderid <= Received(s) {
      var o := s.q.outgoing[i].orderid;
      assert Answered(s.q, o);
      assert o in s.put && o in s.started;
    }
    NothingStranded(s.q, Received(s));
  }

  /** While a Close is handled, every packet that arrived before it has been handled. */
  lemma CloseWaitsForEarlier(stream: seq<Packet>, s: State, w: nat, j: nat)
    requires Reachable(stream, s) && w < |s.workers| && s.workers[w].Handling?
    requires InStream(stream, s.workers[w].o) && stream[s.workers[w].o - 1].kind == Close
    requires 1 <= j < s.workers[w].o
    ensures j in s.handled
  {
    ReachableInv(stream, s);
    assert AllHandledBefore(s, s.workers[w].o);
  }

  /** Everything but reads and writes is handled by one worker, one at a time and in arrival
      order: when one of them has been started, all such packets before it have been handled. */
  lemma CommandsInOrder(stream: seq<Packet>, s: State, j: nat, o: nat)
    requires Reachable(stream, s) && o in s.started && 1 <= j < o <= |stream|
    requires stream[j - 1].kind !in {Read, Write} && stream[o - 1].kind !in {Read, Write}
    ensures j in s.handled && j in s.started && s.started[j] == s.started[o] == CMD
  {
    ReachableInv(stream, s);
    assert j in s.started by { CommandStarted(stream, s, j, o); }
    var a :| 0 <= a < |s.cmdLog| && s.cmdLog[a] == j;
    var b :| 0 <= b < |s.cmdLog| && s.cmdLog[b] == o;
    assert a < b;
  }

  /** No two workers ever handle such packets at once: it is always the worker for commands. */
  lemma OneCommandAtATime(stream: seq<Packet>, s: State, v: nat, w: nat)
    requires Reachable(stream, s) && v < |s.workers| && w < |s.workers|
    requires s.workers[v].Handling? && 1 <= s.workers[v].o <= |stream|
    requires s.workers[w].Handling? && 1 <= s.workers[w].o <= |stream|
    requires stream[s.workers[v].o - 1].kind !in {Read, Write} && stream[s.workers[w].o - 1].kind !in {Read, Write}
    ensures v == w == CMD
  {
    ReachableInv(stream, s);
  }

  /** Each packet's handler is run by one worker, the one that took it: one of the eight for reads
      and writes, and the ninth for everything else. */
  lemma WorkerByKind(stream: seq<Packet>, s: State, w: nat)
    requires Reachable(stream, s) && w < |s.workers| && s.workers[w].Handling?
    ensures |s.workers| == 9 && 1 <= s.workers[w].o <= |stream|
    ensures w < 8 <==> stream[s.workers[w].o - 1].kind in {Read, Write}
    ensures forall v :: 0 <= v < |s.workers| && v != w && s.workers[v] != Idle ==> s.workers[v].o != s.workers[w].o
  {
    ReachableInv(stream, s);
  }

  /** Reads and writes are started by the workers for them. */
  lemma ReadsAndWritesStarted(stream: seq<Packet>, s: State, o: nat)
    requires Reachable(stream, s) && o in s.started && 1 <= o <= |stream|
    ensures s.started[o] < 9 && (s.started[o] < 8 <==> stream[o - 1].kind in {Read, Write})
  {
    ReachableInv(stream, s);
  }

  /** Commands are started in order: one that was started leaves none before it waiting. */
  lemma CommandStarted(stream: seq<Packet>, s: State, j: nat, o: nat)
    requires Inv(stream, s) && o in s.started && 1 <= j < o && !IsRw(stream, j) && !IsRw(stream, o)
    ensures j in s.started
  {
    assert j !in s.rwChan;
  }

  // ---------------------------------------------------------------- pages over a run

  /** A page handed out belongs to a packet whose response is still to be sent, to no other
      packet, and is not available. All pages made are in use or available. */
  lemma PagesExclusive(stream: seq<Packet>, s: State)
    requires Reachable(stream, s)
    ensures |s.pool.available| + UsedCount(s.pool.used) == s.pool.created
    ensures forall o: nat, x: nat :: UsedFor(s.pool, o, x) ==>
              |s.q.sent| < o && x !in s.pool.available && forall k: nat :: UsedFor(s.pool, k, x) ==> k == o
  {
    ReachableInv(stream, s);
  }

  /** A page stays with its packet from one step to the next until the response is sent. */
  lemma PageKeptUntilSent(stream: seq<Packet>, s: State, e: Event, o: nat, x: nat)
    requires Reachable(stream, s) && Enabled(stream, s, e) && UsedFor(s.pool, o, x)
    ensures UsedFor(Apply(stream, s, e).pool, o, x) <==> o > |Apply(stream, s, e).q.sent|
  {
    ReachableInv(stream, s);
    if e.FetchPage? {
      GetPageOk(s.pool, s.count + 1);
    } else if e.DataPage? {
      GetPageOk(s.pool, s.workers[e.w].o);
    } else if e.CtlRequest? || e.CtlResponse? {
      ControlPages(stream, s, e);
    } else {
      QuietStepKeepsPages(stream, s, e);
    }
  }

  /** No page is requested for a packet whose response has been sent, and the page handed out
      was free. */
  lemma PageRequestedBeforeSent(stream: seq<Packet>, s: State, e: Event)
    requires Reachable(stream, s) && Enabled(stream, s, e) && (e.FetchPage? || e.DataPage?)
    ensures |s.q.sent| < PageOwner(s, e) && Apply(stream, s, e).pool == GetPage(s.pool, PageOwner(s, e))
    ensures forall k: nat :: !UsedFor(s.pool, k, NextPage(s.pool))
  {
    ReachableInv(stream, s);
    NextPageFree(s.pool);
    SentAtMost(stream, s);
    if e.DataPage? { HandlingUnsent(stream, s, e.w); }
  }

  /** The packet a page is requested for. */
  function PageOwner(s: State, e: Event): nat {
    if e.DataPage? && e.w < |s.workers| && s.workers[e.w].Handling? then s.workers[e.w].o else s.count + 1
  }

  lemma SentAtMost(stream: seq<Packet>, s: State)
    requires Inv(stream, s)
    ensures |s.q.sent| <= s.count
  {
    SentTagged(stream, s.q, Received(s));
  }

  // ---------------------------------------------------------------- progress

  /** What moves packets on: all but the reader's waiting for the client and the handing out of pages. */
  predicate Internal(e: Event) {
    !e.FetchPage? && !e.Recv? && !e.DataPage?
  }

  lemma QuietMeansAnswered(stream: seq<Packet>, s: State)
    requires Inv(stream, s) && s.requests == [] && s.responses == [] && s.rwChan == [] && s.disp == Ready
    requires forall w :: 0 <= w < |s.workers| ==> s.workers[w] == Idle
    ensures |s.q.sent| == Registered(s)
  {
    forall o: nat | 1 <= o <= Registered(s) ensures Answered(s.q, o) {
      assert o in s.started && o in s.handled && o in s.put;
    }
    forall i | 0 <= i < |s.q.outgoing| ensures s.q.outgoing[i].orderid <= Received(s) {
      assert Answered(s.q, s.q.outgoing[i].orderid);
      assert s.q.outgoing[i].orderid in s.put;
    }
    NothingStranded(s.q, Received(s));
  }

  lemma {:induction false} AllIdleSum(ws: seq<Worker>)
    requires forall w :: 0 <= w < |ws| ==> ws[w] == Idle
    ensures SumBy(BusyRank, ws) == 0
  {
    SumByConstant(BusyRank, ws, 0);
  }

  /** The session never stalls: while some packet the reader has numbered is unanswered, some
      goroutine can move a packet on without waiting for the client. */
  lemma NeverStalls(stream: seq<Packet>, s: State) returns (e: Event)
    requires Reachable(stream, s) && |s.q.sent| < s.count
    ensures Internal(e) && Enabled(stream, s, e)
  {
    ReachableInv(stream, s);
    e := CanMove(stream, s);
  }

  lemma CanMove(stream: seq<Packet>, s: State) returns (e: Event)
    requires Inv(stream, s) && |s.q.sent| < s.count
    ensures Internal(e) && Enabled(stream, s, e)
  {
    if s.requests != [] { return CtlRequest; }
    if s.responses != [] { return CtlResponse; }
    if w: nat :| w < |s.workers| && s.workers[w] != Idle {
      match s.workers[w] {
        case Handling(_) => return Finish(w);
        case Answering(_) => return Respond(w);
        case Counted(_) =>
          SumByTerm(BusyRank, s.workers, w);
          return Done(w);
      }
    }
    assert forall w :: 0 <= w < |s.workers| ==> s.workers[w] == Idle;
    if s.rwChan != [] { return TakeRw(0); }
    match s.disp {
      case Registering(_) => return Register;
      case Forwarding(o) => return if IsRw(stream, o) then ForwardRw else ForwardCmd;
      case Barrier(_) =>
        AllIdleSum(s.workers);
        return PassBarrier;
      case Ready =>
        if s.pktChan != [] { return Dispatch; }
        QuietMeansAnswered(stream, s);
        return Push;
    }
  }

  function ReaderRank(r: Reader): nat {
    if r == Offering then 11 else 0
  }

  function DispatcherRank(d: Dispatcher): nat {
    match d
    case Ready => 0
    case Barrier(_) => 9
    case Registering(_) => 8
    case Forwarding(_) => 6
  }

  function WorkerRank(w: Worker): nat {
    match w
    case Idle => 0
    case Handling(_) => 4
    case Answering(_) => 3
    case Counted(_) => 1
  }

  /** The steps that move packets on which those numbered so far can still take. */
  function Rank(s: State): nat {
    ReaderRank(s.reader) + 10 * |s.pktChan| + DispatcherRank(s.disp) + 5 * |s.rwChan|
    + SumBy(WorkerRank, s.workers) + |s.requests| + |s.responses|
  }

  /** What the session can hold at most. */
  const MAX_RANK: nat := 11 + 10 * WORKER_COUNT + 9 + 5 * WORKER_COUNT + 4 * (WORKER_COUNT + 1) + 2 * WORKER_COUNT

  /** Without the client no step raises the rank, and each that moves a packet on lowers it. */
  lemma StepLowersRank(stream: seq<Packet>, s: State, e: Event)
    requires Enabled(stream, s, e) && !e.Recv?
    ensures Rank(Apply(stream, s, e)) + (if Internal(e) then 1 else 0) <= Rank(s)
    ensures Apply(stream, s, e).count == s.count
  {
    var t := Apply(stream, s, e);
    if e.ForwardCmd? {
      SumByUpdate(WorkerRank, s.workers, CMD, t.workers[CMD]);
    } else if e.TakeRw? || e.Finish? || e.Respond? || e.Done? {
      SumByUpdate(WorkerRank, s.workers, e.w, t.workers[e.w]);
    }
  }

  lemma RankBounded(stream: seq<Packet>, s: State)
    requires Inv(stream, s)
    ensures Rank(s) <= MAX_RANK == 192
  {
    SumByAtMost(WorkerRank, s.workers, 4);
  }

  /** Nothing comes from the client. */
  ghost predicate WithoutClient(es: seq<Event>) {
    forall i :: 0 <= i < |es| ==> !es[i].Recv?
  }

  /** How many of the steps move packets on; the others hand out pages. */
  function Moves(es: seq<Event>): nat {
    if es == [] then 0 else (if Internal(es[0]) then 1 else 0) + Moves(es[1..])
  }

  /** No run without the client moves packets on more often than the rank says. */
  lemma {:induction false} MovesBounded(stream: seq<Packet>, s: State, es: seq<Event>, t: State)
    requires Run(stream, s, es, t) && WithoutClient(es)
    ensures Moves(es) + Rank(t) <= Rank(s) && t.count == s.count
    decreases |es|
  {
    if es != [] {
      assert !es[0].Recv?;
      StepLowersRank(stream, s, es[0]);
      MovesBounded(stream, Apply(stream, s, es[0]), es[1..], t);
    }
  }

  /** No packet can be moved on. */
  ghost predicate AtRest(stream: seq<Packet>, s: State) {
    forall e :: Internal(e) ==> !Enabled(stream, s, e)
  }

  lemma RestMeansAnswered(stream: seq<Packet>, s: State)
    requires Inv(stream, s) && AtRest(stream, s)
    ensures |s.q.sent| == s.count
  {
    SentTagged(stream, s.q, Received(s));
    if |s.q.sent| < s.count { var e := CanMove(stream, s); }
  }

  /** Whatever happened before, a run without the client, pages being handed out at any point,
      moves packets on at most 192 times, and once it can do so no more every packet the
      reader numbered has been answered, in order. */
  lemma AnsweredWithoutClient(stream: seq<Packet>, s: State, es: seq<Event>, t: State)
    requires Reachable(stream, s) && Run(stream, s, es, t) && WithoutClient(es)
    ensures Moves(es) + Rank(t) <= Rank(s) <= 192 && t.count == s.count <= |stream|
    ensures AtRest(stream, t) ==>
              |t.q.sent| == s.count && forall i :: 0 <= i < s.count ==> t.q.sent[i] == Ordered(i + 1, stream[i].id)
  {
    ReachableInv(stream, s);
    RankBounded(stream, s);
    MovesBounded(stream, s, es, t);
    RunKeepsInv(stream, s, es, t);
    SentTagged(stream, t.q, Received(t));
    RestAnswers(stream, t);
  }

  lemma RestAnswers(stream: seq<Packet>, t: State)
    requires Inv(stream, t)
    ensures AtRest(stream, t) ==> |t.q.sent| == t.count
  {
    if AtRest(stream, t) { RestMeansAnswered(stream, t); }
  }

  // ---------------------------------------------------------------- whole sessions

  function ReaderSteps(r: Reader): nat {
    match r case Fetching => 2 case Receiving => 1 case Offering => 0
  }

  function StepsLeft(s: State): nat {
    3 * Rank(s) + ReaderSteps(s.reader)
  }

  lemma NextLowers(stream: seq<Packet>, s: State, e: Event)
    requires Enabled(stream, s, e) && (Internal(e) || e.FetchPage? || e.Recv?)
    ensures e.Recv? ==> Apply(stream, s, e).count == s.count + 1 <= |stream|
    ensures !e.Recv? ==> Apply(stream, s, e).count == s.count && StepsLeft(Apply(stream, s, e)) < StepsLeft(s)
  {
    if !e.Recv? { StepLowersRank(stream, s, e); }
  }

  /** While a packet is on offer it has not been answered. */
  lemma OfferedUnanswered(stream: seq<Packet>, s: State)
    requires Inv(stream, s) && s.reader == Offering
    ensures |s.q.sent| < s.count
  {
    SentTagged(stream, s.q, Received(s));
  }

  lemma {:induction false} RunFirst(stream: seq<Packet>, s: State, e: Event, es: seq<Event>, t: State)
    requires Enabled(stream, s, e) && Run(stream, Apply(stream, s, e), es, t)
    ensures Run(stream, s, [e] + es, t)
  {
    assert ([e] + es)[1..] == es;
  }

  /** What happens next while something is unanswered or still to come. */
  lemma NextEvent(stream: seq<Packet>, s: State) returns (e: Event)
    requires Inv(stream, s) && |s.q.sent| < |stream|
    ensures Enabled(stream, s, e) && !e.DataPage?
    ensures !Internal(e) ==> |s.q.sent| >= s.count && s.count < |stream|
    ensures e.FetchPage? ==> s.reader == Fetching
  {
    if |s.q.sent| < s.count {
      e := CanMove(stream, s);
    } else {
      if s.reader == Offering { OfferedUnanswered(stream, s); }
      e := if s.reader == Fetching then FetchPage else Recv;
    }
  }

  /** From every state the session can go on until the client's whole stream has been answered. */
  lemma {:induction false} SessionGoesOn(stream: seq<Packet>, s: State) returns (es: seq<Event>, t: State)
    requires Inv(stream, s) && s.count <= |stream|
    ensures Run(stream, s, es, t) && |t.q.sent| == |stream|
    decreases |stream| - s.count, StepsLeft(s)
  {
    SentAtMost(stream, s);
    if |s.q.sent| == |stream| { return [], s; }
    var e := NextEvent(stream, s);
    var u := Apply(stream, s, e);
    StepKeepsInv(stream, s, e);
    NextLowers(stream, s, e);
    es, t := SessionGoesOn(stream, u);
    RunFirst(stream, s, e, es, t);
    es := [e] + es;
  }

  /** So every stream of packets can be received and answered, in order. */
  lemma SessionCompletes(stream: seq<Packet>) returns (es: seq<Event>, t: State)
    ensures Run(stream, Init(), es, t) && |t.q.sent| == |stream|
    ensures forall i :: 0 <= i < |stream| ==> t.q.sent[i] == Ordered(i + 1, stream[i].id)
  {
    InitInv(stream);
    es, t := SessionGoesOn(stream, Init());
    RunKeepsInv(stream, Init(), es, t);
    SentTagged(stream, t.q, Received(t));
  }
}
