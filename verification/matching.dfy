/**
Runs of the client connection: callers, senders, the receive loop and the shutdown broadcast
take steps in any order. Each request gets at most one result, nothing ever blocks on a
channel, and a channel is reused only once nobody can send on it any more.
*/
module RequestMatching {
  import opened Basics
  import opened ClientConns

  /** Where the goroutine that dispatches a request stands. */
  datatype Phase =
    | Fresh                            // has a channel, putChannel not called yet
    | Sending                          // writing the packet
    | Failed(err: Error)               // the write failed, getChannel not called yet
    | Delivering(to: Chan, err: Error) // got the channel back, about to send the error on it
    | Returned

  /** `waiting`: the caller has not read its result yet. */
  datatype Request = Request(ch: Chan, phase: Phase, waiting: bool)

  datatype Receiver = Reading | Holding(sid: nat, ch: Chan) | Stopping(err: Error) | Stopped

  /** `got` records what was sent on a request's own channel in answer to it. */
  datatype State = State(conn: Conn, reqs: map<nat, Request>, pool: seq<Chan>, recv: Receiver,
                         nextChan: nat, got: map<nat, seq<Result>>)

  const START := State(Conn(map[], map[], false, None), map[], [], Reading, 0, map[])

  datatype Event =
    | Begin(sid: nat)                  // a caller takes a channel for a new request id
    | Register(sid: nat)               // putChannel
    | SendOk(sid: nat)
    | SendFail(sid: nat, err: Error)
    | TakeBack(sid: nat)               // getChannel after a failed send
    | DeliverError(sid: nat)
    | Receive(sid: nat)                // a packet with this id arrives; getChannel
    | ReceiveFail(err: Error)
    | DeliverReply
    | Shutdown                         // broadcastErr
    | Consume(sid: nat, keep: bool)    // the caller reads its result; the pool may be full

  function Got(s: State, sid: nat): seq<Result> {
    if sid in s.got then s.got[sid] else []
  }

  predicate Enabled(s: State, e: Event) {
    match e
    case Begin(sid) => sid !in s.reqs
    case Register(sid) => sid in s.reqs && s.reqs[sid].phase.Fresh?
    case SendOk(sid) => sid in s.reqs && s.reqs[sid].phase.Sending?
    case SendFail(sid, _) => sid in s.reqs && s.reqs[sid].phase.Sending?
    case TakeBack(sid) => sid in s.reqs && s.reqs[sid].phase.Failed?
    case DeliverError(sid) => sid in s.reqs && s.reqs[sid].phase.Delivering?
    case Receive(_) => s.recv.Reading?
    case ReceiveFail(_) => s.recv.Reading?
    case DeliverReply => s.recv.Holding?
    case Shutdown => s.recv.Stopping?
    case Consume(sid, _) => sid in s.reqs && s.reqs[sid].waiting && Buf(s.conn.bufs, s.reqs[sid].ch) != []
  }

  function SetPhase(s: State, sid: nat, p: Phase): State
    requires sid in s.reqs
  {
    s.(reqs := s.reqs[sid := s.reqs[sid].(phase := p)])
  }

  /** Record a result sent for the request. */
  function Note(s: State, sid: nat, r: Result): State {
    s.(got := s.got[sid := Got(s, sid) + [r]])
  }

  function Send(s: State, ch: Chan, r: Result): State {
    s.(conn := s.conn.(bufs := Deliver(s.conn.bufs, ch, r)))
  }

  function Apply(s: State, e: Event): State
    requires Enabled(s, e)
  {
    match e
    case Begin(sid) =>
      if s.pool == [] then
        s.(reqs := s.reqs[sid := Request(Real(s.nextChan), Fresh, true)], nextChan := s.nextChan + 1)
      else
        s.(reqs := s.reqs[sid := Request(s.pool[0], Fresh, true)], pool := s.pool[1..])
    case Register(sid) =>
      var t := s.(conn := Put(s.conn, s.reqs[sid].ch, sid));
      if s.conn.closed then SetPhase(Note(t, sid, Failure(ConnectionLost)), sid, Returned)
      else SetPhase(t, sid, Sending)
    case SendOk(sid) => SetPhase(s, sid, Returned)
    case SendFail(sid, err) => SetPhase(s, sid, Failed(err))
    case TakeBack(sid) =>
      var t := s.(conn := Get(s.conn, sid));
      if sid in s.conn.inflight then SetPhase(t, sid, Delivering(s.conn.inflight[sid], s.reqs[sid].phase.err))
      else SetPhase(t, sid, Returned)
    case DeliverError(sid) =>
      var p := s.reqs[sid].phase;
      var t := SetPhase(Send(s, p.to, Failure(p.err)), sid, Returned);
      if p.to == s.reqs[sid].ch then Note(t, sid, Failure(p.err)) else t
    case Receive(sid) =>
      var t := s.(conn := Get(s.conn, sid));
      if sid in s.conn.inflight then t.(recv := Holding(sid, s.conn.inflight[sid]))
      else t.(recv := Stopping(UnexpectedId))
    case ReceiveFail(err) => s.(recv := Stopping(err))
    case DeliverReply =>
      Note(Send(s, s.recv.ch, Reply(s.recv.sid)), s.recv.sid, Reply(s.recv.sid)).(recv := Reading)
    case Shutdown =>
      s.(conn := Broadcast(s.conn, s.recv.err), recv := Stopped,
         got := map sid | sid in s.got.Keys + s.conn.inflight.Keys ::
           Got(s, sid) + if sid in s.conn.inflight then [Failure(ConnectionLost)] else [])
    case Consume(sid, keep) =>
      var q := s.reqs[sid];
      s.(conn := s.conn.(bufs := s.conn.bufs[q.ch := Buf(s.conn.bufs, q.ch)[1..]]),
         reqs := s.reqs[sid := q.(waiting := false)],
         pool := if keep then s.pool + [q.ch] else s.pool)
  }

  ghost predicate Run(s: State, es: seq<Event>, t: State)
    decreases |es|
  {
    if es == [] then s == t
    else Enabled(s, es[0]) && Run(Apply(s, es[0]), es[1..], t)
  }

  ghost predicate Reachable(s: State) {
    exists es :: Run(START, es, s)
  }

  // ---------------------------------------------------------------- invariant

  ghost predicate HeldByReceiver(s: State, sid: nat) {
    s.recv.Holding? && s.recv.sid == sid
  }

  /** The request's own channel can still be sent on: exactly one party holds it. */
  ghost predicate Pending(s: State, sid: nat)
    requires sid in s.reqs
  {
    var q := s.reqs[sid];
    || q.phase.Fresh?
    || (sid in s.conn.inflight && s.conn.inflight[sid] == q.ch)
    || HeldByReceiver(s, sid)
    || (q.phase.Delivering? && q.phase.to == q.ch)
  }

  /** Who holds what of one request. */
  ghost predicate HoldersOk(s: State, sid: nat)
    requires sid in s.reqs
  {
    var q := s.reqs[sid];
    && q.ch.Real? && q.ch.id < s.nextChan
    && (Got(s, sid) == [] <==> Pending(s, sid))
    && (q.phase.Fresh? || q.phase.Delivering? || HeldByReceiver(s, sid) ==> sid !in s.conn.inflight)
    && (q.phase.Fresh? || q.phase.Delivering? ==> !HeldByReceiver(s, sid))
    && (HeldByReceiver(s, sid) ==> s.recv.ch == q.ch)
    && (sid in s.conn.inflight ==>
          s.conn.inflight[sid] == if s.conn.closed then Dummy(sid) else q.ch)
    && (q.phase.Delivering? ==> q.phase.to == q.ch || (s.conn.closed && q.phase.to == Dummy(sid)))
  }

  /** What one request got, and what its channels hold. */
  ghost predicate ResultsOk(s: State, sid: nat)
    requires sid in s.reqs
  {
    var q := s.reqs[sid];
    && |Got(s, sid)| <= 1
    && (!q.waiting ==> |Got(s, sid)| == 1)
    && (q.waiting ==> Buf(s.conn.bufs, q.ch) == Got(s, sid))
    && (!q.phase.Returned? ==> Buf(s.conn.bufs, Dummy(sid)) == [])
    && (forall r :: r in Got(s, sid) && r.Reply? ==> r.sid == sid)
  }

  ghost predicate RequestOk(s: State, sid: nat) {
    sid in s.reqs ==> HoldersOk(s, sid) && ResultsOk(s, sid)
  }

  /** Nothing is left over from requests not made yet. */
  ghost predicate UnusedOk(s: State, sid: nat) {
    sid !in s.reqs ==>
      && sid !in s.conn.inflight && !HeldByReceiver(s, sid)
      && Got(s, sid) == [] && Buf(s.conn.bufs, Dummy(sid)) == []
  }

  ghost predicate RequestsOk(s: State) {
    && (s.conn.closed <==> s.recv.Stopped?)
    && (forall sid: nat :: RequestOk(s, sid))
    && (forall sid: nat :: UnusedOk(s, sid))
  }

  ghost predicate WaitsOn(s: State, sid: nat, ch: Chan) {
    sid in s.reqs && s.reqs[sid].waiting && s.reqs[sid].ch == ch
  }

  /** Empty, and nobody waits on it. */
  ghost predicate Spare(s: State, ch: Chan) {
    ch.Real? && Buf(s.conn.bufs, ch) == [] && forall sid: nat :: !WaitsOn(s, sid, ch)
  }

  /** Waiting requests and the pool share no channel, and what is in the pool is spare. */
  ghost predicate ChannelsOk(s: State) {
    && (forall i: nat, j: nat, ch: Chan :: WaitsOn(s, i, ch) && WaitsOn(s, j, ch) ==> i == j)
    && (forall k :: 0 <= k < |s.pool| ==> Spare(s, s.pool[k]) && s.pool[k].id < s.nextChan)
    && (forall j, k :: 0 <= j < k < |s.pool| ==> s.pool[j] != s.pool[k])
    && (forall id: nat :: id >= s.nextChan ==> Spare(s, Real(id)))
  }

  ghost predicate Inv(s: State) {
    RequestsOk(s) && ChannelsOk(s)
  }

  lemma StartOk()
    ensures Inv(START)
  {}

  /** Until a request has its result, its caller waits on its empty channel. */
  lemma PendingWaits(s: State, sid: nat)
    requires RequestOk(s, sid) && sid in s.reqs && Pending(s, sid)
    ensures Got(s, sid) == [] && Buf(s.conn.bufs, s.reqs[sid].ch) == [] && WaitsOn(s, sid, s.reqs[sid].ch)
  {}

  /** The step leaves request sid, what it holds and what its channels hold alone. */
  ghost predicate Untouched(s: State, t: State, sid: nat) {
    && (sid in t.reqs <==> sid in s.reqs)
    && (sid in s.reqs ==> t.reqs[sid] == s.reqs[sid])
    && (sid in t.conn.inflight <==> sid in s.conn.inflight)
    && (sid in s.conn.inflight ==> t.conn.inflight[sid] == s.conn.inflight[sid])
    && (HeldByReceiver(t, sid) <==> HeldByReceiver(s, sid))
    && (HeldByReceiver(s, sid) ==> t.recv == s.recv)
    && t.conn.closed == s.conn.closed && Got(t, sid) == Got(s, sid)
    && Buf(t.conn.bufs, Dummy(sid)) == Buf(s.conn.bufs, Dummy(sid))
    && (sid in s.reqs && s.reqs[sid].waiting ==>
          Buf(t.conn.bufs, s.reqs[sid].ch) == Buf(s.conn.bufs, s.reqs[sid].ch))
    && s.nextChan <= t.nextChan
  }

  lemma UntouchedKeeps(s: State, t: State, sid: nat)
    requires Untouched(s, t, sid) && RequestOk(s, sid) && UnusedOk(s, sid)
    ensures RequestOk(t, sid) && UnusedOk(t, sid)
  {}


  /** The request a step is about; the shutdown is about all, a failing receive about none. */
  function Subject(s: State, e: Event): Option<nat>
    requires Enabled(s, e)
  {
    match e
    case ReceiveFail(_) => None
    case Shutdown => None
    case DeliverReply => Some(s.recv.sid)
    case _ => Some(e.sid)
  }

  /** The steps that send on no channel and read none. */
  predicate Silent(e: Event) {
    e.SendOk? || e.SendFail? || e.TakeBack? || e.Receive? || e.ReceiveFail?
  }

  lemma SilentStep(s: State, e: Event, j: nat)
    requires Inv(s) && Enabled(s, e) && Silent(e)
    ensures var t := Apply(s, e);
            if Subject(s, e) == Some(j) then RequestOk(t, j) && UnusedOk(t, j) else Untouched(s, t, j)
  {
    if e.Receive? || e.ReceiveFail? {
      ReceiverStep(s, e, j);
    } else if e.TakeBack? {
      TakeBackStep(s, e.sid, j);
    } else {
      SenderStep(s, e, j);
    }
  }

  lemma ReceiverStep(s: State, e: Event, j: nat)
    requires Inv(s) && Enabled(s, e) && (e.Receive? || e.ReceiveFail?)
    ensures var t := Apply(s, e);
            if Subject(s, e) == Some(j) then RequestOk(t, j) && UnusedOk(t, j) else Untouched(s, t, j)
  {
    assert RequestOk(s, j) && UnusedOk(s, j);
  }

  lemma TakeBackStep(s: State, sid: nat, j: nat)
    requires Inv(s) && Enabled(s, TakeBack(sid))
    ensures var t := Apply(s, TakeBack(sid)); if sid == j then RequestOk(t, j) && UnusedOk(t, j) else Untouched(s, t, j)
  {
    assert RequestOk(s, j) && UnusedOk(s, j);
  }

  lemma SenderStep(s: State, e: Event, j: nat)
    requires Inv(s) && Enabled(s, e) && (e.SendOk? || e.SendFail?)
    ensures var t := Apply(s, e); if e.sid == j then RequestOk(t, j) && UnusedOk(t, j) else Untouched(s, t, j)
  {
    assert RequestOk(s, j) && UnusedOk(s, j);
  }

  lemma BeginStep(s: State, sid: nat, j: nat)
    requires Inv(s) && Enabled(s, Begin(sid))
    ensures var t := Apply(s, Begin(sid)); if sid == j then RequestOk(t, j) && UnusedOk(t, j) else Untouched(s, t, j)
  {
    assert RequestOk(s, j) && UnusedOk(s, j);
    assert Spare(s, if s.pool == [] then Real(s.nextChan) else s.pool[0]);
  }

  /** A step that sends on a request's own channel, or reads it, touches no other waiting request. */
  lemma OtherChannels(s: State, i: nat, j: nat)
    requires Inv(s) && i in s.reqs && WaitsOn(s, i, s.reqs[i].ch) && i != j
    ensures j in s.reqs && s.reqs[j].waiting ==> s.reqs[j].ch != s.reqs[i].ch
  {
    assert j in s.reqs ==> !WaitsOn(s, j, s.reqs[i].ch);
  }

  lemma RegisterStep(s: State, sid: nat, j: nat)
    requires Inv(s) && Enabled(s, Register(sid))
    ensures var t := Apply(s, Register(sid)); if sid == j then RequestOk(t, j) && UnusedOk(t, j) else Untouched(s, t, j)
  {
    assert RequestOk(s, sid) && RequestOk(s, j) && UnusedOk(s, j);
    PendingWaits(s, sid);
    if sid != j { OtherChannels(s, sid, j); }
  }

  lemma DeliverErrorStep(s: State, sid: nat, j: nat)
    requires Inv(s) && Enabled(s, DeliverError(sid))
    ensures var t := Apply(s, DeliverError(sid));
            if sid == j then RequestOk(t, j) && UnusedOk(t, j) else Untouched(s, t, j)
  {
    assert RequestOk(s, sid) && RequestOk(s, j) && UnusedOk(s, j);
    if Pending(s, sid) {
      PendingWaits(s, sid);
      if sid != j { OtherChannels(s, sid, j); }
    }
  }

  lemma DeliverReplyStep(s: State, j: nat)
    requires Inv(s) && Enabled(s, DeliverReply)
    ensures var t := Apply(s, DeliverReply);
            if s.recv.sid == j then RequestOk(t, j) && UnusedOk(t, j) else Untouched(s, t, j)
  {
    var sid := s.recv.sid;
    assert RequestOk(s, sid) && UnusedOk(s, sid) && RequestOk(s, j);
    PendingWaits(s, sid);
    if sid != j { OtherChannels(s, sid, j); }
  }

  lemma ConsumeStep(s: State, sid: nat, keep: bool, j: nat)
    requires Inv(s) && Enabled(s, Consume(sid, keep))
    ensures var t := Apply(s, Consume(sid, keep));
            if sid == j then RequestOk(t, j) && UnusedOk(t, j) else Untouched(s, t, j)
  {
    assert RequestOk(s, sid) && RequestOk(s, j) && UnusedOk(s, j);
    if sid != j { OtherChannels(s, sid, j); }
  }

  /** What is in flight before the shutdown is in flight on its own channel. */
  lemma InFlightWaits(s: State, sid: nat)
    requires Inv(s) && !s.conn.closed && sid in s.conn.inflight
    ensures sid in s.reqs && s.conn.inflight[sid] == s.reqs[sid].ch && WaitsOn(s, sid, s.reqs[sid].ch)
    ensures Got(s, sid) == [] && Buf(s.conn.bufs, s.reqs[sid].ch) == []
  {
    assert UnusedOk(s, sid) && RequestOk(s, sid);
    PendingWaits(s, sid);
  }

  lemma InFlightChannel(s: State, ch: Chan) returns (sid: nat)
    requires Inv(s) && !s.conn.closed && ch in s.conn.inflight.Values
    ensures ch.Real? && WaitsOn(s, sid, ch) && sid in s.conn.inflight
  {
    sid :| sid in s.conn.inflight && s.conn.inflight[sid] == ch;
    InFlightWaits(s, sid);
    assert RequestOk(s, sid);
  }

  lemma ShutdownRequest(s: State, sid: nat)
    requires Inv(s) && Enabled(s, Shutdown)
    ensures RequestOk(Apply(s, Shutdown), sid) && UnusedOk(Apply(s, Shutdown), sid)
  {
    assert RequestOk(s, sid) && UnusedOk(s, sid);
    BroadcastBuf(s.conn, s.recv.err, Dummy(sid));
    if Dummy(sid) in s.conn.inflight.Values { var i := InFlightChannel(s, Dummy(sid)); }
    if sid in s.conn.inflight { InFlightWaits(s, sid); }
    if sid in s.reqs {
      var ch := s.reqs[sid].ch;
      BroadcastBuf(s.conn, s.recv.err, ch);
      if ch in s.conn.inflight.Values && s.reqs[sid].waiting {
        var i := InFlightChannel(s, ch);
        assert WaitsOn(s, sid, ch);
      }
    }
  }

  /** A step that only sends to channels somebody waits on, or to dummies. */
  lemma ChannelsKept(s: State, t: State)
    requires ChannelsOk(s) && t.pool == s.pool && t.nextChan == s.nextChan
    requires forall sid: nat, ch: Chan :: WaitsOn(t, sid, ch) <==> WaitsOn(s, sid, ch)
    requires forall ch :: Spare(s, ch) ==> Buf(t.conn.bufs, ch) == Buf(s.conn.bufs, ch)
    ensures ChannelsOk(t)
  {
    forall ch | Spare(s, ch) ensures Spare(t, ch) {}
    forall k | 0 <= k < |t.pool| ensures Spare(t, t.pool[k]) { assert Spare(s, s.pool[k]); }
    forall id: nat | id >= t.nextChan ensures Spare(t, Real(id)) { assert Spare(s, Real(id)); }
  }

  lemma SameWaiters(s: State, t: State)
    requires forall sid :: sid in s.reqs <==> sid in t.reqs
    requires forall sid :: sid in s.reqs ==>
               t.reqs[sid].ch == s.reqs[sid].ch && t.reqs[sid].waiting == s.reqs[sid].waiting
    ensures forall sid: nat, ch: Chan :: WaitsOn(t, sid, ch) <==> WaitsOn(s, sid, ch)
  {}

  lemma StepKeepsChannels(s: State, e: Event)
    requires Inv(s) && Enabled(s, e) && !e.Begin? && !e.Consume?
    ensures ChannelsOk(Apply(s, e))
  {
    var t := Apply(s, e);
    SameWaiters(s, t);
    forall ch | Spare(s, ch) ensures Buf(t.conn.bufs, ch) == Buf(s.conn.bufs, ch) { SpareKept(s, e, ch); }
    ChannelsKept(s, t);
  }

  lemma SpareKept(s: State, e: Event, ch: Chan)
    requires Inv(s) && Enabled(s, e) && !e.Begin? && !e.Consume? && Spare(s, ch)
    ensures Buf(Apply(s, e).conn.bufs, ch) == Buf(s.conn.bufs, ch)
  {
    match e
    case Register(sid) =>
      assert RequestOk(s, sid);
      PendingWaits(s, sid);
    case DeliverError(sid) =>
      assert RequestOk(s, sid);
      if Pending(s, sid) { PendingWaits(s, sid); }
    case DeliverReply =>
      assert UnusedOk(s, s.recv.sid) && RequestOk(s, s.recv.sid);
      PendingWaits(s, s.recv.sid);
    case Shutdown =>
      BroadcastBuf(s.conn, s.recv.err, ch);
      if ch in s.conn.inflight.Values { var i := InFlightChannel(s, ch); }
    case _ =>
  }

  lemma BeginChannels(s: State, sid: nat)
    requires Inv(s) && Enabled(s, Begin(sid))
    ensures ChannelsOk(Apply(s, Begin(sid)))
  {
    var t := Apply(s, Begin(sid));
    var c := t.reqs[sid].ch;
    assert Spare(s, c);
    forall i: nat, ch: Chan ensures WaitsOn(t, i, ch) <==> WaitsOn(s, i, ch) || (i == sid && ch == c) {}
    forall ch | Spare(s, ch) && ch != c ensures Spare(t, ch) {}
    forall k | 0 <= k < |t.pool| ensures Spare(t, t.pool[k]) { assert Spare(s, t.pool[k]); }
    forall id: nat | id >= t.nextChan ensures Spare(t, Real(id)) { assert Spare(s, Real(id)); }
  }

  lemma ConsumeChannels(s: State, sid: nat, keep: bool)
    requires Inv(s) && Enabled(s, Consume(sid, keep))
    ensures ChannelsOk(Apply(s, Consume(sid, keep)))
  {
    var t := Apply(s, Consume(sid, keep));
    var c := s.reqs[sid].ch;
    assert RequestOk(s, sid) && WaitsOn(s, sid, c);
    forall i: nat, ch: Chan ensures WaitsOn(t, i, ch) <==> WaitsOn(s, i, ch) && i != sid {}
    assert Spare(t, c);
    forall ch | Spare(s, ch) ensures Spare(t, ch) { assert !WaitsOn(s, sid, ch); }
    forall k | 0 <= k < |s.pool| ensures Spare(t, s.pool[k]) && s.pool[k] != c { assert Spare(s, s.pool[k]); }
    forall id: nat | id >= t.nextChan ensures Spare(t, Real(id)) { assert Spare(s, Real(id)); }
  }

  lemma StepKeepsRequest(s: State, e: Event, j: nat)
    requires Inv(s) && Enabled(s, e)
    ensures RequestOk(Apply(s, e), j) && UnusedOk(Apply(s, e), j)
  {
    match e {
      case Shutdown => ShutdownRequest(s, j);
      case Begin(sid) => BeginStep(s, sid, j);
      case Register(sid) => RegisterStep(s, sid, j);
      case DeliverError(sid) => DeliverErrorStep(s, sid, j);
      case DeliverReply => DeliverReplyStep(s, j);
      case Consume(sid, keep) => ConsumeStep(s, sid, keep, j);
      case _ => SilentStep(s, e, j);
    }
    if !e.Shutdown? && Subject(s, e) != Some(j) {
      assert RequestOk(s, j) && UnusedOk(s, j);
      UntouchedKeeps(s, Apply(s, e), j);
    }
  }

  lemma StepKeepsInv(s: State, e: Event)
    requires Inv(s) && Enabled(s, e)
    ensures Inv(Apply(s, e))
  {
    var t := Apply(s, e);
    forall j: nat ensures RequestOk(t, j) && UnusedOk(t, j) { StepKeepsRequest(s, e, j); }
    match e {
      case Begin(sid) => BeginChannels(s, sid);
      case Consume(sid, keep) => ConsumeChannels(s, sid, keep);
      case _ => StepKeepsChannels(s, e);
    }
  }

  lemma {:induction false} RunKeepsInv(s: State, es: seq<Event>, t: State)
    requires Inv(s) && Run(s, es, t)
    ensures Inv(t)
    decreases |es|
  {
    if es != [] {
      StepKeepsInv(s, es[0]);
      RunKeepsInv(Apply(s, es[0]), es[1..], t);
    }
  }

  lemma ReachableInv(s: State)
    requires Reachable(s)
    ensures Inv(s)
  {
    StartOk();
    var es :| Run(START, es, s);
    RunKeepsInv(START, es, s);
  }

  // ---------------------------------------------------------------- theorems

  /** In every reachable state a request has been sent at most one result, and its caller will
      find that one and no other on its channel. A reply carries the request's own id. */
  lemma AtMostOneResult(s: State, sid: nat)
    requires Reachable(s) && sid in s.reqs
    ensures |Got(s, sid)| <= 1 && (Got(s, sid) == [] <==> Pending(s, sid))
    ensures s.reqs[sid].waiting ==> Buf(s.conn.bufs, s.reqs[sid].ch) == Got(s, sid)
    ensures !s.reqs[sid].waiting ==> |Got(s, sid)| == 1
    ensures forall r :: r in Got(s, sid) && r.Reply? ==> r.sid == sid
  {
    ReachableInv(s);
    assert RequestOk(s, sid);
  }

  /** Once the connection is closed a registered request has exactly one result, unless its own
      sender is between taking the channel back and sending the error on it. */
  lemma ExactlyOneOnceClosed(s: State, sid: nat)
    requires Reachable(s) && sid in s.reqs && s.conn.closed
    ensures |Got(s, sid)| == 1 <==>
              !s.reqs[sid].phase.Fresh?
              && !(s.reqs[sid].phase.Delivering? && s.reqs[sid].phase.to == s.reqs[sid].ch)
  {
    ReachableInv(s);
    assert RequestOk(s, sid);
  }

  /** The step that settles a request left over at the close is its sender's own next one. */
  lemma ClosedIsOneStepAway(s: State, sid: nat) returns (e: Event)
    requires Reachable(s) && sid in s.reqs && s.conn.closed && Got(s, sid) == []
    ensures e in {Register(sid), DeliverError(sid)} && Enabled(s, e)
    ensures |Got(Apply(s, e), sid)| == 1
  {
    ReachableInv(s);
    assert RequestOk(s, sid);
    e := if s.reqs[sid].phase.Fresh? then Register(sid) else DeliverError(sid);
  }

  /** The channels a step sends on. */
  function Targets(s: State, e: Event): set<Chan>
    requires Enabled(s, e)
  {
    match e
    case Register(sid) => if s.conn.closed then {s.reqs[sid].ch} else {}
    case DeliverError(sid) => {s.reqs[sid].phase.to}
    case DeliverReply => {s.recv.ch}
    case Shutdown => s.conn.inflight.Values
    case _ => {}
  }

  /** No send ever blocks: its channel is empty, and the broadcast sends on each one once. */
  lemma NoSendBlocks(s: State, e: Event)
    requires Reachable(s) && Enabled(s, e)
    ensures forall ch :: ch in Targets(s, e) ==> Buf(s.conn.bufs, ch) == []
    ensures !s.conn.closed ==> Separate(s.conn.inflight)
  {
    ReachableInv(s);
    forall ch | ch in Targets(s, e) ensures Buf(s.conn.bufs, ch) == [] {
      match e
      case Register(sid) => PendingWaits(s, sid);
      case DeliverError(sid) =>
        assert RequestOk(s, sid);
        if Pending(s, sid) { PendingWaits(s, sid); }
      case DeliverReply =>
        assert UnusedOk(s, s.recv.sid) && RequestOk(s, s.recv.sid);
        PendingWaits(s, s.recv.sid);
      case Shutdown =>
        var sid := InFlightChannel(s, ch);
        InFlightWaits(s, sid);
    }
    if !s.conn.closed {
      forall i, j | i in s.conn.inflight && j in s.conn.inflight && i != j
        ensures s.conn.inflight[i] != s.conn.inflight[j]
      {
        InFlightWaits(s, i);
        InFlightWaits(s, j);
      }
    }
  }

  /** A channel in the pool is empty, no caller waits on it, and neither the in-flight map, the
      receive loop nor a failing sender can still send on it. */
  lemma PoolNotInFlight(s: State, ch: Chan, sid: nat)
    requires Reachable(s) && ch in s.pool
    ensures Buf(s.conn.bufs, ch) == [] && !WaitsOn(s, sid, ch)
    ensures sid in s.conn.inflight ==> s.conn.inflight[sid] != ch
    ensures s.recv.Holding? ==> s.recv.ch != ch
    ensures sid in s.reqs && s.reqs[sid].phase.Delivering? ==> s.reqs[sid].phase.to != ch
  {
    ReachableInv(s);
    assert Spare(s, ch);
    assert RequestOk(s, sid) && UnusedOk(s, sid);
    if sid in s.reqs && Pending(s, sid) { PendingWaits(s, sid); }
    if s.recv.Holding? {
      assert UnusedOk(s, s.recv.sid) && RequestOk(s, s.recv.sid);
      PendingWaits(s, s.recv.sid);
    }
  }

  // ---------------------------------------------------------------- where a result comes from

  /** With the events h behind it: errors under way were reported by the request's own send, and so
      was each failure it got, unless the connection is lost; a reply was received for it. */
  ghost predicate Caused(h: seq<Event>, s: State, sid: nat) {
    && (sid in s.reqs && (s.reqs[sid].phase.Failed? || s.reqs[sid].phase.Delivering?) ==>
          SendFail(sid, s.reqs[sid].phase.err) in h)
    && (forall r :: r in Got(s, sid) ==> Accounted(h, sid, s.conn.closed, r))
    && (HeldByReceiver(s, sid) ==> Receive(sid) in h)
  }

  ghost predicate Accounted(h: seq<Event>, sid: nat, closed: bool, r: Result) {
    && (r.Failure? ==> SendFail(sid, r.err) in h || (r.err == ConnectionLost && closed))
    && (r.Reply? ==> Receive(r.sid) in h)
  }

  lemma StepCaused(h: seq<Event>, s: State, e: Event, sid: nat)
    requires Caused(h, s, sid) && Enabled(s, e) && !s.conn.closed == !s.recv.Stopped?
    requires s.recv.Holding? ==> Receive(s.recv.sid) in h
    ensures Caused(h + [e], Apply(s, e), sid)
  {
    var t := Apply(s, e);
    assert (h + [e])[|h|] == e;
    assert forall x :: x in h ==> x in h + [e];
    forall r | r in Got(t, sid) ensures Accounted(h + [e], sid, t.conn.closed, r) {
      assert r in Got(s, sid) ==> Accounted(h, sid, s.conn.closed, r);
    }
  }

  lemma {:induction false} RunCaused(h: seq<Event>, s: State, es: seq<Event>, t: State)
    requires Inv(s) && Run(s, es, t) && forall sid: nat :: Caused(h, s, sid)
    ensures forall sid: nat :: Caused(h + es, t, sid)
    decreases |es|
  {
    if es == [] {
      assert h + es == h;
    } else {
      if s.recv.Holding? { assert Caused(h, s, s.recv.sid); }
      forall sid: nat ensures Caused(h + [es[0]], Apply(s, es[0]), sid) { StepCaused(h, s, es[0], sid); }
      StepKeepsInv(s, es[0]);
      RunCaused(h + [es[0]], Apply(s, es[0]), es[1..], t);
      assert h + es == h + [es[0]] + es[1..];
    }
  }

  /** A failure that a request gets is the one its own send met, unless the connection was lost;
      and a reply was received under the request's id. */
  lemma FailureIsOwn(es: seq<Event>, s: State, sid: nat, r: Result)
    requires Run(START, es, s) && sid in s.reqs && r in Got(s, sid)
    ensures r.Failure? ==> SendFail(sid, r.err) in es || (r.err == ConnectionLost && s.conn.closed)
    ensures r.Reply? ==> r.sid == sid && Receive(sid) in es
  {
    StartOk();
    RunKeepsInv(START, es, s);
    assert RequestOk(s, sid);
    RunCaused([], START, es, s);
    assert [] + es == es;
    assert Caused([] + es, s, sid);
    assert Accounted([] + es, sid, s.conn.closed, r);
  }

  // ---------------------------------------------------------------- each result can come

  lemma {:induction false} RunOne(s: State, e: Event, es: seq<Event>, t: State)
    requires Enabled(s, e) && Run(Apply(s, e), es, t)
    ensures Run(s, [e] + es, t)
  {
    assert ([e] + es)[1..] == es;
  }

  /** A request that has been sent and waits. */
  lemma RequestUnderWay(sid: nat) returns (s: State)
    ensures s == Apply(Apply(START, Begin(sid)), Register(sid)) && Enabled(s, SendOk(sid))
    ensures forall es, t :: Run(s, es, t) ==> Run(START, [Begin(sid)] + ([Register(sid)] + es), t)
    ensures s.recv == Reading && !s.conn.closed && sid in s.conn.inflight && Got(s, sid) == []
    ensures sid in s.reqs && s.reqs[sid] == Request(Real(0), Sending, true) && s.conn.inflight == map[sid := Real(0)]
  {
    var s1 := Apply(START, Begin(sid));
    s := Apply(s1, Register(sid));
    forall es, t | Run(s, es, t) ensures Run(START, [Begin(sid)] + ([Register(sid)] + es), t) {
      RunOne(s1, Register(sid), es, t);
      RunOne(START, Begin(sid), [Register(sid)] + es, t);
    }
  }

  /** A reply can arrive. */
  lemma ReplyArrives(sid: nat) returns (es: seq<Event>, t: State)
    ensures Run(START, es, t) && Got(t, sid) == [Reply(sid)]
  {
    var s := RequestUnderWay(sid);
    var s1 := Apply(s, Receive(sid));
    t := Apply(s1, DeliverReply);
    RunOne(s1, DeliverReply, [], t);
    RunOne(s, Receive(sid), [DeliverReply] + [], t);
    es := [Begin(sid)] + ([Register(sid)] + ([Receive(sid)] + ([DeliverReply] + [])));
  }

  /** The send can fail, with any error, and the caller gets it. */
  lemma FailureArrives(sid: nat, x: Error) returns (es: seq<Event>, t: State)
    ensures Run(START, es, t) && Got(t, sid) == [Failure(x)]
  {
    var s := RequestUnderWay(sid);
    var s1 := Apply(s, SendFail(sid, x));
    var s2 := Apply(s1, TakeBack(sid));
    t := Apply(s2, DeliverError(sid));
    RunOne(s2, DeliverError(sid), [], t);
    RunOne(s1, TakeBack(sid), [DeliverError(sid)] + [], t);
    RunOne(s, SendFail(sid, x), [TakeBack(sid)] + ([DeliverError(sid)] + []), t);
    es := [Begin(sid)] + ([Register(sid)] + ([SendFail(sid, x)] + ([TakeBack(sid)] + ([DeliverError(sid)] + []))));
  }

  /** The connection can be lost under way. */
  lemma LossArrives(sid: nat, x: Error) returns (es: seq<Event>, t: State)
    ensures Run(START, es, t) && Got(t, sid) == [Failure(ConnectionLost)] && t.conn.closed && t.conn.err == Some(x)
  {
    var s := RequestUnderWay(sid);
    var s1 := Apply(s, ReceiveFail(x));
    t := Apply(s1, Shutdown);
    RunOne(s1, Shutdown, [], t);
    RunOne(s, ReceiveFail(x), [Shutdown] + [], t);
    es := [Begin(sid)] + ([Register(sid)] + ([ReceiveFail(x)] + ([Shutdown] + [])));
  }
}
