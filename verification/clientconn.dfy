/**
The client connection: requests in flight are keyed by their id, and the receive loop, a
failing sender and the shutdown broadcast compete to deliver the one result of each. A
request's channel holds one result; channels are reused through a pool once read.
*/
module ClientConns {
  import opened Basics

  /** What is delivered: the server's reply to a request id, or an error. */
  datatype Result = Reply(sid: nat) | Failure(err: Error)

  /** A result channel made for requests, or the one the broadcast puts in its place. */
  datatype Chan = Real(id: nat) | Dummy(sid: nat)

  /** What the connection's mutex protects, and the contents of the channels. */
  datatype Conn = Conn(inflight: map<nat, Chan>, bufs: map<Chan, seq<Result>>, closed: bool, err: Option<Error>)

  function Buf(bufs: map<Chan, seq<Result>>, c: Chan): seq<Result> {
    if c in bufs then bufs[c] else []
  }

  /** The same contents, channel by channel. */
  ghost predicate SameBufs(a: map<Chan, seq<Result>>, b: map<Chan, seq<Result>>) {
    forall c :: Buf(a, c) == Buf(b, c)
  }

  /** ch <- r */
  function Deliver(bufs: map<Chan, seq<Result>>, c: Chan, r: Result): map<Chan, seq<Result>> {
    bufs[c := Buf(bufs, c) + [r]]
  }

  /** putChannel: refused with an error on the channel once the connection is closed. */
  function Put(c: Conn, ch: Chan, sid: nat): Conn {
    if c.closed then c.(bufs := Deliver(c.bufs, ch, Failure(ConnectionLost)))
    else c.(inflight := c.inflight[sid := ch])
  }

  /** getChannel takes the entry out. */
  function Get(c: Conn, sid: nat): Conn {
    c.(inflight := c.inflight - {sid})
  }

  /** broadcastErr: every channel in flight gets an error and is replaced by a dummy. */
  function Broadcast(c: Conn, err: Error): Conn {
    Conn(map sid | sid in c.inflight :: Dummy(sid),
         map ch | ch in c.bufs.Keys + c.inflight.Values ::
           Buf(c.bufs, ch) + if ch in c.inflight.Values then [Failure(ConnectionLost)] else [],
         true, Some(err))
  }

  /** No two requests in flight share a channel. */
  ghost predicate Separate(inflight: map<nat, Chan>) {
    forall i, j :: i in inflight && j in inflight && i != j ==> inflight[i] != inflight[j]
  }

  /** The connection as the code keeps it; each method is one critical section. */
  class ClientConn {
    var inflight: map<nat, Chan>
    var bufs: map<Chan, seq<Result>>
    var closed: bool
    var err: Option<Error>

    ghost function State(): Conn
      reads this
    {
      Conn(inflight, bufs, closed, err)
    }

    constructor ()
      ensures State() == Conn(map[], map[], false, None)
    {
      inflight, bufs, closed, err := map[], map[], false, None;
    }

    /** A send on a channel; it must have room, or the sender would block. */
    method Send(ch: Chan, r: Result)
      requires Buf(bufs, ch) == []
      modifies this`bufs
      ensures bufs == Deliver(old(bufs), ch, r)
    {
      bufs := bufs[ch := Buf(bufs, ch) + [r]];
    }

    method PutChannel(ch: Chan, sid: nat) returns (ok: bool)
      requires closed ==> Buf(bufs, ch) == []
      modifies this
      ensures State() == Put(old(State()), ch, sid) && ok == !old(closed)
    {
      if closed {
        Send(ch, Failure(ConnectionLost));
        return false;
      }
      inflight := inflight[sid := ch];
      return true;
    }

    method GetChannel(sid: nat) returns (ch: Option<Chan>)
      modifies this`inflight
      ensures State() == Get(old(State()), sid)
      ensures ch == if sid in old(inflight) then Some(old(inflight)[sid]) else None
    {
      ch := if sid in inflight then Some(inflight[sid]) else None;
      inflight := inflight - {sid};
    }

    /** One turn of the broadcast's loop. */
    method Tell(sid: nat, ghost before: map<nat, Chan>, ghost bufs0: map<Chan, seq<Result>>, ghost todo: set<nat>)
      requires sid in todo && Halfway(before, bufs0, inflight, bufs, todo)
      modifies this`inflight, this`bufs
      ensures Halfway(before, bufs0, inflight, bufs, todo - {sid})
    {
      HalfwayStep(before, bufs0, inflight, bufs, todo, sid);
      Send(inflight[sid], Failure(ConnectionLost));
      inflight := inflight[sid := Dummy(sid)];
    }

    /** Holds the lock throughout, so every channel in flight must have room. */
    method BroadcastErr(e: Error)
      requires Separate(inflight) && forall sid :: sid in inflight ==> Buf(bufs, inflight[sid]) == []
      modifies this
      ensures State().(bufs := map[]) == Broadcast(old(State()), e).(bufs := map[])
      ensures SameBufs(bufs, Broadcast(old(State()), e).bufs)
    {
      ghost var start := State();
      TellAll();
      HalfwayDone(start, e, inflight, bufs);
      closed, err := true, Some(e);
    }

    /** The broadcast's loop, in any order. */
    method TellAll()
      requires Separate(inflight) && forall sid :: sid in inflight ==> Buf(bufs, inflight[sid]) == []
      modifies this`inflight, this`bufs
      ensures Halfway(old(inflight), old(bufs), inflight, bufs, {})
    {
      ghost var before, bufs0 := inflight, bufs;
      HalfwayStart(before, bufs0);
      var todo := inflight.Keys;
      while todo != {}
        invariant Halfway(before, bufs0, inflight, bufs, todo)
        decreases |todo|
      {
        var sid :| sid in todo;
        Tell(sid, before, bufs0, todo);
        todo := todo - {sid};
      }
    }
  }

  /** The broadcast with the requests in `todo` still to be told. */
  ghost predicate Halfway(before: map<nat, Chan>, bufs0: map<Chan, seq<Result>>,
                          inflight: map<nat, Chan>, bufs: map<Chan, seq<Result>>, todo: set<nat>)
  {
    && todo <= before.Keys && Separate(before)
    && inflight.Keys == before.Keys
    && (forall sid :: sid in before ==> inflight[sid] == if sid in todo then before[sid] else Dummy(sid))
    && (forall sid :: sid in before ==> Buf(bufs0, before[sid]) == [])
    && (forall sid :: sid in before ==>
          Buf(bufs, before[sid]) == if sid in todo then [] else [Failure(ConnectionLost)])
    && (forall ch :: ch !in before.Values ==> Buf(bufs, ch) == Buf(bufs0, ch))
  }

  lemma HalfwayStep(before: map<nat, Chan>, bufs0: map<Chan, seq<Result>>,
                    inflight: map<nat, Chan>, bufs: map<Chan, seq<Result>>, todo: set<nat>, sid: nat)
    requires Halfway(before, bufs0, inflight, bufs, todo) && sid in todo
    ensures Buf(bufs, inflight[sid]) == []
    ensures Halfway(before, bufs0, inflight[sid := Dummy(sid)],
                    Deliver(bufs, inflight[sid], Failure(ConnectionLost)), todo - {sid})
  {
    var ch, told := inflight[sid], Deliver(bufs, inflight[sid], Failure(ConnectionLost));
    assert ch == before[sid] && before[sid] in before.Values;
    forall i | i in before ensures Buf(told, before[i]) == if i in todo - {sid} then [] else [Failure(ConnectionLost)] {
      assert i != sid ==> before[i] != ch;
    }
  }

  lemma HalfwayStart(before: map<nat, Chan>, bufs: map<Chan, seq<Result>>)
    requires Separate(before) && forall sid :: sid in before ==> Buf(bufs, before[sid]) == []
    ensures Halfway(before, bufs, before, bufs, before.Keys)
  {}

  lemma HalfwayDone(c: Conn, e: Error, inflight: map<nat, Chan>, bufs: map<Chan, seq<Result>>)
    requires Halfway(c.inflight, c.bufs, inflight, bufs, {})
    ensures Conn(inflight, map[], true, Some(e)) == Broadcast(c, e).(bufs := map[])
    ensures SameBufs(bufs, Broadcast(c, e).bufs)
  {
    assert inflight == Broadcast(c, e).inflight by { assert inflight.Keys == c.inflight.Keys; }
    forall ch ensures Buf(bufs, ch) == Buf(Broadcast(c, e).bufs, ch) {
      BroadcastBuf(c, e, ch);
      HalfwayBuf(c.inflight, c.bufs, inflight, bufs, ch);
    }
  }

  lemma HalfwayBuf(before: map<nat, Chan>, bufs0: map<Chan, seq<Result>>,
                   inflight: map<nat, Chan>, bufs: map<Chan, seq<Result>>, ch: Chan)
    requires Halfway(before, bufs0, inflight, bufs, {})
    ensures Buf(bufs, ch) == Buf(bufs0, ch) + if ch in before.Values then [Failure(ConnectionLost)] else []
  {
    if ch in before.Values {
      var sid :| sid in before && before[sid] == ch;
    }
  }

  /** The broadcast tells each channel in flight once and no other. */
  lemma BroadcastBuf(c: Conn, e: Error, ch: Chan)
    ensures Buf(Broadcast(c, e).bufs, ch)
         == Buf(c.bufs, ch) + if ch in c.inflight.Values then [Failure(ConnectionLost)] else []
    ensures Broadcast(c, e).closed && Broadcast(c, e).err == Some(e)
    ensures Broadcast(c, e).inflight.Keys == c.inflight.Keys
    ensures forall sid :: sid in c.inflight ==> Broadcast(c, e).inflight[sid] == Dummy(sid)
  {}
}
