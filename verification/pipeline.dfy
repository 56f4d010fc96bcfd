/**
The slice / map / reduce pipeline behind the client's concurrent ReadAt, WriteAt and
ReadFrom: one slicer goroutine cuts chunks, dispatches a request for each and offers it
on an unbuffered work channel; a fixed number of workers take chunks, wait for the reply
and report failures on an unbuffered error channel; one reducer keeps the failure with the
least offset and closes the cancel channel. Every select and every scheduling choice is an
event, so a run is any sequence of enabled events.
*/
module TransferPipeline {
  import opened Basics

  /** What one transfer is asked to do: chunk lengths in order, and the error (if any) the
      slicer itself reports after its last chunk (a failing io.Reader in ReadFrom). */
  datatype Plan = Plan(start: nat, lens: seq<nat>, tail: Option<Error>, workers: nat)

  /** What a worker makes of the reply to one request: the payload it keeps, and an error. */
  datatype Outcome = Outcome(data: seq<byte>, err: Option<Error>)

  datatype Fault = Fault(off: int, err: Error)

  /** The reducer's `firstErr`, which starts as {math.MaxInt64, nil}. `chunk` only records
      whose fault it is. */
  datatype Verdict = Verdict(off: int, err: Option<Error>, chunk: nat)

  /** A request from before its dispatch to the receive of its reply by a worker. */
  datatype Cell = Uncut | Pending | Answered(out: Outcome) | Taken(out: Outcome)

  datatype Slicer = Slicing | Offering | Reporting | Finished
  datatype Worker = Idle | Waiting(chunk: nat) | Faulting(chunk: nat) | Exited
  datatype Reducer = Collecting | Cancelling | Returned

  /** `takers` records which worker took each chunk handed out so far, so |takers| chunks
      have been handed out; `reported` records whose faults the reducer has received, the
      slicer's own counting as chunk |lens|. */
  datatype State = State(
    slicer: Slicer,
    takers: seq<nat>,
    cells: seq<Cell>,
    workers: seq<Worker>,
    cancelled: bool,
    errClosed: bool,
    reported: set<nat>,
    first: Verdict,
    reducer: Reducer)

  datatype Event =
    | Cut
    | Hand(w: nat)
    | Drop
    | Finish
    | ReportTail
    | Answer(k: nat, out: Outcome)
    | Take(w: nat)
    | Report(w: nat)
    | Cancel
    | Exit(w: nat)
    | CloseErr
    | Return

  function Sum(lens: seq<nat>, k: nat): nat
    requires k <= |lens|
  {
    if k == 0 then 0 else Sum(lens, k - 1) + lens[k - 1]
  }

  /** The file offset at which chunk k begins; for k == |lens|, the end of the transfer. */
  function Begin(p: Plan, k: nat): nat
    requires k <= |p.lens|
  {
    p.start + Sum(p.lens, k)
  }

  ghost predicate ValidPlan(p: Plan) {
    && p.workers >= 1
    && (forall k :: 0 <= k < |p.lens| ==> p.lens[k] > 0)
    && Begin(p, |p.lens|) <= MAX_INT64
  }

  function Init(p: Plan): State {
    State(Slicing, [], seq(|p.lens|, i => Uncut), seq(p.workers, i => Idle),
          false, false, {}, Verdict(MAX_INT64, None, 0), Collecting)
  }

  /** The offset a failing chunk reports: its start plus what was kept of its reply. */
  function FaultOf(p: Plan, k: nat, out: Outcome): Fault
    requires k < |p.lens| && out.err.Some?
  {
    Fault(Begin(p, k) + |out.data|, out.err.value)
  }

  /** Chunk k's reply was received and carries an error. */
  predicate Failed(s: State, k: nat) {
    k < |s.cells| && s.cells[k].Taken? && s.cells[k].out.err.Some?
  }

  /** There is a fault numbered k: a failed chunk's, or the slicer's own. */
  predicate HasFault(p: Plan, s: State, k: nat) {
    if k < |p.lens| then Failed(s, k) else k == |p.lens| && p.tail.Some?
  }

  function FaultAt(p: Plan, s: State, k: nat): Fault
    requires HasFault(p, s, k)
  {
    if k < |p.lens| then FaultOf(p, k, s.cells[k].out) else Fault(Begin(p, k), p.tail.value)
  }

  /** One receive by the reduce loop: a fault at most as far as the current one replaces it. */
  function Reduce(v: Verdict, f: Fault, k: nat): Verdict {
    if f.off <= v.off then Verdict(f.off, Some(f.err), k) else v
  }

  function Receive(p: Plan, s: State, k: nat): State
    requires HasFault(p, s, k)
  {
    s.(reported := s.reported + {k}, first := Reduce(s.first, FaultAt(p, s, k), k), reducer := Cancelling)
  }

  /** A reply a worker can see: a failing chunk keeps fewer bytes than it asked for. */
  predicate WellFormedOutcome(p: Plan, k: nat, out: Outcome)
    requires k < |p.lens|
  {
    && |out.data| <= p.lens[k]
    && (out.err.Some? ==> |out.data| < p.lens[k])
  }

  predicate Enabled(p: Plan, s: State, e: Event) {
    match e
    case Cut => s.slicer == Slicing && |s.takers| < |s.cells|
    case Hand(w) => s.slicer == Offering && w < |s.workers| && s.workers[w] == Idle
    case Drop => s.slicer == Offering && s.cancelled
    case Finish => s.slicer == Slicing && |s.takers| == |s.cells|
    case ReportTail => s.slicer == Reporting && s.reducer == Collecting && HasFault(p, s, |p.lens|)
    case Answer(k, out) =>
      k < |s.cells| && k < |p.lens| && s.cells[k] == Pending && WellFormedOutcome(p, k, out)
    case Take(w) =>
      && w < |s.workers| && s.workers[w].Waiting?
      && s.workers[w].chunk < |s.cells|
      && s.cells[s.workers[w].chunk].Answered?
    case Report(w) =>
      && w < |s.workers| && s.workers[w].Faulting? && s.reducer == Collecting
      && HasFault(p, s, s.workers[w].chunk)
    case Cancel => s.reducer == Cancelling
    case Exit(w) => w < |s.workers| && s.workers[w] == Idle && s.slicer == Finished
    case CloseErr => !s.errClosed && forall w :: 0 <= w < |s.workers| ==> s.workers[w] == Exited
    case Return => s.errClosed && s.reducer == Collecting
  }

  function Apply(p: Plan, s: State, e: Event): State
    requires Enabled(p, s, e)
  {
    match e
    case Cut => s.(slicer := Offering, cells := s.cells[|s.takers| := Pending])
    case Hand(w) =>
      s.(slicer := Slicing, takers := s.takers + [w], workers := s.workers[w := Waiting(|s.takers|)])
    case Drop => s.(slicer := Finished)
    case Finish => s.(slicer := if p.tail.Some? then Reporting else Finished)
    case ReportTail => Receive(p, s, |p.lens|).(slicer := Finished)
    case Answer(k, out) => s.(cells := s.cells[k := Answered(out)])
    case Take(w) =>
      var k := s.workers[w].chunk;
      var out := s.cells[k].out;
      s.(cells := s.cells[k := Taken(out)],
         workers := s.workers[w := if out.err.Some? then Faulting(k) else Idle])
    case Report(w) => Receive(p, s, s.workers[w].chunk).(workers := s.workers[w := Idle])
    case Cancel => s.(cancelled := true, reducer := Collecting)
    case Exit(w) => s.(workers := s.workers[w := Exited])
    case CloseErr => s.(errClosed := true)
    case Return => s.(reducer := Returned)
  }

  /** `es` is a run from s to t. */
  ghost predicate Run(p: Plan, s: State, es: seq<Event>, t: State)
    decreases |es|
  {
    if es == [] then s == t
    else Enabled(p, s, es[0]) && Run(p, Apply(p, s, es[0]), es[1..], t)
  }

  // ---------------------------------------------------------------- invariant

  ghost predicate CellsOk(p: Plan, s: State) {
    var sent := |s.takers|;
    && |s.cells| == |p.lens|
    && sent <= |p.lens|
    && (forall k :: 0 <= k < sent ==> !s.cells[k].Uncut?)
    && (forall k :: sent <= k < |s.cells| ==> !s.cells[k].Taken?)
    && (forall k :: sent < k < |s.cells| ==> s.cells[k].Uncut?)
    && (s.slicer == Slicing && sent < |p.lens| ==> s.cells[sent].Uncut?)
    && (s.slicer == Offering ==> sent < |p.lens| && !s.cells[sent].Uncut?)
    && (s.slicer == Reporting ==> sent == |p.lens| && p.tail.Some?)
    && (forall k :: 0 <= k < |s.cells| && (s.cells[k].Answered? || s.cells[k].Taken?) ==>
          WellFormedOutcome(p, k, s.cells[k].out))
  }

  ghost predicate WorkersOk(p: Plan, s: State)
    requires CellsOk(p, s)
  {
    && |s.workers| == p.workers
    && (forall k :: 0 <= k < |s.takers| ==> s.takers[k] < |s.workers|)
    && (forall k :: 0 <= k < |s.takers| && !s.cells[k].Taken? ==> s.workers[s.takers[k]] == Waiting(k))
    && (forall w :: 0 <= w < |s.workers| && s.workers[w].Waiting? ==>
          var k := s.workers[w].chunk;
          k < |s.takers| && s.takers[k] == w && !s.cells[k].Taken?)
    && (forall w :: 0 <= w < |s.workers| && s.workers[w].Faulting? ==>
          var k := s.workers[w].chunk;
          k < |s.takers| && s.takers[k] == w && Failed(s, k))
    && (forall w :: 0 <= w < |s.workers| && s.workers[w] == Exited ==> s.slicer == Finished)
    && (s.errClosed ==> forall w :: 0 <= w < |s.workers| ==> s.workers[w] == Exited)
  }

  /** The verdict is one of the reported faults, and none of them lies before it. */
  ghost predicate Summarised(p: Plan, s: State)
    requires forall k :: k in s.reported ==> HasFault(p, s, k)
  {
    if s.reported == {} then s.first == Verdict(MAX_INT64, None, 0)
    else
      && s.first.chunk in s.reported
      && s.first.err.Some?
      && FaultAt(p, s, s.first.chunk) == Fault(s.first.off, s.first.err.value)
      && forall k :: k in s.reported ==> s.first.off <= FaultAt(p, s, k).off
  }

  ghost predicate FaultsOk(p: Plan, s: State)
    requires CellsOk(p, s) && WorkersOk(p, s)
  {
    && (forall k :: k in s.reported ==> HasFault(p, s, k))
    && (forall k :: 0 <= k < |s.takers| && Failed(s, k) ==>
          k in s.reported || s.workers[s.takers[k]] == Faulting(k))
    && Summarised(p, s)
    && (s.cancelled || s.reducer == Cancelling ==> s.reported != {})
    && (s.reducer == Returned ==> s.errClosed)
    && (|p.lens| in s.reported ==> |s.takers| == |p.lens|)
    && (s.slicer == Finished ==>
          || s.cancelled
          || (|s.takers| == |p.lens| && (p.tail.Some? ==> |p.lens| in s.reported)))
  }

  ghost predicate Inv(p: Plan, s: State) {
    CellsOk(p, s) && WorkersOk(p, s) && FaultsOk(p, s)
  }

  lemma {:induction false} SumMonotone(lens: seq<nat>, j: nat, k: nat)
    requires j <= k <= |lens|
    ensures Sum(lens, j) <= Sum(lens, k)
    decreases k
  {
    if j < k { SumMonotone(lens, j, k - 1); }
  }

  /** A fault lies inside its own chunk; the slicer's lies at the end. */
  lemma FaultInside(p: Plan, s: State, k: nat)
    requires CellsOk(p, s) && HasFault(p, s, k)
    ensures p.start <= Begin(p, k) <= FaultAt(p, s, k).off <= Begin(p, |p.lens|)
    ensures k < |p.lens| ==> FaultAt(p, s, k).off < Begin(p, k + 1)
  {
    if k < |p.lens| { SumMonotone(p.lens, k + 1, |p.lens|); }
  }

  lemma ReceiveSummarises(p: Plan, s: State, k: nat)
    requires ValidPlan(p) && CellsOk(p, s) && HasFault(p, s, k)
    requires (forall j :: j in s.reported ==> HasFault(p, s, j)) && Summarised(p, s)
    ensures Summarised(p, Receive(p, s, k))
  {
    FaultInside(p, s, k);
    assert forall j :: j in s.reported ==> FaultAt(p, Receive(p, s, k), j) == FaultAt(p, s, j);
  }

  lemma InitInv(p: Plan)
    requires ValidPlan(p)
    ensures Inv(p, Init(p))
  {}

  lemma CutKeepsCells(p: Plan, s: State, e: Event)
    requires CellsOk(p, s) && Enabled(p, s, e) && (e.Cut? || e.Hand? || e.Answer?)
    ensures CellsOk(p, Apply(p, s, e))
  {}

  lemma TakeKeepsCells(p: Plan, s: State, w: nat)
    requires CellsOk(p, s) && WorkersOk(p, s) && Enabled(p, s, Take(w))
    ensures CellsOk(p, Apply(p, s, Take(w)))
  {}

  lemma OthersKeepCells(p: Plan, s: State, e: Event)
    requires CellsOk(p, s) && Enabled(p, s, e) && !e.Cut? && !e.Hand? && !e.Answer? && !e.Take?
    ensures CellsOk(p, Apply(p, s, e))
  {}

  lemma StepKeepsCells(p: Plan, s: State, e: Event)
    requires CellsOk(p, s) && WorkersOk(p, s) && Enabled(p, s, e)
    ensures CellsOk(p, Apply(p, s, e))
  {
    if e.Cut? || e.Hand? || e.Answer? {
      CutKeepsCells(p, s, e);
    } else if e.Take? {
      TakeKeepsCells(p, s, e.w);
    } else {
      OthersKeepCells(p, s, e);
    }
  }

  lemma TakeKeepsWorkers(p: Plan, s: State, w: nat)
    requires CellsOk(p, s) && WorkersOk(p, s) && Enabled(p, s, Take(w))
    requires CellsOk(p, Apply(p, s, Take(w)))
    ensures WorkersOk(p, Apply(p, s, Take(w)))
  {
    assert s.takers[s.workers[w].chunk] == w;
  }

  lemma HandKeepsWorkers(p: Plan, s: State, w: nat)
    requires CellsOk(p, s) && WorkersOk(p, s) && Enabled(p, s, Hand(w))
    requires CellsOk(p, Apply(p, s, Hand(w)))
    ensures WorkersOk(p, Apply(p, s, Hand(w)))
  {}

  lemma ReportKeepsWorkers(p: Plan, s: State, w: nat)
    requires CellsOk(p, s) && WorkersOk(p, s) && Enabled(p, s, Report(w))
    requires CellsOk(p, Apply(p, s, Report(w)))
    ensures WorkersOk(p, Apply(p, s, Report(w)))
  {}

  lemma ExitKeepsWorkers(p: Plan, s: State, w: nat)
    requires CellsOk(p, s) && WorkersOk(p, s) && Enabled(p, s, Exit(w))
    requires CellsOk(p, Apply(p, s, Exit(w)))
    ensures WorkersOk(p, Apply(p, s, Exit(w)))
  {}

  /** Events that touch no worker and receive no reply. */
  lemma OthersKeepWorkers(p: Plan, s: State, t: State)
    requires CellsOk(p, s) && WorkersOk(p, s) && CellsOk(p, t)
    requires t.workers == s.workers && t.takers == s.takers
    requires forall k :: 0 <= k < |s.cells| && (s.cells[k].Taken? || t.cells[k].Taken?) ==> t.cells[k] == s.cells[k]
    requires s.slicer == Finished ==> t.slicer == Finished
    requires t.errClosed ==> forall w :: 0 <= w < |s.workers| ==> s.workers[w] == Exited
    ensures WorkersOk(p, t)
  {}

  lemma StepKeepsWorkers(p: Plan, s: State, e: Event)
    requires CellsOk(p, s) && WorkersOk(p, s) && Enabled(p, s, e)
    requires CellsOk(p, Apply(p, s, e))
    ensures WorkersOk(p, Apply(p, s, e))
  {
    match e {
      case Hand(w) => HandKeepsWorkers(p, s, w);
      case Take(w) => TakeKeepsWorkers(p, s, w);
      case Report(w) => ReportKeepsWorkers(p, s, w);
      case Exit(w) => ExitKeepsWorkers(p, s, w);
      case _ => OthersKeepWorkers(p, s, Apply(p, s, e));
    }
  }

  /** Received replies stay received, so every fault keeps its number, offset and error. */
  lemma StepKeepsFaultsAt(p: Plan, s: State, e: Event)
    requires CellsOk(p, s) && WorkersOk(p, s) && Enabled(p, s, e)
    ensures forall k :: HasFault(p, s, k) ==>
              HasFault(p, Apply(p, s, e), k) && FaultAt(p, Apply(p, s, e), k) == FaultAt(p, s, k)
  {}

  /** The summary depends on what was reported and the verdict only. */
  lemma ReceivedSummary(p: Plan, s: State, t: State)
    requires (forall k :: k in s.reported ==> HasFault(p, s, k)) && Summarised(p, s)
    requires t.reported == s.reported && t.first == s.first && t.cells == s.cells
    ensures (forall k :: k in t.reported ==> HasFault(p, t, k)) && Summarised(p, t)
  {
    assert forall k :: k in t.reported ==> HasFault(p, t, k) && FaultAt(p, t, k) == FaultAt(p, s, k);
  }

  /** The reducer receives the fault of the chunk a worker took. */
  lemma ReportKeepsFaults(p: Plan, s: State, w: nat)
    requires ValidPlan(p) && Inv(p, s) && Enabled(p, s, Report(w))
    requires CellsOk(p, Apply(p, s, Report(w))) && WorkersOk(p, Apply(p, s, Report(w)))
    ensures FaultsOk(p, Apply(p, s, Report(w)))
  {
    var k := s.workers[w].chunk;
    ReceiveSummarises(p, s, k);
    ReceivedSummary(p, Receive(p, s, k), Apply(p, s, Report(w)));
  }

  /** The reducer receives the slicer's own fault. */
  lemma TailKeepsFaults(p: Plan, s: State)
    requires ValidPlan(p) && Inv(p, s) && Enabled(p, s, ReportTail)
    requires CellsOk(p, Apply(p, s, ReportTail)) && WorkersOk(p, Apply(p, s, ReportTail))
    ensures FaultsOk(p, Apply(p, s, ReportTail))
  {
    ReceiveSummarises(p, s, |p.lens|);
    ReceivedSummary(p, Receive(p, s, |p.lens|), Apply(p, s, ReportTail));
  }

  lemma TakeKeepsFaults(p: Plan, s: State, w: nat)
    requires ValidPlan(p) && Inv(p, s) && Enabled(p, s, Take(w))
    requires CellsOk(p, Apply(p, s, Take(w))) && WorkersOk(p, Apply(p, s, Take(w)))
    ensures FaultsOk(p, Apply(p, s, Take(w)))
  {
    StepKeepsFaultsAt(p, s, Take(w));
  }

  lemma SlicerKeepsFaults(p: Plan, s: State, e: Event)
    requires ValidPlan(p) && Inv(p, s) && Enabled(p, s, e) && (e.Cut? || e.Hand? || e.Drop? || e.Finish?)
    requires CellsOk(p, Apply(p, s, e)) && WorkersOk(p, Apply(p, s, e))
    ensures FaultsOk(p, Apply(p, s, e))
  {
    StepKeepsFaultsAt(p, s, e);
  }

  lemma AnswerKeepsFaults(p: Plan, s: State, k: nat, out: Outcome)
    requires ValidPlan(p) && Inv(p, s) && Enabled(p, s, Answer(k, out))
    requires CellsOk(p, Apply(p, s, Answer(k, out))) && WorkersOk(p, Apply(p, s, Answer(k, out)))
    ensures FaultsOk(p, Apply(p, s, Answer(k, out)))
  {
    StepKeepsFaultsAt(p, s, Answer(k, out));
  }

  lemma QuietStepKeepsFaults(p: Plan, s: State, e: Event)
    requires ValidPlan(p) && Inv(p, s) && Enabled(p, s, e)
    requires e.Cancel? || e.Exit? || e.CloseErr? || e.Return?
    requires CellsOk(p, Apply(p, s, e)) && WorkersOk(p, Apply(p, s, e))
    ensures FaultsOk(p, Apply(p, s, e))
  {
    StepKeepsFaultsAt(p, s, e);
  }

  lemma StepKeepsFaults(p: Plan, s: State, e: Event)
    requires ValidPlan(p) && Inv(p, s) && Enabled(p, s, e)
    requires CellsOk(p, Apply(p, s, e)) && WorkersOk(p, Apply(p, s, e))
    ensures FaultsOk(p, Apply(p, s, e))
  {
    if e.Report? {
      ReportKeepsFaults(p, s, e.w);
    } else if e.ReportTail? {
      TailKeepsFaults(p, s);
    } else if e.Take? {
      TakeKeepsFaults(p, s, e.w);
    } else if e.Cut? || e.Hand? || e.Drop? || e.Finish? {
      SlicerKeepsFaults(p, s, e);
    } else if e.Answer? {
      AnswerKeepsFaults(p, s, e.k, e.out);
    } else {
      QuietStepKeepsFaults(p, s, e);
    }
  }

  /** Every event keeps the invariant. */
  lemma StepKeepsInv(p: Plan, s: State, e: Event)
    requires ValidPlan(p) && Inv(p, s) && Enabled(p, s, e)
    ensures Inv(p, Apply(p, s, e))
  {
    StepKeepsCells(p, s, e);
    StepKeepsWorkers(p, s, e);
    StepKeepsFaults(p, s, e);
  }

  lemma {:induction false} RunKeepsInv(p: Plan, s: State, es: seq<Event>, t: State)
    requires ValidPlan(p) && Inv(p, s) && Run(p, s, es, t)
    ensures Inv(p, t)
    decreases |es|
  {
    if es != [] {
      StepKeepsInv(p, s, es[0]);
      RunKeepsInv(p, Apply(p, s, es[0]), es[1..], t);
    }
  }

  // ---------------------------------------------------------------- the result

  /** Chunk k was dispatched, its reply received, and no error found in it. */
  ghost predicate Completed(s: State, k: nat) {
    k < |s.cells| && s.cells[k].Taken? && s.cells[k].out.err.None?
  }

  /** What the reducer's verdict means once it has returned: no error means everything is
      complete; an error is a real fault, none lies before it, and whatever lies wholly
      before it is complete. */
  ghost predicate Settled(p: Plan, s: State)
    requires |s.cells| == |p.lens|
  {
    && (s.first.err.None? ==>
          p.tail.None? && forall k :: 0 <= k < |s.cells| ==> Completed(s, k))
    && (s.first.err.Some? ==>
          && HasFault(p, s, s.first.chunk)
          && FaultAt(p, s, s.first.chunk) == Fault(s.first.off, s.first.err.value)
          && p.start <= s.first.off <= Begin(p, |p.lens|)
          && (forall k :: 0 <= k < |s.cells| && Failed(s, k) ==> s.first.off <= FaultAt(p, s, k).off)
          && (forall k :: 0 <= k < s.first.chunk ==> Completed(s, k))
          && (forall k :: 0 <= k < |s.cells| && Begin(p, k + 1) <= s.first.off ==> Completed(s, k)))
  }

  /** Everything handed to a worker is settled when the reducer returns: the workers drain
      the work channel before the error channel is closed. */
  lemma ReturnedDrained(p: Plan, s: State)
    requires ValidPlan(p) && Inv(p, s) && s.reducer == Returned
    ensures s.slicer == Finished
    ensures forall k :: 0 <= k < |s.takers| ==> s.cells[k].Taken?
    ensures forall k :: 0 <= k < |s.cells| && Failed(s, k) ==> k in s.reported
  {
    assert s.workers[0] == Exited;
  }

  lemma ReturnedSettles(p: Plan, s: State)
    requires ValidPlan(p) && Inv(p, s) && s.reducer == Returned
    ensures Settled(p, s)
  {
    ReturnedDrained(p, s);
    if s.first.err.Some? {
      FaultInside(p, s, s.first.chunk);
      forall k | 0 <= k < s.first.chunk ensures Completed(s, k) {
        CompletedBefore(p, s, k);
      }
      forall k | 0 <= k < |s.cells| && Begin(p, k + 1) <= s.first.off ensures Completed(s, k) {
        if k > s.first.chunk { SumMonotone(p.lens, s.first.chunk + 1, k + 1); }
        CompletedBefore(p, s, k);
      }
    } else {
      assert p.tail.None? && |s.takers| == |s.cells|;
      forall k | 0 <= k < |s.cells| ensures Completed(s, k) {
        assert s.cells[k].Taken? && !Failed(s, k);
      }
    }
  }

  /** How many chunks went through before the first failure, and what that failure is: chunk m's
      own, at the bytes kept of its reply, or the slicer's at the end. Without one it is all of them. */
  ghost predicate StoppedAt(p: Plan, s: State, m: nat) {
    && |s.cells| == |p.lens| && m <= |p.lens|
    && (forall k :: 0 <= k < m ==> Completed(s, k))
    && (s.first.err.None? ==> m == |p.lens| && p.tail.None?)
    && (s.first.err.Some? && m < |p.lens| ==>
          && Failed(s, m) && s.first.err == s.cells[m].out.err
          && s.first.off == p.start + Sum(p.lens, m) + |s.cells[m].out.data|)
    && (s.first.err.Some? && m == |p.lens| ==> s.first.err == p.tail && s.first.off == p.start + Sum(p.lens, m))
  }

  lemma SettledStops(p: Plan, s: State) returns (m: nat)
    requires CellsOk(p, s) && Settled(p, s)
    ensures StoppedAt(p, s, m)
  {
    m := if s.first.err.None? then |p.lens| else s.first.chunk;
  }

  /** No chunk before m has failed, so m is the only such number if a chunk failed. */
  lemma StopIsUnique(p: Plan, s: State, m: nat, k: nat)
    requires StoppedAt(p, s, m) && Failed(s, k)
    ensures m <= k
  {
    assert k < m ==> Completed(s, k);
  }

  /** The reported offset is the least failing one, and every chunk below it is complete,
      whatever the replies were and whenever the cancel was seen. */
  lemma EarliestFault(p: Plan, es: seq<Event>, s: State)
    requires ValidPlan(p) && Run(p, Init(p), es, s) && s.reducer == Returned
    ensures Inv(p, s) && Settled(p, s)
  {
    InitInv(p);
    RunKeepsInv(p, Init(p), es, s);
    ReturnedSettles(p, s);
  }

  /** A chunk before the one with the least fault was handed out before it, and cannot have failed. */
  lemma CompletedBefore(p: Plan, s: State, k: nat)
    requires ValidPlan(p) && Inv(p, s) && s.reducer == Returned && s.first.err.Some? && k < s.first.chunk
    ensures Completed(s, k)
  {
    ReturnedDrained(p, s);
    FaultInside(p, s, s.first.chunk);
    if Failed(s, k) {
      FaultInside(p, s, k);
      SumMonotone(p.lens, k + 1, s.first.chunk);
    }
  }

  // ---------------------------------------------------------------- progress

  /** Before the reducer returns, some goroutine can move or some request is unanswered. */
  lemma NeverStuck(p: Plan, s: State) returns (e: Event)
    requires ValidPlan(p) && Inv(p, s) && s.reducer != Returned
    ensures Enabled(p, s, e)
  {
    if s.reducer == Cancelling { return Cancel; }
    if s.slicer == Slicing { return if |s.takers| < |s.cells| then Cut else Finish; }
    if s.slicer == Reporting { return ReportTail; }
    if w: nat :| w < |s.workers| && s.workers[w].Faulting? { return Report(w); }
    if w: nat :| w < |s.workers| && s.workers[w].Waiting? {
      var k := s.workers[w].chunk;
      return if s.cells[k].Pending? then Answer(k, Outcome([], Some(ConnectionLost))) else Take(w);
    }
    if w: nat :| w < |s.workers| && s.workers[w] == Idle {
      return if s.slicer == Offering then Hand(w) else Exit(w);
    }
    assert s.workers[0] == Exited;
    return if s.errClosed then Return else CloseErr;
  }

  function CellRank(c: Cell): nat {
    match c case Uncut => 2 case Pending => 1 case _ => 0
  }

  function WorkerRank(w: Worker): nat {
    match w case Waiting(_) => 6 case Faulting(_) => 4 case Idle => 2 case Exited => 0
  }

  function SlicerRank(s: Slicer): nat {
    match s case Slicing => 6 case Offering => 4 case Reporting => 2 case Finished => 0
  }

  function ReducerRank(r: Reducer): nat {
    match r case Cancelling => 2 case Collecting => 1 case Returned => 0
  }

  /** An upper bound on the events still to come. */
  function Remaining(p: Plan, s: State): nat
    requires |s.takers| <= |p.lens|
  {
    7 * (|p.lens| - |s.takers|) + SumBy(CellRank, s.cells) + SumBy(WorkerRank, s.workers)
    + SlicerRank(s.slicer) + ReducerRank(s.reducer) + (if s.errClosed then 0 else 1)
  }

  lemma WorkerStepDecreases(p: Plan, s: State, e: Event)
    requires CellsOk(p, s) && Enabled(p, s, e) && (e.Hand? || e.Exit? || e.Report?)
    ensures |Apply(p, s, e).takers| <= |p.lens|
    ensures Remaining(p, Apply(p, s, e)) < Remaining(p, s)
  {
    SumByUpdate(WorkerRank, s.workers, e.w, Apply(p, s, e).workers[e.w]);
  }

  lemma TakeDecreases(p: Plan, s: State, w: nat)
    requires CellsOk(p, s) && Enabled(p, s, Take(w))
    ensures Remaining(p, Apply(p, s, Take(w))) < Remaining(p, s)
  {
    var t := Apply(p, s, Take(w));
    var k := s.workers[w].chunk;
    SumByUpdate(WorkerRank, s.workers, w, t.workers[w]);
    SumByUpdate(CellRank, s.cells, k, t.cells[k]);
  }

  lemma CellStepDecreases(p: Plan, s: State, e: Event, k: nat)
    requires CellsOk(p, s) && Enabled(p, s, e)
    requires (e.Cut? && k == |s.takers|) || (e.Answer? && k == e.k)
    ensures Remaining(p, Apply(p, s, e)) < Remaining(p, s)
  {
    SumByUpdate(CellRank, s.cells, k, Apply(p, s, e).cells[k]);
  }

  lemma StepDecreases(p: Plan, s: State, e: Event)
    requires ValidPlan(p) && Inv(p, s) && Enabled(p, s, e) && s.reducer != Returned
    ensures |Apply(p, s, e).takers| <= |p.lens|
    ensures Remaining(p, Apply(p, s, e)) < Remaining(p, s)
  {
    match e {
      case Cut => CellStepDecreases(p, s, e, |s.takers|);
      case Answer(k, _) => CellStepDecreases(p, s, e, k);
      case Hand(w) => WorkerStepDecreases(p, s, e);
      case Exit(w) => WorkerStepDecreases(p, s, e);
      case Report(w) => WorkerStepDecreases(p, s, e);
      case Take(w) => TakeDecreases(p, s, w);
      case _ =>
    }
  }

  /** No state but the last of the run has returned. */
  ghost predicate RunUntilReturn(p: Plan, s: State, es: seq<Event>, t: State)
    decreases |es|
  {
    if es == [] then s == t
    else s.reducer != Returned && Enabled(p, s, es[0]) && RunUntilReturn(p, Apply(p, s, es[0]), es[1..], t)
  }

  lemma {:induction false} RunIsBounded(p: Plan, s: State, es: seq<Event>, t: State)
    requires ValidPlan(p) && Inv(p, s) && RunUntilReturn(p, s, es, t)
    ensures |es| <= Remaining(p, s)
    decreases |es|
  {
    if es != [] {
      StepDecreases(p, s, es[0]);
      StepKeepsInv(p, s, es[0]);
      RunIsBounded(p, Apply(p, s, es[0]), es[1..], t);
    }
  }

  /** Every run ends: with NeverStuck, every maximal run reaches the reducer's return. */
  lemma EveryRunEnds(p: Plan, es: seq<Event>, t: State)
    requires ValidPlan(p) && RunUntilReturn(p, Init(p), es, t)
    ensures |es| <= 9 * |p.lens| + 2 * p.workers + 8
  {
    InitInv(p);
    RunIsBounded(p, Init(p), es, t);
    SumByConstant(CellRank, Init(p).cells, 2);
    SumByConstant(WorkerRank, Init(p).workers, 2);
  }

  // ---------------------------------------------------------------- chunks of a buffer

  /** The slicing loop of ReadAt and WriteAt: pieces of `size` bytes, the last one shorter. */
  function Chunks(len: nat, size: nat): (lens: seq<nat>)
    requires size >= 1
    ensures forall k :: 0 <= k < |lens| ==> 0 < lens[k] <= size
  {
    if len == 0 then [] else [Min(len, size)] + Chunks(len - Min(len, size), size)
  }

  lemma {:induction false} SumCons(x: nat, lens: seq<nat>, k: nat)
    requires k <= |lens|
    ensures Sum([x] + lens, k + 1) == x + Sum(lens, k)
  {
    if k > 0 { SumCons(x, lens, k - 1); }
  }

  /** The chunks tile the buffer. */
  lemma {:induction false} ChunksTile(len: nat, size: nat)
    requires size >= 1
    ensures Sum(Chunks(len, size), |Chunks(len, size)|) == len
    ensures len > size ==> |Chunks(len, size)| >= 2 && Chunks(len, size)[0] == size
  {
    if len > 0 {
      var rest := len - Min(len, size);
      ChunksTile(rest, size);
      SumCons(Min(len, size), Chunks(rest, size), |Chunks(rest, size)|);
    }
  }

  /** The plan of a transfer of one buffer. */
  function BufferPlan(off: nat, len: nat, size: nat, workers: nat): (p: Plan)
    requires size >= 1
    ensures Sum(p.lens, |p.lens|) == len
    ensures len > size ==> |p.lens| >= 2 && p.lens[0] == size
    ensures forall k :: 0 <= k < |p.lens| ==> 0 < p.lens[k] <= size
  {
    ChunksTile(len, size);
    Plan(off, Chunks(len, size), None, workers)
  }

  /** Every position of the buffer lies in exactly one chunk. */
  lemma {:induction false} Locate(lens: seq<nat>, n: nat, i: nat) returns (k: nat)
    requires n <= |lens| && i < Sum(lens, n)
    ensures k < n && Sum(lens, k) <= i < Sum(lens, k) + lens[k] == Sum(lens, k + 1)
  {
    if i < Sum(lens, n - 1) { k := Locate(lens, n - 1, i); } else { k := n - 1; }
  }

  /** Distinct chunks do not overlap. */
  lemma {:induction false} ChunksDisjoint(lens: seq<nat>, j: nat, k: nat)
    requires j < |lens| && k < |lens| && j != k
    ensures Sum(lens, j) + lens[j] <= Sum(lens, k) || Sum(lens, k) + lens[k] <= Sum(lens, j)
  {
    assert Sum(lens, j + 1) == Sum(lens, j) + lens[j] && Sum(lens, k + 1) == Sum(lens, k) + lens[k];
    if j < k { SumMonotone(lens, j + 1, k); } else { SumMonotone(lens, k + 1, j); }
  }

  lemma {:induction false} ChunkFits(lens: seq<nat>, k: nat)
    requires k < |lens|
    ensures Sum(lens, k) + lens[k] <= Sum(lens, |lens|)
  {
    SumMonotone(lens, k + 1, |lens|);
  }
}
