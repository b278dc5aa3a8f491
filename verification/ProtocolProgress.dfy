/** Every turn comes to its end: a rank that each step of either thread lowers. */
module ProtocolProgress {
  import opened Screens
  import Agents
  import opened Conversation
  import opened Protocol
  import opened ProtocolSafety

  /**
    How far a state is from idle, most significant first: turns still to run, tool iterations, the part of the
    iteration, pieces or calls left in it, the stage of a call or of leaving, and events still queued.
   */
  datatype Rank = Rank(turns: nat, iterations: nat, part: nat, items: nat, stage: nat, queued: nat)

  predicate Lower(a: Rank, b: Rank) {
    || a.turns < b.turns
    || (a.turns == b.turns && a.iterations < b.iterations)
    || (a.turns == b.turns && a.iterations == b.iterations && a.part < b.part)
    || (a.turns == b.turns && a.iterations == b.iterations && a.part == b.part && a.items < b.items)
    || (a.turns == b.turns && a.iterations == b.iterations && a.part == b.part && a.items == b.items
        && a.stage < b.stage)
    || (a.turns == b.turns && a.iterations == b.iterations && a.part == b.part && a.items == b.items
        && a.stage == b.stage && a.queued < b.queued)
  }

  function Left(iter: nat, maxIters: int): nat {
    if iter < maxIters then maxIters - iter else 0
  }

  function StageRank(stage: Stage): nat {
    match stage
    case Announcing => 4
    case Gating => 3
    case Asking => 2
    case Cleared(_) => 1
  }

  function WorkerRank(w: Worker, maxIters: int, turns: nat, queued: nat): Rank {
    match w
    case Absent => Rank(turns, 0, 0, 0, 0, queued)
    case Starting(_, _) => Rank(turns, Left(0, maxIters) + 1, 0, 0, 0, queued)
    case AtTop(_, iter) => Rank(turns, Left(iter, maxIters), 3, 0, 0, queued)
    case Streaming(_, iter, todo, _) => Rank(turns, Left(iter, maxIters), 2, |todo|, 0, queued)
    case Calling(_, iter, calls, j, stage) =>
      Rank(turns, Left(iter, maxIters), 1, if j < |calls| then |calls| - j else 0, StageRank(stage), queued)
    case Ended(_) => Rank(turns, 0, 0, 0, 3, queued)
    case Leaving(_) => Rank(turns, 0, 0, 0, 2, queued)
    case Exited(_) => Rank(turns, 0, 0, 0, 1, queued)
  }

  /** An ordinary turn may be followed by an automatic one, and by no more. */
  function TurnsLeft(s: State): nat {
    if !s.busy then 0 else if s.trace.kind.Ordinary? then 2 else 1
  }

  function RankOf(s: State, maxIters: int): Rank {
    WorkerRank(s.worker, maxIters, TurnsLeft(s), |s.queue|)
  }

  /** An iteration that runs is one of those that were left. */
  predicate IterOk(w: Worker, maxIters: int) {
    && (w.Streaming? ==> w.iter < maxIters)
    && (w.Calling? ==> w.iter < maxIters)
  }

  lemma WorkerKeepsIter(s: State, maxIters: int, l: Label)
    requires ByWorker(l) && WorkerCan(s.worker, s.cancel, l) && IterOk(s.worker, maxIters)
    ensures IterOk(WorkerStep(s, maxIters, l).worker, maxIters)
  {
    hide Shortened, Agents.Exceeded, TestLoop;
    if s.worker.Streaming? {
    } else if s.worker.Calling? {
    } else if s.worker.AtTop? {
      LoopTestKeepsIter(s, maxIters, l.pieces);
    }
  }

  /** A new worker starts from the beginning. */
  lemma SubmitStarts(s: State, kind: Kind, automatic: bool, display: string, payload: string, images: seq<Image>)
    ensures var w := Submit(s, kind, automatic, display, payload, images).worker; w == s.worker || w.Starting?
  {
    hide Opened;
  }

  lemma CompactStarts(s: State, automatic: bool, payload: string)
    ensures var w := RunCompact(s, automatic, payload).worker; w == s.worker || w.Starting?
  {
    hide Submit;
    SubmitStarts(Note(s, SUMMARIZING).(compactPending := true), Compact, automatic, "/compact", payload, []);
  }

  lemma UserStarts(s: State, l: Label)
    requires ByUserWhenIdle(l)
    ensures var w := UserStep(s, l).worker; w == s.worker || w.Starting?
  {
    hide Submit, RunCompact, Attached;
    match l {
      case Send(display, payload, images, attached) => SubmitStarts(s, Ordinary, false, display, payload, images);
      case InitCommand(declined, payload) =>
        SubmitStarts(Note(s, SCANNING).(initPending := true), Init, false, "/init", payload, []);
      case CompactCommand(payload) => CompactStarts(s, false, payload);
      case _ =>
    }
  }

  lemma FinishStarts(s: State, end: Ending, full: bool, writable: bool, payload: string)
    ensures var w := FinishTurn(s, end, full, writable, payload).worker; w.Absent? || w.Starting?
  {
    hide FinishPending, RunCompact;
    var t := Joined(s, end);
    PendingKeeps(t, writable);
    CompactStarts(Note(FinishPending(t, writable), NEARLY_FULL), true, payload);
  }

  lemma StepKeepsIter(s: State, maxIters: int, l: Label)
    requires Inv(s) && Enabled(s, l) && IterOk(s.worker, maxIters)
    ensures IterOk(Step(s, maxIters, l).worker, maxIters)
  {
    hide WorkerStep, UserStep, FinishTurn, Inv;
    if ByWorker(l) {
      WorkerKeepsIter(s, maxIters, l);
    } else if ByUserWhenIdle(l) {
      UserStarts(s, l);
    } else if l.Join? {
      FinishStarts(s, s.phase.end, l.full, l.writable, l.payload);
    }
  }

  lemma PopLowers(s: State, maxIters: int)
    requires s.queue != []
    ensures Lower(RankOf(Pop(s), maxIters), RankOf(s, maxIters))
  {
    hide Display;
    var t := Pop(s);
    assert t.worker == s.worker && t.busy == s.busy && t.trace == s.trace && |t.queue| < |s.queue|;
  }

  /** After an ordinary turn at most a compaction follows; after any other turn, nothing. */
  lemma FinishLowers(s: State, full: bool, writable: bool, payload: string)
    requires Inv(s) && s.phase.Joining?
    ensures TurnsLeft(FinishTurn(s, s.phase.end, full, writable, payload)) < TurnsLeft(s)
  {
    var t := FinishTurn(s, s.phase.end, full, writable, payload);
    assert t.busy ==> s.trace.kind.Ordinary? && t.trace.kind.Compact?;
  }

  lemma UiLowers(s: State, maxIters: int, l: Label)
    requires Inv(s) && Enabled(s, l) && ByUi(l) && s.busy
    ensures Lower(RankOf(Step(s, maxIters, l), maxIters), RankOf(s, maxIters))
  {
    hide Pop, FinishTurn;
    match l {
      case PopEvent => PopLowers(s, maxIters);
      case AnswerConfirm(choice) =>
        var t := Answer(s, choice);
        assert Blocked(s.worker) && t.busy && t.trace == s.trace && t.queue == s.queue;
        assert t.worker == s.worker.(stage := Cleared(!choice.No?));
      case Join(full, writable, payload) => FinishLowers(s, full, writable, payload);
    }
  }

  predicate Nearer(s: State, t: State, maxIters: int) {
    Lower(WorkerRank(t.worker, maxIters, 0, 0), WorkerRank(s.worker, maxIters, 0, 0))
  }

  lemma CallingLowers(s: State, maxIters: int, l: Label)
    requires ByWorker(l) && WorkerCan(s.worker, s.cancel, l) && s.worker.Calling? && IterOk(s.worker, maxIters)
    ensures Nearer(s, WorkerStep(s, maxIters, l), maxIters)
  {
    match l {
      case AnnounceCall =>
      case Gate(_) =>
      case ReportResult(_, _) =>
    }
  }

  lemma StreamingLowers(s: State, maxIters: int, l: Label)
    requires ByWorker(l) && WorkerCan(s.worker, s.cancel, l) && s.worker.Streaming? && IterOk(s.worker, maxIters)
    ensures Nearer(s, WorkerStep(s, maxIters, l), maxIters)
  {
    match l {
      case EmitPiece =>
      case AbortReply =>
      case FailReply(_) =>
      case CompleteReply(_) =>
    }
  }

  lemma LoopTestLowers(s: State, maxIters: int, pieces: seq<Piece>)
    requires s.worker.AtTop?
    ensures Nearer(s, TestLoop(s, maxIters, pieces), maxIters)
  {
    hide Agents.Exceeded;
  }

  lemma LoopTestKeepsIter(s: State, maxIters: int, pieces: seq<Piece>)
    requires s.worker.AtTop?
    ensures IterOk(TestLoop(s, maxIters, pieces).worker, maxIters)
  {
    hide Agents.Exceeded;
  }

  /** The same turn, and a worker nearer to its end: whatever is posted, the rank is lower. */
  lemma WorkerLowersWorker(s: State, maxIters: int, l: Label)
    requires ByWorker(l) && WorkerCan(s.worker, s.cancel, l) && IterOk(s.worker, maxIters)
    ensures Nearer(s, WorkerStep(s, maxIters, l), maxIters)
  {
    hide TestLoop, Emit, EndReply, RollBack, PassGate, Report;
    if s.worker.Streaming? {
      StreamingLowers(s, maxIters, l);
    } else if s.worker.Calling? {
      CallingLowers(s, maxIters, l);
    } else if s.worker.AtTop? {
      LoopTestLowers(s, maxIters, l.pieces);
    }
  }

  lemma WorkerLowers(s: State, maxIters: int, l: Label)
    requires Inv(s) && Enabled(s, l) && ByWorker(l) && IterOk(s.worker, maxIters)
    ensures Lower(RankOf(Step(s, maxIters, l), maxIters), RankOf(s, maxIters))
  {
    hide WorkerRank, WorkerStep, Lower, Inv;
    var t := WorkerStep(s, maxIters, l);
    WorkerLowersWorker(s, maxIters, l);
    WorkerFrame(s, maxIters, l);
    QueueCountsLast(s.worker, t.worker, maxIters, TurnsLeft(s), |s.queue|, |t.queue|);
  }

  lemma QueueCountsLast(v: Worker, w: Worker, maxIters: int, turns: nat, queuedBefore: nat, queuedAfter: nat)
    requires Lower(WorkerRank(w, maxIters, 0, 0), WorkerRank(v, maxIters, 0, 0))
    ensures Lower(WorkerRank(w, maxIters, turns, queuedAfter), WorkerRank(v, maxIters, turns, queuedBefore))
  {
    RankParts(v, maxIters, turns, queuedBefore);
    RankParts(w, maxIters, turns, queuedAfter);
  }

  lemma RankParts(w: Worker, maxIters: int, turns: nat, queued: nat)
    ensures WorkerRank(w, maxIters, turns, queued) == WorkerRank(w, maxIters, 0, 0).(turns := turns, queued := queued)
  {
  }

  /** Nothing else raises it: Esc and idle keys leave it alone, and stop neither thread. */
  lemma OthersKeepRank(s: State, maxIters: int, l: Label)
    requires Inv(s) && Enabled(s, l) && !IsProgress(l) && s.busy
    ensures var t := Step(s, maxIters, l);
            && RankOf(t, maxIters) == RankOf(s, maxIters) && t.busy
            && WorkerCanGo(t) == WorkerCanGo(s) && UiCanGo(t) == UiCanGo(s)
  {
  }

  // ----- infinite runs -----

  /** A run that never stops; threads that are not scheduled, and keys that do nothing, are Pause steps. */
  ghost predicate IsRun(run: nat -> State, sched: nat -> Label, maxIters: int) {
    forall n: nat :: IsStep(run, sched, maxIters, n)
  }

  ghost predicate IsStep(run: nat -> State, sched: nat -> Label, maxIters: int, n: nat) {
    Enabled(run(n), sched(n)) && run(n + 1) == Step(run(n), maxIters, sched(n))
  }

  /** Something moves on at this moment, or there is nothing to move. */
  ghost predicate MovesOn(run: nat -> State, sched: nat -> Label, m: nat) {
    IsProgress(sched(m)) || !run(m).busy
  }

  // ----- fair scheduling, thread by thread -----

  predicate WorkerCanGo(s: State) {
    !s.worker.Absent? && !s.worker.Exited? && !Blocked(s.worker)
  }

  predicate UiCanGo(s: State) {
    (s.phase.Ready? && s.queue != []) || s.phase.Answering? || (s.phase.Joining? && s.worker.Exited?)
  }

  ghost predicate WorkerScheduled(run: nat -> State, sched: nat -> Label, n: nat) {
    exists m: nat :: m >= n && (WorkerCanGo(run(m)) ==> ByWorker(sched(m)))
  }

  ghost predicate UiScheduled(run: nat -> State, sched: nat -> Label, n: nat) {
    exists m: nat :: m >= n && (UiCanGo(run(m)) ==> ByUi(sched(m)))
  }

  /** Neither thread could go on for ever without doing so. */
  ghost predicate Fair(run: nat -> State, sched: nat -> Label) {
    forall n: nat :: WorkerScheduled(run, sched, n) && UiScheduled(run, sched, n)
  }

  ghost predicate Good(s: State, maxIters: int) {
    Inv(s) && IterOk(s.worker, maxIters)
  }

  lemma {:induction false} GoodUpTo(run: nat -> State, sched: nat -> Label, maxIters: int, n: nat, m: nat)
    requires IsRun(run, sched, maxIters) && Good(run(n), maxIters) && n <= m
    ensures Good(run(m), maxIters)
    decreases m - n
  {
    hide Inv, Step, Enabled;
    if n < m {
      assert IsStep(run, sched, maxIters, n);
      StepKeeps(run(n), maxIters, sched(n));
      StepKeepsIter(run(n), maxIters, sched(n));
      GoodUpTo(run, sched, maxIters, n + 1, m);
    }
  }

  /** The next moment at which something moves on; until then neither thread's state changes. */
  lemma {:induction false} NextMove(run: nat -> State, sched: nat -> Label, maxIters: int, n: nat, m: nat) returns (k: nat)
    requires IsRun(run, sched, maxIters) && Good(run(n), maxIters) && n <= m
    ensures n <= k <= m && (k < m ==> MovesOn(run, sched, k)) && Good(run(k), maxIters)
    ensures RankOf(run(k), maxIters) == RankOf(run(n), maxIters) && run(k).busy == run(n).busy
    ensures WorkerCanGo(run(k)) == WorkerCanGo(run(n)) && UiCanGo(run(k)) == UiCanGo(run(n))
    decreases m - n
  {
    hide Inv, RankOf, Step;
    if n == m || MovesOn(run, sched, n) {
      return n;
    }
    assert IsStep(run, sched, maxIters, n);
    OthersKeepRank(run(n), maxIters, sched(n));
    GoodUpTo(run, sched, maxIters, n, n + 1);
    k := NextMove(run, sched, maxIters, n + 1, m);
  }

  /** Fair threads move on: no deadlock means that one of them always can. */
  lemma SomethingMoves(run: nat -> State, sched: nat -> Label, maxIters: int, n: nat) returns (k: nat)
    requires IsRun(run, sched, maxIters) && Fair(run, sched) && Good(run(n), maxIters) && run(n).busy
    ensures k >= n && IsProgress(sched(k)) && run(k).busy && Good(run(k), maxIters)
    ensures RankOf(run(k), maxIters) == RankOf(run(n), maxIters)
  {
    hide IsRun, RankOf;
    assert WorkerScheduled(run, sched, n) && UiScheduled(run, sched, n);
    if WorkerCanGo(run(n)) {
      var m: nat :| m >= n && (WorkerCanGo(run(m)) ==> ByWorker(sched(m)));
      k := NextMove(run, sched, maxIters, n, m);
    } else {
      assert UiCanGo(run(n));
      var m: nat :| m >= n && (UiCanGo(run(m)) ==> ByUi(sched(m)));
      k := NextMove(run, sched, maxIters, n, m);
    }
  }

  /** Under fair scheduling every turn ends: from every state the program comes back to idle. */
  lemma {:induction false} EveryTurnEnds(run: nat -> State, sched: nat -> Label, maxIters: int, n: nat)
    requires IsRun(run, sched, maxIters) && Fair(run, sched) && Good(run(n), maxIters)
    ensures exists k: nat :: k >= n && !run(k).busy
    decreases RankOf(run(n), maxIters).turns, RankOf(run(n), maxIters).iterations, RankOf(run(n), maxIters).part,
              RankOf(run(n), maxIters).items, RankOf(run(n), maxIters).stage, RankOf(run(n), maxIters).queued
  {
    hide IsRun, Fair, Good, RankOf;
    if run(n).busy {
      var k := SomethingMoves(run, sched, maxIters, n);
      GoodUpTo(run, sched, maxIters, k, k + 1);
      ProgressLowers(run, sched, maxIters, k);
      EveryTurnEnds(run, sched, maxIters, k + 1);
    }
  }

  lemma ProgressLowers(run: nat -> State, sched: nat -> Label, maxIters: int, k: nat)
    requires IsRun(run, sched, maxIters) && Good(run(k), maxIters) && run(k).busy && IsProgress(sched(k))
    ensures Lower(RankOf(run(k + 1), maxIters), RankOf(run(k), maxIters))
  {
    assert IsStep(run, sched, maxIters, k);
    if ByUi(sched(k)) {
      UiLowers(run(k), maxIters, sched(k));
    } else {
      WorkerLowers(run(k), maxIters, sched(k));
    }
  }

  /** In particular every run from the start is idle again and again. */
  lemma AlwaysIdleAgain(run: nat -> State, sched: nat -> Label, maxIters: int, prompt: string, n: nat)
    requires IsRun(run, sched, maxIters) && Fair(run, sched) && run(0) == Initial(prompt)
    ensures exists k: nat :: k >= n && !run(k).busy && run(k).queue == [] && run(k).worker == Absent
  {
    GoodUpTo(run, sched, maxIters, 0, n);
    EveryTurnEnds(run, sched, maxIters, n);
    var k: nat :| k >= n && !run(k).busy;
    GoodUpTo(run, sched, maxIters, 0, k);
  }
}
