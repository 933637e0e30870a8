/** The supervisor of local agent turns: one start runs a bounded number of turns, each claimed first, and never
    calls the model again while work it has seen is still open.
 */
module AgentExecution {
  import opened Collections
  import opened TaskRules

  /** What a turn of the agent came to. */
  datatype TurnResult = TurnResult(finished: bool, restricted: bool)

  /** What the supervisor finds at its n-th look at the world: the stored task, the seconds passed, whether the
      source and the authorisation are still those it started with, whether a stop was requested, whether
      reviews or background jobs are pending, how a turn ends, what assessing the goal and comparing the
      progress give, and whether looking fails. */
  datatype Environment = Environment(task: nat -> Task, elapsed: nat -> int, current: nat -> bool, stop: nat -> bool,
                                     pending: nat -> bool, result: nat -> TurnResult, fulfilled: nat -> bool,
                                     progressed: nat -> bool, raises: nat -> bool)

  datatype Command = Command(operationId: OpId, continuous: bool, maxTurns: nat, maxSeconds: int)

  /** A stop request stays, and so does the end of the time allowed; that end comes. */
  ghost predicate Orderly(env: Environment, seconds: int, horizon: nat) {
    && (forall n: nat | env.stop(n) :: env.stop(n + 1))
    && (forall n: nat | env.elapsed(n) >= seconds :: env.elapsed(n + 1) >= seconds)
    && (forall n: nat | n >= horizon :: env.elapsed(n) >= seconds)
  }

  datatype Report = Restricted | LimitReached | NeedsInput | Waiting | Interrupted

  /** What the supervisor does, each look with its number: begin a turn, claim it, see the turn return, assess the
      goal, look at the open work, see how much time has passed while something was open, check stop and time after
      the wait, compare the progress, and look at the execution in the end. A look that fails is reported as such. */
  datatype Mark =
    | Begun(at: nat)
    | Claimed(at: nat, turn: nat)
    | Called(turn: nat)
    | Returned(at: nat)
    | Assessed(at: nat)
    | Looked(at: nat)
    | Timed(at: nat)
    | Checked(at: nat)
    | Compared(at: nat)
    | Closed(at: nat)
    | Failed(at: nat)
    | FinishAsked
    | Reported(report: Report)

  predicate IsLook(m: Mark) {
    !m.Called? && !m.FinishAsked? && !m.Reported?
  }

  /** The turns for which the model was called. */
  function Turns(trace: seq<Mark>): seq<nat> {
    if trace == [] then []
    else
      var last := trace[|trace| - 1];
      Turns(trace[..|trace| - 1]) + if last.Called? then [last.turn] else []
  }

  function FirstTurns(n: nat): (r: seq<nat>)
    ensures |r| == n && forall i | 0 <= i < n :: r[i] == i + 1
  {
    seq(n, i => i + 1)
  }

  predicate NothingOpen(env: Environment, n: nat) {
    var t := env.task(n);
    !Stopped(t.state) && !AnyUnsettled(t) && !AnyWaiting(t) && !AnyUnanswered(t) && !env.pending(n)
  }

  predicate IsWaiting(t: Task) {
    t.execution.Some? && t.execution.value.state == ExWaiting
  }

  // ---------------------------------------------------------------------------------------------
  // The rules

  /** What is left to do when the supervision ends. */
  datatype Due = Nothing | AskFinish | Tell(report: Report)

  /** Whether a mark ends the supervision, and what is then left to do: a turn is not begun without time or with a
      changed source or authorisation; a claim is refused because the task is stopped or another execution took
      over; a turn may not be followed by another; the goal is fulfilled; a wait finds the task stopped or an
      unsettled operation; stop or time run out; there was no progress. */
  function Ends(env: Environment, command: Command, m: Mark): Option<Due> {
    match m
    case Begun(n) =>
      if env.elapsed(n) >= command.maxSeconds then Some(Tell(LimitReached))
      else if !env.current(n) then Some(Tell(Restricted)) else None
    case Claimed(n, turn) => if ClaimTurn(env.task(n), command.operationId, turn).None? then Some(Nothing) else None
    case Called(_) => None
    case Returned(n) =>
      if !command.continuous || env.stop(n) || !env.result(n).finished || env.result(n).restricted
      then Some(Nothing) else None
    case Assessed(n) => if env.fulfilled(n) then Some(AskFinish) else None
    case Looked(n) =>
      if Stopped(env.task(n).state) then Some(Nothing)
      else if AnyUnsettled(env.task(n)) then Some(Tell(NeedsInput)) else None
    case Timed(_) => None
    case Checked(n) =>
      if env.stop(n) then Some(Nothing)
      else if env.elapsed(n) >= command.maxSeconds then Some(Tell(LimitReached)) else None
    case Compared(n) => if env.progressed(n) then None else Some(Tell(NeedsInput))
    case Closed(n) => Some(if IsWaiting(env.task(n)) then Tell(Interrupted) else Nothing)
    case Failed(_) => Some(Nothing)
    case FinishAsked => Some(Nothing)
    case Reported(report) => if report == Waiting then None else Some(Nothing)
  }

  /** Where the supervision stands. */
  datatype Phase =
    Idle | Begin | Claim(turn: nat) | Call | Back | Waits | Pauses | Expired | Clear | Rested | Over(due: Due)

  /** The phase, the number of the last look, the calls so far, and whether a wait was reported since the last. */
  datatype Watch = Watch(phase: Phase, now: nat, calls: nat, waited: bool)

  function PhaseAfter(env: Environment, command: Command, w: Watch, m: Mark): Phase {
    if Ends(env, command, m).Some? then Over(Ends(env, command, m).value)
    else match m
      case Begun(_) => Begin
      case Claimed(_, turn) => Claim(turn)
      case Called(_) => Call
      case Returned(_) => Back
      case Assessed(_) => if w.phase == Back then Waits else Idle
      case Looked(n) => if NothingOpen(env, n) then Clear else Pauses
      case Timed(n) => if env.elapsed(n) >= command.maxSeconds then Expired else Waits
      case Checked(_) => Rested
      case Compared(_) => Idle
      case _ => w.phase
  }

  function Next(env: Environment, command: Command, w: Watch, m: Mark): Watch {
    Watch(PhaseAfter(env, command, w, m), if IsLook(m) then m.at else w.now,
          if m.Called? then w.calls + 1 else w.calls,
          if m.Called? then false else w.waited || m == Reported(Waiting))
  }

  function Watched(env: Environment, command: Command, trace: seq<Mark>): Watch {
    if trace == [] then Watch(Idle, 0, 0, false)
    else Next(env, command, Watched(env, command, trace[..|trace| - 1]), trace[|trace| - 1])
  }

  /** The wait has ended without the work being done: time is up, or a stop was requested. */
  predicate WaitIsOver(env: Environment, w: Watch) {
    w.phase == Expired || (w.phase == Waits && env.stop(w.now))
  }

  /** Looks are made one after the other, none is left out, and they succeed unless they are marked as failed; and
      each mark has its place: a claim for the next turn after the check that begins it, a call after its claim, the
      time once a wait is reported, a second assessment in place of a comparison when the supervisor has waited, a
      report when it is due. */
  predicate Allowed(env: Environment, command: Command, w: Watch, m: Mark) {
    && (IsLook(m) ==> m.at == w.now + 1 && (env.raises(m.at) <==> m.Failed?))
    && match m
       case Begun(_) => w.phase == Idle && w.calls < command.maxTurns
       case Claimed(_, turn) => w.phase == Begin && turn == w.calls + 1
       case Called(turn) => w.phase == Claim(turn)
       case Returned(_) => w.phase == Call
       case Assessed(_) => w.phase == Back || (w.phase == Rested && w.waited)
       case Looked(_) => w.phase == Waits && !env.stop(w.now)
       case Timed(_) => w.phase == Pauses && w.waited
       case Checked(_) => w.phase == Clear || (WaitIsOver(env, w) && Ends(env, command, m).Some?)
       case Compared(_) => w.phase == Rested && !w.waited
       case Closed(_) => w.phase == Over(Nothing)
       case Failed(_) => !w.phase.Over?
       case FinishAsked => w.phase == Over(AskFinish)
       case Reported(report) =>
         || w.phase == Over(Tell(report))
         || (report == Waiting && w.phase == Pauses && !w.waited)
         || (report == LimitReached && w.phase == Idle && w.calls == command.maxTurns)
  }

  /** Every mark is allowed where it stands. */
  predicate Sound(env: Environment, command: Command, trace: seq<Mark>) {
    trace == []
    || (Sound(env, command, trace[..|trace| - 1])
        && Allowed(env, command, Watched(env, command, trace[..|trace| - 1]), trace[|trace| - 1]))
  }

  /** What the supervisor needs to know of its trace. */
  ghost predicate Follows(env: Environment, command: Command, trace: seq<Mark>, w: Watch) {
    Sound(env, command, trace) && Watched(env, command, trace) == w
  }

  lemma FollowsStep(env: Environment, command: Command, trace: seq<Mark>, w: Watch, m: Mark)
    requires Follows(env, command, trace, w) && Allowed(env, command, w, m)
    ensures Follows(env, command, trace + [m], Next(env, command, w, m))
  {
    assert (trace + [m])[..|trace|] == trace;
  }

  /** The wait is over for want of time, or because a stop was requested. */
  predicate Expires(env: Environment, command: Command, n: nat) {
    env.stop(n) || env.elapsed(n) >= command.maxSeconds
  }

  datatype Started = AlreadyStarted | Refused | Underway

  /** What a look during a wait finds: something open, nothing open, or that there is nothing to wait for. */
  datatype Found = Open | Free | NoMore

  class AgentExecution {
    /** The tasks with a turn under way, and whether their stop was requested. */
    var active: map<TaskId, bool>

    ghost predicate Valid()
      reads this
    {
      |active| <= 1
    }

    constructor ()
      ensures Valid() && active == map[]
    {
      active := map[];
    }

    /** Starts the supervision of a task that was shown as `value`, unless this execution is known already. `ready`
        stands for the checks of executable, pairing, permission and source, `stored` is the task the transaction
        finds that records the execution, and `spawned` says whether the thread could be started. */
    method Start(t: TaskId, value: Task, stored: Task, command: Command, ready: bool, spawned: bool)
      returns (r: Started)
      requires Valid()
      modifies this
      ensures Valid()
      ensures r.AlreadyStarted? <==> value.execution.Some? && value.execution.value.operationId == command.operationId
      ensures r.Underway? <==>
                && !r.AlreadyStarted? && old(active) == map[] && ready && spawned
                && !Stopped(value.state) && !AgentRunning(value) && !Stopped(stored.state)
      ensures active == if r.Underway? then map[t := false] else old(active)
    {
      if value.execution.Some? && value.execution.value.operationId == command.operationId {
        return AlreadyStarted;
      }
      if active != map[] || !ready || Stopped(value.state) || AgentRunning(value) || Stopped(stored.state) {
        return Started.Refused;
      }
      active := active[t := false];
      if !spawned {
        active := active - {t};
        return Started.Refused;
      }
      return Started.Underway;
    }

    /** Requests the end of a turn under way. */
    method Stop(t: TaskId)
      requires Valid()
      modifies this
      ensures Valid()
      ensures active == if t in old(active) then old(active)[t := true] else old(active)
    {
      if t in active {
        assert active[t := true].Keys == active.Keys;
        assert |active[t := true]| == |active[t := true].Keys| == |active.Keys|;
        active := active[t := true];
      }
    }

    /** The thread of one start, which leaves the task free for another in the end. */
    method Run(t: TaskId, env: Environment, command: Command, ghost horizon: nat) returns (trace: seq<Mark>)
      requires Valid() && Orderly(env, command.maxSeconds, horizon)
      modifies this
      ensures Valid() && active == old(active) - {t}
      ensures Sound(env, command, trace) && Watched(env, command, trace).phase == Over(Nothing)
    {
      trace := Supervise(env, command, horizon);
      assert |active - {t}| <= |active| by {
        assert (active - {t}).Keys <= active.Keys;
        SubsetSize((active - {t}).Keys, active.Keys);
        assert |active| == |active.Keys| && |active - {t}| == |(active - {t}).Keys|;
      }
      active := active - {t};
    }

    static method Supervise(env: Environment, command: Command, ghost horizon: nat) returns (trace: seq<Mark>)
      requires Orderly(env, command.maxSeconds, horizon)
      ensures Sound(env, command, trace) && Watched(env, command, trace).phase == Over(Nothing)
    {
      var last;
      ghost var w;
      trace, last, w := RunTurns(env, command, horizon);
      if !env.raises(last + 1) {
        trace, w := Note(env, command, trace, w, Closed(last + 1));
        if IsWaiting(env.task(last + 1)) {
          trace, w := Note(env, command, trace, w, Reported(Interrupted));
        }
      }
    }

    static method Note(env: Environment, command: Command, trace0: seq<Mark>, ghost w0: Watch, m: Mark)
      returns (trace: seq<Mark>, ghost w: Watch)
      requires Follows(env, command, trace0, w0) && Allowed(env, command, w0, m)
      ensures Follows(env, command, trace, w) && w == Next(env, command, w0, m) && trace == trace0 + [m]
    {
      FollowsStep(env, command, trace0, w0, m);
      trace, w := trace0 + [m], Next(env, command, w0, m);
    }

    /** A look at the world; one that fails ends the supervision. */
    static method Look(env: Environment, command: Command, trace0: seq<Mark>, ghost w0: Watch, m: Mark)
      returns (trace: seq<Mark>, ghost w: Watch, ok: bool)
      requires Follows(env, command, trace0, w0) && IsLook(m) && m.at == w0.now + 1 && !w0.phase.Over?
      requires !env.raises(m.at) ==> Allowed(env, command, w0, m)
      ensures Follows(env, command, trace, w) && (ok <==> !env.raises(m.at))
      ensures w == Next(env, command, w0, if ok then m else Failed(m.at))
    {
      ok := !env.raises(m.at);
      trace, w := Note(env, command, trace0, w0, if ok then m else Failed(m.at));
    }

    static method RunTurns(env: Environment, command: Command, ghost horizon: nat)
      returns (trace: seq<Mark>, now: nat, ghost w: Watch)
      requires Orderly(env, command.maxSeconds, horizon)
      ensures Sound(env, command, trace)
      ensures Follows(env, command, trace, w) && w.phase == Over(Nothing) && w.now == now
    {
      trace, now, w := [], 0, Watch(Idle, 0, 0, false);
      var turn := 1;
      while turn <= command.maxTurns
        invariant 1 <= turn <= command.maxTurns + 1
        invariant Follows(env, command, trace, w) && w.phase == Idle && w.calls == turn - 1 && w.now == now
      {
        var more;
        trace, now, w, more := RunTurn(env, command, trace, now, w, turn, horizon);
        if !more {
          return;
        }
        turn := turn + 1;
      }
      trace, w := Note(env, command, trace, w, Reported(LimitReached));
    }

    /** One turn: the checks before it, its claim, the call of the model, and what follows. */
    static method RunTurn(env: Environment, command: Command, trace0: seq<Mark>, now0: nat, ghost w0: Watch,
                          turn: nat, ghost horizon: nat)
      returns (trace: seq<Mark>, now: nat, ghost w: Watch, more: bool)
      requires Orderly(env, command.maxSeconds, horizon) && Follows(env, command, trace0, w0) && w0.now == now0
      requires w0.phase == Idle && w0.calls == turn - 1 && turn <= command.maxTurns
      ensures Sound(env, command, trace)
      ensures Follows(env, command, trace, w) && w.now == now
      ensures if more then w.phase == Idle && w.calls == turn else w.phase == Over(Nothing)
    {
      now, more := now0 + 1, false;
      var ok;
      trace, w, ok := Look(env, command, trace0, w0, Begun(now));
      if !ok {
        return;
      }
      if env.elapsed(now) >= command.maxSeconds {
        trace, w := Note(env, command, trace, w, Reported(LimitReached));
        return;
      }
      if !env.current(now) {
        trace, w := Note(env, command, trace, w, Reported(Restricted));
        return;
      }
      trace, now, w, more := ClaimAndCall(env, command, trace, now, w, turn, horizon);
    }

    static method ClaimAndCall(env: Environment, command: Command, trace0: seq<Mark>, now0: nat, ghost w0: Watch,
                               turn: nat, ghost horizon: nat)
      returns (trace: seq<Mark>, now: nat, ghost w: Watch, more: bool)
      requires Orderly(env, command.maxSeconds, horizon) && Follows(env, command, trace0, w0) && w0.now == now0
      requires w0.phase == Begin && w0.calls == turn - 1
      ensures Sound(env, command, trace)
      ensures Follows(env, command, trace, w) && w.now == now
      ensures if more then w.phase == Idle && w.calls == turn else w.phase == Over(Nothing)
    {
      now, more := now0 + 1, false;
      var ok;
      trace, w, ok := Look(env, command, trace0, w0, Claimed(now, turn));
      if !ok || ClaimTurn(env.task(now), command.operationId, turn).None? {
        return;
      }
      trace, w := Note(env, command, trace, w, Called(turn));
      trace, now, w, more := Follow(env, command, trace, now, w, horizon);
    }

    /** What follows a call: whether the turn may be followed by another, and what has to be waited for. */
    static method Follow(env: Environment, command: Command, trace0: seq<Mark>, now0: nat, ghost w0: Watch,
                         ghost horizon: nat)
      returns (trace: seq<Mark>, now: nat, ghost w: Watch, more: bool)
      requires Orderly(env, command.maxSeconds, horizon) && Follows(env, command, trace0, w0) && w0.now == now0
      requires w0.phase == Call && !w0.waited
      ensures Sound(env, command, trace)
      ensures Follows(env, command, trace, w) && w.now == now && w.calls == w0.calls
      ensures w.phase == if more then Idle else Over(Nothing)
    {
      now, more := now0 + 1, false;
      var ok;
      trace, w, ok := Look(env, command, trace0, w0, Returned(now));
      var result := env.result(now);
      if !ok || !command.continuous || env.stop(now) || !result.finished || result.restricted {
        return;
      }
      now := now + 1;
      trace, w, ok := Look(env, command, trace, w, Assessed(now));
      if !ok {
        return;
      }
      if env.fulfilled(now) {
        trace, w := Note(env, command, trace, w, FinishAsked);
        return;
      }
      var waited;
      trace, now, w, more, waited := AwaitWork(env, command, trace, now, w, horizon);
      if more {
        trace, now, w, more := Settle(env, command, trace, now, w, waited);
      }
    }

    /** Waits while the task has something open; a stop request or the end of the time allowed also end the wait. */
    static method AwaitWork(env: Environment, command: Command, trace0: seq<Mark>, now0: nat, ghost w0: Watch,
                            ghost horizon: nat)
      returns (trace: seq<Mark>, now: nat, ghost w: Watch, more: bool, waited: bool)
      requires Orderly(env, command.maxSeconds, horizon) && Follows(env, command, trace0, w0) && w0.now == now0
      requires w0.phase == Waits && !w0.waited
      ensures Follows(env, command, trace, w) && w.now == now && w.calls == w0.calls && waited == w.waited
      ensures Sound(env, command, trace)
      ensures var phase := Watched(env, command, trace).phase;
              if more then phase == Clear || (WaitIsOver(env, w) && Expires(env, command, now + 1))
              else phase == Over(Nothing)
    {
      hide Sound, Watched, PhaseAfter, Ends, Allowed;
      trace, now, w, waited := trace0, now0, w0, false;
      while !env.stop(now)
        invariant Follows(env, command, trace, w) && w.phase == Waits && w.now == now && w.calls == w0.calls
        invariant waited == w.waited
        decreases horizon - now
      {
        var found;
        trace, w, found := LookAtWork(env, command, trace, now, w);
        now := now + 1;
        if !found.Open? {
          more := found.Free?;
          return;
        }
        trace, w, more := LetTimePass(env, command, trace, now, w, waited);
        now, waited := now + 1, true;
        if !more || env.elapsed(now) >= command.maxSeconds {
          return;
        }
      }
      more := true;
    }

    /** One look at the open work. */
    static method LookAtWork(env: Environment, command: Command, trace0: seq<Mark>, now: nat, ghost w0: Watch)
      returns (trace: seq<Mark>, ghost w: Watch, found: Found)
      requires Follows(env, command, trace0, w0) && w0.now == now && w0.phase == Waits && !env.stop(now)
      ensures Follows(env, command, trace, w) && w.now == now + 1 && w.calls == w0.calls && w.waited == w0.waited
      ensures w.phase == match found case Open => Pauses case Free => Clear case NoMore => Over(Nothing)
    {
      var ok;
      trace, w, ok := Look(env, command, trace0, w0, Looked(now + 1));
      var value := env.task(now + 1);
      if !ok || Stopped(value.state) {
        return trace, w, NoMore;
      }
      if AnyUnsettled(value) {
        trace, w := Note(env, command, trace, w, Reported(NeedsInput));
        return trace, w, NoMore;
      }
      found := if env.pending(now + 1) || AnyWaiting(value) || AnyUnanswered(value) then Open else Free;
    }

    /** The first wait is reported; then the time is looked at. */
    static method LetTimePass(env: Environment, command: Command, trace0: seq<Mark>, now: nat, ghost w0: Watch,
                              waited: bool)
      returns (trace: seq<Mark>, ghost w: Watch, ok: bool)
      requires Follows(env, command, trace0, w0) && w0.now == now && w0.phase == Pauses && waited == w0.waited
      ensures Follows(env, command, trace, w) && w.now == now + 1 && w.calls == w0.calls && w.waited
      ensures w.phase == if !ok then Over(Nothing)
                         else if env.elapsed(now + 1) >= command.maxSeconds then Expired
                         else Waits
    {
      hide Follows;
      trace, w := trace0, w0;
      if !waited {
        trace, w := Note(env, command, trace, w, Reported(Waiting));
      }
      trace, w, ok := Look(env, command, trace, w, Timed(now + 1));
    }

    /** After the wait: a stop request or the end of the time allowed, a goal fulfilled meanwhile, or no progress. */
    static method Settle(env: Environment, command: Command, trace0: seq<Mark>, now0: nat, ghost w0: Watch,
                         waited: bool)
      returns (trace: seq<Mark>, now: nat, ghost w: Watch, more: bool)
      requires Follows(env, command, trace0, w0) && w0.now == now0 && waited == w0.waited
      requires w0.phase == Clear || (WaitIsOver(env, w0) && Expires(env, command, now0 + 1))
      ensures Sound(env, command, trace)
      ensures Follows(env, command, trace, w) && w.now == now && w.calls == w0.calls
      ensures w.phase == if more then Idle else Over(Nothing)
    {
      now, more := now0 + 1, false;
      var ok;
      trace, w, ok := Look(env, command, trace0, w0, Checked(now));
      if !ok || env.stop(now) {
        return;
      }
      if env.elapsed(now) >= command.maxSeconds {
        trace, w := Note(env, command, trace, w, Reported(LimitReached));
        return;
      }
      if waited {
        trace, now, w, more := AssessAgain(env, command, trace, now, w);
      } else {
        trace, now, w, more := Compare(env, command, trace, now, w);
      }
    }

    static method AssessAgain(env: Environment, command: Command, trace0: seq<Mark>, now0: nat, ghost w0: Watch)
      returns (trace: seq<Mark>, now: nat, ghost w: Watch, more: bool)
      requires Follows(env, command, trace0, w0) && w0.now == now0 && w0.phase == Rested && w0.waited
      ensures Sound(env, command, trace)
      ensures Follows(env, command, trace, w) && w.now == now && w.calls == w0.calls
      ensures w.phase == if more then Idle else Over(Nothing)
    {
      now := now0 + 1;
      trace, w, more := Look(env, command, trace0, w0, Assessed(now));
      if more && env.fulfilled(now) {
        trace, w := Note(env, command, trace, w, FinishAsked);
        more := false;
      }
    }

    static method Compare(env: Environment, command: Command, trace0: seq<Mark>, now0: nat, ghost w0: Watch)
      returns (trace: seq<Mark>, now: nat, ghost w: Watch, more: bool)
      requires Follows(env, command, trace0, w0) && w0.now == now0 && w0.phase == Rested && !w0.waited
      ensures Sound(env, command, trace)
      ensures Follows(env, command, trace, w) && w.now == now && w.calls == w0.calls
      ensures w.phase == if more then Idle else Over(Nothing)
    {
      now := now0 + 1;
      trace, w, more := Look(env, command, trace0, w0, Compared(now));
      if more && !env.progressed(now) {
        trace, w := Note(env, command, trace, w, Reported(NeedsInput));
        more := false;
      }
    }
  }

  // ---------------------------------------------------------------------------------------------
  // What a sound trace means

  lemma {:induction false} SoundPrefix(env: Environment, command: Command, trace: seq<Mark>, n: nat)
    requires Sound(env, command, trace) && n <= |trace|
    ensures Sound(env, command, trace[..n])
    decreases |trace|
  {
    if n == |trace| {
      assert trace[..n] == trace;
    } else {
      var init := trace[..|trace| - 1];
      SoundPrefix(env, command, init, n);
      assert init[..n] == trace[..n];
    }
  }

  /** Each mark of a sound trace is allowed after the marks before it. */
  lemma SoundAt(env: Environment, command: Command, trace: seq<Mark>, j: nat)
    requires Sound(env, command, trace) && j < |trace|
    ensures Sound(env, command, trace[..j]) && Allowed(env, command, Watched(env, command, trace[..j]), trace[j])
  {
    SoundPrefix(env, command, trace, j);
    SoundPrefix(env, command, trace, j + 1);
    assert trace[..j + 1][..j] == trace[..j];
  }

  /** The last mark of a sound trace, and what came before it. */
  lemma LastMark(env: Environment, command: Command, trace: seq<Mark>) returns (init: seq<Mark>, m: Mark)
    requires Sound(env, command, trace) && trace != []
    ensures trace == init + [m] && Sound(env, command, init) && Allowed(env, command, Watched(env, command, init), m)
    ensures Watched(env, command, trace) == Next(env, command, Watched(env, command, init), m)
  {
    init, m := trace[..|trace| - 1], trace[|trace| - 1];
  }

  /** The calls so far, and what a claim is for. */
  predicate Counted(command: Command, w: Watch) {
    && w.calls <= command.maxTurns && (w.phase == Begin || w.phase.Claim? ==> w.calls < command.maxTurns)
    && (w.phase.Claim? ==> w.phase.turn == w.calls + 1)
  }

  lemma CountedStep(env: Environment, command: Command, w: Watch, m: Mark)
    requires Counted(command, w) && Allowed(env, command, w, m)
    ensures Counted(command, Next(env, command, w, m))
    ensures m.Called? ==> m.turn == w.calls + 1 && w.phase == Claim(m.turn)
  {
  }

  lemma NextTurn(n: nat)
    ensures FirstTurns(n + 1) == FirstTurns(n) + [n + 1]
  {
  }

  lemma TurnsStep(trace: seq<Mark>, m: Mark)
    ensures Turns(trace + [m]) == Turns(trace) + if m.Called? then [m.turn] else []
  {
    assert (trace + [m])[..|trace|] == trace;
  }

  /** The calls of a run are for turns 1, 2, 3 and so on, and there are no more than the start allowed. */
  lemma {:induction false} CallsAreTurns(env: Environment, command: Command, trace: seq<Mark>)
    requires Sound(env, command, trace)
    ensures Turns(trace) == FirstTurns(Watched(env, command, trace).calls)
    ensures Counted(command, Watched(env, command, trace))
    decreases |trace|
  {
    if trace != [] {
      var init, m := LastMark(env, command, trace);
      CallsAreTurns(env, command, init);
      CountedStep(env, command, Watched(env, command, init), m);
      TurnsStep(init, m);
      NextTurn(Watched(env, command, init).calls);
    }
  }

  /** A call is made only for a turn claimed just before, at a look that found the task not stopped and this
      execution current, and begun just before that with source and authorisation unchanged and time left. */
  lemma CallIsClaimed(env: Environment, command: Command, trace: seq<Mark>, i: nat)
    requires Sound(env, command, trace) && i < |trace| && trace[i].Called?
    ensures i >= 2 && trace[i - 2].Begun? && trace[i - 1].Claimed? && trace[i - 2].at < trace[i - 1].at
    ensures env.current(trace[i - 2].at) && env.elapsed(trace[i - 2].at) < command.maxSeconds
    ensures trace[i - 1].turn == trace[i].turn
    ensures var t := env.task(trace[i - 1].at);
            && t.state in {WaitingAgent, WaitingUser, Running, Blocked}
            && t.execution.Some? && t.execution.value.operationId == command.operationId
  {
    SoundAt(env, command, trace, i);
    var begun, b, c := LastClaim(env, command, trace[..i], trace[i].turn);
    assert trace[..i][i - 2] == b && trace[..i][i - 1] == c;
  }

  lemma LastClaim(env: Environment, command: Command, trace: seq<Mark>, turn: nat)
      returns (init: seq<Mark>, b: Mark, c: Mark)
    requires Sound(env, command, trace) && Watched(env, command, trace).phase == Claim(turn)
    ensures trace == init + [b] + [c] && b.Begun? && c == Claimed(c.at, turn) && b.at < c.at
    ensures env.current(b.at) && env.elapsed(b.at) < command.maxSeconds
    ensures ClaimTurn(env.task(c.at), command.operationId, turn).Some?
  {
    var begun;
    begun, c := LastMark(env, command, trace);
    init, b := LastMark(env, command, begun);
    EntersTurn(env, command, Watched(env, command, init), b, c, turn);
  }

  lemma EntersTurn(env: Environment, command: Command, w: Watch, b: Mark, c: Mark, turn: nat)
    requires Allowed(env, command, w, b) && Allowed(env, command, Next(env, command, w, b), c)
    requires PhaseAfter(env, command, Next(env, command, w, b), c) == Claim(turn)
    ensures c == Claimed(c.at, turn) && ClaimTurn(env.task(c.at), command.operationId, turn).Some?
    ensures b.Begun? && env.current(b.at) && env.elapsed(b.at) < command.maxSeconds && b.at < c.at
  {
  }

  /** A call whose turn finished unrestricted, without a stop request, and left the goal unfulfilled. */
  predicate IsFollowed(env: Environment, command: Command, trace: seq<Mark>, c: nat)
    requires c + 2 < |trace|
  {
    && trace[c].Called? && trace[c + 1].Returned? && trace[c + 2].Assessed? && command.continuous
    && !env.stop(trace[c + 1].at) && env.result(trace[c + 1].at).finished && !env.result(trace[c + 1].at).restricted
    && !env.fulfilled(trace[c + 2].at)
  }

  /** The last call of a trace. */
  predicate LastCall(trace: seq<Mark>, c: nat) {
    c < |trace| && trace[c].Called? && forall n | c < n < |trace| :: !trace[n].Called?
  }

  lemma LastCallLonger(env: Environment, command: Command, trace: seq<Mark>, m: Mark, c: nat)
    requires c + 2 < |trace| && IsFollowed(env, command, trace, c) && LastCall(trace, c) && !m.Called?
    ensures IsFollowed(env, command, trace + [m], c) && LastCall(trace + [m], c)
  {
  }

  lemma LastCallShorter(trace: seq<Mark>, m: Mark, c: nat)
    requires LastCall(trace + [m], c) && !m.Called?
    ensures LastCall(trace, c) && (trace + [m])[c..] == trace[c..] + [m]
  {
    assert forall n | c < n < |trace| :: trace[n] == (trace + [m])[n];
  }

  lemma LastCallUnique(trace: seq<Mark>, c: nat, i: nat)
    requires LastCall(trace, c) && LastCall(trace, i)
    ensures c == i
  {
  }

  /** Nothing of the stored task is open at look n, and nothing outside it is pending. */
  ghost predicate Quiet(env: Environment, n: nat) {
    var t := env.task(n);
    && t.state in {WaitingAgent, WaitingUser, Running, Blocked}
    && (forall o | o in t.operations :: t.operations[o].state in {OpSucceeded, OpFailed, OpDeclined})
    && (forall q | q in t.questions :: t.questions[q].answered)
    && !env.pending(n)
  }

  lemma QuietExactly(env: Environment, n: nat)
    ensures Quiet(env, n) <==> NothingOpen(env, n)
  {
    var t := env.task(n);
    forall o | o in t.operations
      ensures t.operations[o].state in {OpSucceeded, OpFailed, OpDeclined}
          <==> !Unsettled(t.operations[o].state) && t.operations[o].state != OpWaiting
    {
      var state := t.operations[o].state;
      assert state.OpWaiting? || state.OpRunning? || state.OpUnknown? || state.OpSucceeded? || state.OpFailed?
             || state.OpDeclined?;
    }
  }

  /** How a mark leads into a phase: from where, and as what. */
  lemma Enters(env: Environment, command: Command, w: Watch, m: Mark)
    requires Allowed(env, command, w, m)
    ensures var p := PhaseAfter(env, command, w, m);
            && (p == Call ==> m.Called?)
            && (p == Back ==> m.Returned? && w.phase == Call && Ends(env, command, m).None?)
            && (p == Clear ==> m.Looked? && w.phase == Waits && NothingOpen(env, m.at))
            && (p == Pauses ==> !m.Called? && (w.phase == Waits || w.phase == Pauses))
            && (p == Rested ==> m.Checked? && w.phase == Clear && !Expires(env, command, m.at))
  {
  }

  lemma EntersWaits(env: Environment, command: Command, w: Watch, m: Mark)
    requires Allowed(env, command, w, m) && PhaseAfter(env, command, w, m) == Waits
    ensures (m.Assessed? && w.phase == Back && !env.fulfilled(m.at)) || (m.Timed? && w.phase == Pauses)
  {
  }

  lemma EntersIdle(env: Environment, command: Command, w: Watch, m: Mark)
    requires Allowed(env, command, w, m) && PhaseAfter(env, command, w, m) == Idle
    ensures w.phase == Rested
    ensures if w.waited then m.Assessed? && !env.fulfilled(m.at) else m.Compared? && env.progressed(m.at)
  {
  }

  /** The last call of a trace that waits: the turn came back, its goal was assessed, and the rest is waiting. */
  lemma {:induction false} WaitsSince(env: Environment, command: Command, trace: seq<Mark>) returns (c: nat)
    requires Sound(env, command, trace)
    requires Watched(env, command, trace).phase == Waits || Watched(env, command, trace).phase == Pauses
    ensures c + 2 < |trace| && IsFollowed(env, command, trace, c) && LastCall(trace, c)
    decreases |trace|
  {
    var init, m := LastMark(env, command, trace);
    if Watched(env, command, trace).phase == Waits {
      EntersWaits(env, command, Watched(env, command, init), m);
    } else {
      Enters(env, command, Watched(env, command, init), m);
    }
    if Watched(env, command, init).phase == Back {
      c := FollowedCall(env, command, init, m);
    } else {
      c := WaitsSince(env, command, init);
      LastCallLonger(env, command, init, m, c);
    }
  }

  lemma FollowedCall(env: Environment, command: Command, trace: seq<Mark>, m: Mark) returns (c: nat)
    requires Sound(env, command, trace) && Watched(env, command, trace).phase == Back
    requires m.Assessed? && !env.fulfilled(m.at)
    ensures c + 2 == |trace| && IsFollowed(env, command, trace + [m], c) && LastCall(trace + [m], c)
  {
    var init, r := LastMark(env, command, trace);
    Enters(env, command, Watched(env, command, init), r);
    var call, q := LastMark(env, command, init);
    Enters(env, command, Watched(env, command, call), q);
    c := |call|;
  }

  /** After look k, which found nothing open, there was no stop request and still time; and the supervisor had
      waited and the goal was still not fulfilled, or it had not and there was progress. */
  ghost predicate IsRested(env: Environment, command: Command, trace: seq<Mark>, c: nat, k: nat)
    requires c <= k && k + 2 < |trace|
  {
    && trace[k].Looked? && Quiet(env, trace[k].at)
    && trace[k + 1].Checked? && !env.stop(trace[k + 1].at) && env.elapsed(trace[k + 1].at) < command.maxSeconds
    && if Reported(Waiting) in trace[c..k] then trace[k + 2].Assessed? && !env.fulfilled(trace[k + 2].at)
       else trace[k + 2].Compared? && env.progressed(trace[k + 2].at)
  }

  /** Whether the wait since the last call was reported is what the watcher says. */
  lemma {:induction false} WaitedIsReported(env: Environment, command: Command, trace: seq<Mark>, i: nat)
    requires LastCall(trace, i)
    ensures Watched(env, command, trace).waited <==> Reported(Waiting) in trace[i..]
    decreases |trace|
  {
    var init, m := trace[..|trace| - 1], trace[|trace| - 1];
    if i < |init| {
      assert trace == init + [m];
      LastCallShorter(init, m, i);
      WaitedIsReported(env, command, init, i);
    }
  }

  lemma LastWait(env: Environment, command: Command, trace: seq<Mark>) returns (waits: seq<Mark>, l: Mark, q: Mark)
    requires Sound(env, command, trace) && Watched(env, command, trace).phase == Rested
    ensures trace == waits + [l] + [q] && Sound(env, command, waits) && Watched(env, command, waits).phase == Waits
    ensures l.Looked? && Quiet(env, l.at) && q.Checked? && !Expires(env, command, q.at)
  {
    var clear;
    clear, q := LastMark(env, command, trace);
    Enters(env, command, Watched(env, command, clear), q);
    waits, l := LastMark(env, command, clear);
    Enters(env, command, Watched(env, command, waits), l);
    QuietExactly(env, l.at);
  }

  lemma RestedSince(env: Environment, command: Command, trace: seq<Mark>, i: nat)
      returns (waits: seq<Mark>, l: Mark, q: Mark)
    requires Sound(env, command, trace) && Watched(env, command, trace).phase == Rested && LastCall(trace, i)
    ensures trace == waits + [l] + [q] && i + 2 < |waits| && IsFollowed(env, command, waits, i) && LastCall(waits, i)
    ensures l.Looked? && Quiet(env, l.at) && q.Checked? && !Expires(env, command, q.at)
    ensures trace[i..] == waits[i..] + [l] + [q]
  {
    waits, l, q := LastWait(env, command, trace);
    LastCallShorter(waits + [l], q, i);
    LastCallShorter(waits, l, i);
    var c := WaitsSince(env, command, waits);
    LastCallUnique(waits, c, i);
  }

  lemma LastCallBeforeTurn(trace: seq<Mark>, n: nat, i: nat)
    requires n + 2 <= |trace| && LastCall(trace[..n + 2], i) && !trace[n].Called? && !trace[n + 1].Called?
    ensures LastCall(trace[..n], i)
  {
    assert forall k | 0 <= k < n :: trace[..n][k] == trace[..n + 2][k];
  }

  lemma RestedLonger(env: Environment, command: Command, trace: seq<Mark>, idle: seq<Mark>, i: nat, k: nat)
    requires idle <= trace && i + 2 < k && k + 3 == |idle|
    requires IsFollowed(env, command, idle, i) && IsRested(env, command, idle, i, k)
    ensures IsFollowed(env, command, trace, i) && IsRested(env, command, trace, i, k)
  {
    assert idle[i..k] == trace[i..k];
  }

  lemma RestedAfter(env: Environment, command: Command, waits: seq<Mark>, l: Mark, q: Mark, m: Mark, i: nat)
    requires i + 2 < |waits| && IsFollowed(env, command, waits, i)
    requires l.Looked? && Quiet(env, l.at) && q.Checked? && !Expires(env, command, q.at)
    requires if Reported(Waiting) in waits[i..] then m.Assessed? && !env.fulfilled(m.at)
             else m.Compared? && env.progressed(m.at)
    ensures IsFollowed(env, command, waits + [l] + [q] + [m], i)
    ensures IsRested(env, command, waits + [l] + [q] + [m], i, |waits|)
  {
    assert (waits + [l] + [q] + [m])[i..|waits|] == waits[i..];
  }

  /** The last mark of a trace that may begin another turn after call i, and the trace before it. */
  lemma IdleSince(env: Environment, command: Command, trace: seq<Mark>, i: nat) returns (init: seq<Mark>, m: Mark)
    requires Sound(env, command, trace) && Watched(env, command, trace).phase == Idle && LastCall(trace, i)
    ensures trace == init + [m] && Sound(env, command, init) && Watched(env, command, init).phase == Rested
    ensures LastCall(init, i)
    ensures if Reported(Waiting) in init[i..] then m.Assessed? && !env.fulfilled(m.at)
            else m.Compared? && env.progressed(m.at)
  {
    init, m := LastMark(env, command, trace);
    EntersIdle(env, command, Watched(env, command, init), m);
    LastCallShorter(init, m, i);
    WaitedIsReported(env, command, init, i);
  }

  lemma RestedBefore(env: Environment, command: Command, trace: seq<Mark>, i: nat) returns (k: nat)
    requires Sound(env, command, trace) && Watched(env, command, trace).phase == Idle && LastCall(trace, i)
    ensures i + 2 < k && k + 3 == |trace| && IsFollowed(env, command, trace, i)
    ensures IsRested(env, command, trace, i, k)
  {
    var init, m := IdleSince(env, command, trace, i);
    var waits, l, q := RestedSince(env, command, init, i);
    k := |waits|;
    RestedAfter(env, command, waits, l, q, m, i);
  }

  lemma IdleBeforeTurn(env: Environment, command: Command, trace: seq<Mark>, j: nat) returns (idle: seq<Mark>)
    requires Sound(env, command, trace) && j < |trace| && trace[j].Begun?
    ensures idle == trace[..j] && Sound(env, command, idle) && Watched(env, command, idle).phase == Idle
  {
    idle := trace[..j];
    SoundAt(env, command, trace, j);
  }

  /** Between two calls in a row the first turn finished unrestricted with its goal not fulfilled, and a look
      found nothing open in the task and nothing pending, before the next turn was begun. */
  lemma CallsAreApart(env: Environment, command: Command, trace: seq<Mark>, i: nat, j: nat) returns (k: nat)
    requires Sound(env, command, trace) && i < j < |trace| && trace[j].Called? && LastCall(trace[..j], i)
    ensures i + 2 < k && k + 5 == j && IsFollowed(env, command, trace, i) && IsRested(env, command, trace, i, k)
  {
    CallIsClaimed(env, command, trace, j);
    LastCallBeforeTurn(trace, j - 2, i);
    var idle := IdleBeforeTurn(env, command, trace, j - 2);
    k := RestedIn(env, command, trace, idle, i);
  }

  lemma RestedIn(env: Environment, command: Command, trace: seq<Mark>, idle: seq<Mark>, i: nat) returns (k: nat)
    requires Sound(env, command, idle) && Watched(env, command, idle).phase == Idle && LastCall(idle, i)
    requires idle <= trace
    ensures i + 2 < k && k + 3 == |idle| && IsFollowed(env, command, trace, i) && IsRested(env, command, trace, i, k)
  {
    k := RestedBefore(env, command, idle, i);
    RestedLonger(env, command, trace, idle, i, k);
  }

  /** Once the supervision has ended it stays so, whatever is still reported. */
  lemma {:induction false} EndIsFinal(env: Environment, command: Command, trace: seq<Mark>, i: nat)
    requires Sound(env, command, trace) && i < |trace| && Ends(env, command, trace[i]).Some?
    ensures Watched(env, command, trace).phase.Over? && forall j | i < j < |trace| :: !trace[j].Called?
    decreases |trace|
  {
    var init, m := LastMark(env, command, trace);
    if i < |init| {
      EndIsFinal(env, command, init, i);
    }
  }

  /** What ends the supervision: no time left or a changed source or authorisation before a turn; a claim of a stopped
      task or one with another execution; a turn that may not be followed; a fulfilled goal; a look that finds the
      task stopped or an operation running or unknown; a stop request or no time left after a wait; no progress; the
      last look; a failure; and every report but that of a wait. */
  ghost predicate IsFinal(env: Environment, command: Command, m: Mark) {
    match m
    case Begun(n) => env.elapsed(n) >= command.maxSeconds || !env.current(n)
    case Claimed(n, _) =>
      var t := env.task(n);
      t.state in {Paused, Cancelled, Completed} || t.execution.None?
      || t.execution.value.operationId != command.operationId
    case Called(_) => false
    case Returned(n) =>
      !command.continuous || env.stop(n) || !env.result(n).finished || env.result(n).restricted
    case Assessed(n) => env.fulfilled(n)
    case Looked(n) =>
      var t := env.task(n);
      t.state in {Paused, Cancelled, Completed}
      || exists o | o in t.operations :: t.operations[o].state == OpRunning || t.operations[o].state == OpUnknown
    case Timed(_) => false
    case Checked(n) => env.stop(n) || env.elapsed(n) >= command.maxSeconds
    case Compared(n) => !env.progressed(n)
    case Reported(report) => report != Waiting
    case _ => true
  }

  lemma EndsExactly(env: Environment, command: Command, m: Mark)
    ensures IsFinal(env, command, m) <==> Ends(env, command, m).Some?
  {
  }

  /** Once a claim or a look during a wait found the task stopped, the model is not called any more; nor after a
      fulfilled goal, a stop request seen, or anything else that ends the supervision. */
  lemma StopIsHeeded(env: Environment, command: Command, trace: seq<Mark>, i: nat, j: nat)
    requires Sound(env, command, trace) && i < j < |trace|
    requires IsFinal(env, command, trace[i])
    ensures !trace[j].Called?
  {
    EndsExactly(env, command, trace[i]);
    EndIsFinal(env, command, trace, i);
  }

  /** A mark that does not end the supervision is followed by another. */
  lemma MoreFollows(env: Environment, command: Command, trace: seq<Mark>, i: nat)
    requires Sound(env, command, trace) && i < |trace| && Watched(env, command, trace).phase.Over?
    requires !PhaseAfter(env, command, Watched(env, command, trace[..i]), trace[i]).Over?
    ensures i + 1 < |trace|
    ensures var w := Next(env, command, Watched(env, command, trace[..i]), trace[i]);
            Allowed(env, command, w, trace[i + 1])
    ensures Allowed(env, command, Watched(env, command, trace[..i]), trace[i])
  {
    SoundAt(env, command, trace, i);
    assert trace[..i + 1][..i] == trace[..i];
    assert trace[..|trace|] == trace;
    if i + 1 < |trace| {
      SoundAt(env, command, trace, i + 1);
    }
  }

  /** What is told of a mark that ends the supervision: that its limit is reached, that source or authorisation
      changed, that input is needed, or in the end that a wait was interrupted. */
  ghost predicate IsTold(env: Environment, command: Command, m: Mark, report: Report) {
    match report
    case LimitReached =>
      || (m.Begun? && env.elapsed(m.at) >= command.maxSeconds)
      || (m.Checked? && !env.stop(m.at) && env.elapsed(m.at) >= command.maxSeconds)
    case Restricted => m.Begun? && env.elapsed(m.at) < command.maxSeconds && !env.current(m.at)
    case NeedsInput =>
      || (m.Compared? && !env.progressed(m.at))
      || (m.Looked? && env.task(m.at).state in {WaitingAgent, WaitingUser, Running, Blocked}
          && exists o | o in env.task(m.at).operations ::
               env.task(m.at).operations[o].state in {OpRunning, OpUnknown})
    case Interrupted =>
      m.Closed? && env.task(m.at).execution.Some? && env.task(m.at).execution.value.state == ExWaiting
    case Waiting => false
  }

  lemma ToldExactly(env: Environment, command: Command, m: Mark, report: Report)
    ensures IsTold(env, command, m, report) <==> Ends(env, command, m) == Some(Tell(report))
  {
  }

  /** What is to be told is told at once. */
  lemma TellsAtOnce(env: Environment, command: Command, trace: seq<Mark>, i: nat, report: Report)
    requires Sound(env, command, trace) && Watched(env, command, trace).phase == Over(Nothing)
    requires i < |trace| && IsTold(env, command, trace[i], report)
    ensures i + 1 < |trace| && trace[i + 1] == Reported(report)
  {
    ToldExactly(env, command, trace[i], report);
    PhaseThen(env, command, trace, i);
    hide Sound, Watched, Ends, IsTold, PhaseAfter;
    assert trace[..|trace|] == trace;
    if i + 1 < |trace| {
      SoundAt(env, command, trace, i + 1);
    }
  }

  lemma PhaseThen(env: Environment, command: Command, trace: seq<Mark>, i: nat)
    requires i < |trace|
    ensures Ends(env, command, trace[i]).Some? ==>
              Watched(env, command, trace[..i + 1]).phase == Over(Ends(env, command, trace[i]).value)
  {
    assert trace[..i + 1][..i] == trace[..i];
  }

  /** A look that finds nothing open ends the wait: the check after it is the next thing done, unless it fails. */
  lemma QuietLookEndsWait(env: Environment, command: Command, trace: seq<Mark>, i: nat)
    requires Sound(env, command, trace) && Watched(env, command, trace).phase.Over?
    requires i < |trace| && trace[i].Looked? && Quiet(env, trace[i].at)
    ensures i + 1 < |trace| && (trace[i + 1].Checked? || trace[i + 1].Failed?)
  {
    QuietExactly(env, trace[i].at);
    MoreFollows(env, command, trace, i);
  }

  /** After the time was looked at, the wait ends if it is over or a stop was requested, and the work is looked at
      again if not. */
  lemma TimedLookDecides(env: Environment, command: Command, trace: seq<Mark>, i: nat)
    requires Sound(env, command, trace) && Watched(env, command, trace).phase.Over?
    requires i < |trace| && trace[i].Timed?
    ensures i + 1 < |trace|
    ensures trace[i + 1].Failed?
            || if env.stop(trace[i].at) || env.elapsed(trace[i].at) >= command.maxSeconds then trace[i + 1].Checked?
               else trace[i + 1].Looked?
  {
    MoreFollows(env, command, trace, i);
  }

  /** A look that finds something open to be waited for goes on waiting: the wait is reported once, and then the time
      is looked at. */
  lemma OpenLookWaits(env: Environment, command: Command, trace: seq<Mark>, i: nat, c: nat)
    requires Sound(env, command, trace) && Watched(env, command, trace).phase.Over?
    requires i < |trace| && trace[i].Looked? && !Quiet(env, trace[i].at) && !IsFinal(env, command, trace[i])
    requires LastCall(trace[..i + 1], c)
    ensures i + 1 < |trace|
    ensures trace[i + 1].Failed?
            || if Reported(Waiting) in trace[c..i + 1] then trace[i + 1].Timed? else trace[i + 1] == Reported(Waiting)
  {
    QuietExactly(env, trace[i].at);
    EndsExactly(env, command, trace[i]);
    MoreFollows(env, command, trace, i);
    WaitedIsReported(env, command, trace[..i + 1], c);
    assert trace[..i + 1][c..] == trace[c..i + 1];
    assert trace[..i + 1][..i] == trace[..i];
  }

  lemma EntersFinish(env: Environment, command: Command, w: Watch, m: Mark)
    requires Allowed(env, command, w, m) && PhaseAfter(env, command, w, m) == Over(AskFinish)
    ensures m.Assessed? && env.fulfilled(m.at)
  {
  }

  /** The task is asked to be finished only straight after an assessment that found its goal fulfilled. */
  lemma FinishIsFulfilled(env: Environment, command: Command, trace: seq<Mark>, i: nat)
    requires Sound(env, command, trace) && i < |trace| && trace[i] == FinishAsked
    ensures i > 0 && trace[i - 1].Assessed? && env.fulfilled(trace[i - 1].at)
  {
    SoundAt(env, command, trace, i);
    var init, m := LastMark(env, command, trace[..i]);
    EntersFinish(env, command, Watched(env, command, init), m);
  }

  /** One start calls the model at most as often as it was allowed, and once per turn. */
  lemma CallsAreBounded(env: Environment, command: Command, trace: seq<Mark>, i: nat, j: nat)
    requires Sound(env, command, trace) && i < j < |trace| && trace[i].Called? && trace[j].Called?
    ensures 1 <= trace[i].turn < trace[j].turn <= command.maxTurns
  {
    CallsAreTurns(env, command, trace);
    var a, b := TurnsOrder(trace, i, j);
  }

  lemma {:induction false} TurnsOrder(trace: seq<Mark>, i: nat, j: nat) returns (a: nat, b: nat)
    requires i < j < |trace| && trace[i].Called? && trace[j].Called?
    ensures a < b < |Turns(trace)| && Turns(trace)[a] == trace[i].turn && Turns(trace)[b] == trace[j].turn
    decreases |trace|
  {
    var init := trace[..|trace| - 1];
    if j < |trace| - 1 {
      a, b := TurnsOrder(init, i, j);
    } else {
      a := TurnsHas(init, i);
      b := |Turns(init)|;
    }
  }

  lemma {:induction false} TurnsHas(trace: seq<Mark>, i: nat) returns (a: nat)
    requires i < |trace| && trace[i].Called?
    ensures a < |Turns(trace)| && Turns(trace)[a] == trace[i].turn
    decreases |trace|
  {
    var init := trace[..|trace| - 1];
    if i < |trace| - 1 {
      a := TurnsHas(init, i);
    } else {
      a := |Turns(init)|;
    }
  }
}
