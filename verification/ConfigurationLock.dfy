/** `configurationMu` (node.go, `runConfigurationChange` and `PublishSnapshot`): the caller, the goroutine
    that waits for Raft, and the one that drains an abandoned change, as steps that interleave freely. */
module ConfigurationLock {
  import opened Common

  /** The goroutine that calls: before the lock, holding it, in the `select`, about to unlock, returned. */
  datatype Caller = Arriving | Holding | Selecting | Unlocking | Left

  /** The goroutine that waits for the Raft future and then sends its error. */
  datatype Worker = NotStarted | Running | Sent

  /** The goroutine that a cancelled caller leaves behind. */
  datatype Drainer = NoDrainer | Draining | DrainUnlocking | Drained

  /** One call; `full` is its one-slot channel `done`. */
  datatype Call = Call(caller: Caller, worker: Worker, full: bool, drainer: Drainer)

  /** `crashed`: somebody unlocked a mutex that was free, which ends a Go program. */
  datatype State = State(calls: seq<Call>, held: bool, crashed: bool)

  datatype Step =
    | Arrive
    | Lock(i: nat)
    | Skip(i: nat)
    | Launch(i: nat)
    | Finish(i: nat)
    | Receive(i: nat)
    | Cancel(i: nat)
    | Drain(i: nat)
    | Unlock(i: nat)
    | UnlockDrained(i: nat)

  const EMPTY := State([], false, false)

  function With(s: State, i: nat, call: Call): State
    requires i < |s.calls|
  {
    s.(calls := s.calls[i := call])
  }

  function Unlocked(s: State): State {
    if s.held then s.(held := false) else s.(crashed := true)
  }

  /** What a step does to the call that takes it; `None` if it cannot be taken. The lock is apart.
      `Skip` is a publication's body, or a node without Raft. A cancelled context and a full
      channel may both be ready in the `select`; either may be chosen. */
  function OnCall(call: Call, step: Step): Option<Call> {
    match step
    case Arrive => None
    case Lock(_) => if call.caller == Arriving then Some(call.(caller := Holding)) else None
    case Skip(_) => if call.caller == Holding then Some(call.(caller := Unlocking)) else None
    case Launch(_) => if call.caller == Holding then Some(call.(caller := Selecting, worker := Running)) else None
    case Finish(_) => if call.worker == Running && !call.full then Some(call.(worker := Sent, full := true)) else None
    case Receive(_) =>
      if call.caller == Selecting && call.full then Some(call.(caller := Unlocking, full := false)) else None
    case Cancel(_) => if call.caller == Selecting then Some(call.(caller := Left, drainer := Draining)) else None
    case Drain(_) =>
      if call.drainer == Draining && call.full then Some(call.(drainer := DrainUnlocking, full := false)) else None
    case Unlock(_) => if call.caller == Unlocking then Some(call.(caller := Left)) else None
    case UnlockDrained(_) => if call.drainer == DrainUnlocking then Some(call.(drainer := Drained)) else None
  }

  function Next(s: State, step: Step): Option<State> {
    if step.Arrive? then Some(s.(calls := s.calls + [Call(Arriving, NotStarted, false, NoDrainer)]))
    else if step.i >= |s.calls| || OnCall(s.calls[step.i], step).None? then None
    else
      var t := With(s, step.i, OnCall(s.calls[step.i], step).value);
      if step.Lock? then (if s.held then None else Some(t.(held := true)))
      else if step.Unlock? || step.UnlockDrained? then Some(Unlocked(t))
      else Some(t)
  }

  function RunSteps(s: State, steps: seq<Step>): Option<State>
    decreases |steps|
  {
    if |steps| == 0 then Some(s)
    else match Next(s, steps[0])
      case None => None
      case Some(t) => RunSteps(t, steps[1..])
  }

  // ---------------------------------------------------------------- invariant

  /** The call holds the lock, and the goroutine named here owes the unlock. */
  predicate CallerOwes(call: Call) {
    call.caller in {Holding, Selecting, Unlocking}
  }

  predicate DrainerOwes(call: Call) {
    call.drainer in {Draining, DrainUnlocking}
  }

  predicate Owes(call: Call) {
    CallerOwes(call) || DrainerOwes(call)
  }

  /** The result is in the channel, or still to be sent, exactly as long as somebody waits for it. */
  predicate CallMatches(call: Call) {
    && !(CallerOwes(call) && DrainerOwes(call))
    && (call.caller.Arriving? || call.caller.Holding? ==> call.worker == NotStarted && call.drainer == NoDrainer)
    && (call.drainer != NoDrainer ==> call.caller == Left)
    && (if call.caller == Selecting || call.drainer == Draining then
            call.worker != NotStarted && (call.full <==> call.worker == Sent)
        else call.worker != Running && !call.full)
  }

  ghost predicate Inv(s: State) {
    && !s.crashed
    && (forall i :: 0 <= i < |s.calls| ==> CallMatches(s.calls[i]))
    && (forall i, j :: 0 <= i < j < |s.calls| ==> !(Owes(s.calls[i]) && Owes(s.calls[j])))
    && (s.held <==> exists i :: 0 <= i < |s.calls| && Owes(s.calls[i]))
  }

  /** What a step means for the call's debt: only locking creates one, only unlocking settles it. */
  lemma OnCallKeeps(call: Call, step: Step)
    requires CallMatches(call) && OnCall(call, step).Some?
    ensures CallMatches(OnCall(call, step).value)
    ensures Owes(call) <==> !step.Lock?
    ensures Owes(OnCall(call, step).value) <==> !step.Unlock? && !step.UnlockDrained?
  {
  }

  /** A step of call `i` that leaves the other calls alone keeps the debts apart. */
  lemma OneCallChanges(s: State, t: State, i: nat)
    requires Inv(s) && i < |s.calls| == |t.calls| && CallMatches(t.calls[i]) && !t.crashed
    requires forall j :: 0 <= j < |s.calls| && j != i ==> t.calls[j] == s.calls[j]
    requires Owes(t.calls[i]) ==> Owes(s.calls[i]) || !s.held
    requires t.held <==> Owes(t.calls[i]) || (s.held && !Owes(s.calls[i]))
    ensures Inv(t)
  {
    hide CallMatches, Owes;
    if t.held && !Owes(t.calls[i]) {
      var j :| 0 <= j < |s.calls| && Owes(s.calls[j]);
      assert Owes(t.calls[j]);
    }
  }

  lemma StepKeeps(s: State, step: Step)
    requires Inv(s) && Next(s, step).Some?
    ensures Inv(Next(s, step).value)
  {
    if step.Arrive? {
      ArrivalKeeps(s);
    } else {
      OnCallKeeps(s.calls[step.i], step);
      hide OnCall, CallMatches, Owes;
      OneCallChanges(s, Next(s, step).value, step.i);
    }
  }

  lemma ArrivalKeeps(s: State)
    requires Inv(s)
    ensures Inv(Next(s, Arrive).value)
  {
    var t := Next(s, Arrive).value;
    assert forall i :: 0 <= i < |s.calls| ==> t.calls[i] == s.calls[i];
    if s.held {
      var i :| 0 <= i < |s.calls| && Owes(s.calls[i]);
      assert Owes(t.calls[i]);
    }
  }

  lemma {:induction false} RunKeeps(s: State, steps: seq<Step>)
    requires Inv(s) && RunSteps(s, steps).Some?
    ensures Inv(RunSteps(s, steps).value)
    decreases |steps|
  {
    hide Inv, Next;
    if |steps| > 0 {
      StepKeeps(s, steps[0]);
      RunKeeps(Next(s, steps[0]).value, steps[1..]);
    }
  }

  // ------------------------------------------------------------- what it means

  /** In every reachable state nobody has unlocked a free mutex; the lock is held exactly when some
      call owes the unlock, one call at most, and in it either the caller or its drainer but not both;
      so the lock is free once all calls have ended. */
  lemma LockIsReleasedOnce(steps: seq<Step>)
    requires RunSteps(EMPTY, steps).Some?
    ensures var s := RunSteps(EMPTY, steps).value;
            && !s.crashed
            && (s.held <==> exists i :: 0 <= i < |s.calls| && Owes(s.calls[i]))
            && (forall i, j | 0 <= i < |s.calls| && 0 <= j < |s.calls| ::
                  Owes(s.calls[i]) && Owes(s.calls[j]) ==> i == j)
            && (forall i :: 0 <= i < |s.calls| ==> !(CallerOwes(s.calls[i]) && DrainerOwes(s.calls[i])))
  {
    RunKeeps(EMPTY, steps);
    hide RunSteps, Owes;
    var s := RunSteps(EMPTY, steps).value;
    assert forall i :: 0 <= i < |s.calls| ==> CallMatches(s.calls[i]);
  }

  function Count(steps: seq<Step>, step: Step): nat {
    if |steps| == 0 then 0 else (if steps[0] == step then 1 else 0) + Count(steps[1..], step)
  }

  function Releases(steps: seq<Step>, i: nat): nat {
    Count(steps, Unlock(i)) + Count(steps, UnlockDrained(i))
  }

  function Debt(s: State, i: nat): nat {
    if i < |s.calls| && Owes(s.calls[i]) then 1 else 0
  }

  /** Over every run, a call has released the lock as often as it took it, but for the debt it has. */
  lemma {:induction false} EveryLockIsReleased(s: State, steps: seq<Step>, i: nat)
    requires Inv(s) && RunSteps(s, steps).Some?
    ensures Debt(s, i) + Count(steps, Lock(i)) == Releases(steps, i) + Debt(RunSteps(s, steps).value, i)
    decreases |steps|
  {
    if |steps| > 0 {
      var t := Next(s, steps[0]).value;
      StepKeeps(s, steps[0]);
      EveryLockIsReleased(t, steps[1..], i);
      StepOnDebt(s, steps[0], i);
    }
  }

  lemma StepOnDebt(s: State, step: Step, i: nat)
    requires Inv(s) && Next(s, step).Some?
    ensures Debt(s, i) + (if step == Lock(i) then 1 else 0)
            == Debt(Next(s, step).value, i) + (if step == Unlock(i) || step == UnlockDrained(i) then 1 else 0)
  {
    if !step.Arrive? {
      OnCallKeeps(s.calls[step.i], step);
    }
    hide OnCall, CallMatches;
  }

  /** The worker of a change is never stuck in its send: the channel has room as long as it runs. */
  lemma SendNeverBlocks(steps: seq<Step>, i: nat)
    requires RunSteps(EMPTY, steps).Some? && i < |RunSteps(EMPTY, steps).value.calls|
    requires RunSteps(EMPTY, steps).value.calls[i].worker == Running
    ensures Next(RunSteps(EMPTY, steps).value, Finish(i)).Some?
  {
    RunKeeps(EMPTY, steps);
    hide RunSteps;
    assert CallMatches(RunSteps(EMPTY, steps).value.calls[i]);
  }

  // ------------------------------------------------------------------ progress

  /** The next step of the goroutines of a call that owes the unlock. */
  function OwnStep(call: Call, i: nat): Step {
    match call.caller
    case Holding => Skip(i)
    case Selecting => if call.full then Receive(i) else Finish(i)
    case Unlocking => Unlock(i)
    case _ =>
      if call.drainer == DrainUnlocking then UnlockDrained(i) else if call.full then Drain(i) else Finish(i)
  }

  function Remaining(call: Call): nat {
    if call.caller.Unlocking? || call.drainer.DrainUnlocking? then 1
    else if call.full || call.caller.Holding? then 2 else 3
  }

  /** Whoever holds the lock, at most three steps of its own goroutines free it, once Raft has ended the
      change: nobody else's step is needed. */
  lemma {:induction false} OwnerFreesLock(s: State, i: nat) returns (steps: seq<Step>)
    requires Inv(s) && i < |s.calls| && Owes(s.calls[i])
    ensures |steps| <= Remaining(s.calls[i]) <= 3
    ensures forall k :: 0 <= k < |steps| ==> !steps[k].Arrive? && steps[k].i == i
    ensures RunSteps(s, steps).Some? && !RunSteps(s, steps).value.held
    decreases Remaining(s.calls[i])
  {
    var step := OwnStep(s.calls[i], i);
    assert CallMatches(s.calls[i]);
    var t := Next(s, step).value;
    StepKeeps(s, step);
    if t.held {
      var rest := OwnerFreesLock(t, i);
      steps := [step] + rest;
      assert steps[1..] == rest;
    } else {
      steps := [step];
      assert RunSteps(t, []) == Some(t);
    }
  }

  // ------------------------------------------------- the lock seen as one value

  /** What the membership protocol sees of the lock: a change in flight, awaited or not, lasts until
      Raft has ended it; what is left of the hand-over then is not visible. */
  datatype View = Free | Held(awaited: bool)

  function CallView(call: Call): View {
    if call.caller == Holding then Held(true)
    else if call.worker == Running then Held(call.caller == Selecting)
    else Free
  }

  /** A call that is visible holds the lock, so no two are visible at once. */
  lemma VisibleCallOwes(call: Call)
    requires CallMatches(call) && CallView(call) != Free
    ensures Owes(call)
  {
  }

  /** The steps of the goroutines are the steps of that view: taking the free lock, giving up the wait,
      and the end of the change or publication. Every other step is invisible. */
  lemma StepsRefineView(s: State, step: Step)
    requires Inv(s) && Next(s, step).Some? && !step.Arrive?
    ensures var before, after := CallView(s.calls[step.i]), CallView(Next(s, step).value.calls[step.i]);
            match step {
              case Lock(_) => before == Free && after == Held(true)
                              && forall j :: 0 <= j < |s.calls| ==> CallView(s.calls[j]) == Free
              case Cancel(_) => (before == Held(true) && after == Held(false)) || (before == Free && after == Free)
              case Finish(_) => before.Held? && after == Free
              case Skip(_) => before == Held(true) && after == Free
              case _ => after == before
            }
    ensures forall j :: 0 <= j < |s.calls| && j != step.i ==> Next(s, step).value.calls[j] == s.calls[j]
  {
    assert CallMatches(s.calls[step.i]);
    if step.Lock? {
      forall j | 0 <= j < |s.calls| ensures CallView(s.calls[j]) == Free {
        assert CallMatches(s.calls[j]);
        if CallView(s.calls[j]) != Free {
          VisibleCallOwes(s.calls[j]);
          assert false;
        }
      }
    }
  }

  /** Which steps a call in the `select` can take: giving up always, receiving as soon as the result is there.
      When both are ready, either may be taken. */
  lemma SelectMayChooseEither(s: State, i: nat)
    requires i < |s.calls| && s.calls[i].caller == Selecting
    ensures Next(s, Cancel(i)).Some? && (Next(s, Receive(i)).Some? <==> s.calls[i].full)
    ensures Next(s, Cancel(i)).value.calls[i].drainer == Draining && Next(s, Cancel(i)).value.held == s.held
  {
  }
}
