/** What a call of `load_or_fetch` answers, what its write leaves, and that no run gets stuck: the
protocol of StoreCache read off its steps. */
module StoreAnswers {
  import opened Prelude
  import opened StoreCache

  // ---- Answers ----

  // The call's answer is settled: it has been given, or will be once the lock is released, or it
  // is the value fetched, whether or not that can be written.
  predicate Bound(c: Call, a: Option<Stored>) {
    || c.pc == Finished(a)
    || (c.pc.Leaving? && c.pc.result == a)
    || (c.pc.Fetched? && a == Some(Stored(c.pc.value, c.clock)))
  }

  // The step settles the answer of the call: it finds the file, gets a value, fails or is cancelled.
  predicate Gives(s: State, step: Step, id: nat, a: Option<Stored>) {
    && id in s.calls
    && var c := s.calls[id];
       || ((step == FirstSection(id) || step == SecondRead(id)) && c.path in s.disk && a == Some(s.disk[c.path]))
       || (step.FetchOk? && step.id == id && a == Some(Stored(step.value, c.clock)))
       || ((step == FetchFail(id) || step == Cancel(id)) && a == None)
  }

  lemma {:induction false} StepBinds(s: State, step: Step, id: nat, a: Option<Stored>)
    requires Enabled(s, step) && id in NextCalls(s, step)
    ensures Bound(NextCalls(s, step)[id], a) <==> Gives(s, step, id, a) || (id in s.calls && Bound(s.calls[id], a))
  {
    if step.DeleteFile? || step.LoseFile? || step.id != id {
      assert !Gives(s, step, id, a);
    } else if step.Begin? {
    } else {
      MoveBinds(s, step, a);
    }
  }

  lemma {:induction false} MoveBinds(s: State, step: Step, a: Option<Stored>)
    requires Enabled(s, step) && !step.Begin? && !step.DeleteFile? && !step.LoseFile?
    ensures Bound(Moved(s, step), a) <==> Gives(s, step, step.id, a) || Bound(s.calls[step.id], a)
  {
  }

  /** Answers. In any run a call's answer is settled to be `a` exactly when a step of it has found
      the file with that value, fetched that value, or, for an error, failed or been cancelled;
      what was settled never changes, and a fetched value is the answer even if it is not written. */
  lemma {:induction false} AnswerIff(states: seq<State>, steps: seq<Step>, j: nat, id: nat, a: Option<Stored>)
    requires IsRun(states, steps) && j <= |steps| && id in states[j].calls
    ensures Bound(states[j].calls[id], a) <==> exists i :: 0 <= i < j && Gives(states[i], steps[i], id, a)
  {
    if j > 0 {
      StepBinds(states[j - 1], steps[j - 1], id, a);
      if id in states[j - 1].calls {
        AnswerIff(states, steps, j - 1, id, a);
      } else {
        NoStepBefore(states, steps, j - 1, id);
      }
    }
  }

  lemma {:induction false} NoStepBefore(states: seq<State>, steps: seq<Step>, j: nat, id: nat)
    requires IsRun(states, steps) && j <= |steps| && id !in states[j].calls
    ensures forall i :: 0 <= i <= j ==> id !in states[i].calls
  {
    if j > 0 {
      NoStepBefore(states, steps, j - 1, id);
    }
  }

  /** A call stays the call it was begun as. */
  lemma {:induction false} CallIsItsOwn(states: seq<State>, steps: seq<Step>, j: nat, id: nat)
    requires IsRun(states, steps) && j <= |steps| && id in states[j].calls
    ensures exists i :: 0 <= i < j && steps[i] == Begin(id, states[j].calls[id].path, states[j].calls[id].refresh)
  {
    if id in states[j - 1].calls {
      CallIsItsOwn(states, steps, j - 1, id);
    } else {
      assert steps[j - 1] == Begin(id, states[j].calls[id].path, states[j].calls[id].refresh);
    }
  }

  // The step deletes the last of the files a refresh is to delete.
  predicate Clears(s: State, step: Step, id: nat) {
    step == EndClear(id) && id in s.calls && forall p :: p in s.disk ==> p.scope != s.calls[id].path.scope
  }

  /** A refresh answers nothing it finds at once: past the epoch section it has cleared its scope. */
  lemma {:induction false} RefreshClears(states: seq<State>, steps: seq<Step>, j: nat, id: nat)
    requires IsRun(states, steps) && j <= |steps| && id in states[j].calls && states[j].calls[id].refresh
    requires var pc := states[j].calls[id].pc; !pc.Waiting? && !pc.Clearing? && pc != Finished(None)
    ensures exists i :: 0 <= i < j && Clears(states[i], steps[i], id)
  {
    var s, step := states[j - 1], steps[j - 1];
    if id in s.calls && !s.calls[id].pc.Waiting? && !s.calls[id].pc.Clearing? && s.calls[id].pc != Finished(None) {
      RefreshClears(states, steps, j - 1, id);
    } else {
      assert Clears(s, step, id);
    }
  }

  // ---- Writes ----

  // The step at which a call sees the epoch: its first section misses, or its refresh is done.
  predicate Captures(s: State, step: Step, id: nat) {
    && id in s.calls
    && ((step == FirstSection(id) && s.calls[id].path !in s.disk) || step == EndClear(id))
  }


  /** The clock counts the refreshes begun. */
  lemma {:induction false} ClockIsRefreshes(states: seq<State>, steps: seq<Step>, i: nat)
    requires IsRun(states, steps) && i <= |steps|
    ensures states[i].clock == Times(states, steps, i, (s: State, step: Step, next: State) => step.StartClear?)
  {
    if i > 0 {
      ClockIsRefreshes(states, steps, i - 1);
    }
  }

  ghost predicate NoRefreshBegins(steps: seq<Step>, i: nat, j: nat)
    requires i <= j <= |steps|
  {
    forall k :: i <= k < j ==> !steps[k].StartClear?
  }

  lemma {:induction false} ClockStandsIff(states: seq<State>, steps: seq<Step>, i: nat, j: nat)
    requires IsRun(states, steps) && i <= j <= |steps|
    ensures states[i].clock == states[j].clock <==> NoRefreshBegins(steps, i, j)
    decreases j
  {
    if i < j {
      ClockStandsIff(states, steps, i, j - 1);
      ClockRises(states, steps, i, j - 1);
    }
  }

  // A call that is past its first section and not yet over.
  predicate Underway(pc: Pc) {
    pc.Missed? || pc.HasLock? || pc.Owner? || pc.Fetching? || pc.Fetched?
  }

  // From the capture to its write a call keeps the epoch and the clock it saw.
  lemma {:induction false} CaptureIsKept(states: seq<State>, steps: seq<Step>, i: nat, j: nat, id: nat)
    requires IsRun(states, steps) && i < j <= |steps| && Captures(states[i], steps[i], id)
    ensures id in states[j].calls
    ensures var c := states[j].calls[id];
            && (Underway(c.pc) || Over(c.pc))
            && (Underway(c.pc) ==> c.clock == states[i].clock && c.epoch == states[i].epoch)
    decreases j
  {
    if i < j - 1 {
      CaptureIsKept(states, steps, i, j - 1, id);
    }
  }

  predicate Over(pc: Pc) {
    pc.Leaving? || pc.Finished?
  }

  /** Writes. What a call fetched is on disk after its write, less what is pruned, exactly when the
      file could be written and no refresh of any scope began since the call saw the epoch;
      otherwise the write leaves the disk as it is. */
  lemma {:induction false} WriteLandsIff(states: seq<State>, steps: seq<Step>, i: nat, j: nat, id: nat)
    requires IsRun(states, steps) && i < j < |steps| && states[j].clock < EPOCHS
    requires Captures(states[i], steps[i], id) && steps[j].Write? && steps[j].id == id
    ensures id in states[j].calls && states[j].calls[id].pc.Fetched?
    ensures var c := states[j].calls[id];
            states[j + 1].disk
            == if steps[j].persisted && NoRefreshBegins(steps, i, j)
               then states[j].disk[c.path := Stored(c.pc.value, states[i].clock)] - steps[j].pruned
               else states[j].disk
  {
    CaptureIsKept(states, steps, i, j, id);
    ClockStandsIff(states, steps, i, j);
    ClockRises(states, steps, i, j);
    RunKeepsFloors(states, steps, j);
    RunKeepsFloors(states, steps, i);
  }

  /** Nothing else touches the disk, but for one file deleted at a time. */
  lemma {:induction false} OthersLeaveDisk(s: State, step: Step)
    requires Enabled(s, step) && !step.Write?
    ensures Next(s, step).disk == if step.DeleteFile? || step.LoseFile? then s.disk - {step.file} else s.disk
    ensures step.DeleteFile? ==> |Next(s, step).disk| == |s.disk| - 1
  {
    if step.DeleteFile? {
      assert (s.disk - {step.file}).Keys == s.disk.Keys - {step.file};
    }
  }

  // ---- Progress ----

  lemma {:induction false} RunKeepsClearing(states: seq<State>, steps: seq<Step>, i: nat)
    requires IsRun(states, steps) && i <= |steps|
    ensures ClearingOk(states[i].clearing, states[i].calls)
  {
    if i > 0 {
      RunKeepsClearing(states, steps, i - 1);
      StepKeepsClearing(states[i - 1], steps[i - 1]);
    }
  }

  // A step of a call that is on its way to its answer.
  predicate GoesOn(s: State, step: Step) {
    !step.Begin? && !step.Cancel? && !step.LoseFile? && Enabled(s, step)
  }

  /** No deadlock: while a call is not over, some call can go on. What is fetched
      may be anything, and may or may not be written. */
  lemma {:induction false} NoDeadlock(states: seq<State>, steps: seq<Step>, i: nat, id: nat)
    requires IsRun(states, steps) && i <= |steps| && id in states[i].calls && !states[i].calls[id].pc.Finished?
    ensures exists step :: GoesOn(states[i], step)
    ensures states[i].calls[id].pc.Fetching? ==> forall value :: GoesOn(states[i], FetchOk(id, value))
    ensures states[i].calls[id].pc.Fetched? && states[i].clearing.None? ==>
              forall persisted, pruned :: GoesOn(states[i], Write(id, persisted, pruned))
  {
    var s := states[i];
    RunKeepsClearing(states, steps, i);
    RunKeepsLocks(states, steps, i);
    if s.clearing.Some? {
      RefreshGoesOn(s, s.clearing.value);
    } else {
      CallGoesOn(s, id);
    }
  }

  /** A call can be cancelled exactly before its first section and while it waits for the fetch lock. */
  lemma {:induction false} CancelledWhileWaiting(s: State, id: nat)
    ensures Enabled(s, Cancel(id)) <==> id in s.calls && (s.calls[id].pc.Waiting? || s.calls[id].pc.HasLock?)
    ensures Enabled(s, Cancel(id)) ==> NextCalls(s, Cancel(id))[id].pc == Finished(None)
  {
  }

  lemma {:induction false} RefreshGoesOn(s: State, id: nat)
    requires id in s.calls && s.calls[id].pc.Clearing?
    ensures exists step :: GoesOn(s, step)
  {
    if p :| p in s.disk && p.scope == s.calls[id].path.scope {
      assert GoesOn(s, DeleteFile(id, p));
    } else {
      assert GoesOn(s, EndClear(id));
    }
  }

  lemma {:induction false} OwnerGoesOn(s: State, id: nat)
    requires s.clearing.None? && id in s.calls && Owns(s.calls[id].pc)
    ensures exists step :: GoesOn(s, step)
  {
    var step := match s.calls[id].pc
      case Owner(_) => SecondRead(id)
      case Fetching(_) => FetchFail(id)
      case Fetched(_, _) => Write(id, false, {})
      case _ => Release(id);
    assert GoesOn(s, step);
  }

  lemma {:induction false} CallGoesOn(s: State, id: nat)
    requires LocksOk(s) && ClearingOk(s.clearing, s.calls) && s.clearing.None?
    requires id in s.calls && !s.calls[id].pc.Finished?
    ensures exists step :: GoesOn(s, step)
  {
    match s.calls[id].pc
    case Waiting => assert GoesOn(s, if s.calls[id].refresh then StartClear(id) else FirstSection(id));
    case Missed => assert GoesOn(s, TakeLock(id));
    case HasLock(l) =>
      if l in s.locks.held {
        assert HeldBy(s.calls, l, s.locks.held[l]);
        OwnerGoesOn(s, s.locks.held[l]);
      } else {
        assert GoesOn(s, Acquire(id));
      }
    case _ => OwnerGoesOn(s, id);
  }
}
