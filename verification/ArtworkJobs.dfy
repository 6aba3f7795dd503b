/** Artwork downloads as a protocol: callers reserve a key, hand the job to a bounded channel,
and workers download, release the key and announce the outcome. Every lock section and every
channel operation is a step of its own.

A job is named by the call that asked for it. `calls`, `holder`, `events` and `removals` are
history: what a step does to the key set, the channel and the workers never depends on them.
 */
module ArtworkJobs {
  import opened Prelude

  type Key = nat

  datatype Answer = Pending | Saturated | RetryLater | Unavailable

  datatype Stage =
    | Asking                                   // not backing off; has not tried to reserve its key
    | Reserved                                 // its key is reserved, `try_send` to come
    | Rejecting(answer: Answer)                // `try_send` failed, the key still reserved
    | Waiting                                  // in the channel
    | Downloading(worker: nat)
    | Announcing(worker: nat)                  // key released, event to come
    | Announced
    | Turned(answer: Answer)                   // answered without a job of its own

  datatype Call = Call(key: Key, stage: Stage)

  datatype Worker = Idle | Busy(job: nat) | Released(job: nat)

  datatype State = State(
    queued: set<Key>,
    channel: seq<nat>,
    workers: seq<Worker>,
    calls: map<nat, Call>,
    holder: map<Key, nat>,
    events: multiset<nat>,
    removals: multiset<nat>)                   // keys released by workers

  // A cache without storage has no sender; one whose workers could not be started, no receiver.
  datatype Link = NoSender | NoReceiver | Open

  // How the cache was set up.
  datatype Setup = Setup(capacity: nat, link: Link)

  datatype Step =
    | Ask(id: nat, key: Key, backingOff: bool)
    | Reserve(id: nat)
    | TrySend(id: nat)
    | Reject(id: nat)
    | Receive(worker: nat)
    | Release(worker: nat)
    | Announce(worker: nat)

  function Initial(workers: nat): State {
    State({}, [], seq(workers, _ => Idle), map[], map[], multiset{}, multiset{})
  }

  predicate Accepts(s: State, setup: Setup) {
    setup.link.Open? && |s.channel| < Max(setup.capacity, 1)
  }

  predicate Enabled(s: State, step: Step) {
    match step
    case Ask(id, _, _) => id !in s.calls
    case Reserve(id) => id in s.calls && s.calls[id].stage.Asking?
    case TrySend(id) => id in s.calls && s.calls[id].stage.Reserved?
    case Reject(id) => id in s.calls && s.calls[id].stage.Rejecting?
    case Receive(w) => w < |s.workers| && s.workers[w].Idle? && s.channel != [] && s.channel[0] in s.calls
    case Release(w) => w < |s.workers| && s.workers[w].Busy? && s.workers[w].job in s.calls
    case Announce(w) => w < |s.workers| && s.workers[w].Released? && s.workers[w].job in s.calls
  }

  // ---- What a step makes of each part of the state ----

  // The call a step moves, and its new stage.
  function Mover(s: State, step: Step): nat
    requires Enabled(s, step)
  {
    match step
    case Ask(id, _, _) => id
    case Reserve(id) => id
    case TrySend(id) => id
    case Reject(id) => id
    case Receive(_) => s.channel[0]
    case Release(w) => s.workers[w].job
    case Announce(w) => s.workers[w].job
  }

  function Moved(s: State, step: Step, setup: Setup): Call
    requires Enabled(s, step)
  {
    match step
    case Ask(_, key, backingOff) =>
      Call(key, if setup.link.NoSender? then Turned(Unavailable)
                else if backingOff then Turned(RetryLater) else Asking)
    case Reserve(id) =>
      s.calls[id].(stage := if s.calls[id].key in s.queued then Turned(Pending) else Reserved)
    case TrySend(id) =>
      s.calls[id].(stage := if Accepts(s, setup) then Waiting
                            else Rejecting(if setup.link.Open? then Saturated else Unavailable))
    case Reject(id) => s.calls[id].(stage := Turned(s.calls[id].stage.answer))
    case Receive(w) => s.calls[s.channel[0]].(stage := Downloading(w))
    case Release(w) => s.calls[s.workers[w].job].(stage := Announcing(w))
    case Announce(w) => s.calls[s.workers[w].job].(stage := Announced)
  }

  function NextCalls(s: State, step: Step, setup: Setup): map<nat, Call>
    requires Enabled(s, step)
  {
    s.calls[Mover(s, step) := Moved(s, step, setup)]
  }

  function NextQueued(s: State, step: Step): set<Key>
    requires Enabled(s, step)
  {
    match step
    case Reserve(id) => s.queued + {s.calls[id].key}
    case Reject(id) => s.queued - {s.calls[id].key}
    case Release(w) => s.queued - {s.calls[s.workers[w].job].key}
    case _ => s.queued
  }

  function NextHolder(s: State, step: Step): map<Key, nat>
    requires Enabled(s, step)
  {
    match step
    case Reserve(id) => if s.calls[id].key in s.queued then s.holder else s.holder[s.calls[id].key := id]
    case Reject(id) => s.holder - {s.calls[id].key}
    case Release(w) => s.holder - {s.calls[s.workers[w].job].key}
    case _ => s.holder
  }

  function NextChannel(s: State, step: Step, setup: Setup): seq<nat>
    requires Enabled(s, step)
  {
    match step
    case TrySend(id) => if Accepts(s, setup) then s.channel + [id] else s.channel
    case Receive(_) => s.channel[1..]
    case _ => s.channel
  }

  function NextWorkers(s: State, step: Step): seq<Worker>
    requires Enabled(s, step)
  {
    match step
    case Receive(w) => s.workers[w := Busy(s.channel[0])]
    case Release(w) => s.workers[w := Released(s.workers[w].job)]
    case Announce(w) => s.workers[w := Idle]
    case _ => s.workers
  }

  function Next(s: State, step: Step, setup: Setup): State
    requires Enabled(s, step)
  {
    State(NextQueued(s, step), NextChannel(s, step, setup), NextWorkers(s, step), NextCalls(s, step, setup),
          NextHolder(s, step),
          if step.Announce? then s.events + multiset{Mover(s, step)} else s.events,
          if step.Release? then s.removals + multiset{Mover(s, step)} else s.removals)
  }

  // ---- The invariant ----

  // A call whose key is reserved for it.
  predicate Holding(stage: Stage) {
    stage.Reserved? || stage.Rejecting? || stage.Waiting? || stage.Downloading?
  }

  // A call whose job went into the channel.
  predicate Sent(stage: Stage) {
    stage.Waiting? || stage.Downloading? || stage.Announcing? || stage.Announced?
  }

  function StageOf(calls: map<nat, Call>, id: nat): Stage {
    if id in calls then calls[id].stage else Asking
  }

  // A reserved key has exactly the call it is reserved for.
  predicate HolderOk(holder: map<Key, nat>, id: nat, c: Call) {
    Holding(c.stage) ==> c.key in holder && holder[c.key] == id
  }

  predicate KeyOk(calls: map<nat, Call>, k: Key, id: nat) {
    id in calls && Holding(calls[id].stage) && calls[id].key == k
  }

  // A job at a worker is the one the worker has.
  predicate AtWorker(workers: seq<Worker>, id: nat, stage: Stage) {
    match stage
    case Downloading(w) => w < |workers| && workers[w] == Busy(id)
    case Announcing(w) => w < |workers| && workers[w] == Released(id)
    case _ => true
  }

  predicate WorkerOk(calls: map<nat, Call>, w: nat, worker: Worker) {
    match worker
    case Idle => true
    case Busy(job) => job in calls && calls[job].stage == Downloading(w)
    case Released(job) => job in calls && calls[job].stage == Announcing(w)
  }

  predicate InChannelOk(channel: seq<nat>, id: nat, stage: Stage) {
    multiset(channel)[id] == if stage.Waiting? then 1 else 0
  }

  predicate TalliesOk(removals: multiset<nat>, events: multiset<nat>, id: nat, stage: Stage) {
    && removals[id] == (if stage.Announcing? || stage.Announced? then 1 else 0)
    && events[id] == (if stage.Announced? then 1 else 0)
  }

  predicate Counted(s: State, id: nat) {
    var stage := StageOf(s.calls, id);
    InChannelOk(s.channel, id, stage) && TalliesOk(s.removals, s.events, id, stage)
  }

  ghost predicate Conserved(s: State) {
    && s.queued == s.holder.Keys
    && (forall id :: id in s.calls ==> HolderOk(s.holder, id, s.calls[id]))
    && (forall k :: k in s.holder ==> KeyOk(s.calls, k, s.holder[k]))
    && (forall id :: id in s.calls ==> AtWorker(s.workers, id, s.calls[id].stage))
    && (forall w :: 0 <= w < |s.workers| ==> WorkerOk(s.calls, w, s.workers[w]))
    && (forall id :: Counted(s, id))
  }

  // Where the call a step moves stands before the step.
  lemma {:induction false} MoverStands(s: State, step: Step)
    requires Conserved(s) && Enabled(s, step)
    ensures step.Receive? ==> StageOf(s.calls, Mover(s, step)).Waiting?
    ensures step.Release? ==> StageOf(s.calls, Mover(s, step)) == Downloading(step.worker)
    ensures step.Announce? ==> StageOf(s.calls, Mover(s, step)) == Announcing(step.worker)
  {
    match step
    case Receive(_) =>
      assert Counted(s, s.channel[0]);
      assert s.channel[0] in multiset(s.channel);
    case Release(w) => assert WorkerOk(s.calls, w, s.workers[w]);
    case Announce(w) => assert WorkerOk(s.calls, w, s.workers[w]);
    case _ =>
  }

  lemma {:induction false} StepKeepsHolders(s: State, step: Step, setup: Setup, id: nat)
    requires Conserved(s) && Enabled(s, step) && id in NextCalls(s, step, setup)
    ensures HolderOk(NextHolder(s, step), id, NextCalls(s, step, setup)[id])
  {
    MoverStands(s, step);
    if id in s.calls {
      assert HolderOk(s.holder, id, s.calls[id]);
    }
    if Mover(s, step) in s.calls {
      assert HolderOk(s.holder, Mover(s, step), s.calls[Mover(s, step)]);
    }
  }

  lemma {:induction false} StepKeepsKey(s: State, step: Step, setup: Setup, k: Key)
    requires Conserved(s) && Enabled(s, step) && k in NextHolder(s, step)
    ensures KeyOk(NextCalls(s, step, setup), k, NextHolder(s, step)[k])
  {
    MoverStands(s, step);
    if k in s.holder {
      assert KeyOk(s.calls, k, s.holder[k]);
    }
  }

  lemma {:induction false} StepKeepsQueued(s: State, step: Step)
    requires s.queued == s.holder.Keys && Enabled(s, step)
    ensures NextQueued(s, step) == NextHolder(s, step).Keys
  {
  }

  lemma {:induction false} StepKeepsAtWorker(s: State, step: Step, setup: Setup, id: nat)
    requires Conserved(s) && Enabled(s, step) && id in NextCalls(s, step, setup)
    ensures AtWorker(NextWorkers(s, step), id, NextCalls(s, step, setup)[id].stage)
  {
    MoverStands(s, step);
    if id in s.calls {
      assert AtWorker(s.workers, id, s.calls[id].stage);
    }
  }

  lemma {:induction false} StepKeepsWorker(s: State, step: Step, setup: Setup, w: nat)
    requires Conserved(s) && Enabled(s, step) && w < |s.workers|
    ensures WorkerOk(NextCalls(s, step, setup), w, NextWorkers(s, step)[w])
  {
    MoverStands(s, step);
    assert WorkerOk(s.calls, w, s.workers[w]);
  }

  lemma {:induction false} StepCountsChannel(s: State, step: Step, setup: Setup, id: nat)
    requires Conserved(s) && Enabled(s, step)
    ensures InChannelOk(NextChannel(s, step, setup), id, StageOf(NextCalls(s, step, setup), id))
  {
    MoverStands(s, step);
    assert Counted(s, id);
    if step.Receive? {
      assert s.channel == [s.channel[0]] + s.channel[1..];
    }
  }

  lemma {:induction false} StepCountsTallies(s: State, step: Step, setup: Setup, id: nat)
    requires Conserved(s) && Enabled(s, step)
    ensures TalliesOk(Next(s, step, setup).removals, Next(s, step, setup).events, id,
                      StageOf(NextCalls(s, step, setup), id))
  {
    MoverStands(s, step);
    assert Counted(s, id);
  }

  lemma {:induction false} StepCounts(s: State, step: Step, setup: Setup, id: nat)
    requires Conserved(s) && Enabled(s, step)
    ensures Counted(Next(s, step, setup), id)
  {
    StepCountsChannel(s, step, setup, id);
    StepCountsTallies(s, step, setup, id);
  }

  lemma {:induction false} StepConserves(s: State, step: Step, setup: Setup)
    requires Conserved(s) && Enabled(s, step)
    ensures Conserved(Next(s, step, setup))
  {
    StepKeepsQueued(s, step);
    forall id | id in NextCalls(s, step, setup)
      ensures HolderOk(NextHolder(s, step), id, NextCalls(s, step, setup)[id])
      ensures AtWorker(NextWorkers(s, step), id, NextCalls(s, step, setup)[id].stage)
    {
      StepKeepsHolders(s, step, setup, id);
      StepKeepsAtWorker(s, step, setup, id);
    }
    forall k | k in NextHolder(s, step) ensures KeyOk(NextCalls(s, step, setup), k, NextHolder(s, step)[k]) {
      StepKeepsKey(s, step, setup, k);
    }
    forall w | 0 <= w < |s.workers| ensures WorkerOk(NextCalls(s, step, setup), w, NextWorkers(s, step)[w]) {
      StepKeepsWorker(s, step, setup, w);
    }
    forall id ensures Counted(Next(s, step, setup), id) {
      StepCounts(s, step, setup, id);
    }
  }

  // ---- Runs ----

  ghost predicate IsRun(states: seq<State>, steps: seq<Step>, setup: Setup, workers: nat) {
    && |states| == |steps| + 1 && states[0] == Initial(workers)
    && forall i :: 0 <= i < |steps| ==>
         Enabled(states[i], steps[i]) && states[i + 1] == Next(states[i], steps[i], setup)
  }

  lemma {:induction false} RunConserves(states: seq<State>, steps: seq<Step>, setup: Setup, workers: nat, i: nat)
    requires IsRun(states, steps, setup, workers) && i <= |steps|
    ensures Conserved(states[i])
    decreases i
  {
    if i > 0 {
      RunConserves(states, steps, setup, workers, i - 1);
      StepConserves(states[i - 1], steps[i - 1], setup);
    }
  }

  /** Each key has at most one live job, and every live job's key is reserved. */
  lemma {:induction false} OneLiveJobPerKey(
      states: seq<State>, steps: seq<Step>, setup: Setup, workers: nat, i: nat, a: nat, b: nat)
    requires IsRun(states, steps, setup, workers) && i <= |steps|
    requires a in states[i].calls && Holding(states[i].calls[a].stage)
    requires b in states[i].calls && Holding(states[i].calls[b].stage)
    ensures states[i].calls[a].key in states[i].queued
    ensures states[i].calls[a].key == states[i].calls[b].key ==> a == b
  {
    RunConserves(states, steps, setup, workers, i);
    assert HolderOk(states[i].holder, a, states[i].calls[a]) && HolderOk(states[i].holder, b, states[i].calls[b]);
  }

  /** What is in the channel or being downloaded is live, and there is nothing twice. */
  lemma {:induction false} JobsAreLive(
      states: seq<State>, steps: seq<Step>, setup: Setup, workers: nat, i: nat, id: nat)
    requires IsRun(states, steps, setup, workers) && i <= |steps|
    requires id in states[i].channel || exists w :: 0 <= w < |states[i].workers| && states[i].workers[w] == Busy(id)
    ensures id in states[i].calls && states[i].calls[id].key in states[i].queued
    ensures var busy := set w | 0 <= w < |states[i].workers| && states[i].workers[w] == Busy(id);
            multiset(states[i].channel)[id] + |busy| == 1
  {
    RunConserves(states, steps, setup, workers, i);
    var s := states[i];
    assert Counted(s, id);
    var busy := set w | 0 <= w < |s.workers| && s.workers[w] == Busy(id);
    if id in s.channel {
      assert id in multiset(s.channel);
      assert forall w :: 0 <= w < |s.workers| ==> WorkerOk(s.calls, w, s.workers[w]);
      assert busy == {};
    } else {
      var w :| 0 <= w < |s.workers| && s.workers[w] == Busy(id);
      assert forall v :: 0 <= v < |s.workers| ==> WorkerOk(s.calls, v, s.workers[v]);
      assert busy == {w};
    }
    assert HolderOk(s.holder, id, s.calls[id]);
  }

  predicate Quiet(s: State) {
    s.channel == [] && forall w :: 0 <= w < |s.workers| ==> s.workers[w].Idle?
  }

  /** Conservation. No job is announced or released twice, and once the workers have nothing
      left every job that was sent has been announced once and its key released once. */
  lemma {:induction false} SentJobsEnd(
      states: seq<State>, steps: seq<Step>, setup: Setup, workers: nat, i: nat, id: nat)
    requires IsRun(states, steps, setup, workers) && i <= |steps|
    ensures states[i].events[id] <= states[i].removals[id] <= 1
    ensures states[i].removals[id] == 1 ==> Sent(StageOf(states[i].calls, id))
    ensures Quiet(states[i]) && Sent(StageOf(states[i].calls, id)) ==>
              states[i].events[id] == 1 && states[i].removals[id] == 1
  {
    RunConserves(states, steps, setup, workers, i);
    assert Counted(states[i], id);
    if id in states[i].calls {
      assert AtWorker(states[i].workers, id, states[i].calls[id].stage);
    }
  }

  // ---- Workers get through their jobs ----

  function Load(workers: seq<Worker>): nat {
    if workers == [] then 0
    else Load(workers[1..]) + (match workers[0] case Idle => 0 case Busy(_) => 2 case Released(_) => 1)
  }

  // Worker steps still owed.
  function Owed(s: State): nat {
    3 * |s.channel| + Load(s.workers)
  }

  predicate WorkerStep(step: Step) {
    step.Receive? || step.Release? || step.Announce?
  }

  lemma {:induction false} LoadUpdate(workers: seq<Worker>, w: nat, next: Worker)
    requires w < |workers|
    ensures Load(workers[w := next]) - Load([next]) == Load(workers) - Load([workers[w]])
  {
    if w == 0 {
      assert workers[w := next][1..] == workers[1..];
    } else {
      assert workers[w := next][1..] == workers[1..][w - 1 := next];
      LoadUpdate(workers[1..], w - 1, next);
    }
  }

  /** Every worker step is one step of what is owed, and while the workers are not quiet one
      of them can step: with a worker, any stretch of worker steps ends quiet. */
  lemma {:induction false} WorkersProgress(s: State, step: Step, setup: Setup)
    requires Conserved(s)
    ensures Enabled(s, step) && WorkerStep(step) ==> Owed(Next(s, step, setup)) == Owed(s) - 1
    ensures s.workers != [] && !Quiet(s) ==> exists next :: WorkerStep(next) && Enabled(s, next)
  {
    if Enabled(s, step) && WorkerStep(step) {
      LoadUpdate(s.workers, step.worker, NextWorkers(s, step)[step.worker]);
    }
    if s.workers != [] && !Quiet(s) {
      SomeWorkerCanStep(s);
    }
  }

  lemma {:induction false} SomeWorkerCanStep(s: State)
    requires Conserved(s) && s.workers != [] && !Quiet(s)
    ensures exists next :: WorkerStep(next) && Enabled(s, next)
  {
    if w: nat :| w < |s.workers| && !s.workers[w].Idle? {
      assert WorkerOk(s.calls, w, s.workers[w]);
      var next := if s.workers[w].Busy? then Release(w) else Announce(w);
      assert WorkerStep(next) && Enabled(s, next);
    } else {
      assert Counted(s, s.channel[0]);
      assert s.channel[0] in multiset(s.channel);
      assert WorkerStep(Receive(0)) && Enabled(s, Receive(0));
    }
  }

  // ---- First in, first out ----

  // The job this step sends, and the one it receives.
  function SentAt(step: Step, next: State): seq<nat> {
    if step.TrySend? && StageOf(next.calls, step.id).Waiting? then [step.id] else []
  }

  function ReceivedAt(step: Step, next: State): seq<nat> {
    if step.Receive? && step.worker < |next.workers| && next.workers[step.worker].Busy?
    then [next.workers[step.worker].job] else []
  }

  // All jobs sent in the first i steps, in order, and all received.
  ghost function Sendings(states: seq<State>, steps: seq<Step>, i: nat): seq<nat>
    requires |states| == |steps| + 1 && i <= |steps|
  {
    if i == 0 then [] else Sendings(states, steps, i - 1) + SentAt(steps[i - 1], states[i])
  }

  ghost function Receipts(states: seq<State>, steps: seq<Step>, i: nat): seq<nat>
    requires |states| == |steps| + 1 && i <= |steps|
  {
    if i == 0 then [] else Receipts(states, steps, i - 1) + ReceivedAt(steps[i - 1], states[i])
  }

  lemma {:induction false} StepKeepsOrder(s: State, step: Step, setup: Setup)
    requires Enabled(s, step)
    ensures var next := Next(s, step, setup); ReceivedAt(step, next) + next.channel == s.channel + SentAt(step, next)
  {
    if step.Receive? {
      assert s.channel == [s.channel[0]] + s.channel[1..];
    }
  }

  /** Jobs are received in the order in which they were sent, and the channel holds the rest. */
  lemma {:induction false} FirstInFirstOut(states: seq<State>, steps: seq<Step>, setup: Setup, workers: nat, i: nat)
    requires IsRun(states, steps, setup, workers) && i <= |steps|
    ensures Sendings(states, steps, i) == Receipts(states, steps, i) + states[i].channel
  {
    if i > 0 {
      FirstInFirstOut(states, steps, setup, workers, i - 1);
      StepKeepsOrder(states[i - 1], steps[i - 1], setup);
      Queued(Receipts(states, steps, i - 1), states[i - 1].channel, SentAt(steps[i - 1], states[i]),
             ReceivedAt(steps[i - 1], states[i]), states[i].channel);
    }
  }

  lemma {:induction false} Queued(
      before: seq<nat>, channel: seq<nat>, sent: seq<nat>, received: seq<nat>, left: seq<nat>)
    requires received + left == channel + sent
    ensures (before + channel) + sent == (before + received) + left
  {
    Regrouped(before, channel, sent);
    Regrouped(before, received, left);
  }

  // ---- Answers ----

  // Why a call is told this at this step.
  predicate Tells(s: State, step: Step, setup: Setup, id: nat, a: Answer) {
    match a
    case RetryLater => step.Ask? && step.id == id && step.backingOff && !setup.link.NoSender?
    case Unavailable =>
      || (step.Ask? && step.id == id && setup.link.NoSender?)
      || (step == TrySend(id) && !setup.link.Open?)
    case Saturated => step == TrySend(id) && setup.link.Open? && |s.channel| >= Max(setup.capacity, 1)
    case Pending =>
      || (step == Reserve(id) && id in s.calls && s.calls[id].key in s.queued)
      || (step == TrySend(id) && setup.link.Open? && |s.channel| < Max(setup.capacity, 1))
  }

  // What a call will be told, from the moment that is settled.
  function WillBeTold(stage: Stage): Option<Answer> {
    match stage
    case Asking => None
    case Reserved => None
    case Rejecting(a) => Some(a)
    case Turned(a) => Some(a)
    case _ => Some(Pending)
  }

  lemma {:induction false} StepTells(s: State, step: Step, setup: Setup, id: nat, a: Answer)
    requires Conserved(s) && Enabled(s, step) && id in NextCalls(s, step, setup)
    ensures WillBeTold(NextCalls(s, step, setup)[id].stage) == Some(a) <==>
            Tells(s, step, setup, id, a) || (id in s.calls && WillBeTold(s.calls[id].stage) == Some(a))
  {
    MoverStands(s, step);
    match step
    case Ask(_, _, _) =>
    case Reserve(_) =>
    case TrySend(_) =>
    case Reject(_) =>
    case Receive(_) =>
    case Release(_) =>
    case Announce(_) =>
  }

  /** Answers. A call is told `RetryLater` exactly when it backs off, `Unavailable` without a sender
      or receiver, `Saturated` when it finds the channel full, and `Pending` when its key is reserved
      already or its job is sent; what is settled never changes. */
  lemma {:induction false} ToldIff(
      states: seq<State>, steps: seq<Step>, setup: Setup, workers: nat, j: nat, id: nat, a: Answer)
    requires IsRun(states, steps, setup, workers) && j <= |steps| && id in states[j].calls
    ensures WillBeTold(states[j].calls[id].stage) == Some(a) <==>
            exists i :: 0 <= i < j && Tells(states[i], steps[i], setup, id, a)
  {
    RunConserves(states, steps, setup, workers, j - 1);
    StepTells(states[j - 1], steps[j - 1], setup, id, a);
    if id in states[j - 1].calls {
      ToldIff(states, steps, setup, workers, j - 1, id, a);
    } else {
      NoStepYet(states, steps, setup, workers, j - 1, id, a);
    }
  }

  lemma {:induction false} NoStepYet(
      states: seq<State>, steps: seq<Step>, setup: Setup, workers: nat, j: nat, id: nat, a: Answer)
    requires IsRun(states, steps, setup, workers) && j <= |steps| && id !in states[j].calls
    ensures forall i :: 0 <= i < j ==> !Tells(states[i], steps[i], setup, id, a)
  {
    if j > 0 {
      NoStepYet(states, steps, setup, workers, j - 1, id, a);
    }
  }

  // ---- Duplicate callers ----

  // The stages a call can be in once its key is reserved for it.
  predicate OnItsWay(stage: Stage) {
    || Sent(stage) || stage.Reserved?
    || ((stage.Rejecting? || stage.Turned?) && (stage.answer == Saturated || stage.answer == Unavailable))
  }

  // What a call was told, once it is over.
  function Told(stage: Stage): Option<Answer> {
    match stage
    case Asking => None
    case Reserved => None
    case Rejecting(_) => None
    case Turned(a) => Some(a)
    case _ => Some(Pending)
  }

  predicate RejectingOk(s: State) {
    forall id :: id in s.calls && s.calls[id].stage.Rejecting? ==> OnItsWay(s.calls[id].stage)
  }

  lemma {:induction false} RunKeepsRejecting(states: seq<State>, steps: seq<Step>, setup: Setup, workers: nat, i: nat)
    requires IsRun(states, steps, setup, workers) && i <= |steps|
    ensures RejectingOk(states[i])
    decreases i
  {
    if i > 0 {
      RunKeepsRejecting(states, steps, setup, workers, i - 1);
    }
  }

  lemma {:induction false} StaysOnItsWay(
      states: seq<State>, steps: seq<Step>, setup: Setup, workers: nat, i: nat, j: nat, id: nat)
    requires IsRun(states, steps, setup, workers) && i <= j <= |steps|
    requires id in states[i].calls && OnItsWay(states[i].calls[id].stage)
    ensures id in states[j].calls && OnItsWay(states[j].calls[id].stage)
    decreases j
  {
    if i < j {
      StaysOnItsWay(states, steps, setup, workers, i, j - 1, id);
      RunConserves(states, steps, setup, workers, j - 1);
      StepOnItsWay(states[j - 1], steps[j - 1], setup, id);
    }
  }

  lemma {:induction false} StepOnItsWay(s: State, step: Step, setup: Setup, id: nat)
    requires Conserved(s) && Enabled(s, step) && id in s.calls && OnItsWay(s.calls[id].stage)
    ensures id in NextCalls(s, step, setup) && OnItsWay(NextCalls(s, step, setup)[id].stage)
  {
    MoverStands(s, step);
  }

  /** A caller told `Pending` because its key is reserved waits for the call that holds the key.
      That call's job is not announced yet, and once it is over and the workers are quiet it has
      been announced exactly when that call was told `Pending` too. */
  lemma {:induction false} DuplicateIsServedIff(
      states: seq<State>, steps: seq<Step>, setup: Setup, workers: nat, i: nat, j: nat, id: nat)
    requires IsRun(states, steps, setup, workers) && i < j <= |steps|
    requires steps[i] == Reserve(id) && states[i].calls[id].key in states[i].queued
    ensures states[i + 1].calls[id].stage == Turned(Pending)
    ensures states[i].calls[id].key in states[i].holder
    ensures var h := states[i].holder[states[i].calls[id].key];
            && states[i].events[h] == 0
            && (Quiet(states[j]) && Told(StageOf(states[j].calls, h)).Some? ==>
                  (states[j].events[h] == 1 <==> Told(StageOf(states[j].calls, h)) == Some(Pending)))
  {
    RunConserves(states, steps, setup, workers, i);
    RunKeepsRejecting(states, steps, setup, workers, i);
    var h := states[i].holder[states[i].calls[id].key];
    assert KeyOk(states[i].calls, states[i].calls[id].key, h);
    assert Counted(states[i], h);
    StaysOnItsWay(states, steps, setup, workers, i, j, h);
    SentJobsEnd(states, steps, setup, workers, j, h);
  }

  // ---- A duplicate that is dropped ----

  ghost predicate Leads(s: State, steps: seq<Step>, t: State, setup: Setup)
    decreases |steps|
  {
    if steps == [] then s == t
    else Enabled(s, steps[0]) && Leads(Next(s, steps[0], setup), steps[1..], t, setup)
  }

  ghost predicate Reaches(s: State, t: State, setup: Setup) {
    exists steps :: Leads(s, steps, t, setup)
  }

  lemma {:induction false} Stays(s: State, setup: Setup)
    ensures Reaches(s, s, setup)
  {
    assert Leads(s, [], s, setup);
  }

  // One more step at the front.
  lemma {:induction false} StepsTo(s: State, step: Step, t: State, setup: Setup)
    requires Enabled(s, step) && Reaches(Next(s, step, setup), t, setup)
    ensures Reaches(s, t, setup)
  {
    var steps :| Leads(Next(s, step, setup), steps, t, setup);
    assert ([step] + steps)[1..] == steps;
    assert Leads(s, [step] + steps, t, setup);
  }

  // The calls that were turned away stay so, with their keys.
  ghost predicate KeepsTurned(s: State, t: State) {
    && t.calls.Keys == s.calls.Keys
    && forall id :: id in s.calls ==>
         t.calls[id].key == s.calls[id].key && (s.calls[id].stage.Turned? ==> t.calls[id] == s.calls[id])
  }

  lemma {:induction false} WorkerStepKeepsTurned(s: State, step: Step, setup: Setup)
    requires Conserved(s) && Enabled(s, step) && WorkerStep(step)
    ensures KeepsTurned(s, Next(s, step, setup))
  {
    MoverStands(s, step);
  }

  // With a worker, the workers get through everything that was sent.
  lemma {:induction false} Drains(s: State, setup: Setup) returns (t: State)
    requires Conserved(s) && s.workers != []
    ensures Reaches(s, t, setup) && Conserved(t) && Quiet(t) && KeepsTurned(s, t)
    decreases Owed(s)
  {
    if Quiet(s) {
      t := s;
      Stays(s, setup);
    } else {
      SomeWorkerCanStep(s);
      var step :| WorkerStep(step) && Enabled(s, step);
      WorkersProgress(s, step, setup);
      StepConserves(s, step, setup);
      WorkerStepKeepsTurned(s, step, setup);
      t := Drains(Next(s, step, setup), setup);
      StepsTo(s, step, t, setup);
    }
  }

  // n calls have sent jobs for n keys, and no worker has taken one yet.
  ghost predicate Filled(s: State, n: nat) {
    && Conserved(s) && |s.channel| == n
    && (forall id: nat :: id in s.calls <==> id < n)
    && (forall id :: id in s.calls ==> s.calls[id].key == id)
    && (forall k :: k in s.queued ==> k < n)
  }

  // A call asks for a key and tries to reserve it.
  function Asks(s: State, id: nat, key: Key, setup: Setup): State
    requires id !in s.calls && setup.link.Open?
  {
    var asked := Next(s, Ask(id, key, false), setup);
    Next(asked, Reserve(id), setup)
  }

  lemma {:induction false} AsksOne(s: State, id: nat, key: Key, setup: Setup)
    requires Conserved(s) && id !in s.calls && setup.link.Open?
    ensures Conserved(Asks(s, id, key, setup))
    ensures forall t :: Reaches(Asks(s, id, key, setup), t, setup) ==> Reaches(s, t, setup)
  {
    var asked := Next(s, Ask(id, key, false), setup);
    StepConserves(s, Ask(id, key, false), setup);
    StepConserves(asked, Reserve(id), setup);
    forall t | Reaches(Asks(s, id, key, setup), t, setup) ensures Reaches(s, t, setup) {
      StepsTo(asked, Reserve(id), t, setup);
      StepsTo(s, Ask(id, key, false), t, setup);
    }
  }

  lemma {:induction false} FillsOne(s: State, n: nat, setup: Setup) returns (next: State)
    requires Filled(s, n) && setup.link.Open? && n < Max(setup.capacity, 1)
    ensures Filled(next, n + 1) && next.workers == s.workers
    ensures forall t :: Reaches(next, t, setup) ==> Reaches(s, t, setup)
  {
    var asked := Asks(s, n, n, setup);
    AsksOne(s, n, n, setup);
    next := Next(asked, TrySend(n), setup);
    StepConserves(asked, TrySend(n), setup);
    forall t | Reaches(next, t, setup) ensures Reaches(s, t, setup) {
      StepsTo(asked, TrySend(n), t, setup);
    }
  }

  lemma {:induction false} FillsUp(workers: nat, n: nat, setup: Setup) returns (s: State)
    requires setup.link.Open? && n <= Max(setup.capacity, 1)
    ensures Filled(s, n) && |s.workers| == workers
    ensures forall t :: Reaches(s, t, setup) ==> Reaches(Initial(workers), t, setup)
  {
    if n == 0 {
      s := Initial(workers);
    } else {
      var before := FillsUp(workers, n - 1, setup);
      s := FillsOne(before, n - 1, setup);
    }
  }

  // Call a, which reserved its key when the channel was full, and call b, told `Pending` for that
  // key, are the only calls that asked for it, and both are over.
  ghost predicate BothTurned(s: State, a: nat, b: nat, key: Key) {
    && a in s.calls && s.calls[a] == Call(key, Turned(Saturated))
    && b in s.calls && s.calls[b] == Call(key, Turned(Pending))
    && forall id :: id in s.calls && id != a && id != b ==> s.calls[id].key != key
  }

  // Call a has reserved the key, call b was told `Pending` for it, and the channel is full.
  ghost predicate Duplicated(s: State, a: nat, b: nat, key: Key, setup: Setup) {
    && a in s.calls && s.calls[a] == Call(key, Reserved)
    && b in s.calls && s.calls[b] == Call(key, Turned(Pending))
    && (forall id :: id in s.calls && id != a && id != b ==> s.calls[id].key != key)
    && setup.link.Open? && !Accepts(s, setup)
  }

  lemma {:induction false} Duplicates(s: State, n: nat, setup: Setup) returns (told: State)
    requires Filled(s, n) && setup.link.Open? && n == Max(setup.capacity, 1)
    ensures Conserved(told) && Duplicated(told, n, n + 1, n, setup) && told.workers == s.workers
    ensures forall u :: Reaches(told, u, setup) ==> Reaches(s, u, setup)
  {
    var first := Asks(s, n, n, setup);
    AsksOne(s, n, n, setup);
    told := Asks(first, n + 1, n, setup);
    AsksOne(first, n + 1, n, setup);
  }

  lemma {:induction false} TurnsBoth(told: State, a: nat, b: nat, key: Key, setup: Setup) returns (t: State)
    requires Conserved(told) && Duplicated(told, a, b, key, setup)
    ensures Conserved(t) && BothTurned(t, a, b, key) && t.workers == told.workers
    ensures forall u :: Reaches(t, u, setup) ==> Reaches(told, u, setup)
  {
    var refused := Next(told, TrySend(a), setup);
    StepConserves(told, TrySend(a), setup);
    t := Next(refused, Reject(a), setup);
    StepConserves(refused, Reject(a), setup);
    forall u | Reaches(t, u, setup) ensures Reaches(told, u, setup) {
      StepsTo(refused, Reject(a), u, setup);
      StepsTo(told, TrySend(a), u, setup);
    }
  }

  // A call told `Pending` whose key nothing was ever announced for.
  ghost predicate Unserved(s: State, id: nat) {
    && id in s.calls && s.calls[id].stage == Turned(Pending)
    && forall other :: other in s.calls && s.calls[other].key == s.calls[id].key ==> s.events[other] == 0
  }

  ghost predicate LeavesUnserved(workers: nat, setup: Setup, t: State, id: nat) {
    Reaches(Initial(workers), t, setup) && Quiet(t) && Unserved(t, id)
  }

  /** `Pending` alone is no promise: with any number of workers and any capacity there is a run
      that ends quiet, in which a caller was told `Pending` and nothing was ever announced for
      that caller's key. */
  lemma {:induction false} DuplicateCanBeDropped(workers: nat, capacity: nat)
    requires workers > 0
    ensures exists t, id :: LeavesUnserved(workers, Setup(capacity, Open), t, id)
  {
    var setup, n := Setup(capacity, Open), Max(capacity, 1);
    var full := FillsUp(workers, n, setup);
    var told := Duplicates(full, n, setup);
    var turned := TurnsBoth(told, n, n + 1, n, setup);
    var t := Drains(turned, setup);
    forall other | other in t.calls && t.calls[other].key == n ensures t.events[other] == 0 {
      assert Counted(t, other);
    }
    assert Unserved(t, n + 1);
    assert LeavesUnserved(workers, setup, t, n + 1);
  }

  /** Without a sender nothing is reserved or sent, and every call is told so at once. */
  lemma {:induction false} NoSenderNoJobs(states: seq<State>, steps: seq<Step>, setup: Setup, workers: nat, i: nat)
    requires IsRun(states, steps, setup, workers) && i <= |steps| && setup.link.NoSender?
    ensures states[i].queued == {} && states[i].channel == []
    ensures forall id :: id in states[i].calls ==> states[i].calls[id].stage == Turned(Unavailable)
    decreases i
  {
    if i > 0 {
      NoSenderNoJobs(states, steps, setup, workers, i - 1);
      RunConserves(states, steps, setup, workers, i - 1);
      MoverStands(states[i - 1], steps[i - 1]);
    }
  }
}
