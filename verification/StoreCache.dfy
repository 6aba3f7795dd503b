/** The Store response cache as a protocol: calls of `load_or_fetch` interleave at every
point where the code lets go of a lock.

Scopes and keys are named by their digests (distinct digests, fixed length, so a file
belongs to a scope exactly when its name starts with it). `clock`, `born` and `floors` are
history: no step's outcome depends on them.
 */
module StoreCache {
  import opened Prelude

  const EPOCHS: nat := 0x1_0000_0000_0000_0000

  datatype Path = Path(scope: nat, key: nat)

  // What a fetch lock is for: a file and the epoch its callers saw.
  datatype Slot = Slot(path: Path, epoch: nat)

  // A response and the clock at which the call that fetched it captured its epoch.
  datatype Stored = Stored(value: nat, born: nat)

  datatype Pc =
    | Waiting                                  // not yet in the first epoch section
    | Clearing                                 // a refresh, deleting files under the epoch lock
    | Missed                                   // left the first section with an epoch
    | HasLock(lock: nat)                       // holds a reference to the fetch lock
    | Owner(lock: nat)                         // holds the fetch lock, second read to come
    | Fetching(lock: nat)
    | Fetched(lock: nat, value: nat)           // guarded write to come
    | Leaving(lock: nat, result: Option<Stored>)
    | Finished(result: Option<Stored>)         // `None` is an error

  datatype Call = Call(path: Path, refresh: bool, pc: Pc, epoch: nat, clock: nat, floor: nat)

  // The fetch locks: the table of weak references, and who holds which lock.
  datatype Locks = Locks(table: map<Slot, nat>, held: map<nat, nat>, next: nat)

  datatype State = State(
    epoch: nat,
    clearing: Option<nat>,                     // the call that keeps the epoch lock between steps
    disk: map<Path, Stored>,
    locks: Locks,
    calls: map<nat, Call>,
    clock: nat,                                // refreshes so far, without wrap-around
    floors: map<nat, nat>)                     // clock of the last finished refresh of a scope

  datatype Step =
    | Begin(id: nat, path: Path, refresh: bool)
    | FirstSection(id: nat)
    | StartClear(id: nat)
    | DeleteFile(id: nat, file: Path)
    | EndClear(id: nat)
    | TakeLock(id: nat)
    | Acquire(id: nat)
    | SecondRead(id: nat)
    | FetchOk(id: nat, value: nat)
    | FetchFail(id: nat)
    | Write(id: nat, persisted: bool, pruned: set<Path>)
    | Release(id: nat)
    | Cancel(id: nat)
    | LoseFile(file: Path)                     // corrupted or deleted from outside

  const INITIAL: State := State(0, None, map[], Locks(map[], map[], 0), map[], 0, map[])

  function Floor(floors: map<nat, nat>, scope: nat): nat {
    if scope in floors then floors[scope] else 0
  }

  function SlotOf(c: Call): Slot {
    Slot(c.path, c.epoch)
  }

  // A call that keeps a reference to a fetch lock.
  predicate Holds(pc: Pc) {
    pc.HasLock? || Owns(pc)
  }

  // A call inside the fetch lock.
  predicate Owns(pc: Pc) {
    pc.Owner? || pc.Fetching? || pc.Fetched? || pc.Leaving?
  }

  predicate Live(calls: map<nat, Call>, lock: nat) {
    exists id :: id in calls && Holds(calls[id].pc) && calls[id].pc.lock == lock
  }

  predicate Enabled(s: State, step: Step) {
    match step
    case Begin(id, _, _) => id !in s.calls
    case FirstSection(id) => id in s.calls && s.calls[id].pc.Waiting? && !s.calls[id].refresh && s.clearing.None?
    case StartClear(id) => id in s.calls && s.calls[id].pc.Waiting? && s.calls[id].refresh && s.clearing.None?
    case DeleteFile(id, file) =>
      id in s.calls && s.calls[id].pc.Clearing? && file in s.disk && file.scope == s.calls[id].path.scope
    case EndClear(id) =>
      id in s.calls && s.calls[id].pc.Clearing? && forall p :: p in s.disk ==> p.scope != s.calls[id].path.scope
    case TakeLock(id) => id in s.calls && s.calls[id].pc.Missed?
    case Acquire(id) => id in s.calls && s.calls[id].pc.HasLock? && s.calls[id].pc.lock !in s.locks.held
    case SecondRead(id) => id in s.calls && s.calls[id].pc.Owner?
    case FetchOk(id, _) => id in s.calls && s.calls[id].pc.Fetching?
    case FetchFail(id) => id in s.calls && s.calls[id].pc.Fetching?
    case Write(id, _, _) => id in s.calls && s.calls[id].pc.Fetched? && s.clearing.None?
    case Release(id) => id in s.calls && s.calls[id].pc.Leaving?
    case Cancel(id) => id in s.calls && (s.calls[id].pc.Waiting? || s.calls[id].pc.HasLock?)
    case LoseFile(file) => file in s.disk
  }

  // The lock a call gets: the table's own if some call still keeps it, or a new one.
  ghost function LockFor(s: State, slot: Slot): nat {
    if slot in s.locks.table && Live(s.calls, s.locks.table[slot]) then s.locks.table[slot] else s.locks.next
  }

  predicate Lands(s: State, id: nat, persisted: bool)
    requires id in s.calls
  {
    persisted && s.calls[id].epoch == s.epoch
  }

  // ---- What a step makes of each part of the state ----

  function NextEpoch(s: State, step: Step): nat {
    if step.StartClear? then (s.epoch + 1) % EPOCHS else s.epoch
  }

  function NextClearing(s: State, step: Step): Option<nat> {
    match step
    case StartClear(id) => Some(id)
    case EndClear(_) => None
    case _ => s.clearing
  }

  function NextDisk(s: State, step: Step): map<Path, Stored>
    requires Enabled(s, step)
  {
    match step
    case DeleteFile(_, file) => s.disk - {file}
    case LoseFile(file) => s.disk - {file}
    case Write(id, persisted, pruned) =>
      var c := s.calls[id];
      if Lands(s, id, persisted) then s.disk[c.path := Stored(c.pc.value, c.clock)] - pruned else s.disk
    case _ => s.disk
  }

  ghost function NextLocks(s: State, step: Step): Locks
    requires Enabled(s, step)
  {
    match step
    case TakeLock(id) =>
      var slot := SlotOf(s.calls[id]);
      var kept := map k | k in s.locks.table && Live(s.calls, s.locks.table[k]) :: s.locks.table[k];
      if slot in kept then s.locks.(table := kept)
      else s.locks.(table := kept[slot := s.locks.next], next := s.locks.next + 1)
    case Acquire(id) => s.locks.(held := s.locks.held[s.calls[id].pc.lock := id])
    case Release(id) => s.locks.(held := s.locks.held - {s.calls[id].pc.lock})
    case _ => s.locks
  }

  ghost function Moved(s: State, step: Step): Call
    requires Enabled(s, step) && !step.DeleteFile? && !step.LoseFile?
  {
    if step.Begin? then Call(step.path, step.refresh, Waiting, 0, 0, 0) else
    var c := s.calls[step.id];
    match step
    case FirstSection(_) =>
      var floor := Floor(s.floors, c.path.scope);
      if c.path in s.disk then c.(pc := Finished(Some(s.disk[c.path])), floor := floor)
      else c.(pc := Missed, epoch := s.epoch, clock := s.clock, floor := floor)
    case StartClear(_) => c.(pc := Clearing)
    case EndClear(_) => c.(pc := Missed, epoch := s.epoch, clock := s.clock, floor := s.clock)
    case TakeLock(_) => c.(pc := HasLock(LockFor(s, SlotOf(c))))
    case Acquire(_) => c.(pc := Owner(c.pc.lock))
    case SecondRead(_) =>
      if c.path in s.disk then c.(pc := Leaving(c.pc.lock, Some(s.disk[c.path])))
      else c.(pc := Fetching(c.pc.lock))
    case FetchOk(_, value) => c.(pc := Fetched(c.pc.lock, value))
    case FetchFail(_) => c.(pc := Leaving(c.pc.lock, None))
    case Write(_, _, _) => c.(pc := Leaving(c.pc.lock, Some(Stored(c.pc.value, c.clock))))
    case Release(_) => c.(pc := Finished(c.pc.result))
    case Cancel(_) => c.(pc := Finished(None))
  }

  ghost function NextCalls(s: State, step: Step): map<nat, Call>
    requires Enabled(s, step)
  {
    if step.DeleteFile? || step.LoseFile? then s.calls else s.calls[step.id := Moved(s, step)]
  }

  function NextClock(s: State, step: Step): nat {
    if step.StartClear? then s.clock + 1 else s.clock
  }

  function NextFloors(s: State, step: Step): map<nat, nat>
    requires Enabled(s, step)
  {
    if step.EndClear? then s.floors[s.calls[step.id].path.scope := s.clock] else s.floors
  }

  ghost function Next(s: State, step: Step): State
    requires Enabled(s, step)
  {
    State(NextEpoch(s, step), NextClearing(s, step), NextDisk(s, step), NextLocks(s, step), NextCalls(s, step),
          NextClock(s, step), NextFloors(s, step))
  }

  // ---- Locks ----

  ghost predicate TableOk(locks: Locks) {
    && (forall k :: k in locks.table ==> locks.table[k] < locks.next)
    && (forall k, k' :: k in locks.table && k' in locks.table && locks.table[k] == locks.table[k'] ==> k == k')
  }

  // The reference a call keeps is the one the table has for its file and epoch.
  predicate RefOk(locks: Locks, c: Call) {
    Holds(c.pc) ==> SlotOf(c) in locks.table && locks.table[SlotOf(c)] == c.pc.lock
  }

  // A call inside a fetch lock is the one that holds it.
  predicate OwnerOk(locks: Locks, id: nat, c: Call) {
    Owns(c.pc) ==> c.pc.lock in locks.held && locks.held[c.pc.lock] == id
  }

  ghost predicate CallsLocked(locks: Locks, calls: map<nat, Call>) {
    forall id :: id in calls ==> RefOk(locks, calls[id]) && OwnerOk(locks, id, calls[id])
  }

  ghost predicate LocksOk(s: State) {
    && TableOk(s.locks)
    && CallsLocked(s.locks, s.calls)
    && (forall l :: l in s.locks.held ==> HeldBy(s.calls, l, s.locks.held[l]))
  }

  // The call is inside that fetch lock.
  predicate HeldBy(calls: map<nat, Call>, l: nat, id: nat) {
    id in calls && Owns(calls[id].pc) && calls[id].pc.lock == l
  }

  lemma {:induction false} StepKeepsTable(s: State, step: Step)
    requires TableOk(s.locks) && Enabled(s, step)
    ensures TableOk(NextLocks(s, step))
  {
  }

  // A step leaves the locks of the calls it does not move as they were.
  lemma {:induction false} StepKeepsOthers(s: State, step: Step, c: nat)
    requires LocksOk(s) && Enabled(s, step) && c in s.calls
    requires !step.LoseFile? ==> c != step.id
    ensures RefOk(NextLocks(s, step), s.calls[c]) && OwnerOk(NextLocks(s, step), c, s.calls[c])
  {
    if step.TakeLock? && Holds(s.calls[c].pc) {
      assert Live(s.calls, s.calls[c].pc.lock);
    }
  }

  lemma {:induction false} StepKeepsMover(s: State, step: Step)
    requires LocksOk(s) && Enabled(s, step) && !step.DeleteFile? && !step.LoseFile?
    ensures RefOk(NextLocks(s, step), Moved(s, step)) && OwnerOk(NextLocks(s, step), step.id, Moved(s, step))
  {
  }

  lemma {:induction false} StepKeepsHeld(s: State, step: Step, l: nat)
    requires LocksOk(s) && Enabled(s, step) && l in NextLocks(s, step).held
    ensures HeldBy(NextCalls(s, step), l, NextLocks(s, step).held[l])
  {
    if l in s.locks.held && !(step.Release? && s.locks.held[l] == step.id) {
      StaysInside(s, step, l, s.locks.held[l]);
    }
  }

  // Only its own release takes a call out of its fetch lock.
  lemma {:induction false} StaysInside(s: State, step: Step, l: nat, id: nat)
    requires Enabled(s, step) && HeldBy(s.calls, l, id) && !(step.Release? && step.id == id)
    ensures HeldBy(NextCalls(s, step), l, id)
  {
  }

  lemma {:induction false} StepKeepsLocks(s: State, step: Step)
    requires LocksOk(s) && Enabled(s, step)
    ensures LocksOk(Next(s, step))
  {
    StepKeepsTable(s, step);
    forall c | c in NextCalls(s, step)
      ensures RefOk(NextLocks(s, step), NextCalls(s, step)[c]) && OwnerOk(NextLocks(s, step), c, NextCalls(s, step)[c])
    {
      if step.DeleteFile? || step.LoseFile? {
      } else if c == step.id {
        StepKeepsMover(s, step);
      } else {
        StepKeepsOthers(s, step, c);
      }
    }
    forall l | l in NextLocks(s, step).held
      ensures HeldBy(NextCalls(s, step), l, NextLocks(s, step).held[l])
    {
      StepKeepsHeld(s, step, l);
    }
  }

  // Two calls inside the fetch section of one file and epoch are one call, and all calls
  // waiting there wait for the same lock.
  lemma {:induction false} OneOwner(s: State, a: nat, b: nat)
    requires LocksOk(s) && a in s.calls && b in s.calls && SlotOf(s.calls[a]) == SlotOf(s.calls[b])
    requires Holds(s.calls[a].pc) && Holds(s.calls[b].pc)
    ensures s.calls[a].pc.lock == s.calls[b].pc.lock
    ensures Owns(s.calls[a].pc) && Owns(s.calls[b].pc) ==> a == b
  {
    assert RefOk(s.locks, s.calls[a]) && RefOk(s.locks, s.calls[b]);
    assert OwnerOk(s.locks, a, s.calls[a]) && OwnerOk(s.locks, b, s.calls[b]);
  }

  // ---- Refreshes ----

  // What a call has captured, against the refreshes finished so far.
  predicate CapturedOk(floors: map<nat, nat>, clock: nat, c: Call) {
    c.floor <= Floor(floors, c.path.scope) && c.floor <= c.clock <= clock && c.epoch == c.clock % EPOCHS
  }

  predicate CallOk(floors: map<nat, nat>, clock: nat, c: Call) {
    match c.pc
    case Waiting => c.floor == 0
    case Clearing => c.refresh
    case Finished(r) => c.floor <= Floor(floors, c.path.scope) && (r.Some? ==> r.value.born >= c.floor)
    case Leaving(_, r) => CapturedOk(floors, clock, c) && (r.Some? ==> r.value.born >= c.floor)
    case _ => CapturedOk(floors, clock, c)
  }

  predicate FloorsBounded(floors: map<nat, nat>, clock: nat) {
    forall scope :: scope in floors ==> floors[scope] <= clock
  }

  // No file is older than the last finished refresh of its scope.
  predicate DiskOk(floors: map<nat, nat>, disk: map<Path, Stored>) {
    forall p :: p in disk ==> Floor(floors, p.scope) <= disk[p].born
  }

  predicate ClearingOk(clearing: Option<nat>, calls: map<nat, Call>) {
    && (clearing.Some? ==> clearing.value in calls && calls[clearing.value].pc.Clearing?)
    && (forall id :: id in calls && calls[id].pc.Clearing? ==> clearing == Some(id))
  }

  ghost predicate FloorsOk(s: State) {
    && s.epoch == s.clock % EPOCHS
    && ClearingOk(s.clearing, s.calls)
    && FloorsBounded(s.floors, s.clock)
    && DiskOk(s.floors, s.disk)
    && (forall id :: id in s.calls ==> CallOk(s.floors, s.clock, s.calls[id]))
  }

  lemma {:induction false} EpochFollowsClock(s: State, step: Step)
    requires s.epoch == s.clock % EPOCHS
    ensures NextEpoch(s, step) == NextClock(s, step) % EPOCHS
  {
  }

  lemma {:induction false} StepKeepsClearing(s: State, step: Step)
    requires ClearingOk(s.clearing, s.calls) && Enabled(s, step)
    ensures ClearingOk(NextClearing(s, step), NextCalls(s, step))
  {
  }

  lemma {:induction false} FloorsRise(s: State, step: Step, scope: nat)
    requires FloorsBounded(s.floors, s.clock) && Enabled(s, step)
    ensures Floor(s.floors, scope) <= Floor(NextFloors(s, step), scope)
  {
  }

  lemma {:induction false} StepKeepsBound(s: State, step: Step)
    requires FloorsBounded(s.floors, s.clock) && Enabled(s, step)
    ensures FloorsBounded(NextFloors(s, step), NextClock(s, step))
  {
  }

  lemma {:induction false} StepKeepsDisk(s: State, step: Step)
    requires FloorsOk(s) && Enabled(s, step) && s.clock < EPOCHS
    ensures DiskOk(NextFloors(s, step), NextDisk(s, step))
  {
    if step.Write? {
      assert CallOk(s.floors, s.clock, s.calls[step.id]);
    }
  }

  lemma {:induction false} StepKeepsMovedCall(s: State, step: Step)
    requires FloorsOk(s) && Enabled(s, step) && !step.DeleteFile? && !step.LoseFile?
    ensures CallOk(NextFloors(s, step), NextClock(s, step), Moved(s, step))
  {
    if !step.Begin? {
      assert CallOk(s.floors, s.clock, s.calls[step.id]);
      FloorsRise(s, step, s.calls[step.id].path.scope);
    }
  }

  lemma {:induction false} StepKeepsOtherCall(s: State, step: Step, c: Call)
    requires FloorsBounded(s.floors, s.clock) && Enabled(s, step) && CallOk(s.floors, s.clock, c)
    ensures CallOk(NextFloors(s, step), NextClock(s, step), c)
  {
    FloorsRise(s, step, c.path.scope);
  }

  lemma {:induction false} StepKeepsFloors(s: State, step: Step)
    requires FloorsOk(s) && Enabled(s, step) && s.clock < EPOCHS
    ensures FloorsOk(Next(s, step))
  {
    EpochFollowsClock(s, step);
    StepKeepsClearing(s, step);
    StepKeepsBound(s, step);
    StepKeepsDisk(s, step);
    forall c | c in NextCalls(s, step) ensures CallOk(NextFloors(s, step), NextClock(s, step), NextCalls(s, step)[c]) {
      if step.DeleteFile? || step.LoseFile? || c != step.id {
        StepKeepsOtherCall(s, step, s.calls[c]);
      } else {
        StepKeepsMovedCall(s, step);
      }
    }
  }

  // ---- Fetches are paid for ----

  predicate Pending(c: Call, slot: Slot) {
    (c.pc.Fetching? || c.pc.Fetched?) && SlotOf(c) == slot
  }

  // One fetch may stand without a loss: its value is on its way, or on disk.
  ghost function Standing(disk: map<Path, Stored>, calls: map<nat, Call>, slot: Slot): nat {
    if slot.path in disk || exists id :: id in calls && Pending(calls[id], slot) then 1 else 0
  }

  // What can happen between two states of a run.
  type Happening = (State, Step, State) -> bool

  // A call of the slot misses for the second time, and fetches.
  function FetchStarts(slot: Slot): Happening {
    (s: State, step: Step, next: State) =>
      step.SecondRead? && step.id in s.calls && SlotOf(s.calls[step.id]) == slot && slot.path !in s.disk
  }

  // A call of the slot fails to fetch, or its write leaves no file.
  function FetchIsLost(slot: Slot): Happening {
    (s: State, step: Step, next: State) =>
      (step.FetchFail? || step.Write?) && step.id in s.calls && SlotOf(s.calls[step.id]) == slot
      && slot.path !in next.disk
  }

  function FileGoes(path: Path): Happening {
    (s: State, step: Step, next: State) => path in s.disk && path !in next.disk
  }

  function Once(happening: Happening, s: State, step: Step, next: State): nat {
    if happening(s, step, next) then 1 else 0
  }

  // What stands after a step pays for what stood before it and the fetch it starts.
  ghost predicate Pays(s: State, step: Step, next: State, slot: Slot) {
    Once(FetchStarts(slot), s, step, next) + Standing(s.disk, s.calls, slot)
    <= Once(FetchIsLost(slot), s, step, next) + Once(FileGoes(slot.path), s, step, next)
       + Standing(next.disk, next.calls, slot)
  }

  // The step at which a fetch starts is the only one that needs the locks: nobody else is
  // fetching for the same file and epoch.
  lemma {:induction false} OwnerIsAlone(s: State, id: nat)
    requires LocksOk(s) && Enabled(s, SecondRead(id)) && s.calls[id].path !in s.disk
    ensures Standing(s.disk, s.calls, SlotOf(s.calls[id])) == 0
  {
    forall c | c in s.calls ensures !Pending(s.calls[c], SlotOf(s.calls[id])) {
      if Pending(s.calls[c], SlotOf(s.calls[id])) {
        OneOwner(s, id, c);
      }
    }
  }

  // No step but these four takes away what stands.
  lemma {:induction false} StandingStays(s: State, step: Step, slot: Slot)
    requires Enabled(s, step)
    requires !step.DeleteFile? && !step.LoseFile? && !step.Write? && !step.FetchFail?
    ensures Standing(s.disk, s.calls, slot) <= Standing(s.disk, NextCalls(s, step), slot)
  {
    if slot.path !in s.disk && exists id :: id in s.calls && Pending(s.calls[id], slot) {
      var id :| id in s.calls && Pending(s.calls[id], slot);
      assert Pending(NextCalls(s, step)[id], slot);
    }
  }

  // A failed fetch, or a write: only the slot of the call can lose its pending fetch.
  lemma {:induction false} OthersStand(s: State, step: Step, slot: Slot)
    requires Enabled(s, step) && (step.Write? || step.FetchFail?) && SlotOf(s.calls[step.id]) != slot
    ensures Standing(s.disk, s.calls, slot) <= Standing(s.disk, NextCalls(s, step), slot)
  {
    if slot.path !in s.disk && exists id :: id in s.calls && Pending(s.calls[id], slot) {
      var id :| id in s.calls && Pending(s.calls[id], slot);
      assert Pending(NextCalls(s, step)[id], slot);
    }
  }

  /** No step starts a fetch that nothing accounts for. */
  lemma {:induction false} StepPays(s: State, step: Step, slot: Slot)
    requires LocksOk(s) && Enabled(s, step)
    ensures Pays(s, step, Next(s, step), slot)
  {
    match step
    case DeleteFile(_, _) =>
    case LoseFile(_) =>
    case Write(_, _, _) => if SlotOf(s.calls[step.id]) != slot { OthersStand(s, step, slot); }
    case FetchFail(id) => if SlotOf(s.calls[id]) != slot { OthersStand(s, step, slot); }
    case SecondRead(id) => SecondReadPays(s, id, slot);
    case _ => StandingStays(s, step, slot);
  }

  // Only the owner starts a fetch, and then none stands.
  lemma {:induction false} SecondReadPays(s: State, id: nat, slot: Slot)
    requires LocksOk(s) && Enabled(s, SecondRead(id))
    ensures Pays(s, SecondRead(id), Next(s, SecondRead(id)), slot)
  {
    StandingStays(s, SecondRead(id), slot);
    if s.calls[id].path !in s.disk && SlotOf(s.calls[id]) == slot {
      OwnerIsAlone(s, id);
      assert Pending(NextCalls(s, SecondRead(id))[id], slot);
    }
  }

  // ---- Runs ----

  ghost predicate IsRun(states: seq<State>, steps: seq<Step>) {
    && |states| == |steps| + 1 && states[0] == INITIAL
    && forall i :: 0 <= i < |steps| ==> Enabled(states[i], steps[i]) && states[i + 1] == Next(states[i], steps[i])
  }

  /** Every run keeps the locks consistent, so fetches for one file and epoch never overlap. */
  lemma {:induction false} RunKeepsLocks(states: seq<State>, steps: seq<Step>, i: nat)
    requires IsRun(states, steps) && i <= |steps|
    ensures LocksOk(states[i])
  {
    if i > 0 {
      RunKeepsLocks(states, steps, i - 1);
      StepKeepsLocks(states[i - 1], steps[i - 1]);
    }
  }

  /** Single flight: whatever calls interleave, two calls inside the fetch section of one file
      and epoch are one call, and all calls waiting there wait for the same lock. */
  lemma {:induction false} SingleFlight(states: seq<State>, steps: seq<Step>, i: nat, a: nat, b: nat)
    requires IsRun(states, steps) && i <= |steps| && a in states[i].calls && b in states[i].calls
    requires SlotOf(states[i].calls[a]) == SlotOf(states[i].calls[b])
    requires Holds(states[i].calls[a].pc) && Holds(states[i].calls[b].pc)
    ensures states[i].calls[a].pc.lock == states[i].calls[b].pc.lock
    ensures Owns(states[i].calls[a].pc) && Owns(states[i].calls[b].pc) ==> a == b
  {
    RunKeepsLocks(states, steps, i);
    OneOwner(states[i], a, b);
  }

  // How often something happens in the first i steps.
  ghost function Times(states: seq<State>, steps: seq<Step>, i: nat, happening: Happening): nat
    requires |states| == |steps| + 1 && i <= |steps|
  {
    if i == 0 then 0
    else Times(states, steps, i - 1, happening) + Once(happening, states[i - 1], steps[i - 1], states[i])
  }

  lemma {:induction false} FetchesArePaid(states: seq<State>, steps: seq<Step>, i: nat, slot: Slot)
    requires IsRun(states, steps) && i <= |steps|
    ensures Times(states, steps, i, FetchStarts(slot))
         <= Times(states, steps, i, FetchIsLost(slot)) + Times(states, steps, i, FileGoes(slot.path))
            + Standing(states[i].disk, states[i].calls, slot)
  {
    if i > 0 {
      FetchesArePaid(states, steps, i - 1, slot);
      RunKeepsLocks(states, steps, i - 1);
      StepPays(states[i - 1], steps[i - 1], slot);
    }
  }

  /** The fetches for one file and epoch are at most one more than those that failed or left no
      file, and the times the file went away. */
  lemma {:induction false} FetchedOnce(states: seq<State>, steps: seq<Step>, i: nat, slot: Slot)
    requires IsRun(states, steps) && i <= |steps|
    ensures Times(states, steps, i, FetchStarts(slot))
         <= Times(states, steps, i, FetchIsLost(slot)) + Times(states, steps, i, FileGoes(slot.path)) + 1
  {
    FetchesArePaid(states, steps, i, slot);
  }

  lemma {:induction false} ClockRises(states: seq<State>, steps: seq<Step>, i: nat, j: nat)
    requires IsRun(states, steps) && i <= j <= |steps|
    ensures states[i].clock <= states[j].clock
  {
    if i < j {
      ClockRises(states, steps, i, j - 1);
    }
  }

  lemma {:induction false} RunKeepsFloors(states: seq<State>, steps: seq<Step>, i: nat)
    requires IsRun(states, steps) && i <= |steps| && states[i].clock < EPOCHS
    ensures FloorsOk(states[i])
  {
    if i > 0 {
      ClockRises(states, steps, i - 1, i);
      RunKeepsFloors(states, steps, i - 1);
      StepKeepsFloors(states[i - 1], steps[i - 1]);
    }
  }

  // A call that began after `before` and got past its first section knows at least the
  // refreshes of its scope that had finished by then.
  predicate LateOk(before: State, id: nat, c: Call) {
    id in before.calls || c.pc.Waiting? || c.pc.Clearing? || c.pc == Finished(None)
    || Floor(before.floors, c.path.scope) <= c.floor
  }

  lemma {:induction false} StepKeepsLate(before: State, s: State, step: Step)
    requires FloorsOk(s) && Enabled(s, step)
    requires before.calls.Keys <= s.calls.Keys
    requires forall scope :: Floor(before.floors, scope) <= Floor(s.floors, scope)
    requires forall id :: id in s.calls ==> LateOk(before, id, s.calls[id])
    ensures before.calls.Keys <= NextCalls(s, step).Keys
    ensures forall scope :: Floor(before.floors, scope) <= Floor(NextFloors(s, step), scope)
    ensures forall id :: id in NextCalls(s, step) ==> LateOk(before, id, NextCalls(s, step)[id])
  {
    forall scope ensures Floor(before.floors, scope) <= Floor(NextFloors(s, step), scope) {
      FloorsRise(s, step, scope);
    }
    if !step.DeleteFile? && !step.LoseFile? {
      StepKeepsLateMover(before, s, step);
    }
  }

  lemma {:induction false} StepKeepsLateMover(before: State, s: State, step: Step)
    requires FloorsOk(s) && Enabled(s, step) && !step.DeleteFile? && !step.LoseFile?
    requires step.id in s.calls ==> LateOk(before, step.id, s.calls[step.id])
    requires forall scope :: Floor(before.floors, scope) <= Floor(s.floors, scope)
    ensures LateOk(before, step.id, Moved(s, step))
  {
    if step.EndClear? {
      var scope := s.calls[step.id].path.scope;
      assert Floor(before.floors, scope) <= Floor(s.floors, scope) <= s.clock;
    }
  }

  lemma {:induction false} RunKeepsLate(states: seq<State>, steps: seq<Step>, i: nat, j: nat)
    requires IsRun(states, steps) && i <= j <= |steps| && states[j].clock < EPOCHS
    ensures states[i].calls.Keys <= states[j].calls.Keys
    ensures forall scope :: Floor(states[i].floors, scope) <= Floor(states[j].floors, scope)
    ensures forall id :: id in states[j].calls ==> LateOk(states[i], id, states[j].calls[id])
  {
    if i < j {
      ClockRises(states, steps, j - 1, j);
      RunKeepsFloors(states, steps, j - 1);
      RunKeepsLate(states, steps, i, j - 1);
      StepKeepsLate(states[i], states[j - 1], steps[j - 1]);
    }
  }

  // A call of that scope which began in between.
  predicate CameLater(before: State, after: State, id: nat, scope: nat) {
    id in after.calls && id !in before.calls && after.calls[id].path.scope == scope
  }

  /** Refresh safety. Once the deletion of a refresh ends (step i, at clock k), no later disk
      of the run holds a file of its scope captured before that refresh, and no call that
      begins later returns a value captured before it. */
  lemma {:induction false} RefreshSafety(states: seq<State>, steps: seq<Step>, i: nat, j: nat)
    requires IsRun(states, steps) && i < j <= |steps| && states[j].clock < EPOCHS
    requires steps[i].EndClear?
    ensures var scope := states[i].calls[steps[i].id].path.scope;
            var k := states[i].clock;
            && (forall p :: p in states[j].disk && p.scope == scope ==> states[j].disk[p].born >= k)
            && (forall id :: CameLater(states[i], states[j], id, scope) ==>
                  forall v :: states[j].calls[id].pc == Finished(Some(v)) ==> v.born >= k)
  {
    RunKeepsFloors(states, steps, j);
    RunKeepsLate(states, steps, i + 1, j);
    var scope, k := states[i].calls[steps[i].id].path.scope, states[i].clock;
    assert Floor(states[i + 1].floors, scope) == k;
    assert states[i + 1].calls.Keys == states[i].calls.Keys;
    forall id | CameLater(states[i], states[j], id, scope)
      ensures forall v :: states[j].calls[id].pc == Finished(Some(v)) ==> v.born >= k
    {
      assert LateOk(states[i + 1], id, states[j].calls[id]);
      assert CallOk(states[j].floors, states[j].clock, states[j].calls[id]);
    }
  }

  // The step took the file away: by loss, by pruning, or by a refresh of the file's scope.
  predicate Removes(s: State, step: Step, p: Path) {
    || step == LoseFile(p)
    || (step.Write? && p in step.pruned)
    || (step.DeleteFile? && step.file == p && step.id in s.calls && s.calls[step.id].refresh
        && s.calls[step.id].path.scope == p.scope)
  }

  lemma {:induction false} StepRemoves(s: State, step: Step, p: Path)
    requires FloorsOk(s) && Enabled(s, step) && p in s.disk && p !in Next(s, step).disk
    ensures Removes(s, step, p)
  {
    if step.DeleteFile? {
      assert CallOk(s.floors, s.clock, s.calls[step.id]);
    }
  }

  /** Other scopes keep their files: a file that was there and is gone was lost, pruned, or
      deleted by a refresh of its own scope in between. */
  lemma {:induction false} RefreshKeepsOtherScopes(states: seq<State>, steps: seq<Step>, i: nat, j: nat, p: Path)
    requires IsRun(states, steps) && i <= j <= |steps| && states[j].clock < EPOCHS
    requires p in states[i].disk && p !in states[j].disk
    ensures exists k :: i <= k < j && Removes(states[k], steps[k], p)
    decreases j
  {
    ClockRises(states, steps, j - 1, j);
    if p in states[j - 1].disk {
      RunKeepsFloors(states, steps, j - 1);
      StepRemoves(states[j - 1], steps[j - 1], p);
      assert Removes(states[j - 1], steps[j - 1], p);
    } else {
      RefreshKeepsOtherScopes(states, steps, i, j - 1, p);
    }
  }

  /** A call that waited for the fetch lock and finds the file takes it without fetching, and
      returns the value that stands there even if the file goes before it leaves. */
  lemma {:induction false} WaiterTakesWhatStands(states: seq<State>, steps: seq<Step>, i: nat, j: nat, id: nat)
    requires IsRun(states, steps) && i < j <= |steps| && steps[i] == SecondRead(id)
    requires states[i].calls[id].path in states[i].disk
    ensures id in states[j].calls && SlotOf(states[j].calls[id]) == SlotOf(states[i].calls[id])
    ensures var v := states[i].disk[states[i].calls[id].path];
            var pc := states[j].calls[id].pc;
            (pc.Leaving? && pc.result == Some(v)) || pc == Finished(Some(v))
  {
    if i + 1 < j {
      WaiterTakesWhatStands(states, steps, i, j - 1, id);
    }
  }

  // ---- A waiter and its predecessor ----

  predicate LandsAt(s: State, step: Step, p: Path) {
    step.Write? && step.id in s.calls && s.calls[step.id].path == p && Lands(s, step.id, step.persisted)
  }

  // No step from i up to j takes the file away or writes it again.
  ghost predicate Undisturbed(states: seq<State>, steps: seq<Step>, i: nat, j: nat, p: Path)
    requires |states| == |steps| + 1 && i <= j <= |steps|
  {
    forall k :: i <= k < j ==> !Removes(states[k], steps[k], p) && !LandsAt(states[k], steps[k], p)
  }

  lemma {:induction false} StepLeavesFile(s: State, step: Step, p: Path)
    requires FloorsOk(s) && Enabled(s, step) && p in s.disk && !Removes(s, step, p) && !LandsAt(s, step, p)
    ensures p in Next(s, step).disk && Next(s, step).disk[p] == s.disk[p]
  {
    if p !in Next(s, step).disk {
      StepRemoves(s, step, p);
    }
  }

  lemma {:induction false} FileStands(states: seq<State>, steps: seq<Step>, i: nat, j: nat, p: Path)
    requires IsRun(states, steps) && i <= j <= |steps| && states[j].clock < EPOCHS
    requires p in states[i].disk && Undisturbed(states, steps, i, j, p)
    ensures p in states[j].disk && states[j].disk[p] == states[i].disk[p]
    decreases j
  {
    if i < j {
      ClockRises(states, steps, j - 1, j);
      FileStands(states, steps, i, j - 1, p);
      FileStandsOnce(states, steps, j - 1, p);
    }
  }

  lemma {:induction false} FileStandsOnce(states: seq<State>, steps: seq<Step>, k: nat, p: Path)
    requires IsRun(states, steps) && k < |steps| && states[k].clock < EPOCHS && p in states[k].disk
    requires !Removes(states[k], steps[k], p) && !LandsAt(states[k], steps[k], p)
    ensures p in states[k + 1].disk && states[k + 1].disk[p] == states[k].disk[p]
  {
    RunKeepsFloors(states, steps, k);
    StepLeavesFile(states[k], steps[k], p);
  }

  /** A waiter returns its predecessor's value: call a's write lands at step i and nothing takes
      the file away or writes it again before call b's second read at step j. Then b does not
      fetch, and whatever happens to the file later, b returns what a fetched. */
  lemma {:induction false} WaiterReturnsPredecessors(
      states: seq<State>, steps: seq<Step>, i: nat, j: nat, n: nat, a: nat, b: nat)
    requires IsRun(states, steps) && i < j < n <= |steps| && states[j].clock < EPOCHS
    requires steps[i].Write? && steps[i].id == a && steps[j] == SecondRead(b)
    requires states[i].calls[a].path == states[j].calls[b].path
    requires Lands(states[i], a, steps[i].persisted) && states[i].calls[a].path !in steps[i].pruned
    requires Undisturbed(states, steps, i + 1, j, states[j].calls[b].path)
    ensures b in states[n].calls
    ensures var v := Stored(states[i].calls[a].pc.value, states[i].calls[a].clock);
            var pc := states[n].calls[b].pc;
            (pc.Leaving? && pc.result == Some(v)) || pc == Finished(Some(v))
  {
    FileStands(states, steps, i + 1, j, states[j].calls[b].path);
    WaiterTakesWhatStands(states, steps, j, n, b);
  }
}
