/** Console profile PINs and their lockout. Every call that checks a PIN counts its failures in
the same place. Whether a PIN matches a record is left open, as are the record's contents. */
module ConsoleLockout {
  import opened Prelude

  const PIN_MAX_ATTEMPTS: nat := 5
  const LOCKOUT_STEPS_MS: seq<nat> := [30_000, 60_000, 300_000, 900_000]

  datatype Attempts = Attempts(failed: nat, level: nat, lockedUntil: Option<nat>)

  const FRESH: Attempts := Attempts(0, 0, None)

  type PinRecord = nat
  type Matches = (string, PinRecord) -> bool

  datatype Profile = Profile(pin: Option<PinRecord>, attempts: Attempts, updatedAt: nat)

  datatype Reason = InvalidFormat | LockedOut | InvalidPin | NoPinSet

  datatype VerifyReply = VerifyReply(ok: bool, reason: Option<Reason>, remaining: nat, lockedUntil: Option<nat>)
  datatype ChangeReply = ChangeReply(ok: bool, reason: Option<Reason>, hasPin: bool, lockedUntil: Option<nat>)

  datatype Failure = NotPersisted | NotHashed

  predicate ValidPin(pin: string) {
    |pin| == 4 && forall i :: 0 <= i < 4 ==> '0' <= pin[i] <= '9'
  }

  lemma {:induction false} PinIff(pin: string)
    ensures ValidPin(pin) <==> |pin| == 4 && forall c :: c in pin ==> c in "0123456789"
  {
    forall c ensures c in "0123456789" <==> '0' <= c <= '9' {
      DigitIff(c);
    }
    assert forall i :: 0 <= i < |pin| ==> pin[i] in pin;
  }

  lemma {:induction false} DigitIff(c: char)
    ensures c in "0123456789" <==> '0' <= c <= '9'
  {
    if '0' <= c <= '9' {
      assert "0123456789"[c as int - '0' as int] == c;
    }
  }

  // ---- The gate and the counter ----

  predicate Allowed(a: Attempts, now: nat) {
    a.lockedUntil.None? || a.lockedUntil.value <= now
  }

  function Remaining(a: Attempts, now: nat): nat {
    if Allowed(a, now) then SaturatingSub(PIN_MAX_ATTEMPTS, a.failed) else 0
  }

  // How long the lock after the j-th full round of failures lasts.
  function LockMs(j: nat): nat {
    LOCKOUT_STEPS_MS[Min(j, |LOCKOUT_STEPS_MS| - 1)]
  }

  // `register_failure`
  function Failed(a: Attempts, now: nat): Attempts {
    if a.failed + 1 < PIN_MAX_ATTEMPTS then Attempts(a.failed + 1, a.level, None)
    else Attempts(0, Min(a.level + 1, |LOCKOUT_STEPS_MS|), Some(SaturatingAdd(now, LockMs(a.level))))
  }

  // The counter after wrong PINs at these times.
  function Failures(times: seq<nat>): Attempts {
    if times == [] then FRESH else Failed(Failures(times[..|times| - 1]), times[|times| - 1])
  }

  // No PIN was checked while the gate was closed, and the clock never fell.
  ghost predicate Orderly(times: seq<nat>) {
    && (forall i, j :: 0 <= i < j < |times| ==> times[i] <= times[j])
    && (forall i :: 0 <= i < |times| ==> Allowed(Failures(times[..i]), times[i]))
  }

  // The first k locks together.
  function LockedMs(k: nat): nat {
    if k == 0 then 0 else LockedMs(k - 1) + LockMs(k - 1)
  }

  lemma {:induction false} FailuresAfter(times: seq<nat>, q: nat, r: nat)
    requires |times| == PIN_MAX_ATTEMPTS * q + r && r < PIN_MAX_ATTEMPTS
    ensures Failures(times).failed == r && Failures(times).level == Min(q, |LOCKOUT_STEPS_MS|)
    ensures r == 0 && q > 0 ==>
              Failures(times).lockedUntil == Some(SaturatingAdd(times[|times| - 1], LockMs(q - 1)))
    ensures r > 0 ==> Failures(times).lockedUntil.None?
  {
    if times != [] {
      var init := times[..|times| - 1];
      if r > 0 {
        FailuresAfter(init, q, r - 1);
      } else {
        FailuresAfter(init, q - 1, PIN_MAX_ATTEMPTS - 1);
      }
    }
  }

  // One full round and its lock.
  lemma {:induction false} RoundTakes(times: seq<nat>, k: nat, n: nat)
    requires Orderly(times) && n == PIN_MAX_ATTEMPTS * (k + 1) && n < |times|
    ensures times[n] >= SaturatingAdd(times[n - PIN_MAX_ATTEMPTS], LockMs(k))
  {
    FailuresAfter(times[..n], k + 1, 0);
    assert Allowed(Failures(times[..n]), times[n]);
    assert times[n - PIN_MAX_ATTEMPTS] <= times[n - 1];
  }

  /** The rate bound: the wrong PIN after k full rounds comes no earlier than the first one
      plus the first k locks (or the end of the clock). */
  lemma {:induction false} RateBound(times: seq<nat>, k: nat)
    requires Orderly(times) && PIN_MAX_ATTEMPTS * k < |times|
    ensures times[PIN_MAX_ATTEMPTS * k] >= Min(times[0] + LockedMs(k), U64_MAX)
  {
    if k > 0 {
      RateBound(times, k - 1);
      RoundTakes(times, k - 1, PIN_MAX_ATTEMPTS * k);
    }
  }

  // The fastest wrong PINs: every round at the moment its lock ends.
  function Fastest(start: nat, n: nat): seq<nat> {
    seq(n, i requires 0 <= i < n => start + LockedMs(i / PIN_MAX_ATTEMPTS))
  }

  /** The bound is exact: wrong PINs can be checked at exactly those times. */
  lemma {:induction false} BoundIsAttained(start: nat, n: nat)
    requires start + LockedMs(n) <= U64_MAX
    ensures Orderly(Fastest(start, n))
    ensures forall k: nat :: PIN_MAX_ATTEMPTS * k < n ==> Fastest(start, n)[PIN_MAX_ATTEMPTS * k] == start + LockedMs(k)
  {
    var times := Fastest(start, n);
    forall i, j | 0 <= i < j < n ensures times[i] <= times[j] {
      LockedMsRises(i / PIN_MAX_ATTEMPTS, j / PIN_MAX_ATTEMPTS);
    }
    forall i | 0 <= i < n ensures Allowed(Failures(times[..i]), times[i]) {
      FastestAllowed(start, n, i);
    }
  }

  lemma {:induction false} LockedMsRises(a: nat, b: nat)
    requires a <= b
    ensures LockedMs(a) <= LockedMs(b)
  {
    if a < b {
      LockedMsRises(a, b - 1);
    }
  }

  lemma {:induction false} FastestAllowed(start: nat, n: nat, i: nat)
    requires start + LockedMs(n) <= U64_MAX && i < n
    ensures Allowed(Failures(Fastest(start, n)[..i]), Fastest(start, n)[i])
  {
    var q, r := i / PIN_MAX_ATTEMPTS, i % PIN_MAX_ATTEMPTS;
    var times := Fastest(start, n);
    FailuresAfter(times[..i], q, r);
    if r == 0 && q > 0 {
      assert (i - 1) / PIN_MAX_ATTEMPTS == q - 1;
      assert times[i - 1] == start + LockedMs(q - 1);
    }
  }

  // ---- The calls that check a PIN ----

  datatype Call =
    | Verify(pin: string)
    | SetPin(pin: string, current: Option<string>, hashed: Option<PinRecord>)
    | ClearPin(pin: string)

  // One sequential call about one profile; `persisted` says whether the file could be written.
  datatype Event = Event(call: Call, now: nat, persisted: bool)

  datatype Verdict = Nothing | Locked | Malformed | Wrong | Right

  // The PIN a call offers.
  function Offered(c: Call): Option<string> {
    match c
    case Verify(pin) => Some(pin)
    case SetPin(_, current, _) => current
    case ClearPin(pin) => Some(pin)
  }

  // What a call finds, for a profile with a PIN.
  function Judge(a: Attempts, record: PinRecord, c: Call, now: nat, matches: Matches): Verdict {
    if c.SetPin? && !ValidPin(c.pin) then Malformed
    else if !Allowed(a, now) then Locked
    else if Offered(c).None? || !ValidPin(Offered(c).value) then Malformed
    else if matches(Offered(c).value, record) then Right
    else Wrong
  }

  function Verdicts(p: Profile, e: Event, matches: Matches): Verdict {
    if p.pin.None? then Nothing else Judge(p.attempts, p.pin.value, e.call, e.now, matches)
  }

  // The profile after the call.
  function Next(p: Profile, e: Event, matches: Matches): Profile {
    if !e.persisted then p else
    match Verdicts(p, e, matches)
    case Wrong => p.(attempts := Failed(p.attempts, e.now))
    case Right => Succeeded(p, e)
    case Nothing => if e.call.SetPin? && ValidPin(e.call.pin) then Succeeded(p, e) else p
    case _ => p
  }

  function Succeeded(p: Profile, e: Event): Profile {
    match e.call
    case Verify(_) => p.(attempts := FRESH)
    case SetPin(_, _, hashed) => if hashed.Some? then Profile(hashed, FRESH, e.now) else p
    case ClearPin(_) => Profile(None, FRESH, e.now)
  }

  function After(p: Profile, events: seq<Event>, matches: Matches): Profile {
    if events == [] then p else Next(After(p, events[..|events| - 1], matches), events[|events| - 1], matches)
  }

  // The times of the wrong PINs that were counted.
  function WrongTimes(p: Profile, events: seq<Event>, matches: Matches): seq<nat> {
    if events == [] then [] else
    var init, e := events[..|events| - 1], events[|events| - 1];
    if Counts(After(p, init, matches), e, matches) then WrongTimes(p, init, matches) + [e.now]
    else WrongTimes(p, init, matches)
  }

  // The call checks a wrong PIN, and its failure is saved.
  predicate Counts(p: Profile, e: Event, matches: Matches) {
    e.persisted && Verdicts(p, e, matches).Wrong?
  }

  // The clock does not fall, and no call succeeds.
  ghost predicate Guessing(p: Profile, events: seq<Event>, matches: Matches) {
    && (forall i, j :: 0 <= i < j < |events| ==> events[i].now <= events[j].now)
    && (forall i :: 0 <= i < |events| ==> !Verdicts(After(p, events[..i], matches), events[i], matches).Right?)
  }

  ghost predicate UpTo(times: seq<nat>, now: nat) {
    forall i :: 0 <= i < |times| ==> times[i] <= now
  }

  lemma {:induction false} StepCounts(p: Profile, times: seq<nat>, e: Event, matches: Matches)
    requires p.pin.Some? && p.attempts == Failures(times) && !Verdicts(p, e, matches).Right?
    ensures Next(p, e, matches)
         == if Counts(p, e, matches) then p.(attempts := Failures(times + [e.now])) else p
  {
    assert (times + [e.now])[..|times|] == times;
  }

  lemma {:induction false} GuessingCounts(p: Profile, events: seq<Event>, matches: Matches)
    requires p.pin.Some? && p.attempts == FRESH && Guessing(p, events, matches)
    ensures After(p, events, matches) == p.(attempts := Failures(WrongTimes(p, events, matches)))
  {
    if events != [] {
      var init, e := events[..|events| - 1], events[|events| - 1];
      assert forall i :: 0 <= i < |init| ==> init[..i] == events[..i];
      GuessingCounts(p, init, matches);
      StepCounts(After(p, init, matches), WrongTimes(p, init, matches), e, matches);
    }
  }

  lemma {:induction false} WrongTimesOrderly(p: Profile, events: seq<Event>, matches: Matches)
    requires p.pin.Some? && p.attempts == FRESH && Guessing(p, events, matches)
    ensures Orderly(WrongTimes(p, events, matches))
    ensures events != [] ==> UpTo(WrongTimes(p, events, matches), events[|events| - 1].now)
    ensures events == [] ==> WrongTimes(p, events, matches) == []
  {
    if events != [] {
      var init, e := events[..|events| - 1], events[|events| - 1];
      assert forall i :: 0 <= i < |init| ==> init[..i] == events[..i];
      WrongTimesOrderly(p, init, matches);
      GuessingCounts(p, init, matches);
      var times := WrongTimes(p, init, matches);
      if init != [] {
        assert init[|init| - 1].now <= e.now;
      }
      assert UpTo(times, e.now);
      if Counts(After(p, init, matches), e, matches) {
        OneMoreOrderly(times, e.now);
      }
    }
  }

  lemma {:induction false} OneMoreOrderly(times: seq<nat>, now: nat)
    requires Orderly(times) && Allowed(Failures(times), now)
    requires UpTo(times, now)
    ensures Orderly(times + [now])
  {
    var more := times + [now];
    assert more[..|times|] == times;
    assert forall i :: 0 <= i < |times| ==> more[..i] == times[..i];
  }

  /** Lockout over calls. However verification, PIN changes and PIN removals are mixed, without
      a success the counted wrong PIN after k full rounds is checked no earlier than the first
      one plus the first k locks. */
  lemma {:induction false} LockoutHolds(p: Profile, events: seq<Event>, matches: Matches, k: nat)
    requires p.pin.Some? && p.attempts == FRESH && Guessing(p, events, matches)
    requires PIN_MAX_ATTEMPTS * k < |WrongTimes(p, events, matches)|
    ensures var times := WrongTimes(p, events, matches);
            times[PIN_MAX_ATTEMPTS * k] >= Min(times[0] + LockedMs(k), U64_MAX)
  {
    WrongTimesOrderly(p, events, matches);
    RateBound(WrongTimes(p, events, matches), k);
  }

  /** What is not saved is not counted: while the file cannot be written, no number of wrong
      PINs locks anything. */
  lemma {:induction false} UnsavedNeverCounts(p: Profile, events: seq<Event>, matches: Matches)
    requires forall i :: 0 <= i < |events| ==> !events[i].persisted
    ensures After(p, events, matches) == p && WrongTimes(p, events, matches) == []
  {
    if events != [] {
      UnsavedNeverCounts(p, events[..|events| - 1], matches);
    }
  }

  /** The same counter: which of the calls offers a wrong PIN makes no difference to it. */
  lemma {:induction false} SameCounter(p: Profile, a: Event, b: Event, matches: Matches)
    requires a.now == b.now && a.persisted == b.persisted
    requires Verdicts(p, a, matches).Wrong? && Verdicts(p, b, matches).Wrong?
    ensures Next(p, a, matches) == Next(p, b, matches)
  {
  }

  // ---- The replies ----

  // The reason a call gives for what it found.
  function ReasonFor(v: Verdict): Option<Reason> {
    match v
    case Nothing => Some(NoPinSet)
    case Locked => Some(LockedOut)
    case Malformed => Some(InvalidFormat)
    case Wrong => Some(InvalidPin)
    case Right => None
  }

  function LockOf(a: Attempts, now: nat): Option<nat> {
    if Allowed(a, now) then None else a.lockedUntil
  }

  // What a verification replies, from the profile before and after it.
  function VerifyReplyFor(v: Verdict, after: Profile, now: nat): VerifyReply {
    if v.Nothing? || v.Right? then VerifyReply(true, ReasonFor(v), PIN_MAX_ATTEMPTS, None)
    else
      VerifyReply(false, if Allowed(after.attempts, now) then ReasonFor(v) else Some(LockedOut),
                  Remaining(after.attempts, now), LockOf(after.attempts, now))
  }

  // What a change replies, from the profile before it.
  function ChangeReplyFor(v: Verdict, done: bool, before: Profile, after: Profile, now: nat): ChangeReply {
    if done then ChangeReply(true, None, after.pin.Some?, None)
    else ChangeReply(false, ReasonFor(v), before.pin.Some?, if v.Locked? then LockOf(before.attempts, now) else None)
  }

  /** The attempts announced are exact: of any further wrong PINs, whenever they are checked, the
      gate is closed after the announced number of them and not before. */
  lemma {:induction false} RemainingIsExact(times: seq<nat>, now: nat, more: seq<nat>)
    requires Allowed(Failures(times), now) && 0 < |more| <= Remaining(Failures(times), now)
    requires more[|more| - 1] < U64_MAX
    ensures Allowed(Failures(times + more), more[|more| - 1]) <==> |more| < Remaining(Failures(times), now)
  {
    var q, r := |times| / PIN_MAX_ATTEMPTS, |times| % PIN_MAX_ATTEMPTS;
    FailuresAfter(times, q, r);
    if r + |more| < PIN_MAX_ATTEMPTS {
      FailuresAfter(times + more, q, r + |more|);
    } else {
      FailuresAfter(times + more, q + 1, 0);
    }
  }

  // Nothing can be checked: no PIN is set, the gate is closed, or what is offered is no PIN.
  predicate Unchecked(p: Profile, c: Call, now: nat) {
    || p.pin.None? || !Allowed(p.attempts, now)
    || Offered(c).None? || !ValidPin(Offered(c).value) || (c.SetPin? && !ValidPin(c.pin))
  }

  /** Replies. A verification is ok without a PIN or with the right one; of a wrong one it says
      how many attempts are left, or until when the gate is closed. */
  lemma {:induction false} VerifyReplies(p: Profile, pin: string, now: nat, matches: Matches)
    requires now < U64_MAX
    ensures var e := Event(Verify(pin), now, true);
            var r := VerifyReplyFor(Verdicts(p, e, matches), Next(p, e, matches), now);
            if p.pin.None? then r == VerifyReply(true, Some(NoPinSet), 5, None)
            else if p.attempts.lockedUntil.Some? && now < p.attempts.lockedUntil.value
            then r == VerifyReply(false, Some(LockedOut), 0, p.attempts.lockedUntil)
            else if !ValidPin(pin)
            then r == VerifyReply(false, Some(InvalidFormat), Max(5 - p.attempts.failed, 0), None)
            else if matches(pin, p.pin.value) then r == VerifyReply(true, None, 5, None)
            else if p.attempts.failed < 4
            then r == VerifyReply(false, Some(InvalidPin), 4 - p.attempts.failed, None)
            else r == VerifyReply(false, Some(LockedOut), 0, Some(Min(now + LockMs(p.attempts.level), U64_MAX)))
  {
  }

  // What a change or removal replies that could not check or did not match.
  ghost predicate Refused(r: ChangeReply, p: Profile, offered: Option<string>, now: nat) {
    if p.pin.None? then r == ChangeReply(false, Some(NoPinSet), false, None)
    else if p.attempts.lockedUntil.Some? && now < p.attempts.lockedUntil.value
    then r == ChangeReply(false, Some(LockedOut), true, p.attempts.lockedUntil)
    else if offered.None? || !ValidPin(offered.value) then r == ChangeReply(false, Some(InvalidFormat), true, None)
    else r == ChangeReply(false, Some(InvalidPin), true, None)
  }

  /** A PIN is changed or removed with the right current one, and a first one is set without any;
      every refusal says why. */
  lemma {:induction false} ChangeReplies(p: Profile, e: Event, record: PinRecord, matches: Matches)
    requires !e.call.Verify? && e.persisted
    requires e.call.SetPin? ==> ValidPin(e.call.pin) && e.call.hashed == Some(record)
    ensures var v := Verdicts(p, e, matches);
            var done := v.Right? || (v.Nothing? && e.call.SetPin?);
            if p.pin.None? && e.call.SetPin? then done
            else done <==> !Unchecked(p, e.call, e.now) && matches(Offered(e.call).value, p.pin.value)
    ensures var v := Verdicts(p, e, matches);
            var after := Next(p, e, matches);
            var done := v.Right? || (v.Nothing? && e.call.SetPin?);
            var r := ChangeReplyFor(v, done, p, after, e.now);
            if done then r == ChangeReply(true, None, e.call.SetPin?, None)
                         && after == Profile(if e.call.SetPin? then Some(record) else None, Attempts(0, 0, None), e.now)
            else Refused(r, p, Offered(e.call), e.now)
  {
  }

  /** The locks last half a minute, a minute, five minutes, and then a quarter of an hour. */
  lemma {:induction false} LocksLast(k: nat)
    ensures LockMs(0) == 30_000 && LockMs(1) == 60_000 && LockMs(2) == 300_000 && (k >= 3 ==> LockMs(k) == 900_000)
    ensures k >= 3 ==> LockedMs(k) == 390_000 + 900_000 * (k - 3)
  {
    if k > 3 {
      LocksLast(k - 1);
    }
    assert LockedMs(3) == LockedMs(2) + LockMs(2) && LockedMs(2) == LockedMs(1) + LockMs(1);
    assert LockedMs(1) == LockedMs(0) + LockMs(0);
  }

  /** A change without a check leaves the profile, unless there is no PIN yet to be checked. */
  lemma {:induction false} UncheckedLeaves(p: Profile, e: Event, matches: Matches)
    requires Unchecked(p, e.call, e.now) && !(p.pin.None? && e.call.SetPin? && ValidPin(e.call.pin))
    ensures Next(p, e, matches) == p && !Counts(p, e, matches)
  {
  }

  // ---- The store ----

  class ConsoleProfiles {
    const matches: Matches
    var profiles: map<string, Profile>

    constructor (matches: Matches, profiles: map<string, Profile>)
      ensures this.matches == matches && this.profiles == profiles
    {
      this.matches, this.profiles := matches, profiles;
    }

    // The profile of a user; one without a record counts as new.
    function Of(user: string): Profile
      reads this
    {
      if user in profiles then profiles[user] else Profile(None, FRESH, 0)
    }

    method Replace(next: map<string, Profile>, persisted: bool) returns (ok: bool)
      modifies this`profiles
      ensures ok == persisted && profiles == if persisted then next else old(profiles)
    {
      if persisted {
        profiles := next;
      }
      ok := persisted;
    }

    method VerifyPin(user: string, pin: string, now: nat, persisted: bool) returns (r: Result<VerifyReply, Failure>)
      modifies this`profiles
      ensures forall u :: u != user ==> (u in profiles <==> u in old(profiles)) && Of(u) == old(Of(u))
      ensures Of(user) == Next(old(Of(user)), Event(Verify(pin), now, persisted), matches)
      ensures var v := Verdicts(old(Of(user)), Event(Verify(pin), now, persisted), matches);
              r == if (v.Wrong? || v.Right?) && !persisted then Err(NotPersisted)
                   else Ok(VerifyReplyFor(v, Of(user), now))
      ensures var before := old(Of(user));
              before.pin.Some? && Allowed(before.attempts, now) && ValidPin(pin) && persisted ==>
                && r.Ok? && (r.value.ok <==> matches(pin, before.pin.value))
                && Of(user) == before.(attempts := if matches(pin, before.pin.value) then FRESH
                                                   else Failed(before.attempts, now))
    {
      if user !in profiles || profiles[user].pin.None? {
        return Ok(VerifyReply(true, Some(NoPinSet), PIN_MAX_ATTEMPTS, None));
      }
      var profile := profiles[user];
      if !Allowed(profile.attempts, now) {
        return Ok(VerifyReply(false, Some(LockedOut), 0, profile.attempts.lockedUntil));
      }
      if !ValidPin(pin) {
        return Ok(VerifyReply(false, Some(InvalidFormat), Remaining(profile.attempts, now), None));
      }
      if matches(pin, profile.pin.value) {
        var ok := Replace(profiles[user := profile.(attempts := FRESH)], persisted);
        return if ok then Ok(VerifyReply(true, None, PIN_MAX_ATTEMPTS, None)) else Err(NotPersisted);
      }
      var attempts := Failed(profile.attempts, now);
      var ok := Replace(profiles[user := profile.(attempts := attempts)], persisted);
      if !ok {
        return Err(NotPersisted);
      }
      r := Ok(VerifyReply(false, Some(if Allowed(attempts, now) then InvalidPin else LockedOut),
                          Remaining(attempts, now), if Allowed(attempts, now) then None else attempts.lockedUntil));
    }

    method ChangePin(
        user: string, pin: string, current: Option<string>, hashed: Option<PinRecord>, now: nat, persisted: bool)
      returns (r: Result<ChangeReply, Failure>)
      modifies this`profiles
      ensures forall u :: u != user ==> (u in profiles <==> u in old(profiles)) && Of(u) == old(Of(u))
      ensures Of(user) == Next(old(Of(user)), Event(SetPin(pin, current, hashed), now, persisted), matches)
      ensures var v := Verdicts(old(Of(user)), Event(SetPin(pin, current, hashed), now, persisted), matches);
              var done := ValidPin(pin) && (v.Nothing? || v.Right?);
              r == if done && hashed.None? then Err(NotHashed)
                   else if (done || v.Wrong?) && !persisted then Err(NotPersisted)
                   else Ok(ChangeReplyFor(if ValidPin(pin) then v else Malformed, done, old(Of(user)), Of(user), now))
      ensures var before := old(Of(user));
              before.pin.Some? && Allowed(before.attempts, now) && current.Some? && ValidPin(current.value)
              && ValidPin(pin) && hashed.Some? && persisted ==>
                && r.Ok? && (r.value.ok <==> matches(current.value, before.pin.value))
                && Of(user) == if matches(current.value, before.pin.value) then Profile(hashed, FRESH, now)
                               else before.(attempts := Failed(before.attempts, now))
      ensures old(Of(user)).pin.None? && ValidPin(pin) && hashed.Some? && persisted ==>
                r == Ok(ChangeReply(true, None, true, None)) && Of(user) == Profile(hashed, FRESH, now)
    {
      if !ValidPin(pin) {
        return Ok(ChangeReply(false, Some(InvalidFormat), Of(user).pin.Some?, None));
      }
      var profile := Of(user);
      if profile.pin.Some? {
        if !Allowed(profile.attempts, now) {
          return Ok(ChangeReply(false, Some(LockedOut), true, profile.attempts.lockedUntil));
        }
        if current.None? || !ValidPin(current.value) {
          return Ok(ChangeReply(false, Some(InvalidFormat), true, None));
        }
        if !matches(current.value, profile.pin.value) {
          var counted := Replace(profiles[user := profile.(attempts := Failed(profile.attempts, now))], persisted);
          return if counted then Ok(ChangeReply(false, Some(InvalidPin), true, None)) else Err(NotPersisted);
        }
      }
      if hashed.None? {
        return Err(NotHashed);
      }
      var ok := Replace(profiles[user := Profile(hashed, FRESH, now)], persisted);
      r := if ok then Ok(ChangeReply(true, None, true, None)) else Err(NotPersisted);
    }

    method RemovePin(user: string, pin: string, now: nat, persisted: bool) returns (r: Result<ChangeReply, Failure>)
      modifies this`profiles
      ensures forall u :: u != user ==> (u in profiles <==> u in old(profiles)) && Of(u) == old(Of(u))
      ensures Of(user) == Next(old(Of(user)), Event(ClearPin(pin), now, persisted), matches)
      ensures var v := Verdicts(old(Of(user)), Event(ClearPin(pin), now, persisted), matches);
              r == if (v.Wrong? || v.Right?) && !persisted then Err(NotPersisted)
                   else Ok(ChangeReplyFor(v, v.Right?, old(Of(user)), Of(user), now))
      ensures var before := old(Of(user));
              before.pin.Some? && Allowed(before.attempts, now) && ValidPin(pin) && persisted ==>
                && r.Ok? && (r.value.ok <==> matches(pin, before.pin.value))
                && Of(user) == if matches(pin, before.pin.value) then Profile(None, FRESH, now)
                               else before.(attempts := Failed(before.attempts, now))
    {
      if user !in profiles || profiles[user].pin.None? {
        return Ok(ChangeReply(false, Some(NoPinSet), false, None));
      }
      var profile := profiles[user];
      if !Allowed(profile.attempts, now) {
        return Ok(ChangeReply(false, Some(LockedOut), true, profile.attempts.lockedUntil));
      }
      if !ValidPin(pin) {
        return Ok(ChangeReply(false, Some(InvalidFormat), true, None));
      }
      if !matches(pin, profile.pin.value) {
        var counted := Replace(profiles[user := profile.(attempts := Failed(profile.attempts, now))], persisted);
        return if counted then Ok(ChangeReply(false, Some(InvalidPin), true, None)) else Err(NotPersisted);
      }
      var ok := Replace(profiles[user := Profile(None, FRESH, now)], persisted);
      r := if ok then Ok(ChangeReply(true, None, false, None)) else Err(NotPersisted);
    }

    method Forget(user: string, persisted: bool) returns (ok: bool)
      modifies this`profiles
      ensures profiles == if persisted then old(profiles) - {user} else old(profiles)
      ensures !ok ==> !persisted && user in profiles
    {
      assert user !in profiles ==> profiles - {user} == profiles;
      ok := true;
      if user in profiles {
        ok := Replace(profiles - {user}, persisted);
      }
    }
  }
}
