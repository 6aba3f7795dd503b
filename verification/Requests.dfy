/** Admission of requests and their cancellation. */
module Requests {
  const MAX_ACTIVE: nat := 8
  const MAX_BACKGROUND: nat := 4

  predicate StartsWith(s: string, prefix: string) {
    |prefix| <= |s| && s[..|prefix|] == prefix
  }

  predicate IsBackground(rpc: string) {
    StartsWith(rpc, "catalog.") || StartsWith(rpc, "artwork.") || rpc == "network.regions.ping"
  }

  ghost predicate Begins(s: string, prefix: string) {
    exists rest :: s == prefix + rest
  }

  /** Background work are the catalogue and artwork calls and pinging the regions. */
  lemma {:induction false} BackgroundIff(rpc: string)
    ensures IsBackground(rpc) <==> Begins(rpc, "catalog.") || Begins(rpc, "artwork.") || rpc == "network.regions.ping"
  {
    if StartsWith(rpc, "catalog.") {
      assert rpc == "catalog." + rpc[|"catalog."|..];
    }
    if StartsWith(rpc, "artwork.") {
      assert rpc == "artwork." + rpc[|"artwork."|..];
    }
  }

  // ---- The history of admissions ----

  // Permits are numbered in the order they are issued.
  datatype Holding = Holding(background: bool, permit: nat)

  datatype Event = Admit(id: string, background: bool) | Cancel(id: string) | Drop(id: string, permit: nat)

  datatype State = State(active: map<string, Holding>, issued: nat, cancelled: set<nat>)

  const EMPTY: State := State(map[], 0, {})

  function Backgrounds(active: map<string, Holding>): set<string> {
    set id | id in active && active[id].background
  }

  function Foregrounds(active: map<string, Holding>): set<string> {
    set id | id in active && !active[id].background
  }

  predicate Refuses(active: map<string, Holding>, id: string, background: bool) {
    || id in active
    || |active| >= MAX_ACTIVE
    || (background && |Backgrounds(active)| >= MAX_BACKGROUND)
  }

  function Next(s: State, e: Event): State {
    match e
    case Admit(id, background) =>
      if Refuses(s.active, id, background) then s
      else State(s.active[id := Holding(background, s.issued)], s.issued + 1, s.cancelled)
    case Cancel(id) =>
      if id in s.active then s.(cancelled := s.cancelled + {s.active[id].permit}) else s
    case Drop(id, _) => s.(active := s.active - {id})
  }

  function After(events: seq<Event>): State {
    if events == [] then EMPTY else Next(After(events[..|events| - 1]), events[|events| - 1])
  }

  // A permit is dropped by its owner, under the id it was issued for.
  predicate Holds(s: State, id: string, permit: nat) {
    id in s.active && s.active[id].permit == permit
  }

  ghost predicate Legal(events: seq<Event>) {
    forall i :: 0 <= i < |events| && events[i].Drop? ==> Holds(After(events[..i]), events[i].id, events[i].permit)
  }

  lemma {:induction false} AfterStep(events: seq<Event>, i: nat)
    requires i < |events|
    ensures After(events[..i + 1]) == Next(After(events[..i]), events[i])
  {
    assert events[..i + 1][..i] == events[..i];
  }

  lemma {:induction false} LegalPrefix(events: seq<Event>)
    requires Legal(events) && events != []
    ensures Legal(events[..|events| - 1])
  {
    var init := events[..|events| - 1];
    assert forall i :: 0 <= i < |init| ==> init[..i] == events[..i];
  }

  /** A request is refused exactly when its id is in use, eight requests are active, or it is
      background work and four of those are. */
  lemma {:induction false} RefusedIff(events: seq<Event>, id: string, background: bool)
    ensures var before, after := After(events), After(events + [Event.Admit(id, background)]);
            var refused := || id in before.active || |before.active| >= 8
                           || (background && |set i | i in before.active && before.active[i].background| >= 4);
            && after.cancelled == before.cancelled
            && after.issued == (if refused then before.issued else before.issued + 1)
            && after.active == (if refused then before.active
                                else before.active[id := Holding(background, before.issued)])
  {
    assert (events + [Event.Admit(id, background)])[..|events|] == events;
  }

  // ---- Bounds ----

  lemma {:induction false} BackgroundsAdded(active: map<string, Holding>, id: string, h: Holding)
    requires id !in active
    ensures Backgrounds(active[id := h]) == Backgrounds(active) + (if h.background then {id} else {})
    ensures |active[id := h]| == |active| + 1
  {
    assert active[id := h].Keys == active.Keys + {id};
  }

  lemma {:induction false} BackgroundsRemoved(active: map<string, Holding>, id: string)
    ensures |Backgrounds(active - {id})| <= |Backgrounds(active)| && |active - {id}| <= |active|
  {
    Within(Backgrounds(active - {id}), Backgrounds(active));
    Within((active - {id}).Keys, active.Keys);
  }

  lemma {:induction false} Within(a: set<string>, b: set<string>)
    requires a <= b
    ensures |a| <= |b|
    decreases b
  {
    if a != {} {
      var x :| x in a;
      Within(a - {x}, b - {x});
    }
  }

  /** At most eight requests are active, and at most four of them are background work. */
  lemma {:induction false} BoundsHold(events: seq<Event>)
    ensures Bounded(After(events).active)
  {
    if events != [] {
      BoundsHold(events[..|events| - 1]);
      StepKeepsBounds(After(events[..|events| - 1]), events[|events| - 1]);
    } else {
      assert Backgrounds(map[]) == {};
    }
  }

  ghost predicate Bounded(active: map<string, Holding>) {
    |active| <= MAX_ACTIVE && |Backgrounds(active)| <= MAX_BACKGROUND
  }

  lemma {:induction false} StepKeepsBounds(s: State, e: Event)
    requires Bounded(s.active)
    ensures Bounded(Next(s, e).active)
  {
    match e
    case Admit(id, background) =>
      if id !in s.active {
        BackgroundsAdded(s.active, id, Holding(background, s.issued));
      }
    case Cancel(_) =>
    case Drop(id, _) => BackgroundsRemoved(s.active, id);
  }

  /** A foreground request with an unused id is refused only when at least four foreground
      requests are active. */
  lemma {:induction false} ForegroundRefused(events: seq<Event>, id: string)
    requires var active := After(events).active; id !in active && Refuses(active, id, false)
    ensures |Foregrounds(After(events).active)| >= MAX_ACTIVE - MAX_BACKGROUND
  {
    BoundsHold(events);
    var active := After(events).active;
    assert active.Keys == Backgrounds(active) + Foregrounds(active);
  }

  // ---- Permits and entries ----

  ghost predicate PermitsOk(s: State) {
    && (forall id :: id in s.active ==> s.active[id].permit < s.issued)
    && (forall a, b :: a in s.active && b in s.active && s.active[a].permit == s.active[b].permit ==> a == b)
    && (forall n :: n in s.cancelled ==> n < s.issued)
  }

  lemma {:induction false} StepKeepsPermits(s: State, e: Event)
    requires PermitsOk(s)
    ensures PermitsOk(Next(s, e))
  {
    match e
    case Admit(_, _) =>
    case Cancel(_) =>
    case Drop(_, _) =>
  }

  lemma {:induction false} RunKeepsPermits(events: seq<Event>)
    ensures PermitsOk(After(events))
  {
    if events != [] {
      RunKeepsPermits(events[..|events| - 1]);
      StepKeepsPermits(After(events[..|events| - 1]), events[|events| - 1]);
    }
  }

  predicate Dropped(events: seq<Event>, permit: nat) {
    exists i :: 0 <= i < |events| && events[i].Drop? && events[i].permit == permit
  }

  lemma {:induction false} DroppedOneMore(events: seq<Event>, permit: nat)
    requires events != []
    ensures var e := events[|events| - 1];
            Dropped(events, permit) <==> Dropped(events[..|events| - 1], permit) || (e.Drop? && e.permit == permit)
  {
    var init := events[..|events| - 1];
    if i :| 0 <= i < |init| && init[i].Drop? && init[i].permit == permit {
      assert events[i].Drop? && events[i].permit == permit;
    }
  }

  lemma {:induction false} DroppedWasIssued(events: seq<Event>, permit: nat)
    requires Legal(events)
    ensures Dropped(events, permit) ==> permit < After(events).issued
  {
    if events != [] {
      var init := events[..|events| - 1];
      LegalPrefix(events);
      DroppedWasIssued(init, permit);
      DroppedOneMore(events, permit);
      RunKeepsPermits(init);
    }
  }

  /** Live permits and entries correspond one to one: an issued permit that was not dropped has
      exactly one entry, and every entry is such a permit's. */
  lemma {:induction false} PermitsMatchEntries(events: seq<Event>, permit: nat)
    requires Legal(events)
    ensures (exists id :: Holds(After(events), id, permit))
       <==> permit < After(events).issued && !Dropped(events, permit)
    ensures forall a, b :: Holds(After(events), a, permit) && Holds(After(events), b, permit) ==> a == b
  {
    RunKeepsPermits(events);
    if events != [] {
      var init := events[..|events| - 1];
      LegalPrefix(events);
      RunKeepsPermits(init);
      PermitsMatchEntries(init, permit);
      DroppedOneMore(events, permit);
      DroppedWasIssued(init, permit);
      assert events[..|events| - 1] == init;
      StepMatches(After(init), events[|events| - 1], permit);
    }
  }

  lemma {:induction false} StepMatches(s: State, e: Event, permit: nat)
    requires PermitsOk(s) && (e.Drop? ==> Holds(s, e.id, e.permit))
    ensures (exists id :: Holds(Next(s, e), id, permit))
       <==> ((exists id :: Holds(s, id, permit)) && !(e.Drop? && e.permit == permit))
            || (permit == s.issued && Next(s, e).issued == s.issued + 1)
  {
    var t := Next(s, e);
    if id :| Holds(s, id, permit) {
      assert Holds(t, id, permit) || (e.Drop? && e.permit == permit);
    }
    if id :| Holds(t, id, permit) {
      assert Holds(s, id, permit) || (permit == s.issued && t.issued == s.issued + 1);
    }
    if permit == s.issued && t.issued == s.issued + 1 {
      assert Holds(t, e.id, permit);
    }
  }

  // ---- Cancellation ----

  // A cancel names the id the permit holds at that moment.
  predicate CancelsAt(events: seq<Event>, i: nat, permit: nat) {
    i < |events| && events[i].Cancel? && Holds(After(events[..i]), events[i].id, permit)
  }

  /** A permit is cancelled exactly when some cancel named its id while it held that id: an
      earlier or later request with the same id is not reached. */
  lemma {:induction false} CancelledIff(events: seq<Event>, permit: nat)
    ensures permit in After(events).cancelled <==> exists i :: CancelsAt(events, i, permit)
  {
    if events != [] {
      var last: nat := |events| - 1;
      var init := events[..last];
      CancelledIff(init, permit);
      forall i: nat | i < last ensures CancelsAt(events, i, permit) <==> CancelsAt(init, i, permit) {
        assert init[..i] == events[..i];
      }
      assert CancelsAt(events, last, permit) <==> events[last].Cancel? && Holds(After(init), events[last].id, permit);
      assert permit in After(events).cancelled <==> permit in After(init).cancelled || CancelsAt(events, last, permit);
    }
  }

  // ---- The object ----

  class Cancellation {
    var cancelled: bool

    constructor ()
      ensures !cancelled
    {
      cancelled := false;
    }
  }

  class Permit {
    const id: string
    const token: Cancellation
    ghost const number: nat

    constructor (id: string, token: Cancellation, ghost number: nat)
      ensures this.id == id && this.token == token && this.number == number
    {
      this.id, this.token, this.number := id, token, number;
    }
  }

  datatype Entry = Entry(background: bool, token: Cancellation)

  ghost predicate Mirrors(s: State, active: map<string, Entry>, tokens: seq<Cancellation>) {
    && |tokens| == s.issued
    && (forall i, j :: 0 <= i < j < |tokens| ==> tokens[i] != tokens[j])
    && active.Keys == s.active.Keys
    && (forall id :: id in active ==> EntryOk(s.active[id], active[id], tokens))
  }

  predicate EntryOk(h: Holding, e: Entry, tokens: seq<Cancellation>) {
    h.permit < |tokens| && e == Entry(h.background, tokens[h.permit])
  }

  lemma {:induction false} CancelMirrors(s: State, active: map<string, Entry>, tokens: seq<Cancellation>, id: string)
    requires Mirrors(s, active, tokens) && PermitsOk(s)
    ensures Mirrors(Next(s, Event.Cancel(id)), active, tokens)
    ensures forall n :: 0 <= n < |tokens| ==>
              (n in Next(s, Event.Cancel(id)).cancelled <==>
                 n in s.cancelled || (id in active && tokens[n] == active[id].token))
  {
    if id in active {
      assert EntryOk(s.active[id], active[id], tokens);
    }
  }

  lemma {:induction false} IssueMirrors(
      s: State, active: map<string, Entry>, tokens: seq<Cancellation>, id: string, background: bool,
      token: Cancellation)
    requires Mirrors(s, active, tokens) && !Refuses(s.active, id, background) && token !in tokens
    ensures Mirrors(Next(s, Event.Admit(id, background)), active[id := Entry(background, token)], tokens + [token])
  {
  }

  class Requests {
    var active: map<string, Entry>
    ghost var log: seq<Event>
    ghost var tokens: seq<Cancellation>        // of all permits issued, by number

    constructor ()
      ensures Valid() && log == [] && tokens == []
    {
      active, log, tokens := map[], [], [];
    }

    // The entries are those of the history, each with the token of its permit, and a token
    // is set exactly when its permit was cancelled.
    ghost predicate Valid()
      reads this, tokens
    {
      && Legal(log) && PermitsOk(After(log))
      && Mirrors(After(log), active, tokens)
      && (forall n :: 0 <= n < |tokens| ==> (tokens[n].cancelled <==> n in After(log).cancelled))
    }

    // A live permit of this object.
    ghost predicate Owns(p: Permit)
      reads this
    {
      p.number < |tokens| && p.token == tokens[p.number] && Holds(After(log), p.id, p.number)
    }

    method Admit(id: string, rpc: string) returns (permit: Permit?)
      requires Valid()
      modifies this
      ensures permit == null <==>
              || id in old(active) || |old(active)| >= 8
              || (IsBackground(rpc) && |set i | i in old(active) && old(active)[i].background| >= 4)
      ensures Valid() && log == old(log) + [Event.Admit(id, IsBackground(rpc))]
      ensures permit == null <==> Refuses(old(After(log).active), id, IsBackground(rpc))
      ensures permit == null ==> active == old(active) && tokens == old(tokens)
      ensures permit != null ==> fresh(permit) && fresh(permit.token) && !permit.token.cancelled
                                 && permit.id == id && Owns(permit)
                                 && active == old(active)[id := Entry(IsBackground(rpc), permit.token)]
    {
      var background := IsBackground(rpc);
      CountsAgree(active, After(log).active);
      var busy := Busy(active);
      if id in active || |active| >= MAX_ACTIVE || (background && busy >= MAX_BACKGROUND) {
        Turned(id, background);
        return null;
      }
      permit := Issue(id, background);
    }

    // A refusal leaves only its trace in the history.
    ghost method Turned(id: string, background: bool)
      requires Valid() && Refuses(After(log).active, id, background)
      modifies this`log
      ensures Valid() && log == old(log) + [Event.Admit(id, background)]
    {
      LogGrows(log, Event.Admit(id, background));
      log := log + [Event.Admit(id, background)];
    }

    method Issue(id: string, background: bool) returns (permit: Permit)
      requires Valid() && !Refuses(After(log).active, id, background)
      modifies this
      ensures Valid() && log == old(log) + [Event.Admit(id, background)]
      ensures fresh(permit) && fresh(permit.token) && !permit.token.cancelled && permit.id == id && Owns(permit)
      ensures active == old(active)[id := Entry(background, permit.token)]
    {
      ghost var s := After(log);
      LogGrows(log, Event.Admit(id, background));
      log := log + [Event.Admit(id, background)];
      var token := new Cancellation();
      IssueMirrors(s, active, tokens, id, background, token);
      active := active[id := Entry(background, token)];
      permit := new Permit(id, token, s.issued);
      tokens := tokens + [token];
      assert After(log).cancelled == s.cancelled && s.issued !in s.cancelled;
    }

    /** A cancel sets the token of the permit now holding the id, and no other. */
    method Cancel(id: string)
      requires Valid()
      modifies this`log, if id in active then {active[id].token} else {}
      ensures Valid() && log == old(log) + [Event.Cancel(id)]
      ensures id in active ==> active[id].token.cancelled
    {
      CancelMirrors(After(log), active, tokens, id);
      LogGrows(log, Event.Cancel(id));
      log := log + [Event.Cancel(id)];
      if id in active {
        active[id].token.cancelled := true;
      }
    }

    // `Permit::drop`
    method Release(permit: Permit)
      requires Valid() && Owns(permit)
      modifies this
      ensures Valid() && log == old(log) + [Event.Drop(permit.id, permit.number)]
      ensures active == old(active) - {permit.id} && tokens == old(tokens)
    {
      LogGrows(log, Event.Drop(permit.id, permit.number));
      log := log + [Event.Drop(permit.id, permit.number)];
      active := active - {permit.id};
    }
  }

  function Busy(active: map<string, Entry>): nat {
    |set id | id in active && active[id].background|
  }

  lemma {:induction false} CountsAgree(active: map<string, Entry>, held: map<string, Holding>)
    requires active.Keys == held.Keys
    requires forall id :: id in active ==> active[id].background == held[id].background
    ensures Busy(active) == |Backgrounds(held)| && |active| == |held|
  {
    assert (set id | id in active && active[id].background) == Backgrounds(held);
  }

  lemma {:induction false} LogGrows(log: seq<Event>, e: Event)
    requires Legal(log) && PermitsOk(After(log)) && (e.Drop? ==> Holds(After(log), e.id, e.permit))
    ensures Legal(log + [e]) && After(log + [e]) == Next(After(log), e) && PermitsOk(Next(After(log), e))
  {
    var more := log + [e];
    assert more[..|log|] == log;
    assert forall i :: 0 <= i < |log| ==> more[..i] == log[..i];
    StepKeepsPermits(After(log), e);
  }
}
