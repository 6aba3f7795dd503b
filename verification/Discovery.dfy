/** Searching every region for existing sessions: four workers take every fourth region, and
their answers are put back into region order. */
module Discovery {
  import opened Prelude

  const CONCURRENCY: nat := 4

  datatype Session = Session(id: string, region: nat, info: nat)

  datatype Error = AuthenticationRequired(detail: string) | Cancelled | DiscoveryFailed | OtherError(code: string)

  type Answer = Result<seq<Session>, Error>

  // What region i answers when it is asked: the request, its timeout and the cancellation
  // check before it are all part of the answer.
  type Ask = nat -> Answer

  datatype Entry = Entry(region: nat, answer: Answer)

  function Indexed(n: nat, ask: Ask): (s: seq<Entry>)
    ensures |s| == n && forall i :: 0 <= i < n ==> s[i] == Entry(i, ask(i))
  {
    seq(n, i requires 0 <= i < n => Entry(i, ask(i)))
  }

  // ---- The search one region after the other ----

  function AddNew(sessions: seq<Session>, found: seq<Session>): seq<Session>
    decreases |found|
  {
    if found == [] then sessions
    else AddNew(if Known(sessions, found[0].id) then sessions else sessions + [found[0]], found[1..])
  }

  predicate Known(sessions: seq<Session>, id: string) {
    exists k :: 0 <= k < |sessions| && sessions[k].id == id
  }

  predicate IsAuth(a: Answer) {
    a.Err? && a.error.AuthenticationRequired?
  }

  function Concluded(sessions: seq<Session>, incomplete: bool, regions: nat): Answer {
    if sessions == [] && (incomplete || regions == 0) then Err(DiscoveryFailed) else Ok(sessions)
  }

  // Ask region i, then the ones after it; an authentication error ends the search.
  function SearchFrom(i: nat, n: nat, ask: Ask, sessions: seq<Session>, incomplete: bool): Answer
    requires i <= n
    decreases n - i
  {
    if i == n then Concluded(sessions, incomplete, n)
    else if IsAuth(ask(i)) then ask(i)
    else match ask(i)
      case Ok(found) => SearchFrom(i + 1, n, ask, AddNew(sessions, found), incomplete)
      case Err(_) => SearchFrom(i + 1, n, ask, sessions, true)
  }

  // ---- What the search finds ----

  function Flat(n: nat, ask: Ask): seq<Session> {
    if n == 0 then [] else Flat(n - 1, ask) + (if ask(n - 1).Ok? then ask(n - 1).value else [])
  }

  predicate SomeRegionFailed(n: nat, ask: Ask) {
    exists i :: 0 <= i < n && ask(i).Err?
  }

  lemma {:induction false} AddNewConcat(sessions: seq<Session>, a: seq<Session>, b: seq<Session>)
    ensures AddNew(sessions, a + b) == AddNew(AddNew(sessions, a), b)
    decreases |a|
  {
    if a == [] {
      assert a + b == b;
    } else {
      assert (a + b)[1..] == a[1..] + b;
      AddNewConcat(if Known(sessions, a[0].id) then sessions else sessions + [a[0]], a[1..], b);
    }
  }

  /** The first authentication error is the answer, whatever was found before it. */
  lemma {:induction false} FirstAuthErrorWins(
      i: nat, n: nat, ask: Ask, sessions: seq<Session>, incomplete: bool, k: nat)
    requires i <= k < n && IsAuth(ask(k)) && forall j :: i <= j < k ==> !IsAuth(ask(j))
    ensures SearchFrom(i, n, ask, sessions, incomplete) == ask(k)
    decreases n - i
  {
    if i < k {
      match ask(i)
      case Ok(found) => FirstAuthErrorWins(i + 1, n, ask, AddNew(sessions, found), incomplete, k);
      case Err(_) => FirstAuthErrorWins(i + 1, n, ask, sessions, true, k);
    }
  }

  lemma {:induction false} SearchStep(i: nat, n: nat, ask: Ask, incomplete: bool)
    requires i < n && !IsAuth(ask(i))
    ensures SearchFrom(i, n, ask, AddNew([], Flat(i, ask)), incomplete || SomeRegionFailed(i, ask))
         == SearchFrom(i + 1, n, ask, AddNew([], Flat(i + 1, ask)), incomplete || SomeRegionFailed(i + 1, ask))
  {
    if ask(i).Ok? {
      AddNewConcat([], Flat(i, ask), ask(i).value);
      assert SomeRegionFailed(i + 1, ask) <==> SomeRegionFailed(i, ask);
    } else {
      assert Flat(i + 1, ask) == Flat(i, ask);
      assert SomeRegionFailed(i + 1, ask);
    }
  }

  /** Without an authentication error the answer is every session found, in region order, one
      for each id; finding none is an error exactly when a region failed, the list of regions
      was already incomplete, or there were no regions. */
  lemma {:induction false} WithoutAuthError(i: nat, n: nat, ask: Ask, incomplete: bool)
    requires i <= n && forall j :: 0 <= j < n ==> !IsAuth(ask(j))
    ensures SearchFrom(i, n, ask, AddNew([], Flat(i, ask)), incomplete || SomeRegionFailed(i, ask))
         == Concluded(AddNew([], Flat(n, ask)), incomplete || SomeRegionFailed(n, ask), n)
    decreases n - i
  {
    if i < n {
      SearchStep(i, n, ask, incomplete);
      WithoutAuthError(i + 1, n, ask, incomplete);
    }
  }

  ghost predicate AsksToSignIn(a: Answer) {
    exists detail :: a == Err(AuthenticationRequired(detail))
  }

  lemma {:induction false} AuthIff(a: Answer)
    ensures IsAuth(a) <==> AsksToSignIn(a)
  {
    if IsAuth(a) {
      assert a == Err(AuthenticationRequired(a.error.detail));
    }
  }

  // The outcome of a search that is not cancelled: the first authentication error, or else all
  // sessions found, or else an error if the search was not complete.
  ghost predicate IsOutcome(r: Answer, n: nat, ask: Ask, incomplete: bool) {
    && (forall k, detail ::
          0 <= k < n && ask(k) == Err(AuthenticationRequired(detail))
          && (forall j :: 0 <= j < k ==> !AsksToSignIn(ask(j)))
          ==> r == Err(AuthenticationRequired(detail)))
    && ((forall k :: 0 <= k < n ==> !AsksToSignIn(ask(k))) ==>
          && (r.Ok? ==> r.value == AddNew([], Flat(n, ask)))
          && (r.Err? ==> r.error == DiscoveryFailed)
          && (r.Err? <==> Flat(n, ask) == [] && (incomplete || n == 0 || exists k :: 0 <= k < n && ask(k).Err?)))
  }

  /** Asking one region after the other has that outcome, whatever the regions answer. */
  lemma {:induction false} SearchOutcome(n: nat, ask: Ask, incomplete: bool)
    ensures IsOutcome(SearchFrom(0, n, ask, [], incomplete), n, ask, incomplete)
  {
    forall k, detail |
        0 <= k < n && ask(k) == Err(AuthenticationRequired(detail))
        && (forall j :: 0 <= j < k ==> !AsksToSignIn(ask(j)))
      ensures SearchFrom(0, n, ask, [], incomplete) == Err(AuthenticationRequired(detail))
    {
      forall j | 0 <= j < k ensures !IsAuth(ask(j)) {
        AuthIff(ask(j));
      }
      FirstAuthErrorWins(0, n, ask, [], incomplete, k);
    }
    if forall k :: 0 <= k < n ==> !AsksToSignIn(ask(k)) {
      forall j | 0 <= j < n ensures !IsAuth(ask(j)) {
        AuthIff(ask(j));
      }
      WithoutAuthError(0, n, ask, incomplete);
      NothingNew(Flat(n, ask));
    }
  }

  lemma {:induction false} NothingNew(found: seq<Session>)
    ensures AddNew([], found) == [] <==> found == []
  {
    if found != [] {
      assert !Known([], found[0].id) && [] + [found[0]] == [found[0]];
      AddNewGrows([found[0]], found[1..]);
    }
  }

  lemma {:induction false} AddNewGrows(sessions: seq<Session>, found: seq<Session>)
    ensures sessions <= AddNew(sessions, found)
    decreases |found|
  {
    if found != [] {
      AddNewGrows(if Known(sessions, found[0].id) then sessions else sessions + [found[0]], found[1..]);
    }
  }

  // The k-th session found is the first with its id.
  predicate IsFirst(found: seq<Session>, k: nat, s: Session) {
    k < |found| && found[k] == s && forall j :: 0 <= j < k ==> found[j].id != s.id
  }

  // A session that stays was found before the last one.
  lemma {:induction false} FoundBefore(init: seq<Session>, last: Session, k: nat, s: Session)
    requires s in AddNew([], init) && IsFirst(init + [last], k, s)
    ensures IsFirst(init, k, s)
  {
    EarliestStays(init);
    var i: nat :| IsFirst(init, i, s);
    assert (init + [last])[i] == init[i];
    assert k <= i;
    assert (init + [last])[k] == init[k];
  }

  // A session with a new id is the last one found.
  lemma {:induction false} FoundLast(init: seq<Session>, last: Session, k: nat)
    requires !Known(init, last.id) && IsFirst(init + [last], k, last)
    ensures k == |init|
  {
    assert forall i :: 0 <= i < |init| ==> (init + [last])[i] == init[i] && init[i].id != last.id;
  }

  /** Those that stay, stay in the order in which they were found. */
  lemma {:induction false} OrderStays(found: seq<Session>, a: nat, b: nat, j: nat, k: nat)
    requires a < b < |AddNew([], found)|
    requires IsFirst(found, j, AddNew([], found)[a]) && IsFirst(found, k, AddNew([], found)[b])
    ensures j < k
  {
    var init, last := found[..|found| - 1], found[|found| - 1];
    var kept := AddNew([], init);
    assert found == init + [last];
    AddNewConcat([], init, [last]);
    assert AddNew([], found) == if Known(kept, last.id) then kept else kept + [last];
    FoundBefore(init, last, j, kept[a]);
    if b < |kept| {
      FoundBefore(init, last, k, kept[b]);
      OrderStays(init, a, b, j, k);
    } else {
      KnownIffFound(init, last.id);
      FoundLast(init, last, k);
    }
  }

  /** Of the sessions with one id the earliest stays, and only that one. */
  lemma {:induction false} EarliestStays(found: seq<Session>)
    ensures var kept := AddNew([], found);
            && (forall a, b :: 0 <= a < b < |kept| ==> kept[a].id != kept[b].id)
            && (forall s :: s in kept <==> exists k :: IsFirst(found, k, s))
  {
    if found != [] {
      var init, last := found[..|found| - 1], found[|found| - 1];
      assert found == init + [last];
      AddNewConcat([], init, [last]);
      EarliestStays(init);
      KnownIffFound(init, last.id);
      forall s
        ensures (exists k :: IsFirst(found, k, s))
           <==> (exists k :: IsFirst(init, k, s)) || (s == last && !Known(init, s.id))
      {
        FirstOneMore(init, last, s);
      }
    }
  }

  lemma {:induction false} FirstOneMore(init: seq<Session>, last: Session, s: Session)
    ensures (exists k :: IsFirst(init + [last], k, s))
       <==> (exists k :: IsFirst(init, k, s)) || (s == last && !Known(init, s.id))
  {
    var found := init + [last];
    assert forall k: nat :: k < |init| ==> found[k] == init[k];
    if k :| IsFirst(init, k, s) {
      assert IsFirst(found, k, s);
    } else if s == last && !Known(init, s.id) {
      assert IsFirst(found, |init|, s);
    } else if k: nat :| IsFirst(found, k, s) {
      assert k < |init| ==> IsFirst(init, k, s);
    }
  }

  lemma {:induction false} KnownIffFound(found: seq<Session>, id: string)
    ensures Known(AddNew([], found), id) <==> Known(found, id)
  {
    if found != [] {
      var init, last := found[..|found| - 1], found[|found| - 1];
      assert found == init + [last];
      AddNewConcat([], init, [last]);
      KnownIffFound(init, id);
      KnownIffFound(init, last.id);
      KnownOneMore(init, last, id);
      KnownOneMore(AddNew([], init), last, id);
    }
  }

  lemma {:induction false} KnownOneMore(sessions: seq<Session>, s: Session, id: string)
    ensures Known(sessions + [s], id) <==> Known(sessions, id) || s.id == id
  {
    var more := sessions + [s];
    if s.id == id {
      assert more[|sessions|].id == id;
    } else if k :| 0 <= k < |sessions| && sessions[k].id == id {
      assert more[k].id == id;
    }
  }

  // ---- The workers ----

  // What one worker asks: its first region and every fourth after it.
  function Stride(at: nat, n: nat, ask: Ask): seq<Entry>
    decreases if at < n then n - at else 0
  {
    if at >= n then [] else [Entry(at, ask(at))] + Stride(at + CONCURRENCY, n, ask)
  }

  function Joined(parts: nat -> seq<Entry>, count: nat): seq<Entry> {
    if count == 0 then [] else Joined(parts, count - 1) + parts(count - 1)
  }

  function StrideOf(n: nat, ask: Ask): nat -> seq<Entry> {
    (worker: nat) => Stride(worker, n, ask)
  }

  // What the workers return, one after the other.
  function Strides(workers: nat, n: nat, ask: Ask): seq<Entry> {
    Joined(StrideOf(n, ask), workers)
  }

  // The worker that asks a region: its number modulo four.
  function WorkerOf(region: nat): (w: nat)
    ensures w < CONCURRENCY && w <= region && (region < CONCURRENCY ==> w == region)
  {
    if region < CONCURRENCY then region else WorkerOf(region - CONCURRENCY)
  }

  lemma {:induction false} SameWorkerApart(a: nat, b: nat)
    requires WorkerOf(a) == WorkerOf(b) && a < b
    ensures a + CONCURRENCY <= b
  {
    if a >= CONCURRENCY {
      SameWorkerApart(a - CONCURRENCY, b - CONCURRENCY);
    }
  }

  predicate Asked(e: Entry, n: nat, ask: Ask) {
    e.region < n && e.answer == ask(e.region)
  }

  lemma {:induction false} StrideCount(at: nat, n: nat, ask: Ask, e: Entry)
    ensures multiset(Stride(at, n, ask))[e]
         == if at <= e.region && Asked(e, n, ask) && WorkerOf(e.region) == WorkerOf(at) then 1 else 0
    decreases if at < n then n - at else 0
  {
    if at < n {
      StrideCount(at + CONCURRENCY, n, ask, e);
      NextOfWorker(at, e.region);
      CountedFirst(Entry(at, ask(at)), Stride(at + CONCURRENCY, n, ask), e);
    }
  }

  lemma {:induction false} CountedFirst(first: Entry, rest: seq<Entry>, e: Entry)
    ensures multiset([first] + rest)[e] == (if e == first then 1 else 0) + multiset(rest)[e]
  {
    assert multiset([first] + rest) == multiset([first]) + multiset(rest);
  }

  // The regions of a worker from `at` on are `at` and those from the next one on.
  lemma {:induction false} NextOfWorker(at: nat, region: nat)
    ensures at <= region && WorkerOf(region) == WorkerOf(at)
       <==> region == at || (at + CONCURRENCY <= region && WorkerOf(region) == WorkerOf(at + CONCURRENCY))
  {
    if at < region && WorkerOf(region) == WorkerOf(at) {
      SameWorkerApart(at, region);
    }
  }

  lemma {:induction false} OwnCount(worker: nat, n: nat, ask: Ask, e: Entry)
    requires worker < CONCURRENCY
    ensures multiset(Stride(worker, n, ask))[e] == if Asked(e, n, ask) && WorkerOf(e.region) == worker then 1 else 0
  {
    StrideCount(worker, n, ask, e);
  }

  lemma {:induction false} JoinedCount(parts: nat -> seq<Entry>, count: nat, e: Entry, asked: bool, turn: nat)
    requires forall w: nat :: w < count ==> multiset(parts(w))[e] == if asked && turn == w then 1 else 0
    ensures multiset(Joined(parts, count))[e] == if asked && turn < count then 1 else 0
  {
    if count > 0 {
      JoinedCount(parts, count - 1, e, asked, turn);
      var before, own := Joined(parts, count - 1), parts(count - 1);
      assert multiset(before + own)[e] == multiset(before)[e] + multiset(own)[e];
    }
  }

  lemma {:induction false} StridesCount(workers: nat, n: nat, ask: Ask, e: Entry)
    requires workers <= CONCURRENCY
    ensures multiset(Strides(workers, n, ask))[e] == if Asked(e, n, ask) && WorkerOf(e.region) < workers then 1 else 0
  {
    forall w: nat | w < workers
      ensures multiset(StrideOf(n, ask)(w))[e] == if Asked(e, n, ask) && WorkerOf(e.region) == w then 1 else 0
    {
      OwnCount(w, n, ask, e);
    }
    JoinedCount(StrideOf(n, ask), workers, e, Asked(e, n, ask), WorkerOf(e.region));
  }

  lemma {:induction false} IndexedCount(n: nat, ask: Ask, e: Entry)
    ensures multiset(Indexed(n, ask))[e] == if Asked(e, n, ask) then 1 else 0
  {
    if n > 0 {
      assert Indexed(n, ask) == Indexed(n - 1, ask) + [Entry(n - 1, ask(n - 1))];
      IndexedCount(n - 1, ask, e);
    }
  }

  /** For any number of regions the workers ask each region exactly once. */
  lemma {:induction false} WorkersPartition(n: nat, ask: Ask)
    ensures multiset(Strides(Min(CONCURRENCY, n), n, ask)) == multiset(Indexed(n, ask))
  {
    forall e ensures multiset(Strides(Min(CONCURRENCY, n), n, ask))[e] == multiset(Indexed(n, ask))[e] {
      StridesCount(Min(CONCURRENCY, n), n, ask, e);
      IndexedCount(n, ask, e);
    }
  }

  // ---- Back into region order ----

  predicate InOrder(s: seq<Entry>) {
    forall i, j :: 0 <= i < j < |s| ==> s[i].region <= s[j].region
  }

  // The library's stable sort by region.
  function Inserted(s: seq<Entry>, e: Entry): (r: seq<Entry>)
    requires InOrder(s)
    ensures multiset(r) == multiset(s) + multiset{e}
    ensures r != [] && r[|r| - 1].region == if s == [] then e.region else Max(s[|s| - 1].region, e.region)
    ensures InOrder(r)
  {
    if s == [] || s[|s| - 1].region <= e.region then s + [e]
    else
      assert s == s[..|s| - 1] + [s[|s| - 1]];
      Inserted(s[..|s| - 1], e) + [s[|s| - 1]]
  }

  function SortedByRegion(s: seq<Entry>): (r: seq<Entry>)
    ensures InOrder(r) && multiset(r) == multiset(s)
  {
    if s == [] then []
    else
      assert s == s[..|s| - 1] + [s[|s| - 1]];
      Inserted(SortedByRegion(s[..|s| - 1]), s[|s| - 1])
  }

  lemma {:induction false} NoRepeats(s: seq<Entry>, i: nat, j: nat)
    requires i < j < |s| && multiset(s)[s[j]] <= 1
    ensures s[i] != s[j]
  {
    assert s == s[..j] + s[j..];
    assert s[..j][i] in multiset(s[..j]) && s[j..][0] in multiset(s[j..]);
  }

  // An ordered listing of every region's answer is the list by index.
  lemma {:induction false} OrderedIsIndexed(s: seq<Entry>, n: nat, ask: Ask)
    requires InOrder(s) && multiset(s) == multiset(Indexed(n, ask))
    ensures s == Indexed(n, ask)
  {
    assert |s| == |multiset(s)| == n;
    forall i | 0 <= i < n ensures s[i].region < n && s[i].answer == ask(s[i].region) {
      assert s[i] in multiset(s);
      IndexedCount(n, ask, s[i]);
    }
    forall i, j | 0 <= i < j < n ensures s[i].region < s[j].region {
      IndexedCount(n, ask, s[j]);
      NoRepeats(s, i, j);
    }
    forall i | 0 <= i < n ensures s[i].region == i {
      ClimbsFrom(s, i);
      ClimbsTo(s, i, n);
    }
  }

  lemma {:induction false} ClimbsFrom(s: seq<Entry>, i: nat)
    requires i < |s| && forall a, b :: 0 <= a < b < |s| ==> s[a].region < s[b].region
    ensures s[i].region >= i
  {
    if i > 0 {
      ClimbsFrom(s, i - 1);
    }
  }

  lemma {:induction false} ClimbsTo(s: seq<Entry>, i: nat, n: nat)
    requires i < |s| && forall a, b :: 0 <= a < b < |s| ==> s[a].region < s[b].region
    requires forall a :: 0 <= a < |s| ==> s[a].region < n
    ensures s[i].region <= n - (|s| - i)
    decreases |s| - i
  {
    if i + 1 < |s| {
      ClimbsTo(s, i + 1, n);
    }
  }

  // ---- The parallel search ----

  method WorkerPass(worker: nat, n: nat, ask: Ask) returns (entries: seq<Entry>)
    ensures entries == Stride(worker, n, ask)
  {
    entries := [];
    var at := worker;
    while at < n
      invariant entries + Stride(at, n, ask) == Stride(worker, n, ask)
      decreases n - at
    {
      assert Stride(at, n, ask) == [Entry(at, ask(at))] + Stride(at + CONCURRENCY, n, ask);
      entries := entries + [Entry(at, ask(at))];
      at := at + CONCURRENCY;
    }
  }

  /** The search over all regions. Whatever the regions answer, the outcome is that of asking
      them one after the other; `cancelled` is the check after the workers have ended. */
  method DiscoverSessions(n: nat, ask: Ask, incomplete: bool, cancelled: bool) returns (r: Answer)
    ensures r == if cancelled then Err(Cancelled) else SearchFrom(0, n, ask, [], incomplete)
    ensures if cancelled then r == Err(Cancelled) else IsOutcome(r, n, ask, incomplete)
  {
    SearchOutcome(n, ask, incomplete);
    var results: seq<Entry> := [];
    for worker := 0 to Min(CONCURRENCY, n)
      invariant results == Strides(worker, n, ask)
    {
      var entries := WorkerPass(worker, n, ask);
      results := results + entries;
    }
    if cancelled {
      return Err(Cancelled);
    }
    results := SortedByRegion(results);
    WorkersPartition(n, ask);
    OrderedIsIndexed(results, n, ask);
    r := MergeInOrder(results, n, ask, incomplete);
  }

  method MergeInOrder(results: seq<Entry>, n: nat, ghost ask: Ask, incomplete: bool) returns (r: Answer)
    requires results == Indexed(n, ask)
    ensures r == SearchFrom(0, n, ask, [], incomplete)
  {
    var sessions: seq<Session> := [];
    var missing := incomplete;
    for i := 0 to n
      invariant SearchFrom(i, n, ask, sessions, missing) == SearchFrom(0, n, ask, [], incomplete)
    {
      match results[i].answer
      case Ok(found) => sessions := AddSessions(sessions, found);
      case Err(error) =>
        if error.AuthenticationRequired? {
          return results[i].answer;
        }
        missing := true;
    }
    r := if sessions == [] && (missing || n == 0) then Err(DiscoveryFailed) else Ok(sessions);
  }

  method AddSessions(known: seq<Session>, found: seq<Session>) returns (sessions: seq<Session>)
    ensures sessions == AddNew(known, found)
  {
    sessions := known;
    for i := 0 to |found|
      invariant AddNew(sessions, found[i..]) == AddNew(known, found)
    {
      assert found[i..][1..] == found[i + 1..];
      if !Known(sessions, found[i].id) {
        sessions := sessions + [found[i]];
      }
    }
  }
}
