/** The artwork index in memory and its eviction: least recently used objects go first until
the objects that stay, with the incoming one, respect both limits. Keys are the digests of
source URLs, taken as numbers in their text order. */
module ArtworkEviction {
  import opened Prelude

  datatype CacheEntry = CacheEntry(extension: string, sizeBytes: nat, lastAccess: nat)

  datatype Limits = Limits(maxBytes: nat, maxEntries: nat, maxObjectBytes: nat)

  datatype StoreError = LimitNotEnforced | RenameFailed | NotAFileUrl

  // One file of the object directory; `name` is `None` when it is not an object name.
  datatype Found = Found(name: Option<(nat, string)>, size: Option<nat>, isFile: bool, modified: nat)

  type Entries = map<nat, CacheEntry>

  // ---- Totals ----

  ghost function Total(m: Entries): nat {
    if m == map[] then 0
    else
      var k :| k in m;
      m[k].sizeBytes + Total(m - {k})
  }

  lemma {:induction false} TotalWithout(m: Entries, k: nat)
    requires k in m
    ensures Total(m) == m[k].sizeBytes + Total(m - {k})
    decreases |m|
  {
    var j :| j in m && Total(m) == m[j].sizeBytes + Total(m - {j});
    if j != k {
      TotalWithout(m - {j}, k);
      TotalWithout(m - {k}, j);
      assert m - {j} - {k} == m - {k} - {j};
    }
  }

  lemma {:induction false} TotalWith(m: Entries, k: nat, e: CacheEntry)
    ensures Total(m[k := e]) == e.sizeBytes + Total(m - {k})
    ensures Total(m - {k}) <= Total(m)
  {
    TotalWithout(m[k := e], k);
    assert m[k := e] - {k} == m - {k};
    if k in m {
      TotalWithout(m, k);
    } else {
      assert m - {k} == m;
    }
  }

  lemma {:induction false} OneLess(m: Entries, k: nat)
    ensures Total(m - {k}) <= Total(m) && |m - {k}| <= |m|
  {
    if k in m {
      TotalWithout(m, k);
    } else {
      assert m - {k} == m;
    }
  }

  // Removing more leaves no more.
  lemma {:induction false} TotalShrinks(m: Entries, a: set<nat>, b: set<nat>)
    requires a <= b
    ensures Total(m - b) <= Total(m - a) && |m - b| <= |m - a|
    decreases b
  {
    if k :| k in b && k !in a {
      TotalShrinks(m, a, b - {k});
      SubtractedTwice(m, b, k);
      OneLess(m - (b - {k}), k);
    } else {
      assert a == b;
    }
  }

  lemma {:induction false} SubtractedTwice(m: Entries, b: set<nat>, k: nat)
    requires k in b
    ensures (m - (b - {k})) - {k} == m - b
  {
  }

  // ---- The order of eviction and what must go ----

  ghost predicate Fits(m: Entries, incomingBytes: nat, incomingEntries: nat, limits: Limits) {
    && SaturatingAdd(Total(m), incomingBytes) <= limits.maxBytes
    && SaturatingAdd(|m|, incomingEntries) <= limits.maxEntries
  }

  /** Below the largest number the limits are met exactly by the true sums. */
  lemma {:induction false} FitsIffSums(m: Entries, incomingBytes: nat, incomingEntries: nat, limits: Limits)
    requires limits.maxBytes < U64_MAX && limits.maxEntries < U64_MAX
    ensures Fits(m, incomingBytes, incomingEntries, limits) <==>
            Total(m) + incomingBytes <= limits.maxBytes && |m| + incomingEntries <= limits.maxEntries
  {
  }

  predicate Before(m: Entries, a: nat, b: nat)
    requires a in m && b in m
  {
    m[a].lastAccess < m[b].lastAccess || (m[a].lastAccess == m[b].lastAccess && a < b)
  }

  // A set of removable objects that holds, with each of its objects, all older ones.
  ghost predicate OldestFirst(m: Entries, removable: set<nat>, gone: set<nat>) {
    && gone <= m.Keys * removable
    && forall a, b :: a in gone && b in m && b in removable && Before(m, b, a) ==> b in gone
  }

  // Which removals are enough.
  type Enough = set<nat> -> bool

  ghost function EnoughFor(m: Entries, bytes: nat, count: nat, limits: Limits): Enough {
    gone => Fits(m - gone, bytes, count, limits)
  }

  ghost predicate Monotone(enough: Enough) {
    forall a, b :: a <= b && enough(a) ==> enough(b)
  }

  // `gone` is oldest first and within every other such set that is enough.
  ghost predicate Least(m: Entries, removable: set<nat>, gone: set<nat>, enough: Enough) {
    && OldestFirst(m, removable, gone)
    && forall other :: enough(other) && OldestFirst(m, removable, other) ==> gone <= other
  }

  lemma {:induction false} FitsShrinks(m: Entries, a: set<nat>, b: set<nat>, bytes: nat, count: nat, limits: Limits)
    requires a <= b && Fits(m - a, bytes, count, limits)
    ensures Fits(m - b, bytes, count, limits)
  {
    TotalShrinks(m, a, b);
  }

  lemma {:induction false} EnoughIsMonotone(m: Entries, bytes: nat, count: nat, limits: Limits)
    ensures Monotone(EnoughFor(m, bytes, count, limits))
  {
    forall a, b | a <= b && EnoughFor(m, bytes, count, limits)(a) ensures EnoughFor(m, bytes, count, limits)(b) {
      FitsShrinks(m, a, b, bytes, count, limits);
    }
  }

  // ---- Stand-in for the library sort ----

  method Oldest(m: Entries, left: set<nat>) returns (k: nat)
    requires left != {} && left <= m.Keys
    ensures k in left && forall a :: a in left && a != k ==> Before(m, k, a)
  {
    var rest := left;
    k :| k in rest;
    rest := rest - {k};
    while rest != {}
      invariant rest <= left && k in left - rest
      invariant forall a :: a in left && a !in rest && a != k ==> Before(m, k, a)
    {
      var a :| a in rest;
      rest := rest - {a};
      if Before(m, a, k) {
        k := a;
      }
    }
  }

  predicate Sorted(m: Entries, order: seq<nat>) {
    && (forall i :: 0 <= i < |order| ==> order[i] in m)
    && (forall i, j :: 0 <= i < j < |order| ==> Before(m, order[i], order[j]))
  }

  method SortedOldest(m: Entries) returns (order: seq<nat>, bytes: nat)
    ensures Lists(m, order)
    ensures bytes == Total(m)
  {
    order, bytes := [], 0;
    var left := m.Keys;
    assert m - {} == m;
    assert m - m.Keys == map[];
    while left != {}
      invariant left <= m.Keys && Sorted(m, order)
      invariant forall k :: k in m <==> k in order || k in left
      invariant forall i, k :: 0 <= i < |order| && k in left ==> Before(m, order[i], k)
      invariant bytes == Total(m - left)
    {
      var k := Oldest(m, left);
      TotalWithout(m - (left - {k}), k);
      assert (m - (left - {k})) - {k} == m - left;
      order := order + [k];
      left := left - {k};
      bytes := bytes + m[k].sizeBytes;
    }
    assert m - {} == m;
  }

  // ---- The eviction loop ----

  ghost function GoneAfter(order: seq<nat>, removable: set<nat>): set<nat> {
    set k | k in order && k in removable
  }

  // The index and the running totals of the loop, and what one round makes of them.
  datatype Tally = Tally(left: Entries, bytes: nat, count: nat)

  function Round(t: Tally, key: nat, removable: set<nat>): Tally {
    if key in t.left && key in removable
    then Tally(t.left - {key}, SaturatingSub(t.bytes, t.left[key].sizeBytes), SaturatingSub(t.count, 1))
    else t
  }

  ghost function TallyAt(m: Entries, order: seq<nat>, i: nat, removable: set<nat>): Tally
    requires i <= |order|
    decreases i
  {
    if i == 0 then Tally(m, Total(m), |m|) else Round(TallyAt(m, order, i - 1, removable), order[i - 1], removable)
  }

  predicate TallyFits(t: Tally, incomingBytes: nat, incomingEntries: nat, limits: Limits) {
    && SaturatingAdd(t.bytes, incomingBytes) <= limits.maxBytes
    && SaturatingAdd(t.count, incomingEntries) <= limits.maxEntries
  }

  ghost predicate Lists(m: Entries, order: seq<nat>) {
    Sorted(m, order) && forall k :: k in m <==> k in order
  }

  lemma {:induction false} GoneOneMore(order: seq<nat>, i: nat, removable: set<nat>)
    requires i < |order|
    ensures order[i] in removable ==>
              GoneAfter(order[..i + 1], removable) == GoneAfter(order[..i], removable) + {order[i]}
    ensures order[i] !in removable ==> GoneAfter(order[..i + 1], removable) == GoneAfter(order[..i], removable)
  {
    assert order[..i + 1] == order[..i] + [order[i]];
  }

  lemma {:induction false} NotYetGone(m: Entries, order: seq<nat>, i: nat, removable: set<nat>)
    requires Sorted(m, order) && i < |order|
    ensures order[i] !in GoneAfter(order[..i], removable)
  {
    assert forall j :: 0 <= j < i ==> Before(m, order[j], order[i]);
  }

  lemma {:induction false} OneGone(m: Entries, gone: set<nat>, key: nat)
    requires key in m && key !in gone
    ensures m - (gone + {key}) == (m - gone) - {key} && key in m - gone
  {
  }

  // The running totals are the true ones.
  lemma {:induction false} TallyIsTrue(m: Entries, order: seq<nat>, i: nat, removable: set<nat>)
    requires i <= |order|
    ensures var t := TallyAt(m, order, i, removable);
            t.bytes == Total(t.left) && t.count == |t.left|
    decreases i
  {
    if i > 0 {
      TallyIsTrue(m, order, i - 1, removable);
      var t := TallyAt(m, order, i - 1, removable);
      if order[i - 1] in t.left {
        TotalWithout(t.left, order[i - 1]);
      }
    }
  }

  // What is left is what has not gone.
  lemma {:induction false} LeftAt(m: Entries, order: seq<nat>, i: nat, removable: set<nat>)
    requires Lists(m, order) && i <= |order|
    ensures TallyAt(m, order, i, removable).left == m - GoneAfter(order[..i], removable)
    decreases i
  {
    if i == 0 {
      assert m - GoneAfter(order[..0], removable) == m;
    } else {
      LeftAt(m, order, i - 1, removable);
      GoneOneMore(order, i - 1, removable);
      if order[i - 1] in removable {
        NotYetGone(m, order, i - 1, removable);
        OneGone(m, GoneAfter(order[..i - 1], removable), order[i - 1]);
      }
    }
  }

  lemma {:induction false} AllGone(m: Entries, order: seq<nat>, removable: set<nat>)
    requires Lists(m, order)
    ensures GoneAfter(order, removable) == m.Keys * removable
  {
  }

  lemma {:induction false} PrefixIsOldestFirst(m: Entries, order: seq<nat>, i: nat, removable: set<nat>)
    requires Lists(m, order) && i <= |order|
    ensures OldestFirst(m, removable, GoneAfter(order[..i], removable))
  {
    var gone := GoneAfter(order[..i], removable);
    forall a, b | a in gone && b in m && b in removable && Before(m, b, a) ensures b in gone {
      var p :| 0 <= p < i && order[..i][p] == a;
      var q :| 0 <= q < |order| && order[q] == b;
      assert p < q ==> Before(m, order[p], order[q]);
      assert q < i && order[..i][q] == b;
    }
  }

  lemma {:induction false} TallyTells(
      m: Entries, order: seq<nat>, i: nat, removable: set<nat>, bytes: nat, count: nat, limits: Limits)
    requires Lists(m, order) && i <= |order|
    ensures TallyFits(TallyAt(m, order, i, removable), bytes, count, limits)
       <==> EnoughFor(m, bytes, count, limits)(GoneAfter(order[..i], removable))
  {
    TallyIsTrue(m, order, i, removable);
    LeftAt(m, order, i, removable);
  }

  // What has gone when the loop stops is in every set that is enough: a set that spares one
  // object holds only older ones, and those alone were not enough.
  lemma {:induction false} GoneIsNeeded(
      m: Entries, order: seq<nat>, last: nat, x: nat, removable: set<nat>, other: set<nat>, enough: Enough)
    requires Lists(m, order) && last < |order| && x in removable && x in order[..last + 1]
    requires Monotone(enough) && !enough(GoneAfter(order[..last], removable))
    requires enough(other) && OldestFirst(m, removable, other)
    ensures x in other
  {
    assert !(other <= GoneAfter(order[..last], removable));
    var a :| a in other && a !in GoneAfter(order[..last], removable);
    if x !in other {
      OlderIsEarlier(m, order, last, x, a);
    }
  }

  lemma {:induction false} OlderIsEarlier(m: Entries, order: seq<nat>, last: nat, x: nat, a: nat)
    requires Lists(m, order) && last < |order| && x in order[..last + 1] && a in m && a != x && !Before(m, x, a)
    ensures a in order[..last]
  {
    var p :| 0 <= p <= last && order[..last + 1][p] == x;
    var q :| 0 <= q < |order| && order[q] == a;
    assert q < p;
    assert order[..last][q] == a;
  }

  // Stopping at the first removal that is enough leaves the least one.
  lemma {:induction false} StoppedAt(m: Entries, order: seq<nat>, i: nat, removable: set<nat>, enough: Enough)
    requires Lists(m, order) && i <= |order| && Monotone(enough)
    requires i == 0 || !enough(GoneAfter(order[..i - 1], removable))
    ensures Least(m, removable, GoneAfter(order[..i], removable), enough)
  {
    PrefixIsOldestFirst(m, order, i, removable);
    if i > 0 {
      forall other, x | enough(other) && OldestFirst(m, removable, other) && x in GoneAfter(order[..i], removable)
        ensures x in other
      {
        GoneIsNeeded(m, order, i - 1, x, removable, other, enough);
      }
    }
  }

  lemma {:induction false} SettledAfter(
      m: Entries, order: seq<nat>, last: nat, i: nat, removable: set<nat>, bytes: nat, count: nat, limits: Limits)
    requires Lists(m, order) && i == last + 1 <= |order|
    requires !TallyFits(TallyAt(m, order, last, removable), bytes, count, limits)
    ensures Least(m, removable, GoneAfter(order[..i], removable), EnoughFor(m, bytes, count, limits))
  {
    TallyTells(m, order, last, removable, bytes, count, limits);
    EnoughIsMonotone(m, bytes, count, limits);
    StoppedAt(m, order, i, removable, EnoughFor(m, bytes, count, limits));
  }

  lemma {:induction false} Settled(
      m: Entries, order: seq<nat>, i: nat, removable: set<nat>, bytes: nat, count: nat, limits: Limits)
    requires Lists(m, order) && i <= |order|
    requires i == 0 || !TallyFits(TallyAt(m, order, i - 1, removable), bytes, count, limits)
    ensures Least(m, removable, GoneAfter(order[..i], removable), EnoughFor(m, bytes, count, limits))
  {
    if i > 0 {
      SettledAfter(m, order, i - 1, i, removable, bytes, count, limits);
    }
  }

  lemma {:induction false} SettledTally(
      m: Entries, order: seq<nat>, i: nat, removable: set<nat>, bytes: nat, count: nat, limits: Limits)
    requires Lists(m, order) && i <= |order|
    ensures var gone, t := GoneAfter(order[..i], removable), TallyAt(m, order, i, removable);
            && t.left == m - gone
            && (TallyFits(t, bytes, count, limits) <==> Fits(t.left, bytes, count, limits))
            && (i == |order| ==> gone == m.Keys * removable)
  {
    TallyIsTrue(m, order, i, removable);
    LeftAt(m, order, i, removable);
    if i == |order| {
      AllGone(m, order, removable);
      assert order[..i] == order;
    }
  }

  lemma {:induction false} WithoutSome(m: Entries, removable: set<nat>, gone: set<nat>, limits: Limits)
    requires gone <= m.Keys * removable
    ensures Fits(m, 0, 0, limits) ==> Fits(m - gone, 0, 0, limits)
    ensures m - gone == m <==> gone == {}
  {
    assert m - {} == m;
    TotalShrinks(m, {}, gone);
    if k :| k in gone {
      assert k in m && k !in m - gone;
    }
  }

  // Something goes exactly when it does not fit as it is and something can go.
  lemma {:induction false} GoneIsNothingIff(
      m: Entries, removable: set<nat>, gone: set<nat>, bytes: nat, count: nat, limits: Limits)
    requires Least(m, removable, gone, EnoughFor(m, bytes, count, limits))
    requires !Fits(m - gone, bytes, count, limits) ==> gone == m.Keys * removable
    ensures gone == {} <==> Fits(m, bytes, count, limits) || m.Keys * removable == {}
  {
    assert gone <= m.Keys * removable;
    assert m - {} == m;
    if Fits(m, bytes, count, limits) {
      NothingGoes(m, removable, gone, EnoughFor(m, bytes, count, limits));
    }
  }

  lemma {:induction false} NothingGoes(m: Entries, removable: set<nat>, gone: set<nat>, enough: Enough)
    requires Least(m, removable, gone, enough) && enough({})
    ensures gone == {}
  {
    assert OldestFirst(m, removable, {});
  }

  // It fits after the eviction exactly when it would with everything removable gone.
  lemma {:induction false} FitsIff(
      m: Entries, removable: set<nat>, gone: set<nat>, bytes: nat, count: nat, limits: Limits)
    requires gone <= m.Keys * removable
    requires !Fits(m - gone, bytes, count, limits) ==> gone == m.Keys * removable
    ensures Fits(m - gone, bytes, count, limits) <==> Fits(m - m.Keys * removable, bytes, count, limits)
  {
    TotalShrinks(m, gone, m.Keys * removable);
  }

  // ---- The index ----

  // The entries a scan of the object directory yields; access times survive, and of two
  // files with one key the later wins.
  function Discovered(files: seq<Found>, previous: Entries, maxObjectBytes: nat): (m: Entries)
    ensures forall k :: k in m ==> m[k].sizeBytes <= maxObjectBytes
    ensures forall k :: k in m && k in previous ==> m[k].lastAccess == previous[k].lastAccess
  {
    if files == [] then map[]
    else
      var m := Discovered(files[..|files| - 1], previous, maxObjectBytes);
      var f := files[|files| - 1];
      if f.name.None? || f.size.None? || !f.isFile || f.size.value > maxObjectBytes then m
      else
        var k := f.name.value.0;
        m[k := CacheEntry(f.name.value.1, f.size.value,
                          if k in previous then previous[k].lastAccess else f.modified)]
  }

  // The file is an object the scan takes over.
  predicate Taken(f: Found, key: nat, maxObjectBytes: nat) {
    f.name.Some? && f.name.value.0 == key && f.isFile && f.size.Some? && f.size.value <= maxObjectBytes
  }

  // The i-th file is the last one taken over under its key.
  ghost predicate LastTaken(files: seq<Found>, key: nat, maxObjectBytes: nat, i: nat) {
    && i < |files| && Taken(files[i], key, maxObjectBytes)
    && forall j :: i < j < |files| ==> !Taken(files[j], key, maxObjectBytes)
  }

  ghost predicate SomeTaken(files: seq<Found>, key: nat, maxObjectBytes: nat) {
    exists i: nat :: LastTaken(files, key, maxObjectBytes, i)
  }

  // What the index keeps of a file.
  function EntryOf(f: Found, key: nat, previous: Entries): CacheEntry
    requires f.name.Some? && f.size.Some?
  {
    CacheEntry(f.name.value.1, f.size.value, if key in previous then previous[key].lastAccess else f.modified)
  }

  /** What a scan lists: every key under which an object is there that is not too big, with the
      extension and size of the last such file, and the access time known before or else the time
      of the file. */
  lemma {:induction false} DiscoveredIff(files: seq<Found>, previous: Entries, maxObjectBytes: nat, key: nat)
    ensures var m := Discovered(files, previous, maxObjectBytes);
            && (key in m <==> SomeTaken(files, key, maxObjectBytes))
            && forall i: nat :: LastTaken(files, key, maxObjectBytes, i) ==>
                 key in m && m[key] == EntryOf(files[i], key, previous)
  {
    if files != [] {
      var init, last := files[..|files| - 1], files[|files| - 1];
      DiscoveredIff(init, previous, maxObjectBytes, key);
      assert files == init + [last];
      if Taken(last, key, maxObjectBytes) {
        assert LastTaken(files, key, maxObjectBytes, |init|);
      } else {
        forall i: nat ensures LastTaken(files, key, maxObjectBytes, i) <==> LastTaken(init, key, maxObjectBytes, i) {
          LastTakenBefore(init, last, key, maxObjectBytes, i);
        }
      }
    }
  }

  lemma {:induction false} LastTakenBefore(init: seq<Found>, last: Found, key: nat, maxObjectBytes: nat, i: nat)
    requires !Taken(last, key, maxObjectBytes)
    ensures LastTaken(init + [last], key, maxObjectBytes, i) <==> LastTaken(init, key, maxObjectBytes, i)
  {
    var files := init + [last];
    assert files[|init|] == last && forall j :: 0 <= j < |init| ==> files[j] == init[j];
  }

  /** What goes was used no later than anything that stays and could go. */
  lemma {:induction false} GoneIsOlder(m: Entries, removable: set<nat>, gone: set<nat>, enough: Enough, a: nat, b: nat)
    requires Least(m, removable, gone, enough) && a in gone && b in m && b in removable && b !in gone
    ensures a in m && m[a].lastAccess <= m[b].lastAccess
  {
  }

  class ArtworkIndex {
    const limits: Limits
    var entries: Entries
    var dirty: bool
    var written: Entries                       // what the index file was last saved with

    constructor (limits: Limits)
      ensures Clean() && this.limits == limits && entries == map[] && written == map[] && !dirty
    {
      this.limits, this.entries, this.written, this.dirty := limits, map[], map[], false;
    }

    // An index that is not dirty is the saved one.
    predicate Clean()
      reads this
    {
      !dirty ==> written == entries
    }

    // The limits hold for what is stored.
    ghost predicate WithinLimits()
      reads this
    {
      Fits(entries, 0, 0, limits)
    }

    // `persist_locked`; `saved` says whether the index file can be written.
    method Persist(saved: bool)
      modifies this`dirty, this`written
      ensures dirty == (old(dirty) && !saved) && (old(Clean()) ==> Clean())
      ensures written == if old(dirty) && saved then entries else old(written)
    {
      if dirty && saved {
        written := entries;
        dirty := false;
      }
    }

    /** Eviction. `removable` are the objects whose file can be removed or is gone. What goes
        is the least oldest-first set that is enough; without one, everything removable goes. */
    method PruneToLimits(incomingBytes: nat, incomingEntries: nat, removable: set<nat>)
      returns (ok: bool, ghost gone: set<nat>)
      modifies this`entries
      ensures ok <==> Fits(entries, incomingBytes, incomingEntries, limits)
      ensures entries == old(entries) - gone
      ensures Least(old(entries), removable, gone, EnoughFor(old(entries), incomingBytes, incomingEntries, limits))
      ensures !ok ==> gone == old(entries).Keys * removable
    {
      ghost var m := entries;
      var order: seq<nat>, totalBytes: nat := SortedOldest(entries);
      var count: nat := |entries|;
      var i := 0;
      while i < |order|
        invariant 0 <= i <= |order|
        invariant Tally(entries, totalBytes, count) == TallyAt(m, order, i, removable)
        invariant i == 0 || !TallyFits(TallyAt(m, order, i - 1, removable), incomingBytes, incomingEntries, limits)
      {
        if SaturatingAdd(totalBytes, incomingBytes) <= limits.maxBytes
           && SaturatingAdd(count, incomingEntries) <= limits.maxEntries {
          break;
        }
        var key := order[i];
        if key in entries && key in removable {
          totalBytes := SaturatingSub(totalBytes, entries[key].sizeBytes);
          count := SaturatingSub(count, 1);
          entries := entries - {key};
        }
        i := i + 1;
      }
      gone := GoneAfter(order[..i], removable);
      ok := SaturatingAdd(totalBytes, incomingBytes) <= limits.maxBytes
            && SaturatingAdd(count, incomingEntries) <= limits.maxEntries;
      Settled(m, order, i, removable, incomingBytes, incomingEntries, limits);
      SettledTally(m, order, i, removable, incomingBytes, incomingEntries, limits);
    }

    method Insert(key: nat, entry: CacheEntry, saved: bool)
      requires Fits(entries, entry.sizeBytes, 1, limits)
      modifies this
      ensures entries == old(entries)[key := entry] && dirty == !saved
      ensures written == if saved then entries else old(written)
      ensures WithinLimits() && Clean()
    {
      TotalWith(entries, key, entry);
      entries := entries[key := entry];
      dirty := true;
      Persist(saved);
    }

    /** A finished download. What stays and the new entry are within the limits, also when the key
        was there; a path that is not a file URL is reported only after the entry is stored. A
        failure where something had to go and could go leaves an index that is not dirty and
        differs from the saved one. */
    method StoreDownload(
        key: nat, extension: string, sizeBytes: nat, now: nat, removable: set<nat>, renamed: bool, saved: bool,
        isUrl: bool)
      returns (r: Result<CacheEntry, StoreError>, ghost gone: set<nat>)
      modifies this
      ensures Least(old(entries), removable, gone, EnoughFor(old(entries), sizeBytes, 1, limits))
      ensures var fits := Fits(old(entries) - gone, sizeBytes, 1, limits);
              var entry := CacheEntry(extension, sizeBytes, now);
              && r == (if !fits then Err(LimitNotEnforced) else if !renamed then Err(RenameFailed)
                       else if !isUrl then Err(NotAFileUrl) else Ok(entry))
              && entries == (if fits && renamed then (old(entries) - gone)[key := entry] else old(entries) - gone)
              && (fits && renamed ==> WithinLimits())
              && dirty == (if fits && renamed then !saved else old(dirty))
              && written == (if fits && renamed && saved then entries else old(written))
              && (!fits ==> gone == old(entries).Keys * removable)
              && (fits <==> Fits(old(entries) - old(entries).Keys * removable, sizeBytes, 1, limits))
              && (old(Clean()) ==>
                    (Clean() <==> (fits && renamed) || old(dirty) || Fits(old(entries), sizeBytes, 1, limits)
                                  || old(entries).Keys * removable == {}))
      ensures old(WithinLimits()) ==> WithinLimits()
    {
      ghost var m := entries;
      var fits;
      fits, gone := PruneToLimits(sizeBytes, 1, removable);
      WithoutSome(m, removable, gone, limits);
      GoneIsNothingIff(m, removable, gone, sizeBytes, 1, limits);
      FitsIff(m, removable, gone, sizeBytes, 1, limits);
      if !fits {
        r := Err(LimitNotEnforced);
        return;
      }
      if !renamed {
        r := Err(RenameFailed);
        return;
      }
      var entry := CacheEntry(extension, sizeBytes, now);
      Insert(key, entry, saved);
      r := if isUrl then Ok(entry) else Err(NotAFileUrl);
    }

    /** A hit is touched, and saved when a flush is due; an entry whose file no longer matches is
        dropped. `size` is the size of the object's file, if it is a file. */
    method Lookup(key: nat, size: Option<nat>, now: nat, flushDue: bool, saved: bool, isUrl: bool)
      returns (r: Option<CacheEntry>)
      modifies this
      ensures old(Clean()) ==> Clean()
      ensures var hit := key in old(entries) && size == Some(old(entries)[key].sizeBytes)
                         && old(entries)[key].sizeBytes <= limits.maxObjectBytes;
              && r == (if hit && isUrl then Some(old(entries)[key]) else None)
              && entries == (if hit then old(entries)[key := old(entries)[key].(lastAccess := now)]
                             else old(entries) - {key})
              && dirty == (if hit then !(flushDue && saved) else old(dirty) || key in old(entries))
              && written == (if hit && flushDue && saved then entries else old(written))
      ensures old(WithinLimits()) ==> WithinLimits()
    {
      if key !in entries {
        assert entries - {key} == entries;
        return None;
      }
      var entry := entries[key];
      TotalWithout(entries, key);
      dirty := true;
      if size != Some(entry.sizeBytes) || entry.sizeBytes > limits.maxObjectBytes {
        entries := entries - {key};
        return None;
      }
      TotalWith(entries, key, entry.(lastAccess := now));
      entries := entries[key := entry.(lastAccess := now)];
      if flushDue {
        Persist(saved);
      }
      r := if isUrl then Some(entry) else None;
    }

    // The scan of the object directory.
    method Scan(files: seq<Found>, loaded: Entries) returns (discovered: Entries)
      ensures discovered == Discovered(files, loaded, limits.maxObjectBytes)
    {
      discovered := map[];
      for i := 0 to |files|
        invariant discovered == Discovered(files[..i], loaded, limits.maxObjectBytes)
      {
        assert files[..i + 1][..i] == files[..i];
        var f := files[i];
        if f.name.Some? && f.size.Some? && f.isFile && f.size.value <= limits.maxObjectBytes {
          var k := f.name.value.0;
          discovered := discovered[k := CacheEntry(f.name.value.1, f.size.value,
                                                   if k in loaded then loaded[k].lastAccess else f.modified)];
        }
      }
      assert files[..|files|] == files;
    }

    /** At start-up the index follows the files: no entry without a file, none too big. The
        limits hold again when every object can be removed. */
    method LoadAndReconcile(files: seq<Found>, loaded: Entries, removable: set<nat>, saved: bool)
      returns (ghost gone: set<nat>)
      modifies this
      ensures Clean() && dirty == !saved && written == if saved then entries else old(written)
      ensures var found := Discovered(files, loaded, limits.maxObjectBytes);
              && entries == found - gone
              && Least(found, removable, gone, EnoughFor(found, 0, 0, limits))
              && (found.Keys <= removable ==> WithinLimits())
    {
      entries := Scan(files, loaded);
      ghost var discovered := entries;
      var fits;
      fits, gone := PruneToLimits(0, 0, removable);
      assert !fits && discovered.Keys <= removable ==> entries == map[];
      dirty := true;
      Persist(saved);
    }
  }
  lemma {:induction false} TotalOfOne(k: nat, e: CacheEntry)
    ensures Total(map[k := e]) == e.sizeBytes
  {
    TotalWith(map[], k, e);
    assert map[][k := e] == map[k := e];
  }

  /** Such a download: an index with room for ten bytes drops its only object for a new one whose
      file then cannot be renamed. The index file still lists the object that is gone. */
  method UnmarkedDownload() returns (index: ArtworkIndex)
    ensures fresh(index) && !index.dirty
    ensures index.entries == map[] && index.written == map[1 := CacheEntry("png", 10, 0)]
  {
    index := new ArtworkIndex(Limits(10, 10, 10));
    var entry := CacheEntry("png", 10, 0);
    TotalOfOne(1, entry);
    var stored, failed;
    ghost var gone;
    stored, gone := index.StoreDownload(1, "png", 10, 0, {}, true, true, true);
    assert index.entries == map[1 := entry] && index.written == index.entries && !index.dirty;
    failed, gone := index.StoreDownload(2, "png", 5, 1, {1}, false, true, true);
  }
}
