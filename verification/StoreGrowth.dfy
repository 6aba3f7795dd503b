/** Following cursors while the cached catalogue grows: pages served by earlier, smaller indexes and
pages served by the final one make up one walk. */
module StoreGrowth {
  import opened Prelude
  import opened BoundedPage
  import opened StoreIndex
  import opened StoreQuery
  import opened StoreLocal

  // An index of before: the final one starts with its entries, and its documents are still there.
  ghost predicate Prior(v: View, w: World, last: View, lastWorld: World) {
    && v.entries <= last.entries && v.pages <= MAX_PAGES
    && w.alnum == lastWorld.alnum && w.fingerprint == lastWorld.fingerprint
    && forall i :: 0 <= i < |v.entries| ==>
         w.look(v.entries[i].key, v.entries[i].slot) == lastWorld.look(v.entries[i].key, v.entries[i].slot)
  }

  lemma {:induction false} PriorIsReadable(v: View, w: World, last: View, lastWorld: World)
    requires Prior(v, w, last, lastWorld) && Readable(last, lastWorld)
    ensures Readable(v, w)
  {
    forall i | 0 <= i < |v.entries|
      ensures w.look(v.entries[i].key, v.entries[i].slot).Some?
      ensures w.look(v.entries[i].key, v.entries[i].slot).value.id == v.entries[i].id
    {
      assert v.entries[i] == last.entries[i];
      assert lastWorld.look(last.entries[i].key, last.entries[i].slot).Some?;
    }
  }

  // The records of an earlier index, for an unranked query.
  ghost function PriorRecords(v: View, w: World, f: Filters): (rs: seq<Record>)
    requires Readable(v, w)
    ensures |rs| == |Ranked(v.entries, f)|
  {
    RankedIsExact(v.entries, f);
    RecordsOf(v, w, Ranked(v.entries, f))
  }

  // They are the first records of the final index.
  lemma {:induction false} PriorRecordsFirst(v: View, w: World, last: View, lastWorld: World, f: Filters)
    requires Settled(last, lastWorld) && Prior(v, w, last, lastWorld) && Readable(v, w) && f.query == ""
    ensures PriorRecords(v, w, f) <= AllRecords(last, lastWorld, f)
  {
    var ms, all := Ranked(v.entries, f), Ranked(last.entries, f);
    GrowthKeepsOffsets(v.entries, last.entries, f);
    RankedIsExact(v.entries, f);
    RankedIsExact(last.entries, f);
    forall i | 0 <= i < |ms| ensures PriorRecords(v, w, f)[i] == AllRecords(last, lastWorld, f)[i] {
      assert ms[i] == all[i] && v.entries[ms[i].at] == last.entries[ms[i].at];
    }
  }

  lemma {:induction false} PrefixGrows<T>(s: seq<T>, k: nat)
    requires k < |s|
    ensures s[..k + 1] == s[..k] + [s[k]]
  {
  }

  // A page of the records from an offset on, whether or not more is known to follow.
  ghost predicate Stretch(page: ResultPage, rs: seq<Record>, offset: nat, prefix: string, pages: nat) {
    var next := offset + |page.games|;
    && next <= |rs| && page.games == rs[offset..next]
    && (page.hasNextPage ==> page.nextCursor == MakeCursor(prefix, next, pages))
  }

  lemma {:induction false} CutOfFirst(own: seq<Record>, rs: seq<Record>, offset: nat, limit: nat, n: nat)
    requires own <= rs && offset <= |rs| && n <= |Cut(own, offset, limit)|
    ensures offset + n <= |rs| && Cut(own, offset, limit)[..n] == rs[offset..offset + n]
  {
  }

  lemma {:induction false} PriorPageIsMade(v: View, w: World, f: Filters, offset: nat, limit: nat)
    requires Readable(v, w) && 1 <= limit <= LOCAL_PAGE_LIMIT
    ensures var selected := Cut(PriorRecords(v, w, f), offset, limit);
            var maker := PageMaker(v, CursorPrefix(w, f), offset, |Ranked(v.entries, f)|, selected);
            PageFrom(v, w, f, offset, limit, Never) == FirstSettled(Halvings(limit), 0, maker, w.size, Never)
  {
    RankedIsExact(v.entries, f);
    CutSelects(v, w, Ranked(v.entries, f), offset, limit);
  }

  lemma {:induction false} SettledIsMade(
      v: View, prefix: string, offset: nat, total: nat, selected: seq<Record>, limit: nat, size: ResultPage -> nat,
      page: ResultPage)
    requires limit >= 1
    requires FirstSettled(Halvings(limit), 0, PageMaker(v, prefix, offset, total, selected), size, Never) == Ok(page)
    ensures exists count: nat :: page == PageOf(v, prefix, offset, total, selected, count)
  {
    var maker := PageMaker(v, prefix, offset, total, selected);
    SettledMeans(Halvings(limit), 0, maker, size, Never);
    var i :| 0 <= i < |Halvings(limit)| && Ok(page) == maker(Halvings(limit)[i]);
    assert page == PageOf(v, prefix, offset, total, selected, Halvings(limit)[i]);
  }

  lemma {:induction false} MadeIsStretch(
      v: View, prefix: string, offset: nat, total: nat, own: seq<Record>, rs: seq<Record>, limit: nat, count: nat)
    requires own <= rs && offset <= |rs|
    ensures Stretch(PageOf(v, prefix, offset, total, Cut(own, offset, limit), count), rs, offset, prefix, v.pages)
  {
    CutOfFirst(own, rs, offset, limit, Min(|Cut(own, offset, limit)|, count));
  }

  // A page an earlier index serves at an offset is the next stretch of the final records; it is
  // empty when the offset is past what that index knew.
  lemma {:induction false} PriorPage(
      v: View, w: World, f: Filters, offset: nat, limit: nat, page: ResultPage, rs: seq<Record>)
    requires Readable(v, w) && 1 <= limit <= LOCAL_PAGE_LIMIT
    requires PriorRecords(v, w, f) <= rs && offset <= |rs|
    requires PageFrom(v, w, f, offset, limit, Never) == Ok(page)
    ensures Stretch(page, rs, offset, CursorPrefix(w, f), v.pages)
  {
    var own, total, prefix := PriorRecords(v, w, f), |Ranked(v.entries, f)|, CursorPrefix(w, f);
    PriorPageIsMade(v, w, f, offset, limit);
    SettledIsMade(v, prefix, offset, total, Cut(own, offset, limit), limit, w.size, page);
    var count: nat :| page == PageOf(v, prefix, offset, total, Cut(own, offset, limit), count);
    MadeIsStretch(v, prefix, offset, total, own, rs, limit, count);
  }

  // ---- The early part of a walk ----

  datatype Serving = Serving(view: View, world: World)

  function CursorAt(pages: seq<ResultPage>, i: nat): string
    requires i <= |pages|
  {
    if i == 0 then "" else pages[i - 1].nextCursor
  }

  // A page that index serves for that cursor, with more to follow.
  ghost predicate Serves(s: Serving, cursor: string, page: ResultPage, p: Params) {
    Asking(s.view, s.world, p)(cursor) == Ok(page) && page.hasNextPage
  }

  // Pages got by following cursors, each from whatever index there was at the time.
  ghost predicate Early(served: seq<Serving>, pages: seq<ResultPage>, p: Params) {
    && |served| == |pages|
    && forall i: nat {:trigger CursorAt(pages, i)} :: i < |pages| ==> Serves(served[i], CursorAt(pages, i), pages[i], p)
  }

  ghost predicate AllPrior(served: seq<Serving>, last: View, lastWorld: World) {
    forall i :: 0 <= i < |served| ==> Prior(served[i].view, served[i].world, last, lastWorld)
  }

  // A search without a query on a final index that is complete and can be read.
  ghost predicate Browsing(p: Params, f: Filters, last: View, lastWorld: World) {
    Settled(last, lastWorld) && ParamsOk(p) && FiltersOf(p, lastWorld.alnum) == f && f.query == ""
  }

  // The offset a cursor carries, if the index accepts it.
  type Carries = string -> Option<nat>

  ghost function CarriesWith(prefix: string): Carries {
    (cursor: string) => if ByteLen(cursor) <= MAX_CURSOR_BYTES then CursorOffset(cursor, prefix) else None
  }

  // What the client has got so far, and the cursor it goes on with.
  ghost predicate Standing(got: seq<Record>, cursor: string, rs: seq<Record>, carries: Carries) {
    got <= rs && carries(cursor) == Some(|got|)
  }

  // The records of the first k pages.
  function Got(pages: seq<ResultPage>, k: nat): seq<Record>
    requires k <= |pages|
  {
    AllGames(pages[..k])
  }

  lemma {:induction false} GotNothing(pages: seq<ResultPage>)
    ensures Got(pages, 0) == []
  {
    assert pages[..0] == [];
  }

  lemma {:induction false} GotOneMore(pages: seq<ResultPage>, k: nat)
    requires k < |pages|
    ensures Got(pages, k + 1) == Got(pages, k) + pages[k].games
  {
    PrefixGrows(pages, k);
    OneMorePage(pages[..k], pages[k]);
  }

  lemma {:induction false} OneMorePage(pages: seq<ResultPage>, page: ResultPage)
    ensures AllGames(pages + [page]) == AllGames(pages) + page.games
  {
    if pages == [] {
      assert [page][1..] == [];
    } else {
      assert (pages + [page])[1..] == pages[1..] + [page];
      OneMorePage(pages[1..], page);
    }
  }

  // The page continues the records at whatever offset its cursor carries.
  ghost predicate Continues(page: ResultPage, cursor: string, rs: seq<Record>, carries: Carries) {
    carries(cursor).Some? && carries(cursor).value <= |rs| ==>
      var o := carries(cursor).value;
      && o + |page.games| <= |rs| && page.games == rs[o..o + |page.games|]
      && carries(page.nextCursor) == Some(o + |page.games|)
  }

  lemma {:induction false} MadeCursorReads(
      page: ResultPage, rs: seq<Record>, o: nat, w: World, f: Filters, pages: nat)
    requires Stretch(page, rs, o, CursorPrefix(w, f), pages) && page.hasNextPage && pages <= MAX_PAGES
    requires |rs| <= MAX_ENTRIES && ByteLen(w.fingerprint(f)) == 16
    ensures Reads(page.nextCursor, CursorPrefix(w, f), o + |page.games|)
  {
    MadeCursorIsShort(w, f, o + |page.games|, pages);
    CursorRoundTrip(CursorPrefix(w, f), o + |page.games|, pages);
  }

  lemma {:induction false} CarriesIs(cursor: string, prefix: string, o: nat)
    ensures CarriesWith(prefix)(cursor) == Some(o) <==> Reads(cursor, prefix, o)
  {
  }

  lemma {:induction false} OwnStep(
      s: Serving, page: ResultPage, cursor: string, p: Params, f: Filters, rs: seq<Record>, o: nat)
    requires Readable(s.view, s.world) && s.view.pages <= MAX_PAGES && ByteLen(s.world.fingerprint(f)) == 16
    requires PriorRecords(s.view, s.world, f) <= rs && o <= |rs| <= MAX_ENTRIES
    requires ParamsOk(p) && FiltersOf(p, s.world.alnum) == f && Serves(s, cursor, page, p)
    requires Reads(cursor, CursorPrefix(s.world, f), o)
    ensures Stretch(page, rs, o, CursorPrefix(s.world, f), s.view.pages)
    ensures Reads(page.nextCursor, CursorPrefix(s.world, f), o + |page.games|)
  {
    QueryIsPage(s.view, s.world, p, cursor, o);
    PriorPage(s.view, s.world, f, o, PageLimit(p), page, rs);
    MadeCursorReads(page, rs, o, s.world, f, s.view.pages);
  }

  lemma {:induction false} OwnContinues(
      s: Serving, page: ResultPage, cursor: string, p: Params, f: Filters, rs: seq<Record>, prefix: string)
    requires Readable(s.view, s.world) && s.view.pages <= MAX_PAGES && ByteLen(s.world.fingerprint(f)) == 16
    requires PriorRecords(s.view, s.world, f) <= rs && |rs| <= MAX_ENTRIES
    requires ParamsOk(p) && FiltersOf(p, s.world.alnum) == f && Serves(s, cursor, page, p)
    requires prefix == CursorPrefix(s.world, f)
    ensures Continues(page, cursor, rs, CarriesWith(prefix))
  {
    var carries := CarriesWith(prefix);
    if carries(cursor).Some? && carries(cursor).value <= |rs| {
      var o := carries(cursor).value;
      CarriesIs(cursor, prefix, o);
      OwnStep(s, page, cursor, p, f, rs, o);
      CarriesIs(page.nextCursor, prefix, o + |page.games|);
    }
  }

  lemma {:induction false} ServedContinues(
      s: Serving, page: ResultPage, cursor: string, p: Params, f: Filters, last: View, lastWorld: World,
      rs: seq<Record>, prefix: string)
    requires Browsing(p, f, last, lastWorld) && Prior(s.view, s.world, last, lastWorld) && Serves(s, cursor, page, p)
    requires rs == AllRecords(last, lastWorld, f) && prefix == CursorPrefix(lastWorld, f)
    ensures Continues(page, cursor, rs, CarriesWith(prefix))
  {
    PriorIsReadable(s.view, s.world, last, lastWorld);
    PriorRecordsFirst(s.view, s.world, last, lastWorld, f);
    RankedIsExact(last.entries, f);
    OwnContinues(s, page, cursor, p, f, rs, prefix);
  }

  lemma {:induction false} OneMoreStands(
      got: seq<Record>, page: ResultPage, cursor: string, rs: seq<Record>, carries: Carries)
    requires Standing(got, cursor, rs, carries) && Continues(page, cursor, rs, carries)
    ensures Standing(got + page.games, page.nextCursor, rs, carries)
  {
    assert got + page.games == rs[..|got| + |page.games|];
  }

  // After k such pages the client has the first records, and a cursor that says how many.
  lemma {:induction false} StandsAfter(pages: seq<ResultPage>, rs: seq<Record>, carries: Carries, k: nat)
    requires k <= |pages| && carries("") == Some(0)
    requires forall i: nat {:trigger CursorAt(pages, i)} :: i < |pages| ==>
               Continues(pages[i], CursorAt(pages, i), rs, carries)
    ensures Standing(Got(pages, k), CursorAt(pages, k), rs, carries)
    decreases k
  {
    if k == 0 {
      GotNothing(pages);
    } else {
      StandsAfter(pages, rs, carries, k - 1);
      OneMoreStands(Got(pages, k - 1), pages[k - 1], CursorAt(pages, k - 1), rs, carries);
      GotOneMore(pages, k - 1);
    }
  }

  lemma {:induction false} EarlyStands(
      served: seq<Serving>, pages: seq<ResultPage>, p: Params, f: Filters, last: View, lastWorld: World,
      rs: seq<Record>)
    requires Browsing(p, f, last, lastWorld) && Early(served, pages, p) && AllPrior(served, last, lastWorld)
    requires rs == AllRecords(last, lastWorld, f)
    ensures Standing(Got(pages, |pages|), CursorAt(pages, |pages|), rs, CarriesWith(CursorPrefix(lastWorld, f)))
  {
    var prefix := CursorPrefix(lastWorld, f);
    var carries := CarriesWith(prefix);
    forall i: nat | i < |pages| ensures Continues(pages[i], CursorAt(pages, i), rs, carries) {
      ServedContinues(served[i], pages[i], CursorAt(pages, i), p, f, last, lastWorld, rs, prefix);
    }
    StandsAfter(pages, rs, carries, |pages|);
  }

  // All records of a walk: those of the early pages, and those of the tour that goes on from them.
  ghost function Whole(early: seq<ResultPage>, tour: Tour): seq<Record> {
    Got(early, |early|) + AllGames(tour.pages)
  }

  ghost function Onward(v: View, w: World, p: Params, early: seq<ResultPage>): Tour {
    Follow(Asking(v, w, p), CursorAt(early, |early|), |v.entries| + 1)
  }

  // Together they are all the records once each, or stop before them with the size error.
  ghost predicate ReturnsAll(early: seq<ResultPage>, tour: Tour, rs: seq<Record>) {
    && Whole(early, tour) <= rs
    && (tour.end == Finished ==> Whole(early, tour) == rs)
    && (tour.end != Finished ==> tour.end == Stopped(TooLarge))
  }

  // A walk that goes on from there returns the rest.
  lemma {:induction false} GoesOn(
      ask: string -> Result<ResultPage, ServiceError>, pageAt: nat -> Result<ResultPage, ServiceError>,
      v: View, w: World, f: Filters, rs: seq<Record>, limit: nat, early: seq<ResultPage>, steps: nat, tour: Tour)
    requires forall c, o :: Reads(c, CursorPrefix(w, f), o) ==> ask(c) == pageAt(o)
    requires forall o: nat :: o <= |rs| ==> GoodPage(pageAt(o), v, w, CursorPrefix(w, f), rs, limit, o)
    requires ByteLen(w.fingerprint(f)) == 16 && v.pages <= MAX_PAGES && |rs| <= MAX_ENTRIES && steps > |rs|
    requires Standing(Got(early, |early|), CursorAt(early, |early|), rs, CarriesWith(CursorPrefix(w, f)))
    requires tour == Follow(ask, CursorAt(early, |early|), steps)
    ensures ReturnsAll(early, tour, rs)
  {
    var got := Got(early, |early|);
    WalkPages(ask, pageAt, v, w, f, rs, limit, CursorAt(early, |early|), |got|, steps);
    assert rs == got + rs[|got|..];
  }

  lemma {:induction false} GoesOnAsking(
      v: View, w: World, p: Params, f: Filters, rs: seq<Record>, early: seq<ResultPage>)
    requires Browsing(p, f, v, w) && rs == AllRecords(v, w, f)
    requires Standing(Got(early, |early|), CursorAt(early, |early|), rs, CarriesWith(CursorPrefix(w, f)))
    ensures ReturnsAll(early, Onward(v, w, p, early), rs)
  {
    var ask, pageAt, limit := Asking(v, w, p), PageSource(v, w, f, PageLimit(p)), PageLimit(p);
    RankedIsExact(v.entries, f);
    AskingIsPaging(v, w, p, f);
    PagesAreGood(v, w, f, limit, rs);
    GoesOn(ask, pageAt, v, w, f, rs, limit, early, |v.entries| + 1, Onward(v, w, p, early));
  }

  /** The walk over a growing catalogue. Whatever indexes served the early pages, as long as the
      final one starts with their entries, going on by cursor on the final index returns every
      match of it exactly once, early and late pages together, or stops with the size error. */
  lemma {:induction false} GrownWalk(
      served: seq<Serving>, early: seq<ResultPage>, p: Params, f: Filters, last: View, lastWorld: World,
      rs: seq<Record>)
    requires Browsing(p, f, last, lastWorld) && Early(served, early, p) && AllPrior(served, last, lastWorld)
    requires rs == AllRecords(last, lastWorld, f)
    ensures ReturnsAll(early, Onward(last, lastWorld, p, early), rs)
  {
    EarlyStands(served, early, p, f, last, lastWorld, rs);
    GoesOnAsking(last, lastWorld, p, f, rs, early);
  }

  // ---- Growing caches ----

  // Fewer pages, the same panels.
  ghost predicate CachedBefore(s: Saved, t: Saved) {
    && s.panels == t.panels
    && forall c :: c in s.pages ==> c in t.pages && t.pages[c] == s.pages[c]
  }

  // The panels add no game of their own to either index, or the pages bring no new one.
  ghost predicate PanelsAddNothingNew(s: Saved, t: Saved, d: Describe) {
    s.panels.Some? ==>
      || AddsNothing(PagesOnly(s.pages, d), PanelsAdditions(s.panels.value, |s.panels.value|))
      || |PagesOnly(s.pages, d).entries| == |PagesOnly(t.pages, d).entries|
  }

  /** The index of an earlier cache is such an index of before: a walk over the cached catalogue
      loses and repeats nothing while pages are added, unless panels shift positions. */
  lemma {:induction false} EarlierCacheIsPrior(s: Saved, t: Saved, d: Describe, w: World, body: Game -> string)
    requires CachedBefore(s, t) && PanelsAddNothingNew(s, t, d)
    ensures Prior(RebuiltView(s, d), w.(look := Reading(s, body)), RebuiltView(t, d), w.(look := Reading(t, body)))
  {
    if s.panels.Some? {
      RebuildExtends(s.pages, t.pages, s.panels.value, d);
    } else {
      PagesOnlyGrows(s.pages, t.pages, d);
    }
    WalkTakesCached(s.pages, "", {}, "");
    RebuiltIsReadable(s, d, w.(look := Reading(s, body)), body);
    var entries := RebuiltView(s, d).entries;
    forall i | 0 <= i < |entries|
      ensures Reading(s, body)(entries[i].key, entries[i].slot) == Reading(t, body)(entries[i].key, entries[i].slot)
    {
      StaysReadable(s, t, entries[i]);
    }
  }

  lemma {:induction false} StaysReadable(s: Saved, t: Saved, e: Entry)
    requires CachedBefore(s, t) && GameAt(s, e.key, e.slot).Some?
    ensures GameAt(t, e.key, e.slot) == GameAt(s, e.key, e.slot)
  {
  }
}
