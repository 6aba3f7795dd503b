/** The local Store as its callers use it one at a time: cached documents of every scope, and one
index kept for the scope asked last. Calls that overlap are the subject of StoreCache. */
module StoreLocal {
  import opened Prelude
  import opened StoreIndex
  import opened StoreQuery
  import opened BoundedPage

  // The cached documents of one scope.
  datatype Saved = Saved(pages: map<string, Page>, panels: Option<seq<seq<Section>>>)

  const NOTHING: Saved := Saved(map[], None)

  type Disk = map<nat, Saved>

  function Of(disk: Disk, scope: nat): Saved {
    if scope in disk then disk[scope] else NOTHING
  }

  // The game a place in a cached document points to.
  function GameAt(s: Saved, key: DocKey, slot: Slot): Option<Game> {
    if key.PageKey? && slot.GameSlot? then
      if key.cursor in s.pages && slot.at < |s.pages[key.cursor].games|
      then Some(s.pages[key.cursor].games[slot.at]) else None
    else if key.PanelsKey? && slot.PanelSlot? && s.panels.Some? then
      var panels := s.panels.value;
      if slot.panel < |panels| && slot.section < |panels[slot.panel]|
         && slot.game < |panels[slot.panel][slot.section].games|
      then Some(panels[slot.panel][slot.section].games[slot.game]) else None
    else None
  }

  // Reading a record back from the cached documents.
  function Reading(s: Saved, body: Game -> string): (DocKey, Slot) -> Option<Record> {
    (key: DocKey, slot: Slot) =>
      var game := GameAt(s, key, slot);
      if game.Some? then Some(Record(game.value.id, body(game.value))) else None
  }

  // The index of the cached documents, as a query sees it.
  ghost function RebuiltView(s: Saved, d: Describe): View {
    var walked := WalkAll(s.pages);
    var st := if s.panels.Some? then Rebuilt(s.pages, s.panels.value, d) else PagesOnly(s.pages, d);
    View(st.entries, walked.complete, |walked.pages|, walked.upstream,
         if s.panels.Some? then AllShelves(s.panels.value, |s.panels.value|) else [])
  }

  // ---- Every place the index keeps can be read back ----

  ghost predicate PlacesOk(s: Saved, adds: seq<Addition>) {
    forall i :: 0 <= i < |adds| ==> GameAt(s, adds[i].key, adds[i].slot) == Some(adds[i].game)
  }

  predicate EntryOk(s: Saved, e: Entry) {
    var game := GameAt(s, e.key, e.slot);
    game.Some? && game.value.id == e.id
  }

  ghost predicate EntriesOk(s: Saved, entries: seq<Entry>) {
    forall i :: 0 <= i < |entries| ==> EntryOk(s, entries[i])
  }

  lemma {:induction false} AdditionsKeepPlaces(s: Saved, st: StoreIndex.State, adds: seq<Addition>, d: Describe)
    requires Valid(st) && EntriesOk(s, st.entries) && PlacesOk(s, adds)
    ensures EntriesOk(s, AddAll(st, adds, d).entries)
  {
    if adds != [] {
      var init := adds[..|adds| - 1];
      AdditionsKeepPlaces(s, st, init, d);
      OneKeepsPlaces(s, AddAll(st, init, d), adds[|adds| - 1], d);
    }
  }

  lemma {:induction false} OneKeepsPlaces(s: Saved, st: StoreIndex.State, a: Addition, d: Describe)
    requires Valid(st) && EntriesOk(s, st.entries) && GameAt(s, a.key, a.slot) == Some(a.game)
    ensures EntriesOk(s, AddOne(st, a, d).entries)
  {
  }

  lemma {:induction false} PlacesConcat(s: Saved, a: seq<Addition>, b: seq<Addition>)
    requires PlacesOk(s, a) && PlacesOk(s, b)
    ensures PlacesOk(s, a + b)
  {
  }

  // The pages a walk takes are cached ones, at most a hundred.
  lemma {:induction false} WalkTakesCached(disk: map<string, Page>, cursor: string, seen: set<string>, upstream: string)
    requires |seen| <= MAX_PAGES
    ensures var pages := Walk(disk, cursor, seen, upstream).pages;
            && |pages| <= MAX_PAGES - |seen|
            && forall i :: 0 <= i < |pages| ==> pages[i].0 in disk && disk[pages[i].0] == pages[i].1
    decreases MAX_PAGES - |seen|
  {
    if |seen| < MAX_PAGES && cursor in disk {
      var next := disk[cursor].nextCursor;
      if disk[cursor].hasNextPage && next != "" && next !in seen {
        WalkTakesCached(disk, next, seen + {next}, next);
      }
    }
  }

  lemma {:induction false} ChainPlaces(s: Saved, pages: seq<(string, Page)>)
    requires forall i :: 0 <= i < |pages| ==> pages[i].0 in s.pages && s.pages[pages[i].0] == pages[i].1
    ensures PlacesOk(s, ChainAdditions(pages))
  {
    if pages != [] {
      var init, last := pages[..|pages| - 1], pages[|pages| - 1];
      ChainPlaces(s, init);
      PlacesConcat(s, ChainAdditions(init), PageAdditions(last.0, last.1));
    }
  }

  lemma {:induction false} ShelfPlaces(s: Saved, p: nat, t: nat, n: nat)
    requires s.panels.Some? && p < |s.panels.value| && t < |s.panels.value[p]| && n <= |s.panels.value[p][t].games|
    ensures PlacesOk(s, ShelfGames(p, t, s.panels.value[p][t], n))
  {
    if n > 0 {
      var section := s.panels.value[p][t];
      ShelfPlaces(s, p, t, n - 1);
      PlacesConcat(s, ShelfGames(p, t, section, n - 1),
                   ShelfGame(p, t, n - 1, section.games[n - 1], Alias(section.lowerTitle)));
    }
  }

  lemma {:induction false} PanelPlaces(s: Saved, p: nat, n: nat)
    requires s.panels.Some? && p < |s.panels.value| && n <= |s.panels.value[p]|
    ensures PlacesOk(s, PanelAdditions(p, s.panels.value[p], n))
  {
    if n > 0 {
      var panel := s.panels.value[p];
      PanelPlaces(s, p, n - 1);
      ShelfPlaces(s, p, n - 1, |panel[n - 1].games|);
      PlacesConcat(s, PanelAdditions(p, panel, n - 1), ShelfGames(p, n - 1, panel[n - 1], |panel[n - 1].games|));
    }
  }

  lemma {:induction false} PanelsPlaces(s: Saved, n: nat)
    requires s.panels.Some? && n <= |s.panels.value|
    ensures PlacesOk(s, PanelsAdditions(s.panels.value, n))
  {
    if n > 0 {
      var panels := s.panels.value;
      PanelsPlaces(s, n - 1);
      PanelPlaces(s, n - 1, |panels[n - 1]|);
      PlacesConcat(s, PanelsAdditions(panels, n - 1), PanelAdditions(n - 1, panels[n - 1], |panels[n - 1]|));
    }
  }

  /** Every entry of an index rebuilt from cached documents can be read back from them under its
      own id: a query on them never finds that saved data changed. */
  lemma {:induction false} RebuiltIsReadable(s: Saved, d: Describe, w: World, body: Game -> string)
    requires w.look == Reading(s, body)
    ensures Readable(RebuiltView(s, d), w)
  {
    var pages := WalkAll(s.pages).pages;
    WalkTakesCached(s.pages, "", {}, "");
    ChainPlaces(s, pages);
    AdditionsKeepPlaces(s, EMPTY, ChainAdditions(pages), d);
    if s.panels.Some? {
      PanelsPlaces(s, |s.panels.value|);
      AdditionsKeepPlaces(s, PagesOnly(s.pages, d), PanelsAdditions(s.panels.value, |s.panels.value|), d);
    }
    var entries := RebuiltView(s, d).entries;
    forall i | 0 <= i < |entries| ensures w.look(entries[i].key, entries[i].slot).Some?
                                && w.look(entries[i].key, entries[i].slot).value.id == entries[i].id {
      assert EntryOk(s, entries[i]);
    }
  }

  /** The walk over a complete cached catalogue, with nothing assumed of the documents. */
  lemma {:induction false} CachedCatalogueWalk(s: Saved, d: Describe, w: World, body: Game -> string, p: Params)
    requires w.look == Reading(s, body) && (forall f :: ByteLen(w.fingerprint(f)) == 16)
    requires WalkAll(s.pages).complete && ParamsOk(p)
    ensures var v, f := RebuiltView(s, d), FiltersOf(p, w.alnum);
            && StoreQuery.Settled(v, w)
            && var tour := Follow(Asking(v, w, p), "", |v.entries| + 1);
               && (tour.end == Finished ==> AllGames(tour.pages) == AllRecords(v, w, f))
               && (tour.end != Finished ==> tour.end == Stopped(TooLarge))
  {
    RebuiltIsReadable(s, d, w, body);
    WalkTakesCached(s.pages, "", {}, "");
    var v, f := RebuiltView(s, d), FiltersOf(p, w.alnum);
    CursorWalk(v, w, p, f, AllRecords(v, w, f));
  }

  // ---- The kept index ----

  // One cached document.
  datatype Document = PageDocument(page: Page) | PanelsDocument(panels: seq<seq<Section>>)

  predicate Suits(key: DocKey, doc: Document) {
    key.PageKey? <==> doc.PageDocument?
  }

  function Lookup(disk: Disk, scope: nat, key: DocKey): Option<Document> {
    var saved := Of(disk, scope);
    match key
    case PageKey(cursor) => if cursor in saved.pages then Some(PageDocument(saved.pages[cursor])) else None
    case PanelsKey => if saved.panels.Some? then Some(PanelsDocument(saved.panels.value)) else None
  }

  function WithDocument(disk: Disk, scope: nat, key: DocKey, doc: Document): Disk
    requires Suits(key, doc)
  {
    var saved := Of(disk, scope);
    disk[scope := if key.PageKey? then saved.(pages := saved.pages[key.cursor := doc.page])
                  else saved.(panels := Some(doc.panels))]
  }

  /** A written document is found again, and no other is touched. */
  lemma {:induction false} WrittenIsFound(disk: Disk, scope: nat, key: DocKey, doc: Document, other: nat, k: DocKey)
    requires Suits(key, doc)
    ensures Lookup(WithDocument(disk, scope, key, doc), scope, key) == Some(doc)
    ensures other != scope || k != key ==>
              Lookup(WithDocument(disk, scope, key, doc), other, k) == Lookup(disk, other, k)
  {
  }

  // A disk with nothing that another one lacks: what pruning may leave.
  ghost predicate Part(a: Disk, b: Disk) {
    forall scope, key :: Lookup(a, scope, key).Some? ==> Lookup(a, scope, key) == Lookup(b, scope, key)
  }

  class LocalStore {
    const alnum: char -> bool
    var disk: Disk
    var slot: Option<(nat, Index)>

    constructor (alnum: char -> bool, disk: Disk)
      ensures Valid() && this.disk == disk && this.alnum == alnum && slot.None?
    {
      this.alnum, this.disk, this.slot := alnum, disk, None;
    }

    ghost function Shown(index: Index): View
      reads index
    {
      View(index.entries, index.complete, index.pages, index.nextUpstream, index.shelves)
    }

    // A kept index is the one its scope's documents would give now.
    ghost predicate Valid()
      reads this, if slot.Some? then {slot.value.1} else {}
    {
      slot.Some? ==> Shown(slot.value.1) == RebuiltView(Of(disk, slot.value.0), Describing(alnum))
    }

    /** `load_or_fetch` for one document. `fetched` is what the network would give, `left` what
        pruning leaves after the write. */
    method Load(scope: nat, key: DocKey, refresh: bool, fetched: Option<Document>, persisted: bool, left: Disk)
      returns (r: Option<Document>)
      requires Valid() && (fetched.Some? ==> Suits(key, fetched.value))
      requires fetched.Some? ==>
                 Part(left, WithDocument(if refresh then disk[scope := NOTHING] else disk, scope, key, fetched.value))
      modifies this`disk, this`slot
      ensures Valid()
      ensures var hit := if refresh then None else Lookup(old(disk), scope, key);
              var start := if refresh then old(disk)[scope := NOTHING] else old(disk);
              && r == (if hit.Some? then hit else fetched)
              && disk == (if hit.Some? then old(disk) else if fetched.Some? && persisted then left else start)
              && slot == (if hit.Some? || (fetched.None? && !refresh) then old(slot) else None)
      ensures disk != old(disk) ==> slot.None?
      ensures r.Some? && Lookup(disk, scope, key).Some? ==> Lookup(disk, scope, key) == r
    {
      if refresh {
        slot := None;
        disk := disk[scope := NOTHING];
      } else if Lookup(disk, scope, key).Some? {
        return Lookup(disk, scope, key);
      }
      if fetched.None? {
        return None;
      }
      if persisted {
        disk := left;
      }
      slot := None;
      r := fetched;
    }

    /** The index a local query works on: kept or rebuilt, it is always the one the scope's
        documents give now. `None` means that its first page is not cached. */
    method IndexFor(scope: nat, refresh: bool) returns (index: Option<Index>)
      requires Valid()
      modifies this`slot
      ensures Valid() && disk == old(disk)
      ensures var rebuilt := RebuiltView(Of(disk, scope), Describing(alnum));
              && (index.Some? <==> rebuilt.pages > 0)
              && (index.Some? ==> slot == Some((scope, index.value)) && Shown(index.value) == rebuilt)
    {
      if refresh || slot.None? || slot.value.0 != scope {
        var saved := Of(disk, scope);
        var rebuiltIndex := new Index(alnum);
        rebuiltIndex.Rebuild(saved.pages, saved.panels);
        ghost var shelves := if saved.panels.Some? then AllShelves(saved.panels.value, |saved.panels.value|) else [];
        assert [] + shelves == shelves;
        assert Shown(rebuiltIndex) == RebuiltView(saved, Describing(alnum));
        slot := Some((scope, rebuiltIndex));
      }
      index := if slot.value.1.pages == 0 then None else Some(slot.value.1);
    }
  }
}
