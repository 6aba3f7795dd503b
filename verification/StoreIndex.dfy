/** The in-memory index of the Store: games are added page by page, panels attach
categories, and a rebuild follows the chain of cached pages. */
module StoreIndex {
  import opened Prelude
  import opened Numerals
  import opened Words
  import opened Ranking

  const MAX_ENTRIES: nat := 12000
  const MAX_PAGES: nat := 100

  // The cached document a game came from, and its place in that document.
  datatype DocKey = PageKey(cursor: string) | PanelsKey
  datatype Slot = GameSlot(at: nat) | PanelSlot(panel: nat, section: nat, game: nat)

  // The fields of a game record the index reads. Case folding is done by the caller, so
  // folded text has its own field; an absent text is "".
  datatype Game = Game(
    id: string, lowerTitle: string, storeCategories: seq<string>, freeToPlay: bool, storeFree: bool,
    upperPlayType: string, lowerState: string, lowerTech: seq<string>, availableStores: seq<string>,
    variantStores: seq<string>, genres: seq<string>, isInLibrary: bool, storeOwned: bool)

  // What an entry keeps of its game's content.
  datatype Facts = Facts(card: Card, genres: seq<string>, stores: seq<string>, categories: set<string>)

  datatype Entry = Entry(id: string, facts: Facts, key: DocKey, slot: Slot)

  datatype Section = Section(title: string, lowerTitle: string, games: seq<Game>)
  datatype Shelf = Shelf(id: string, title: string, count: nat)
  datatype Page = Page(games: seq<Game>, hasNextPage: bool, nextCursor: string)

  datatype State = State(entries: seq<Entry>, identities: map<string, nat>)
  datatype Addition = Addition(game: Game, key: DocKey, slot: Slot, category: Option<string>)

  // How a game filed under a category is described. The growth results hold for any such
  // function; the index uses `FactsOf`.
  type Describe = (Game, Option<string>) -> Facts

  const EMPTY: State := State([], map[])

  function MergedStores(stores: seq<string>, variants: seq<string>): seq<string>
    decreases |variants|
  {
    if variants == [] then stores
    else MergedStores(if variants[0] in stores then stores else stores + [variants[0]], variants[1..])
  }

  function CategoriesOf(game: Game, category: Option<string>, alnum: char -> bool): set<string> {
    var state := Normalized(game.lowerState, alnum);
    (set c | c in game.storeCategories)
    + (if category.Some? then {category.value} else {})
    + (if game.freeToPlay || game.storeFree || Contains(game.upperPlayType, "FREE") then {"free"} else {})
    + (if Contains(state, "coming") || Contains(state, "unreleased") then {"coming"} else {})
    + (if exists t :: t in game.lowerTech && Contains(t, "rtx") then {"rtx"} else {})
  }

  function FactsOf(game: Game, category: Option<string>, alnum: char -> bool): (f: Facts)
    ensures ValidCard(f.card)
  {
    Facts(MakeCard(game.lowerTitle, alnum, game.isInLibrary || game.storeOwned), game.genres,
          MergedStores(game.availableStores, game.variantStores), CategoriesOf(game, category, alnum))
  }

  function Describing(alnum: char -> bool): Describe {
    (game: Game, category: Option<string>) => FactsOf(game, category, alnum)
  }

  ghost predicate Valid(st: State) {
    && |st.entries| <= MAX_ENTRIES
    && (forall i :: 0 <= i < |st.entries| ==>
          && st.entries[i].id != ""
          && st.entries[i].id in st.identities && st.identities[st.entries[i].id] == i)
    && (forall id :: id in st.identities ==>
          st.identities[id] < |st.entries| && st.entries[st.identities[id]].id == id)
  }

  function Categorized(e: Entry, category: Option<string>): Entry {
    if category.Some? then e.(facts := e.facts.(categories := e.facts.categories + {category.value})) else e
  }

  ghost function AddOne(st: State, a: Addition, d: Describe): (st': State)
    requires Valid(st)
    ensures Valid(st')
  {
    var id := a.game.id;
    if id == "" then st
    else if id in st.identities then
      var at := st.identities[id];
      st.(entries := st.entries[at := Categorized(st.entries[at], a.category)])
    else if |st.entries| >= MAX_ENTRIES then st
    else State(st.entries + [Entry(id, d(a.game, a.category), a.key, a.slot)], st.identities[id := |st.entries|])
  }

  ghost function AddAll(st: State, adds: seq<Addition>, d: Describe): (st': State)
    requires Valid(st)
    ensures Valid(st')
  {
    if adds == [] then st
    else AddOne(AddAll(st, adds[..|adds| - 1], d), adds[|adds| - 1], d)
  }

  lemma {:induction false} AddAllConcat(st: State, a: seq<Addition>, b: seq<Addition>, d: Describe)
    requires Valid(st)
    ensures AddAll(st, a + b, d) == AddAll(AddAll(st, a, d), b, d)
  {
    if b == [] {
      assert a + b == a;
    } else {
      assert (a + b)[..|a + b| - 1] == a + b[..|b| - 1];
      AddAllConcat(st, a, b[..|b| - 1], d);
    }
  }

  lemma {:induction false} AddAllSnoc(st: State, adds: seq<Addition>, a: Addition, d: Describe)
    requires Valid(st)
    ensures AddAll(st, adds + [a], d) == AddOne(AddAll(st, adds, d), a, d)
  {
    assert (adds + [a])[..|adds|] == adds;
  }

  // ---- What pages and panels ask to add ----

  function PageAdditions(cursor: string, page: Page): (adds: seq<Addition>)
    ensures |adds| == |page.games|
  {
    seq(|page.games|, i requires 0 <= i < |page.games| =>
      Addition(page.games[i], PageKey(cursor), GameSlot(i), None))
  }

  function ShelfId(p: nat, s: nat): string {
    "shelf:" + Decimal(p) + ":" + Decimal(s)
  }

  function Alias(lowerTitle: string): Option<string> {
    if Contains(lowerTitle, "thursday") || Contains(lowerTitle, "new") || Contains(lowerTitle, "recent")
    then Some("new")
    else if Contains(lowerTitle, "rtx") then Some("rtx")
    else if Contains(lowerTitle, "free") then Some("free")
    else if Contains(lowerTitle, "coming") then Some("coming")
    else None
  }

  function ShelfGame(p: nat, s: nat, g: nat, game: Game, alias: Option<string>): seq<Addition> {
    [Addition(game, PanelsKey, PanelSlot(p, s, g), Some(ShelfId(p, s)))]
    + (if alias.Some? then [Addition(game, PanelsKey, PanelSlot(p, s, g), alias)] else [])
  }

  function ShelfGames(p: nat, s: nat, section: Section, n: nat): seq<Addition>
    requires n <= |section.games|
  {
    if n == 0 then []
    else ShelfGames(p, s, section, n - 1)
         + ShelfGame(p, s, n - 1, section.games[n - 1], Alias(section.lowerTitle))
  }

  function PanelAdditions(p: nat, panel: seq<Section>, n: nat): seq<Addition>
    requires n <= |panel|
  {
    if n == 0 then []
    else PanelAdditions(p, panel, n - 1) + ShelfGames(p, n - 1, panel[n - 1], |panel[n - 1].games|)
  }

  function PanelsAdditions(panels: seq<seq<Section>>, n: nat): seq<Addition>
    requires n <= |panels|
  {
    if n == 0 then []
    else PanelsAdditions(panels, n - 1) + PanelAdditions(n - 1, panels[n - 1], |panels[n - 1]|)
  }

  // One shelf for every section that lists a game, in panel order.
  function SectionShelf(p: nat, s: nat, section: Section): seq<Shelf> {
    if section.games == [] then [] else [Shelf(ShelfId(p, s), section.title, |section.games|)]
  }

  function PanelShelves(p: nat, panel: seq<Section>, n: nat): seq<Shelf>
    requires n <= |panel|
  {
    if n == 0 then [] else PanelShelves(p, panel, n - 1) + SectionShelf(p, n - 1, panel[n - 1])
  }

  function AllShelves(panels: seq<seq<Section>>, n: nat): seq<Shelf>
    requires n <= |panels|
  {
    if n == 0 then [] else AllShelves(panels, n - 1) + PanelShelves(n - 1, panels[n - 1], |panels[n - 1]|)
  }

  ghost predicate FromPanels(adds: seq<Addition>) {
    forall i :: 0 <= i < |adds| ==> adds[i].key == PanelsKey && adds[i].category.Some?
  }

  lemma {:induction false} ShelfGamesFromPanels(p: nat, s: nat, section: Section, n: nat)
    requires n <= |section.games|
    ensures FromPanels(ShelfGames(p, s, section, n))
  {
    if n > 0 {
      ShelfGamesFromPanels(p, s, section, n - 1);
    }
  }

  lemma {:induction false} PanelFromPanels(p: nat, panel: seq<Section>, n: nat)
    requires n <= |panel|
    ensures FromPanels(PanelAdditions(p, panel, n))
  {
    if n > 0 {
      PanelFromPanels(p, panel, n - 1);
      ShelfGamesFromPanels(p, n - 1, panel[n - 1], |panel[n - 1].games|);
    }
  }

  lemma {:induction false} PanelsFromPanels(panels: seq<seq<Section>>, n: nat)
    requires n <= |panels|
    ensures FromPanels(PanelsAdditions(panels, n))
  {
    if n > 0 {
      PanelsFromPanels(panels, n - 1);
      PanelFromPanels(n - 1, panels[n - 1], |panels[n - 1]|);
    }
  }

  // ---- The chain of cached pages a rebuild follows ----

  datatype Walked = Walked(pages: seq<(string, Page)>, complete: bool, upstream: string)

  // One round per page; `seen` holds one cursor per finished round, so it also counts them.
  function Walk(disk: map<string, Page>, cursor: string, seen: set<string>, upstream: string): Walked
    decreases MAX_PAGES - |seen|
  {
    if |seen| >= MAX_PAGES || cursor !in disk then Walked([], false, upstream) else
    var page := disk[cursor];
    var here := [(cursor, page)];
    if !page.hasNextPage then Walked(here, true, upstream)
    else if page.nextCursor == "" || page.nextCursor in seen then Walked(here, false, page.nextCursor)
    else
      var rest := Walk(disk, page.nextCursor, seen + {page.nextCursor}, page.nextCursor);
      rest.(pages := here + rest.pages)
  }

  function WalkAll(disk: map<string, Page>): Walked {
    Walk(disk, "", {}, "")
  }

  // Where a rebuild stands between two pages.
  datatype Trail = Trail(open: bool, complete: bool, cursor: string, seen: set<string>, upstream: string)

  ghost function Advanced(t: Trail, page: Page): Trail {
    var next := page.nextCursor;
    if !page.hasNextPage then t.(open := false, complete := true)
    else if next == "" || next in t.seen then t.(open := false, cursor := next, upstream := next)
    else t.(cursor := next, upstream := next, seen := t.seen + {next})
  }

  // The whole walk as seen from inside a rebuild: the pages taken so far, then the walk
  // still ahead. It never changes while the rebuild runs.
  ghost function Projected(disk: map<string, Page>, done: seq<(string, Page)>, t: Trail): Walked {
    var rest := if t.open then Walk(disk, t.cursor, t.seen, t.upstream) else Walked([], t.complete, t.upstream);
    rest.(pages := done + rest.pages)
  }

  lemma {:induction false} ProjectedStart(disk: map<string, Page>)
    ensures Projected(disk, [], Trail(true, false, "", {}, "")) == WalkAll(disk)
  {
    assert [] + WalkAll(disk).pages == WalkAll(disk).pages;
  }

  lemma {:induction false} ProjectedStep(disk: map<string, Page>, done: seq<(string, Page)>, t: Trail)
    requires t.open && !t.complete && |t.seen| < MAX_PAGES && t.cursor in disk
    ensures Projected(disk, done + [(t.cursor, disk[t.cursor])], Advanced(t, disk[t.cursor]))
         == Projected(disk, done, t)
  {
    var page := disk[t.cursor];
    var next, here := page.nextCursor, [(t.cursor, page)];
    if page.hasNextPage && next != "" && next !in t.seen {
      var rest := Walk(disk, next, t.seen + {next}, next).pages;
      assert done + (here + rest) == (done + here) + rest;
    } else {
      assert (done + here) + [] == done + here;
    }
  }

  lemma {:induction false} ProjectedEnd(disk: map<string, Page>, done: seq<(string, Page)>, t: Trail)
    requires t.open ==> !t.complete && (|t.seen| >= MAX_PAGES || t.cursor !in disk)
    ensures Projected(disk, done, t) == Walked(done, t.complete, t.upstream)
  {
    assert done + [] == done;
  }

  function ChainAdditions(pages: seq<(string, Page)>): seq<Addition> {
    if pages == [] then []
    else ChainAdditions(pages[..|pages| - 1])
         + PageAdditions(pages[|pages| - 1].0, pages[|pages| - 1].1)
  }

  ghost predicate FromPages(adds: seq<Addition>) {
    forall i :: 0 <= i < |adds| ==> adds[i].key.PageKey? && adds[i].category.None?
  }

  lemma {:induction false} ChainFromPages(pages: seq<(string, Page)>)
    ensures FromPages(ChainAdditions(pages))
  {
    if pages != [] {
      ChainFromPages(pages[..|pages| - 1]);
    }
  }

  lemma {:induction false} ChainConcat(a: seq<(string, Page)>, b: seq<(string, Page)>)
    ensures ChainAdditions(a + b) == ChainAdditions(a) + ChainAdditions(b)
  {
    if b == [] {
      assert a + b == a;
    } else {
      assert (a + b)[..|a + b| - 1] == a + b[..|b| - 1];
      ChainConcat(a, b[..|b| - 1]);
    }
  }

  // The index after a list of pages.
  ghost function AfterPages(pages: seq<(string, Page)>, d: Describe): (st: State)
    ensures Valid(st)
  {
    AddAll(EMPTY, ChainAdditions(pages), d)
  }

  lemma {:induction false} AfterNoPages(d: Describe)
    ensures AfterPages([], d) == EMPTY
  {
  }

  lemma {:induction false} AfterOneMore(pages: seq<(string, Page)>, cursor: string, page: Page, d: Describe)
    ensures AfterPages(pages + [(cursor, page)], d) == AddAll(AfterPages(pages, d), PageAdditions(cursor, page), d)
  {
    assert (pages + [(cursor, page)])[..|pages|] == pages;
    AddAllConcat(EMPTY, ChainAdditions(pages), PageAdditions(cursor, page), d);
  }

  ghost function PagesOnly(disk: map<string, Page>, d: Describe): (st: State)
    ensures Valid(st)
  {
    AfterPages(WalkAll(disk).pages, d)
  }

  ghost function Rebuilt(disk: map<string, Page>, panels: seq<seq<Section>>, d: Describe): (st: State)
    ensures Valid(st)
  {
    AfterPanels(PagesOnly(disk, d), panels, |panels|, d)
  }

  // The index after the first n panels.
  ghost function AfterPanels(st: State, panels: seq<seq<Section>>, n: nat, d: Describe): (st': State)
    requires Valid(st) && n <= |panels|
    ensures Valid(st')
  {
    AddAll(st, PanelsAdditions(panels, n), d)
  }

  lemma {:induction false} AfterOneMorePanel(st: State, panels: seq<seq<Section>>, n: nat, d: Describe)
    requires Valid(st) && n < |panels|
    ensures AfterPanels(st, panels, n + 1, d)
         == AddAll(AfterPanels(st, panels, n, d), PanelAdditions(n, panels[n], |panels[n]|), d)
  {
    AddAllConcat(st, PanelsAdditions(panels, n), PanelAdditions(n, panels[n], |panels[n]|), d);
  }

  // ---- Growth ----

  ghost predicate Extends(a: State, b: State) {
    a.entries <= b.entries
  }

  /** Caching more pages never changes the chain already walked, it only lengthens it. */
  lemma {:induction false} WalkGrows(
      disk: map<string, Page>, more: map<string, Page>, cursor: string, seen: set<string>, u: string, u': string)
    requires forall c :: c in disk ==> c in more && more[c] == disk[c]
    ensures Walk(disk, cursor, seen, u).pages <= Walk(more, cursor, seen, u').pages
    decreases MAX_PAGES - |seen|
  {
    if |seen| < MAX_PAGES && cursor in disk && disk[cursor].hasNextPage && disk[cursor].nextCursor != ""
       && disk[cursor].nextCursor !in seen {
      var next := disk[cursor].nextCursor;
      WalkGrows(disk, more, next, seen + {next}, next, next);
    }
  }

  lemma {:induction false} PagesKeepPrefix(st: State, adds: seq<Addition>, d: Describe)
    requires Valid(st) && forall i :: 0 <= i < |adds| ==> adds[i].category.None?
    ensures Extends(st, AddAll(st, adds, d))
  {
    if adds != [] {
      PagesKeepPrefix(st, adds[..|adds| - 1], d);
    }
  }

  /** The page-only index of a larger cache starts with that of the smaller one. */
  lemma {:induction false} PagesOnlyGrows(disk: map<string, Page>, more: map<string, Page>, d: Describe)
    requires forall c :: c in disk ==> c in more && more[c] == disk[c]
    ensures Extends(PagesOnly(disk, d), PagesOnly(more, d))
  {
    WalkGrows(disk, more, "", {}, "", "");
    var a, b := WalkAll(disk).pages, WalkAll(more).pages;
    var rest := b[|a|..];
    assert b == a + rest;
    ChainConcat(a, rest);
    AddAllConcat(EMPTY, ChainAdditions(a), ChainAdditions(rest), d);
    ChainFromPages(rest);
    PagesKeepPrefix(PagesOnly(disk, d), ChainAdditions(rest), d);
  }

  // No addition can create an entry: every game is unnamed, known, or refused by the cap.
  ghost predicate AddsNothing(st: State, adds: seq<Addition>) {
    forall i :: 0 <= i < |adds| ==>
      adds[i].game.id == "" || adds[i].game.id in st.identities || |st.entries| >= MAX_ENTRIES
  }

  lemma {:induction false} KnownAdditionsKeepShape(a: State, adds: seq<Addition>, d: Describe)
    requires Valid(a) && AddsNothing(a, adds)
    ensures AddAll(a, adds, d).identities == a.identities
    ensures |AddAll(a, adds, d).entries| == |a.entries|
  {
    if adds != [] {
      KnownAdditionsKeepShape(a, adds[..|adds| - 1], d);
    }
  }

  lemma {:induction false} KnownAdditionsExtend(a: State, b: State, adds: seq<Addition>, d: Describe)
    requires Valid(a) && Valid(b) && Extends(a, b) && AddsNothing(a, adds)
    requires |a.entries| < MAX_ENTRIES
    ensures Extends(AddAll(a, adds, d), AddAll(b, adds, d))
  {
    if adds != [] {
      var init, last := adds[..|adds| - 1], adds[|adds| - 1];
      KnownAdditionsExtend(a, b, init, d);
      KnownAdditionsKeepShape(a, init, d);
      var a', b' := AddAll(a, init, d), AddAll(b, init, d);
      if last.game.id != "" {
        var at := a'.identities[last.game.id];
        assert a'.entries[at] == b'.entries[at];
        assert b'.identities[last.game.id] == at;
      }
    }
  }

  lemma {:induction false} SameEntriesSameState(a: State, b: State)
    requires Valid(a) && Valid(b) && a.entries == b.entries
    ensures a == b
  {
    forall id | id in a.identities ensures id in b.identities && b.identities[id] == a.identities[id] {
      assert a.entries[a.identities[id]].id == id;
    }
    forall id | id in b.identities ensures id in a.identities {
      assert b.entries[b.identities[id]].id == id;
    }
    assert a.identities == b.identities;
  }

  // Existing entries keep their game and document whatever is added.
  ghost predicate KeepsKeys(a: State, b: State) {
    && |a.entries| <= |b.entries|
    && (forall id :: id in a.identities ==> id in b.identities)
    && (forall i :: 0 <= i < |a.entries| ==>
          b.entries[i].id == a.entries[i].id && b.entries[i].key == a.entries[i].key)
  }

  lemma {:induction false} AdditionsKeepKeys(st: State, adds: seq<Addition>, d: Describe)
    requires Valid(st)
    ensures KeepsKeys(st, AddAll(st, adds, d))
  {
    if adds != [] {
      AdditionsKeepKeys(st, adds[..|adds| - 1], d);
    }
  }

  lemma {:induction false} NewEntriesComeFromPanels(st: State, adds: seq<Addition>, i: nat, d: Describe)
    requires Valid(st) && FromPanels(adds)
    requires |st.entries| <= i < |AddAll(st, adds, d).entries|
    ensures AddAll(st, adds, d).entries[i].key == PanelsKey
  {
    var before := AddAll(st, adds[..|adds| - 1], d);
    if i < |before.entries| {
      NewEntriesComeFromPanels(st, adds[..|adds| - 1], i, d);
    }
  }

  lemma {:induction false} SomethingAdded(st: State, adds: seq<Addition>, d: Describe)
    requires Valid(st) && !AddsNothing(st, adds)
    ensures |AddAll(st, adds, d).entries| > |st.entries|
  {
    var init, last := adds[..|adds| - 1], adds[|adds| - 1];
    AdditionsKeepKeys(st, init, d);
    if AddsNothing(st, init) {
      KnownAdditionsKeepShape(st, init, d);
    } else {
      SomethingAdded(st, init, d);
    }
  }

  lemma {:induction false} PageEntriesHavePageKeys(adds: seq<Addition>, i: nat, d: Describe)
    requires FromPages(adds) && i < |AddAll(EMPTY, adds, d).entries|
    ensures AddAll(EMPTY, adds, d).entries[i].key.PageKey?
  {
    var before := AddAll(EMPTY, adds[..|adds| - 1], d);
    if i < |before.entries| {
      PageEntriesHavePageKeys(adds[..|adds| - 1], i, d);
    }
  }

  /** Index growth, exactly: after more pages are cached the rebuilt index starts with the
      old one, entry by entry, if and only if the panels added no game of their own to the
      old index, or the new pages added no game either. */
  lemma {:induction false} RebuildExtends(
      disk: map<string, Page>, more: map<string, Page>, panels: seq<seq<Section>>, d: Describe)
    requires forall c :: c in disk ==> c in more && more[c] == disk[c]
    ensures Extends(Rebuilt(disk, panels, d), Rebuilt(more, panels, d)) <==>
            (|| AddsNothing(PagesOnly(disk, d), PanelsAdditions(panels, |panels|))
             || |PagesOnly(disk, d).entries| == |PagesOnly(more, d).entries|)
  {
    var adds := PanelsAdditions(panels, |panels|);
    var a, b := PagesOnly(disk, d), PagesOnly(more, d);
    PagesOnlyGrows(disk, more, d);
    if |a.entries| == |b.entries| {
      SameEntriesSameState(a, b);
    } else if AddsNothing(a, adds) {
      KnownAdditionsExtend(a, b, adds, d);
    } else {
      var n := |a.entries|;
      PanelsFromPanels(panels, |panels|);
      SomethingAdded(a, adds, d);
      NewEntriesComeFromPanels(a, adds, n, d);
      ChainFromPages(WalkAll(more).pages);
      PageEntriesHavePageKeys(ChainAdditions(WalkAll(more).pages), n, d);
      AdditionsKeepKeys(b, adds, d);
      assert Rebuilt(disk, panels, d).entries[n].key != Rebuilt(more, panels, d).entries[n].key;
    }
  }

  // A cache of one page without games, the same cache with a second page, and a shelf.
  function FirstPageOnly(): map<string, Page> {
    map["" := Page([], true, "next")]
  }

  function BothPages(paged: Game): map<string, Page> {
    map["" := Page([], true, "next"), "next" := Page([paged], false, "")]
  }

  lemma {:induction false} FirstPageBringsNothing(d: Describe)
    ensures PagesOnly(FirstPageOnly(), d) == EMPTY
  {
    var disk := FirstPageOnly();
    var pages := WalkAll(disk).pages;
    assert Walk(disk, "next", {"next"}, "next").pages == [];
    assert pages == [("", disk[""])];
    assert pages[..0] == [];
    assert ChainAdditions(pages) == ChainAdditions([]) + PageAdditions("", disk[""]) == [];
  }

  lemma {:induction false} SecondPageBringsOne(paged: Game, d: Describe)
    requires paged.id != ""
    ensures |PagesOnly(BothPages(paged), d).entries| == 1
  {
    var disk := BothPages(paged);
    var pages := WalkAll(disk).pages;
    assert Walk(disk, "next", {"next"}, "next").pages == [("next", disk["next"])];
    assert pages == [("", disk[""])] + [("next", disk["next"])];
    ChainConcat([("", disk[""])], [("next", disk["next"])]);
    assert [("", disk[""])][..0] == [] && [("next", disk["next"])][..0] == [];
    var add := Addition(paged, PageKey("next"), GameSlot(0), None);
    assert PageAdditions("next", disk["next"]) == [add];
    assert ChainAdditions(pages) == [add];
    AddAllSnoc(EMPTY, [], add, d);
    assert [] + [add] == [add];
    assert AddAll(EMPTY, [], d) == EMPTY;
    assert PagesOnly(disk, d) == AddOne(EMPTY, add, d);
  }

  /** Panels can shift positions: a shelf game that is indexed while only the first page is cached
      comes after the game of a second page cached later. */
  lemma {:induction false} ShelfGameShifts(shelved: Game, paged: Game, title: string, lowerTitle: string, d: Describe)
    requires shelved.id != "" && paged.id != ""
    ensures var panels := [[Section(title, lowerTitle, [shelved])]];
            !Extends(Rebuilt(FirstPageOnly(), panels, d), Rebuilt(BothPages(paged), panels, d))
  {
    var section := Section(title, lowerTitle, [shelved]);
    var panels := [[section]];
    FirstPageBringsNothing(d);
    SecondPageBringsOne(paged, d);
    assert ShelfGames(0, 0, section, 0) + ShelfGame(0, 0, 0, shelved, Alias(lowerTitle))
       == ShelfGames(0, 0, section, 1);
    assert PanelAdditions(0, panels[0], 0) + ShelfGames(0, 0, section, 1) == PanelAdditions(0, panels[0], 1);
    assert PanelsAdditions(panels, 0) + PanelAdditions(0, panels[0], 1) == PanelsAdditions(panels, 1);
    assert PanelsAdditions(panels, 1)[0].game == shelved;
    RebuildExtends(FirstPageOnly(), BothPages(paged), panels, d);
  }

  // ---- The index itself ----

  class Index {
    const describe: Describe
    var entries: seq<Entry>
    var identities: map<string, nat>
    var shelves: seq<Shelf>
    var complete: bool
    var nextUpstream: string
    var pages: nat

    constructor (alnum: char -> bool)
      ensures Contents() == EMPTY && shelves == [] && !complete && nextUpstream == "" && pages == 0
      ensures describe == Describing(alnum)
    {
      this.describe := Describing(alnum);
      entries, identities, shelves := [], map[], [];
      complete, nextUpstream, pages := false, "", 0;
    }

    ghost function Contents(): State
      reads this
    {
      State(entries, identities)
    }

    method Add(game: Game, key: DocKey, slot: Slot, category: Option<string>)
      requires Valid(Contents())
      modifies this`entries, this`identities
      ensures Contents() == AddOne(old(Contents()), Addition(game, key, slot, category), describe)
    {
      if game.id == "" {
        return;
      }
      if game.id in identities {
        var at := identities[game.id];
        if category.Some? {
          entries := entries[at := Categorized(entries[at], category)];
        }
        return;
      }
      if |entries| >= MAX_ENTRIES {
        return;
      }
      identities := identities[game.id := |entries|];
      entries := entries + [Entry(game.id, describe(game, category), key, slot)];
    }

    method AddPanels(panels: seq<seq<Section>>)
      requires Valid(Contents())
      modifies this`entries, this`identities, this`shelves
      ensures Contents() == AfterPanels(old(Contents()), panels, |panels|, describe)
      ensures shelves == old(shelves) + AllShelves(panels, |panels|)
    {
      ghost var start, shown := Contents(), shelves;
      for p := 0 to |panels|
        invariant Contents() == AfterPanels(start, panels, p, describe)
        invariant shelves == shown + AllShelves(panels, p)
      {
        AddPanel(p, panels[p]);
        AfterOneMorePanel(start, panels, p, describe);
        Regrouped(shown, AllShelves(panels, p), PanelShelves(p, panels[p], |panels[p]|));
      }
    }

    method AddPanel(p: nat, panel: seq<Section>)
      requires Valid(Contents())
      modifies this`entries, this`identities, this`shelves
      ensures Contents() == AddAll(old(Contents()), PanelAdditions(p, panel, |panel|), describe)
      ensures shelves == old(shelves) + PanelShelves(p, panel, |panel|)
    {
      ghost var before, shown := Contents(), shelves;
      for s := 0 to |panel|
        invariant Contents() == AddAll(before, PanelAdditions(p, panel, s), describe)
        invariant shelves == shown + PanelShelves(p, panel, s)
      {
        AddSection(p, s, panel[s]);
        Regrouped(shown, PanelShelves(p, panel, s), SectionShelf(p, s, panel[s]));
        AddAllConcat(before, PanelAdditions(p, panel, s), ShelfGames(p, s, panel[s], |panel[s].games|), describe);
      }
    }

    method AddSection(p: nat, s: nat, section: Section)
      requires Valid(Contents())
      modifies this`entries, this`identities, this`shelves
      ensures Contents() == AddAll(old(Contents()), ShelfGames(p, s, section, |section.games|), describe)
      ensures shelves == old(shelves) + SectionShelf(p, s, section)
    {
      var alias := Alias(section.lowerTitle);
      for g := 0 to |section.games|
        invariant Contents() == AddAll(old(Contents()), ShelfGames(p, s, section, g), describe)
        invariant shelves == old(shelves)
      {
        AddShelfGame(p, s, g, section.games[g], alias);
        AddAllConcat(old(Contents()), ShelfGames(p, s, section, g),
                     ShelfGame(p, s, g, section.games[g], alias), describe);
      }
      if section.games != [] {
        shelves := shelves + [Shelf(ShelfId(p, s), section.title, |section.games|)];
      }
    }

    method AddShelfGame(p: nat, s: nat, g: nat, game: Game, alias: Option<string>)
      requires Valid(Contents())
      modifies this`entries, this`identities
      ensures Contents() == AddAll(old(Contents()), ShelfGame(p, s, g, game, alias), describe)
    {
      ghost var start := Contents();
      ghost var first := Addition(game, PanelsKey, PanelSlot(p, s, g), Some(ShelfId(p, s)));
      AddAllSnoc(start, [], first, describe);
      assert [] + [first] == [first];
      Add(game, PanelsKey, PanelSlot(p, s, g), Some(ShelfId(p, s)));
      if alias.Some? {
        AddAllSnoc(start, [first], Addition(game, PanelsKey, PanelSlot(p, s, g), alias), describe);
        Add(game, PanelsKey, PanelSlot(p, s, g), alias);
      }
    }

    method AddPage(cursor: string, page: Page, ghost done: seq<(string, Page)>)
      requires Contents() == AfterPages(done, describe)
      modifies this`entries, this`identities
      ensures Contents() == AfterPages(done + [(cursor, page)], describe)
    {
      AddGames(cursor, page);
      AfterOneMore(done, cursor, page, describe);
    }

    method AddGames(cursor: string, page: Page)
      requires Valid(Contents())
      modifies this`entries, this`identities
      ensures Contents() == AddAll(old(Contents()), PageAdditions(cursor, page), describe)
    {
      ghost var start := Contents();
      ghost var adds := PageAdditions(cursor, page);
      for at := 0 to |page.games|
        invariant Contents() == AddAll(start, adds[..at], describe)
      {
        AddAllSnoc(start, adds[..at], adds[at], describe);
        assert adds[..at + 1] == adds[..at] + [adds[at]];
        Add(page.games[at], PageKey(cursor), GameSlot(at), None);
      }
      assert adds[..|page.games|] == adds;
    }

    // Follow the cached pages from the empty cursor.
    method AddPages(disk: map<string, Page>)
      requires Contents() == EMPTY && pages == 0 && !complete && nextUpstream == ""
      modifies this`entries, this`identities, this`complete, this`nextUpstream, this`pages
      ensures var walked := WalkAll(disk);
              && Contents() == AfterPages(walked.pages, describe)
              && pages == |walked.pages| && complete == walked.complete && nextUpstream == walked.upstream
    {
      var cursor := "";
      var seen := {};
      var rounds := 0;
      var open := true;
      ghost var done: seq<(string, Page)> := [];
      ghost var trail := Trail(open, complete, cursor, seen, nextUpstream);
      ProjectedStart(disk);
      AfterNoPages(describe);
      while open && rounds < MAX_PAGES && cursor in disk
        invariant pages == |done| && rounds == |seen| && (open ==> !complete)
        invariant Contents() == AfterPages(done, describe)
        invariant trail == Trail(open, complete, cursor, seen, nextUpstream)
        invariant Projected(disk, done, trail) == WalkAll(disk)
        decreases MAX_PAGES - rounds, open
      {
        var page := disk[cursor];
        AddPage(cursor, page, done);
        ProjectedStep(disk, done, trail);
        done := done + [(cursor, page)];
        trail := Advanced(trail, page);
        pages := pages + 1;
        if !page.hasNextPage {
          complete := true;
          open := false;
        } else {
          cursor := page.nextCursor;
          nextUpstream := cursor;
          if cursor == "" || cursor in seen {
            open := false;
          } else {
            seen := seen + {cursor};
            rounds := rounds + 1;
          }
        }
      }
      ProjectedEnd(disk, done, trail);
    }

    /** The rebuild of `local_query`: the cached pages, then the panels if they are cached. */
    method Rebuild(disk: map<string, Page>, panels: Option<seq<seq<Section>>>)
      requires Contents() == EMPTY && pages == 0 && !complete && nextUpstream == ""
      modifies this
      ensures Contents() == if panels.Some? then Rebuilt(disk, panels.value, describe) else PagesOnly(disk, describe)
      ensures shelves == if panels.Some? then old(shelves) + AllShelves(panels.value, |panels.value|) else old(shelves)
      ensures var walked := WalkAll(disk);
              pages == |walked.pages| && complete == walked.complete && nextUpstream == walked.upstream
    {
      AddPages(disk);
      if panels.Some? {
        AddPanels(panels.value);
      }
    }
  }
}
