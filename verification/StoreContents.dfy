/** What the index of the Store holds, said without building it: which game and document each entry
comes from, which categories it is filed under, which pages are taken and which shelves are shown. */
module StoreContents {
  import opened Prelude
  import opened Numerals
  import opened Words
  import opened Ranking
  import opened StoreIndex

  // ---- Entries ----

  // The k-th addition is the first of its game.
  ghost predicate IsFirst(adds: seq<Addition>, k: nat, id: string) {
    k < |adds| && adds[k].game.id == id && forall j :: 0 <= j < k ==> adds[j].game.id != id
  }

  // A later addition files the game under the category.
  ghost predicate FiledLater(adds: seq<Addition>, k: nat, id: string, c: string) {
    exists j :: k < j < |adds| && adds[j].game.id == id && adds[j].category == Some(c)
  }

  // The entry is that of the k-th addition, filed also under the categories of later ones.
  ghost predicate Describes(e: Entry, adds: seq<Addition>, k: nat, d: Describe) {
    && e.id != "" && IsFirst(adds, k, e.id) && e.key == adds[k].key && e.slot == adds[k].slot
    && var f := d(adds[k].game, adds[k].category);
       && e.facts == f.(categories := e.facts.categories)
       && forall c :: c in e.facts.categories <==> c in f.categories || FiledLater(adds, k, e.id, c)
  }

  lemma {:induction false} FiledOneMore(adds: seq<Addition>, a: Addition, k: nat, id: string, c: string)
    requires k < |adds|
    ensures FiledLater(adds + [a], k, id, c)
       <==> FiledLater(adds, k, id, c) || (a.game.id == id && a.category == Some(c))
  {
    var more := adds + [a];
    assert forall j :: 0 <= j < |adds| ==> more[j] == adds[j];
    if a.game.id == id && a.category == Some(c) {
      assert more[|adds|] == a;
    }
    if FiledLater(adds, k, id, c) {
      var j :| k < j < |adds| && adds[j].game.id == id && adds[j].category == Some(c);
      assert more[j] == adds[j];
    }
  }

  lemma {:induction false} StillDescribes(e: Entry, adds: seq<Addition>, a: Addition, k: nat, d: Describe)
    requires Describes(e, adds, k, d)
    ensures Describes(if a.game.id == e.id then Categorized(e, a.category) else e, adds + [a], k, d)
  {
    var next := if a.game.id == e.id then Categorized(e, a.category) else e;
    assert forall j :: 0 <= j < |adds| ==> (adds + [a])[j] == adds[j];
    forall c ensures FiledLater(adds + [a], k, e.id, c)
                <==> FiledLater(adds, k, e.id, c) || (a.game.id == e.id && a.category == Some(c)) {
      FiledOneMore(adds, a, k, e.id, c);
    }
  }

  lemma {:induction false} NewDescribes(adds: seq<Addition>, a: Addition, d: Describe)
    requires a.game.id != "" && forall j :: 0 <= j < |adds| ==> adds[j].game.id != a.game.id
    ensures Describes(Entry(a.game.id, d(a.game, a.category), a.key, a.slot), adds + [a], |adds|, d)
  {
  }

  // The index after the additions.
  ghost function Indexed(adds: seq<Addition>, d: Describe): State {
    AddAll(EMPTY, adds, d)
  }

  lemma {:induction false} IndexedSnoc(adds: seq<Addition>, a: Addition, d: Describe)
    ensures Indexed(adds + [a], d) == AddOne(Indexed(adds, d), a, d)
  {
    AddAllSnoc(EMPTY, adds, a, d);
  }

  /** Every entry is that of the first addition of its game: its document and place, its facts, and
      the categories of that and every later addition of the game. */
  lemma {:induction false} EntryIs(adds: seq<Addition>, d: Describe, i: nat) returns (k: nat)
    requires i < |Indexed(adds, d).entries|
    ensures Describes(Indexed(adds, d).entries[i], adds, k, d)
  {
    var init, a := adds[..|adds| - 1], adds[|adds| - 1];
    var before := Indexed(init, d);
    assert adds == init + [a];
    IndexedSnoc(init, a, d);
    if i < |before.entries| {
      k := EntryIs(init, d, i);
      StillDescribes(before.entries[i], init, a, k, d);
    } else {
      k := |init|;
      NotYetIndexed(init, d, a.game.id);
      NewDescribes(init, a, d);
    }
  }

  // While the index is not full, what is not in it has not been added.
  lemma {:induction false} NotYetIndexed(adds: seq<Addition>, d: Describe, id: string)
    requires id != "" && id !in Indexed(adds, d).identities && |Indexed(adds, d).entries| < MAX_ENTRIES
    ensures forall j :: 0 <= j < |adds| ==> adds[j].game.id != id
  {
    if adds != [] {
      var init, a := adds[..|adds| - 1], adds[|adds| - 1];
      assert adds == init + [a];
      IndexedSnoc(init, a, d);
      NotYetIndexed(init, d, id);
    }
  }

  /** A game is indexed exactly when it has an id and fewer than 12000 others came before it. */
  lemma {:induction false} IndexedIff(adds: seq<Addition>, d: Describe, k: nat, id: string)
    requires IsFirst(adds, k, id)
    ensures id in Indexed(adds, d).identities <==> id != "" && |Indexed(adds[..k], d).entries| < 12000
  {
    NeverAdded(adds[..k], d, id);
    if |Indexed(adds[..k], d).entries| >= MAX_ENTRIES {
      FullStays(Indexed(adds[..k], d), adds[k..], d);
      assert adds == adds[..k] + adds[k..];
      AddAllConcat(EMPTY, adds[..k], adds[k..], d);
    } else if id != "" {
      StaysIndexed(adds, d, k);
    }
  }

  lemma {:induction false} StaysIndexed(adds: seq<Addition>, d: Describe, k: nat)
    requires k < |adds| && adds[k].game.id != "" && |Indexed(adds[..k], d).entries| < MAX_ENTRIES
    ensures adds[k].game.id in Indexed(adds, d).identities
  {
    assert adds == adds[..k + 1] + adds[k + 1..] && adds[..k + 1] == adds[..k] + [adds[k]];
    IndexedSnoc(adds[..k], adds[k], d);
    AdditionsKeepKeys(Indexed(adds[..k + 1], d), adds[k + 1..], d);
    AddAllConcat(EMPTY, adds[..k + 1], adds[k + 1..], d);
  }

  lemma {:induction false} NeverAdded(adds: seq<Addition>, d: Describe, id: string)
    requires forall j :: 0 <= j < |adds| ==> adds[j].game.id != id
    ensures id !in Indexed(adds, d).identities
  {
    if adds != [] {
      var init, a := adds[..|adds| - 1], adds[|adds| - 1];
      assert adds == init + [a];
      IndexedSnoc(init, a, d);
      NeverAdded(init, d, id);
    }
  }

  lemma {:induction false} FullStays(st: State, adds: seq<Addition>, d: Describe)
    requires Valid(st) && |st.entries| >= MAX_ENTRIES
    ensures AddAll(st, adds, d).identities == st.identities && |AddAll(st, adds, d).entries| == |st.entries|
  {
    if adds != [] {
      FullStays(st, adds[..|adds| - 1], d);
    }
  }

  /** Entries stand in the order in which their games were first added. */
  lemma {:induction false} EntriesInOrder(adds: seq<Addition>, d: Describe, i: nat, j: nat, k: nat, l: nat)
    requires i < j < |Indexed(adds, d).entries|
    requires IsFirst(adds, k, Indexed(adds, d).entries[i].id) && IsFirst(adds, l, Indexed(adds, d).entries[j].id)
    ensures k < l
  {
    var init, a := adds[..|adds| - 1], adds[|adds| - 1];
    var before := Indexed(init, d);
    assert adds == init + [a];
    IndexedSnoc(init, a, d);
    AdditionsKeepKeys(before, [a], d);
    AddAllConcat(EMPTY, init, [a], d);
    var m := EntryIs(init, d, i);
    assert k == m;
    if j < |before.entries| {
      var n := EntryIs(init, d, j);
      assert l == n;
      EntriesInOrder(init, d, i, j, k, l);
    } else {
      NotYetIndexed(init, d, a.game.id);
    }
  }
  // ---- What pages and panels bring ----

  // The games of the pages, one page after the other.
  function GamesOf(pages: seq<(string, Page)>): seq<Game> {
    if pages == [] then [] else pages[0].1.games + GamesOf(pages[1..])
  }

  function GamesAdded(adds: seq<Addition>): seq<Game> {
    seq(|adds|, i requires 0 <= i < |adds| => adds[i].game)
  }

  /** The pages bring all their games, in order, each filed under nothing and found again at its
      place in its page. */
  lemma {:induction false} ChainBrings(pages: seq<(string, Page)>)
    ensures GamesAdded(ChainAdditions(pages)) == GamesOf(pages)
    ensures forall a :: a in ChainAdditions(pages) ==>
              exists p :: 0 <= p < |pages| && a.key == PageKey(pages[p].0) && a.category.None? && a.slot.GameSlot?
                          && a.slot.at < |pages[p].1.games| && a.game == pages[p].1.games[a.slot.at]
  {
    if pages != [] {
      var init, last := pages[..|pages| - 1], pages[|pages| - 1];
      ChainBrings(init);
      GamesSnoc(init, last);
      assert pages == init + [last];
      var a, b := ChainAdditions(init), PageAdditions(last.0, last.1);
      assert GamesAdded(a + b) == GamesAdded(a) + GamesAdded(b);
      assert GamesAdded(b) == last.1.games;
      forall x | x in a
        ensures exists p :: 0 <= p < |pages| && x.key == PageKey(pages[p].0) && x.category.None? && x.slot.GameSlot?
                            && x.slot.at < |pages[p].1.games| && x.game == pages[p].1.games[x.slot.at]
      {
        var p :| 0 <= p < |init| && x.key == PageKey(init[p].0) && x.category.None? && x.slot.GameSlot?
                 && x.slot.at < |init[p].1.games| && x.game == init[p].1.games[x.slot.at];
        assert pages[p] == init[p];
      }
    }
  }

  lemma {:induction false} GamesSnoc(pages: seq<(string, Page)>, last: (string, Page))
    ensures GamesOf(pages + [last]) == GamesOf(pages) + last.1.games
  {
    if pages == [] {
      assert [last][1..] == [];
    } else {
      assert (pages + [last])[1..] == pages[1..] + [last];
      GamesSnoc(pages[1..], last);
    }
  }

  ghost predicate HasGame(panels: seq<seq<Section>>, p: nat, s: nat, g: nat) {
    p < |panels| && s < |panels[p]| && g < |panels[p][s].games|
  }

  // The addition files a game of a section under the section's shelf, or under its alias.
  ghost predicate IsListing(a: Addition, panels: seq<seq<Section>>, p: nat, s: nat, g: nat) {
    && HasGame(panels, p, s, g)
    && a.game == panels[p][s].games[g] && a.key == PanelsKey && a.slot == PanelSlot(p, s, g)
    && (a.category == Some(ShelfId(p, s)) || (a.category.Some? && a.category == Alias(panels[p][s].lowerTitle)))
  }

  lemma {:induction false} ShelfBrings(p: nat, s: nat, section: Section, n: nat, a: Addition)
    requires n <= |section.games|
    ensures a in ShelfGames(p, s, section, n) <==>
            exists g: nat :: g < n && a in ShelfGame(p, s, g, section.games[g], Alias(section.lowerTitle))
  {
    if n > 0 {
      ShelfBrings(p, s, section, n - 1, a);
    }
  }

  lemma {:induction false} PanelBrings(p: nat, panel: seq<Section>, n: nat, a: Addition)
    requires n <= |panel|
    ensures a in PanelAdditions(p, panel, n) <==>
            exists s: nat :: s < n && a in ShelfGames(p, s, panel[s], |panel[s].games|)
  {
    if n > 0 {
      PanelBrings(p, panel, n - 1, a);
    }
  }

  lemma {:induction false} AllPanelsBring(panels: seq<seq<Section>>, n: nat, a: Addition)
    requires n <= |panels|
    ensures a in PanelsAdditions(panels, n) <==> exists p: nat :: p < n && InPanel(panels, p, a)
  {
    if n > 0 {
      AllPanelsBring(panels, n - 1, a);
      assert a in PanelsAdditions(panels, n) <==> a in PanelsAdditions(panels, n - 1) || InPanel(panels, n - 1, a);
    }
  }

  predicate InPanel(panels: seq<seq<Section>>, p: nat, a: Addition)
    requires p < |panels|
  {
    a in PanelAdditions(p, panels[p], |panels[p]|)
  }

  /** The panels file every game of every section under its shelf and, if it has one, its alias,
      and do nothing else. */
  lemma {:induction false} PanelsBring(panels: seq<seq<Section>>, a: Addition)
    ensures a in PanelsAdditions(panels, |panels|) <==> exists p, s, g :: IsListing(a, panels, p, s, g)
  {
    AllPanelsBring(panels, |panels|, a);
    if a in PanelsAdditions(panels, |panels|) {
      var p: nat :| p < |panels| && InPanel(panels, p, a);
      PanelBrings(p, panels[p], |panels[p]|, a);
      var s: nat :| s < |panels[p]| && a in ShelfGames(p, s, panels[p][s], |panels[p][s].games|);
      ShelfBrings(p, s, panels[p][s], |panels[p][s].games|, a);
      var g: nat :| g < |panels[p][s].games|
                    && a in ShelfGame(p, s, g, panels[p][s].games[g], Alias(panels[p][s].lowerTitle));
      assert IsListing(a, panels, p, s, g);
    }
    if p: nat, s: nat, g: nat :| IsListing(a, panels, p, s, g) {
      assert a in ShelfGame(p, s, g, panels[p][s].games[g], Alias(panels[p][s].lowerTitle));
      ShelfBrings(p, s, panels[p][s], |panels[p][s].games|, a);
      PanelBrings(p, panels[p], |panels[p]|, a);
      assert InPanel(panels, p, a);
    }
  }

  lemma {:induction false} DecimalInjective(m: nat, n: nat)
    requires Decimal(m) == Decimal(n)
    ensures m == n
  {
    DecimalDigits(m);
    DecimalDigits(n);
  }

  lemma {:induction false} DecimalHasNoColon(n: nat)
    ensures ':' !in Decimal(n)
  {
    DecimalDigits(n);
  }

  /** Every section has a shelf of its own. */
  lemma {:induction false} ShelfIdsDiffer(p: nat, s: nat, q: nat, t: nat)
    requires ShelfId(p, s) == ShelfId(q, t)
    ensures p == q && s == t
  {
    DecimalHasNoColon(p);
    DecimalHasNoColon(q);
    var rest := ShelfId(p, s)[6..];
    assert rest == Decimal(p) + [':'] + Decimal(s) == Decimal(q) + [':'] + Decimal(t);
    UpToSeparator(Decimal(p), ':', Decimal(s));
    UpToSeparator(Decimal(q), ':', Decimal(t));
    assert rest[|Decimal(p)| + 1..] == Decimal(s) == Decimal(t);
    DecimalInjective(p, q);
    DecimalInjective(s, t);
  }

  /** The alias of a section goes by what its title holds. */
  lemma {:induction false} AliasIs(title: string)
    ensures Alias(title) ==
            if OccursIn("thursday", title) || OccursIn("new", title) || OccursIn("recent", title) then Some("new")
            else if OccursIn("rtx", title) then Some("rtx")
            else if OccursIn("free", title) then Some("free")
            else if OccursIn("coming", title) then Some("coming")
            else None
  {
    ContainsIff(title, "thursday");
    ContainsIff(title, "new");
    ContainsIff(title, "recent");
    ContainsIff(title, "rtx");
    ContainsIff(title, "free");
    ContainsIff(title, "coming");
  }

  // The shelf of a section that lists a game.
  ghost predicate IsShelf(shelf: Shelf, panels: seq<seq<Section>>, p: nat, s: nat) {
    p < |panels| && s < |panels[p]| && panels[p][s].games != []
    && shelf == Shelf("shelf:" + Decimal(p) + ":" + Decimal(s), panels[p][s].title, |panels[p][s].games|)
  }

  lemma {:induction false} PanelShows(p: nat, panel: seq<Section>, n: nat, shelf: Shelf)
    requires n <= |panel|
    ensures shelf in PanelShelves(p, panel, n) <==> exists s: nat :: s < n && shelf in SectionShelf(p, s, panel[s])
  {
    if n > 0 {
      PanelShows(p, panel, n - 1, shelf);
    }
  }

  predicate OnPanel(panels: seq<seq<Section>>, p: nat, shelf: Shelf)
    requires p < |panels|
  {
    shelf in PanelShelves(p, panels[p], |panels[p]|)
  }

  lemma {:induction false} AllPanelsShow(panels: seq<seq<Section>>, n: nat, shelf: Shelf)
    requires n <= |panels|
    ensures shelf in AllShelves(panels, n) <==> exists p: nat :: p < n && OnPanel(panels, p, shelf)
  {
    if n > 0 {
      AllPanelsShow(panels, n - 1, shelf);
      assert shelf in AllShelves(panels, n) <==> shelf in AllShelves(panels, n - 1) || OnPanel(panels, n - 1, shelf);
    }
  }

  /** A shelf is shown for every section that lists a game, and for no other. */
  lemma {:induction false} ShelvesAre(panels: seq<seq<Section>>, shelf: Shelf)
    ensures shelf in AllShelves(panels, |panels|) <==> exists p, s :: IsShelf(shelf, panels, p, s)
  {
    AllPanelsShow(panels, |panels|, shelf);
    if shelf in AllShelves(panels, |panels|) {
      var p: nat :| p < |panels| && OnPanel(panels, p, shelf);
      PanelShows(p, panels[p], |panels[p]|, shelf);
      var s: nat :| s < |panels[p]| && shelf in SectionShelf(p, s, panels[p][s]);
      assert IsShelf(shelf, panels, p, s);
    }
    if p: nat, s: nat :| IsShelf(shelf, panels, p, s) {
      assert shelf in SectionShelf(p, s, panels[p][s]);
      PanelShows(p, panels[p], |panels[p]|, shelf);
      assert OnPanel(panels, p, shelf);
    }
  }

  // ---- What is kept of a game ----

  /** The categories of a game: its own, the one it is filed under, and what its price, state and
      technology say. */
  lemma {:induction false} CategoryIff(game: Game, category: Option<string>, alnum: char -> bool, c: string)
    ensures var state := Normalized(game.lowerState, alnum);
            c in CategoriesOf(game, category, alnum) <==>
            || c in game.storeCategories || category == Some(c)
            || (c == "free" && (game.freeToPlay || game.storeFree || OccursIn("FREE", game.upperPlayType)))
            || (c == "coming" && (OccursIn("coming", state) || OccursIn("unreleased", state)))
            || (c == "rtx" && exists t :: t in game.lowerTech && OccursIn("rtx", t))
  {
    var state := Normalized(game.lowerState, alnum);
    ContainsIff(game.upperPlayType, "FREE");
    ContainsIff(state, "coming");
    ContainsIff(state, "unreleased");
    forall t | t in game.lowerTech ensures Contains(t, "rtx") <==> OccursIn("rtx", t) {
      ContainsIff(t, "rtx");
    }
  }

  /** The stores of a game are those it is available in, and each further one of its variants
      once. */
  lemma {:induction false} StoresAre(stores: seq<string>, variants: seq<string>)
    ensures var all := MergedStores(stores, variants);
            && stores <= all
            && (forall x :: x in all <==> x in stores || x in variants)
            && (forall i, j :: 0 <= i < j < |all| && |stores| <= j ==> all[i] != all[j])
    decreases |variants|
  {
    if variants != [] {
      var next := if variants[0] in stores then stores else stores + [variants[0]];
      StoresAre(next, variants[1..]);
      assert forall x :: x in variants <==> x == variants[0] || x in variants[1..];
      assert forall x :: x in next <==> x in stores || x == variants[0];
    }
  }

  /** What an entry keeps of its game. */
  lemma {:induction false} FactsAre(game: Game, category: Option<string>, alnum: char -> bool)
    ensures var f := Describing(alnum)(game, category);
            && f.card.title == Normalized(game.lowerTitle, alnum) && f.card.words == Split(f.card.title)
            && (f.card.owned <==> game.isInLibrary || game.storeOwned)
            && f.genres == game.genres && f.stores == MergedStores(game.availableStores, game.variantStores)
            && f.categories == CategoriesOf(game, category, alnum)
  {
    SplitJoin(FactsOf(game, category, alnum).card.words);
  }

  // ---- The chain of pages ----

  // Each page is cached under its cursor, and followed by the one its own cursor names; no cursor
  // comes twice after the first.
  ghost predicate Linked(disk: map<string, Page>, seen: set<string>, pages: seq<(string, Page)>) {
    && (forall i :: 0 <= i < |pages| ==> pages[i].0 in disk && pages[i].1 == disk[pages[i].0])
    && (forall i :: 0 <= i < |pages| - 1 ==>
          pages[i].1.hasNextPage && pages[i].1.nextCursor != "" && pages[i + 1].0 == pages[i].1.nextCursor)
    && (forall i :: 1 <= i < |pages| ==> pages[i].0 !in seen)
    && (forall i, j :: 1 <= i < j < |pages| ==> pages[i].0 != pages[j].0)
  }

  // The cursors followed, those seen before included.
  ghost function Followed(seen: set<string>, pages: seq<(string, Page)>): set<string> {
    seen + set i | 1 <= i < |pages| :: pages[i].0
  }

  // Why the chain ends after its last page.
  ghost predicate Ends(disk: map<string, Page>, seen: set<string>, upstream: string, w: Walked) {
    var n := |w.pages|;
    if n == 0 then !w.complete && w.upstream == upstream
    else
      var last := w.pages[n - 1].1;
      && (w.complete <==> !last.hasNextPage)
      && w.upstream == (if last.hasNextPage then last.nextCursor else if n == 1 then upstream else w.pages[n - 1].0)
      && (last.hasNextPage ==>
            || last.nextCursor == "" || last.nextCursor in Followed(seen, w.pages)
            || |seen| + n >= 100 || last.nextCursor !in disk)
  }

  /** The pages a rebuild takes: linked by their cursors from the first one, until the last page, a
      cursor that is empty, was followed before or is not cached, or a hundred pages. */
  lemma {:induction false} WalkIsChain(disk: map<string, Page>, cursor: string, seen: set<string>, upstream: string)
    ensures var w := Walk(disk, cursor, seen, upstream);
            && (w.pages == [] <==> |seen| >= 100 || cursor !in disk)
            && (w.pages != [] ==> w.pages[0].0 == cursor)
            && Linked(disk, seen, w.pages) && Ends(disk, seen, upstream, w)
    decreases MAX_PAGES - |seen|
  {
    if |seen| < MAX_PAGES && cursor in disk && disk[cursor].hasNextPage && disk[cursor].nextCursor != ""
       && disk[cursor].nextCursor !in seen {
      var next := disk[cursor].nextCursor;
      WalkIsChain(disk, next, seen + {next}, next);
      var rest := Walk(disk, next, seen + {next}, next);
      ChainGrows(disk, cursor, seen, upstream, rest);
    }
  }

  lemma {:induction false} ChainGrows(
      disk: map<string, Page>, cursor: string, seen: set<string>, upstream: string, rest: Walked)
    requires cursor in disk && disk[cursor].hasNextPage && disk[cursor].nextCursor != ""
    requires var next := disk[cursor].nextCursor;
             && next !in seen && (rest.pages == [] <==> |seen| + 1 >= 100 || next !in disk)
             && (rest.pages != [] ==> rest.pages[0].0 == next)
             && Linked(disk, seen + {next}, rest.pages) && Ends(disk, seen + {next}, next, rest)
    ensures var w := rest.(pages := [(cursor, disk[cursor])] + rest.pages);
            Linked(disk, seen, w.pages) && Ends(disk, seen, upstream, w)
  {
    var next := disk[cursor].nextCursor;
    LinkedGrows(disk, cursor, seen, rest.pages);
    if rest.pages != [] {
      FollowedGrows(cursor, disk[cursor], seen, rest.pages);
    }
  }

  lemma {:induction false} LinkedGrows(
      disk: map<string, Page>, cursor: string, seen: set<string>, rest: seq<(string, Page)>)
    requires cursor in disk && disk[cursor].hasNextPage && disk[cursor].nextCursor != ""
    requires disk[cursor].nextCursor !in seen && (rest != [] ==> rest[0].0 == disk[cursor].nextCursor)
    requires Linked(disk, seen + {disk[cursor].nextCursor}, rest)
    ensures Linked(disk, seen, [(cursor, disk[cursor])] + rest)
  {
    var pages := [(cursor, disk[cursor])] + rest;
    forall i | 0 <= i < |pages| - 1
      ensures pages[i].1.hasNextPage && pages[i].1.nextCursor != "" && pages[i + 1].0 == pages[i].1.nextCursor
    {
      assert pages[i + 1] == rest[i];
      if i > 0 {
        assert pages[i] == rest[i - 1];
      }
    }
    forall i | 1 <= i < |pages|
      ensures pages[i].0 !in seen && forall j :: i < j < |pages| ==> pages[i].0 != pages[j].0
    {
      assert pages[i] == rest[i - 1];
      assert forall j :: i < j < |pages| ==> pages[j] == rest[j - 1] && 1 <= j - 1;
    }
  }

  lemma {:induction false} FollowedGrows(cursor: string, page: Page, seen: set<string>, rest: seq<(string, Page)>)
    requires rest != [] && rest[0].0 == page.nextCursor
    ensures Followed(seen, [(cursor, page)] + rest) == Followed(seen + {page.nextCursor}, rest)
  {
    var pages := [(cursor, page)] + rest;
    assert forall i :: 1 <= i < |pages| ==> pages[i] == rest[i - 1];
    forall c | c in Followed(seen + {page.nextCursor}, rest) ensures c in Followed(seen, pages) {
      if c == rest[0].0 {
        assert pages[1].0 == c;
      } else if i :| 1 <= i < |rest| && rest[i].0 == c {
        assert pages[i + 1].0 == c;
      }
    }
  }
  // ---- Shelves in the index ----

  // All additions of a rebuild: those of the pages, then those of the panels.
  function AllAdditions(pages: seq<(string, Page)>, panels: seq<seq<Section>>): seq<Addition> {
    ChainAdditions(pages) + PanelsAdditions(panels, |panels|)
  }

  lemma {:induction false} RebuiltIs(disk: map<string, Page>, panels: seq<seq<Section>>, d: Describe)
    ensures Rebuilt(disk, panels, d) == Indexed(AllAdditions(WalkAll(disk).pages, panels), d)
  {
    AddAllConcat(EMPTY, ChainAdditions(WalkAll(disk).pages), PanelsAdditions(panels, |panels|), d);
  }

  // The section lists the game.
  ghost predicate Lists(panels: seq<seq<Section>>, p: nat, s: nat, id: string) {
    exists g: nat :: HasGame(panels, p, s, g) && panels[p][s].games[g].id == id
  }

  lemma {:induction false} NotAShelfId(p: nat, s: nat, title: string)
    ensures ShelfId(p, s) !in {"free", "coming", "rtx"} && Alias(title) != Some(ShelfId(p, s))
  {
    assert ShelfId(p, s)[..6] == "shelf:";
    assert ShelfId(p, s)[0] == 's';
    assert forall x: string :: x in {"free", "coming", "rtx", "new"} ==> x[0] != 's';
  }

  // Only a section itself files games under its shelf.
  lemma {:induction false} FiledByItsSection(
      pages: seq<(string, Page)>, panels: seq<seq<Section>>, a: Addition, p: nat, s: nat)
    requires a in AllAdditions(pages, panels) && a.category == Some(ShelfId(p, s))
    ensures Lists(panels, p, s, a.game.id)
  {
    ChainBrings(pages);
    PanelsBring(panels, a);
    var q: nat, t: nat, g: nat :| IsListing(a, panels, q, t, g);
    NotAShelfId(p, s, panels[q][t].lowerTitle);
    ShelfIdsDiffer(p, s, q, t);
    assert HasGame(panels, p, s, g) && panels[p][s].games[g].id == a.game.id;
  }

  // And it files all its games there.
  lemma {:induction false} FilesItsGames(
      pages: seq<(string, Page)>, panels: seq<seq<Section>>, p: nat, s: nat, id: string) returns (j: nat)
    requires Lists(panels, p, s, id)
    ensures var adds := AllAdditions(pages, panels);
            j < |adds| && adds[j].game.id == id && adds[j].category == Some(ShelfId(p, s))
  {
    var g: nat :| HasGame(panels, p, s, g) && panels[p][s].games[g].id == id;
    var a := Addition(panels[p][s].games[g], PanelsKey, PanelSlot(p, s, g), Some(ShelfId(p, s)));
    assert IsListing(a, panels, p, s, g);
    PanelsBring(panels, a);
    assert a in AllAdditions(pages, panels);
    j :| 0 <= j < |AllAdditions(pages, panels)| && AllAdditions(pages, panels)[j] == a;
  }

  /** Shelves. An indexed game is filed under a section's shelf exactly when the section lists it,
      unless its own first record names that shelf as a category. */
  lemma {:induction false} ShelfHolds(
      pages: seq<(string, Page)>, panels: seq<seq<Section>>, alnum: char -> bool, i: nat, p: nat, s: nat)
    requires i < |Indexed(AllAdditions(pages, panels), Describing(alnum)).entries|
    ensures var adds := AllAdditions(pages, panels);
            var e := Indexed(adds, Describing(alnum)).entries[i];
            ShelfId(p, s) in e.facts.categories <==>
            || Lists(panels, p, s, e.id)
            || exists k: nat :: IsFirst(adds, k, e.id) && ShelfId(p, s) in adds[k].game.storeCategories
  {
    var adds, c := AllAdditions(pages, panels), ShelfId(p, s);
    var e := Indexed(adds, Describing(alnum)).entries[i];
    var k := EntryIs(adds, Describing(alnum), i);
    CategoryIff(adds[k].game, adds[k].category, alnum, c);
    NotAShelfId(p, s, "");
    if adds[k].category == Some(c) {
      FiledByItsSection(pages, panels, adds[k], p, s);
    } else if FiledLater(adds, k, e.id, c) {
      var j :| k < j < |adds| && adds[j].game.id == e.id && adds[j].category == Some(c);
      FiledByItsSection(pages, panels, adds[j], p, s);
    }
    if Lists(panels, p, s, e.id) {
      var j := FilesItsGames(pages, panels, p, s, e.id);
      assert j >= k;
    }
  }
}
