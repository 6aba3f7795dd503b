/** Local Store search: filter, rank, cut one page at an offset cursor, shrink it to the
budget; and the walk a client makes by following `nextCursor`. */
module StoreQuery {
  import opened Prelude
  import opened Numerals
  import opened Words
  import opened Ranking
  import opened BoundedPage
  import opened StoreIndex

  const LOCAL_PAGE_LIMIT: nat := 60
  const MAX_FILTER_BYTES: nat := 256
  const MAX_SEARCH_BYTES: nat := 512

  // A request parameter: missing, a string, or some other JSON value.
  datatype Param = Absent | Text(s: string) | NotText

  // The search text arrives lower-cased; an absent or non-integer limit is `None`.
  datatype Params = Params(
    limit: Option<nat>, cursor: Param, search: Param, genre: Param, store: Param, category: Param)

  datatype Filters = Filters(query: string, genre: string, store: string, category: string)

  // A game record found in a cached document.
  datatype Record = Record(id: string, body: string)

  datatype Facets = Facets(genres: set<string>, stores: set<string>, shelves: seq<Shelf>)

  datatype ResultPage = ResultPage(
    games: seq<Record>, totalCount: nat, catalogCount: nat, hasNextPage: bool, nextCursor: string,
    complete: bool, upstream: string, facets: Option<Facets>)

  // The index as a query sees it.
  datatype View = View(entries: seq<Entry>, complete: bool, pages: nat, upstream: string, shelves: seq<Shelf>)

  // What the environment supplies: the alphanumeric table, the fingerprint of the filters,
  // the cached records and the encoded size of a page.
  datatype World = World(
    alnum: char -> bool, fingerprint: Filters -> string,
    look: (DocKey, Slot) -> Option<Record>, size: ResultPage -> nat)

  function AsciiLower(s: string): string {
    if s == "" then "" else
    [if 'A' <= s[0] <= 'Z' then (s[0] as int + 32) as char else s[0]] + AsciiLower(s[1..])
  }

  predicate ParamOk(p: Param, max: nat) {
    p.Absent? || (p.Text? && ByteLen(p.s) <= max)
  }

  function ParamText(p: Param): string {
    if p.Text? then p.s else ""
  }

  function Keep(e: Entry, f: Filters): bool {
    && (f.genre == "" || exists g :: g in e.facts.genres && AsciiLower(g) == AsciiLower(f.genre))
    && (f.store == "" || exists s :: s in e.facts.stores && AsciiLower(s) == AsciiLower(f.store))
    && (f.category in {"", "featured", "all"} || f.category in e.facts.categories)
  }

  datatype Match = Match(at: nat, score: nat)

  ghost function Hit(e: Entry, f: Filters): Option<nat> {
    if Keep(e, f) then Score(e.facts.card, f.query, Tokens(Split(f.query))) else None
  }

  // The score of every entry that matches, by position.
  ghost function Hits(entries: seq<Entry>, f: Filters): (hits: seq<Option<nat>>)
    ensures |hits| == |entries|
    ensures forall i :: 0 <= i < |entries| ==> hits[i] == Hit(entries[i], f)
  {
    seq(|entries|, i requires 0 <= i < |entries| => Hit(entries[i], f))
  }

  function Matches(hits: seq<Option<nat>>): (ms: seq<Match>)
    ensures |ms| <= |hits|
  {
    if hits == [] then [] else
    var n := |hits| - 1;
    Matches(hits[..n]) + if hits[n].Some? then [Match(n, hits[n].value)] else []
  }

  // The sort key (Reverse(score), at).
  predicate Before(a: Match, b: Match) {
    a.score > b.score || (a.score == b.score && a.at < b.at)
  }

  function Insert(m: Match, ms: seq<Match>): seq<Match> {
    if ms == [] || Before(m, ms[0]) then [m] + ms else [ms[0]] + Insert(m, ms[1..])
  }

  function Sorted(ms: seq<Match>): seq<Match> {
    if ms == [] then [] else Insert(ms[0], Sorted(ms[1..]))
  }

  ghost function Ranked(entries: seq<Entry>, f: Filters): seq<Match> {
    var ms := Matches(Hits(entries, f));
    if f.query == "" then ms else Sorted(ms)
  }

  // ---- Ranking is a sorted rearrangement of the matching entries ----

  ghost predicate InOrder(ms: seq<Match>) {
    forall i, j :: 0 <= i < j < |ms| ==> Before(ms[i], ms[j])
  }

  ghost predicate Ascending(ms: seq<Match>) {
    forall i, j :: 0 <= i < j < |ms| ==> ms[i].at < ms[j].at
  }

  lemma {:induction false} InsertKeepsAll(m: Match, ms: seq<Match>)
    ensures multiset(Insert(m, ms)) == multiset(ms) + multiset{m}
    ensures forall x :: x in Insert(m, ms) <==> x == m || x in ms
    ensures |Insert(m, ms)| == |ms| + 1
  {
    if ms != [] && !Before(m, ms[0]) {
      InsertKeepsAll(m, ms[1..]);
      assert ms == [ms[0]] + ms[1..];
    }
  }

  lemma {:induction false} InsertKeepsOrder(m: Match, ms: seq<Match>)
    requires InOrder(ms) && forall x :: x in ms ==> x.at != m.at
    ensures InOrder(Insert(m, ms))
  {
    if ms != [] && !Before(m, ms[0]) {
      var rest := Insert(m, ms[1..]);
      InsertKeepsOrder(m, ms[1..]);
      InsertKeepsAll(m, ms[1..]);
      forall j | 0 <= j < |rest| ensures Before(ms[0], rest[j]) {
        assert rest[j] in rest;
      }
    }
  }

  lemma {:induction false} SortedKeepsAll(ms: seq<Match>)
    ensures multiset(Sorted(ms)) == multiset(ms) && |Sorted(ms)| == |ms|
    ensures forall x :: x in Sorted(ms) <==> x in ms
  {
    if ms != [] {
      SortedKeepsAll(ms[1..]);
      InsertKeepsAll(ms[0], Sorted(ms[1..]));
      assert ms == [ms[0]] + ms[1..];
    }
  }

  lemma {:induction false} SortedIsInOrder(ms: seq<Match>)
    requires Ascending(ms)
    ensures InOrder(Sorted(ms))
  {
    if ms != [] {
      SortedIsInOrder(ms[1..]);
      SortedKeepsAll(ms[1..]);
      InsertKeepsOrder(ms[0], Sorted(ms[1..]));
    }
  }

  // `ms` lists every hit exactly once, with its score.
  ghost predicate Lists(ms: seq<Match>, hits: seq<Option<nat>>) {
    && (forall i, j :: 0 <= i < j < |ms| ==> ms[i].at != ms[j].at)
    && (forall m :: m in ms <==> m.at < |hits| && hits[m.at] == Some(m.score))
  }

  lemma {:induction false} MatchesAreListed(hits: seq<Option<nat>>)
    ensures Lists(Matches(hits), hits) && Ascending(Matches(hits))
  {
    if hits != [] {
      MatchesAreListed(hits[..|hits| - 1]);
      OneMoreHit(hits, Matches(hits[..|hits| - 1]));
    }
  }

  lemma {:induction false} OneMoreHit(hits: seq<Option<nat>>, before: seq<Match>)
    requires hits != [] && Lists(before, hits[..|hits| - 1]) && Ascending(before)
    ensures var n := |hits| - 1;
            var ms := before + if hits[n].Some? then [Match(n, hits[n].value)] else [];
            Lists(ms, hits) && Ascending(ms)
  {
    forall i | 0 <= i < |before| ensures before[i].at < |hits| - 1 {
      assert before[i] in before;
    }
  }

  lemma {:induction false} SortedLists(raw: seq<Match>, hits: seq<Option<nat>>)
    requires Lists(raw, hits) && Ascending(raw)
    ensures Lists(Sorted(raw), hits) && InOrder(Sorted(raw)) && |Sorted(raw)| == |raw|
  {
    SortedKeepsAll(raw);
    SortedIsInOrder(raw);
    var ms := Sorted(raw);
    forall i, j | 0 <= i < j < |ms| ensures ms[i].at != ms[j].at {
      assert ms[i] in raw && ms[j] in raw && Before(ms[i], ms[j]);
    }
  }

  /** The ranked list holds every matching entry exactly once: best first for a search,
      in index order otherwise. */
  lemma {:induction false} RankedIsExact(entries: seq<Entry>, f: Filters)
    ensures Lists(Ranked(entries, f), Hits(entries, f)) && |Ranked(entries, f)| <= |entries|
    ensures if f.query == "" then Ascending(Ranked(entries, f)) else InOrder(Ranked(entries, f))
    ensures forall i :: 0 <= i < |Ranked(entries, f)| ==> Ranked(entries, f)[i].at < |entries|
  {
    var hits := Hits(entries, f);
    MatchesAreListed(hits);
    if f.query != "" {
      SortedLists(Matches(hits), hits);
    }
    var ms := Ranked(entries, f);
    forall i | 0 <= i < |ms| ensures ms[i].at < |entries| {
      assert ms[i] in ms;
    }
  }

  /** Offsets of unranked queries survive index growth: the matches of an index that starts
      with another's entries start with the other's matches. */
  lemma {:induction false} GrowthKeepsOffsets(a: seq<Entry>, b: seq<Entry>, f: Filters)
    requires a <= b && f.query == ""
    ensures Ranked(a, f) <= Ranked(b, f)
  {
    assert Hits(a, f) == Hits(b, f)[..|a|];
    MatchesGrow(Hits(b, f), |a|);
  }

  lemma {:induction false} MatchesGrow(hits: seq<Option<nat>>, n: nat)
    requires n <= |hits|
    ensures Matches(hits[..n]) <= Matches(hits)
  {
    if n < |hits| {
      MatchesGrow(hits[..|hits| - 1], n);
      assert hits[..|hits| - 1][..n] == hits[..n];
    } else {
      assert hits[..n] == hits;
    }
  }

  // ---- One query ----

  function CursorPrefix(w: World, f: Filters): string {
    "local:" + w.fingerprint(f) + ":"
  }

  function MakeCursor(prefix: string, next: nat, pages: nat): string {
    prefix + Decimal(next) + ":" + Decimal(pages)
  }

  function CursorOffset(cursor: string, prefix: string): Option<nat> {
    if cursor == "" then Some(0)
    else if !(prefix <= cursor) then None
    else
      var n := ParseUnsigned(UpTo(cursor[|prefix|..], ':'), U64_MAX);
      if n.Some? && n.value <= MAX_ENTRIES then n else None
  }

  /** A cursor the index makes is read back as the offset it was made for. */
  lemma {:induction false} CursorRoundTrip(prefix: string, next: nat, pages: nat)
    requires next <= MAX_ENTRIES && prefix != ""
    ensures MakeCursor(prefix, next, pages) != ""
    ensures CursorOffset(MakeCursor(prefix, next, pages), prefix) == Some(next)
  {
    var cursor := MakeCursor(prefix, next, pages);
    DecimalDigits(next);
    assert cursor[|prefix|..] == Decimal(next) + [':'] + Decimal(pages);
    UpToSeparator(Decimal(next), ':', Decimal(pages));
    ParseDecimal(next, U64_MAX);
  }

  function SelectFrom(w: World, entries: seq<Entry>, ms: seq<Match>): Result<seq<Record>, ServiceError>
    requires forall i :: 0 <= i < |ms| ==> ms[i].at < |entries|
  {
    if ms == [] then Ok([]) else
    var e := entries[ms[0].at];
    var found := w.look(e.key, e.slot);
    if found.None? || found.value.id != e.id then Err(CacheChanged) else
    match SelectFrom(w, entries, ms[1..])
    case Err(err) => Err(err)
    case Ok(rest) => Ok([found.value] + rest)
  }

  function FacetsOf(v: View): Facets {
    Facets(set e, g | e in v.entries && g in e.facts.genres :: g,
           set e, s | e in v.entries && s in e.facts.stores :: s, v.shelves)
  }

  // The page of at most `count` of the selected records.
  function PageOf(v: View, prefix: string, offset: nat, total: nat, selected: seq<Record>, count: nat): ResultPage {
    var n := Min(|selected|, count);
    var next := offset + n;
    var more := next < total || !v.complete;
    ResultPage(selected[..n], total, |v.entries|, more, if more then MakeCursor(prefix, next, v.pages) else "",
               v.complete, v.upstream, if offset == 0 then Some(FacetsOf(v)) else None)
  }

  function PageLimit(p: Params): nat {
    if p.limit.None? then LOCAL_PAGE_LIMIT else Min(Clamp(p.limit.value, 1, MAX_PAGE_LIMIT), LOCAL_PAGE_LIMIT)
  }

  // The parameters a query accepts; anything else is `invalid_params`.
  predicate ParamsOk(p: Params) {
    && ParamOk(p.cursor, MAX_CURSOR_BYTES) && ParamOk(p.search, MAX_SEARCH_BYTES)
    && ParamOk(p.genre, MAX_FILTER_BYTES) && ParamOk(p.store, MAX_FILTER_BYTES) && ParamOk(p.category, MAX_FILTER_BYTES)
  }

  function FiltersOf(p: Params, alnum: char -> bool): Filters {
    Filters(Normalized(ParamText(p.search), alnum), ParamText(p.genre), ParamText(p.store), ParamText(p.category))
  }

  ghost function Query(v: View, w: World, p: Params, cancelled: nat -> bool): Result<ResultPage, ServiceError> {
    if !ParamsOk(p) then Err(InvalidParams) else
    var f := FiltersOf(p, w.alnum);
    var offset := CursorOffset(ParamText(p.cursor), CursorPrefix(w, f));
    if offset.None? then Err(InvalidParams) else
    PageFrom(v, w, f, offset.value, PageLimit(p), cancelled)
  }

  ghost function PageFrom(v: View, w: World, f: Filters, offset: nat, limit: nat, cancelled: nat -> bool)
    : Result<ResultPage, ServiceError>
    requires 1 <= limit <= MAX_PAGE_LIMIT
  {
    var ms := Ranked(v.entries, f);
    var prefix := CursorPrefix(w, f);
    assert forall i :: 0 <= i < |ms| ==> ms[i].at < |v.entries| by { RankedIsExact(v.entries, f); }
    match SelectFrom(w, v.entries, Cut(ms, offset, limit))
    case Err(e) => Err(e)
    case Ok(selected) =>
      FirstSettled(Halvings(limit), 0, PageMaker(v, prefix, offset, |ms|, selected), w.size, cancelled)
  }

  function PageMaker(v: View, prefix: string, offset: nat, total: nat, selected: seq<Record>)
    : nat -> Result<ResultPage, ServiceError>
  {
    (count: nat) => Ok(PageOf(v, prefix, offset, total, selected, count))
  }

  function Never(i: nat): bool {
    false
  }

  // ---- What a request asks for ----

  // The same letter in either ASCII case.
  predicate SameLetter(a: char, b: char) {
    || a == b
    || ('A' <= a <= 'Z' && b as int == a as int + 32)
    || ('A' <= b <= 'Z' && a as int == b as int + 32)
  }

  predicate SameIgnoringCase(a: string, b: string) {
    |a| == |b| && forall i :: 0 <= i < |a| ==> SameLetter(a[i], b[i])
  }

  lemma {:induction false} AsciiLowerIff(a: string, b: string)
    ensures AsciiLower(a) == AsciiLower(b) <==> SameIgnoringCase(a, b)
  {
    if a != "" && b != "" {
      AsciiLowerIff(a[1..], b[1..]);
      assert AsciiLower(a)[1..] == AsciiLower(a[1..]) && AsciiLower(b)[1..] == AsciiLower(b[1..]);
      assert AsciiLower(a)[0] == AsciiLower(b)[0] <==> SameLetter(a[0], b[0]);
      assert SameIgnoringCase(a, b) <==> SameLetter(a[0], b[0]) && SameIgnoringCase(a[1..], b[1..]) by {
        assert forall i :: 1 <= i < |a| ==> a[i] == a[1..][i - 1];
        assert forall i :: 1 <= i < |b| ==> b[i] == b[1..][i - 1];
        assert forall i :: 0 <= i < |a| - 1 ==> a[1..][i] == a[i + 1];
        assert forall i :: 0 <= i < |b| - 1 ==> b[1..][i] == b[i + 1];
      }
    }
  }

  ghost predicate Among(name: string, names: seq<string>) {
    exists x :: x in names && SameIgnoringCase(x, name)
  }

  // The entry has what the request asks for.
  ghost predicate Wanted(e: Entry, p: Params) {
    && (p.genre.Text? && p.genre.s != "" ==> Among(p.genre.s, e.facts.genres))
    && (p.store.Text? && p.store.s != "" ==> Among(p.store.s, e.facts.stores))
    && (p.category.Text? && p.category.s !in {"", "featured", "all"} ==> p.category.s in e.facts.categories)
  }

  /** Filters. An entry is kept exactly when it has the genre and the store asked for, in whatever
      case, and the category asked for; what is absent, empty, or one of the categories `featured`
      and `all` asks for nothing. */
  lemma {:induction false} KeepIff(e: Entry, p: Params, alnum: char -> bool)
    ensures Keep(e, FiltersOf(p, alnum)) <==> Wanted(e, p)
    ensures FiltersOf(p, alnum).query == Normalized(if p.search.Text? then p.search.s else "", alnum)
  {
    if p.genre.Text? {
      forall g ensures AsciiLower(g) == AsciiLower(p.genre.s) <==> SameIgnoringCase(g, p.genre.s) {
        AsciiLowerIff(g, p.genre.s);
      }
    }
    if p.store.Text? {
      forall s ensures AsciiLower(s) == AsciiLower(p.store.s) <==> SameIgnoringCase(s, p.store.s) {
        AsciiLowerIff(s, p.store.s);
      }
    }
  }

  /** The ranked list of a request: the wanted entries with a score for the words of its search, each
      with that score. */
  lemma {:induction false} RankedIff(entries: seq<Entry>, p: Params, alnum: char -> bool, m: Match)
    ensures var query := Normalized(if p.search.Text? then p.search.s else "", alnum);
            m in Ranked(entries, FiltersOf(p, alnum)) <==>
            && m.at < |entries| && Wanted(entries[m.at], p)
            && Score(entries[m.at].facts.card, query, Tokens(Split(query))) == Some(m.score)
  {
    RankedIsExact(entries, FiltersOf(p, alnum));
    if m.at < |entries| {
      KeepIff(entries[m.at], p, alnum);
    }
  }

  predicate Unusable(p: Param, max: nat) {
    p.NotText? || (p.Text? && ByteLen(p.s) > max)
  }

  // The offset stands in the cursor after the prefix, up to a colon or the end.
  ghost predicate CarriesOffset(cursor: string, prefix: string, n: nat) {
    exists number, rest :: Parts(cursor, prefix, number, rest) && ParseUnsigned(number, U64_MAX) == Some(n)
  }

  predicate Parts(cursor: string, prefix: string, number: string, rest: string) {
    cursor == prefix + number + rest && ':' !in number && (rest == "" || rest[0] == ':')
  }

  lemma {:induction false} UpToRest(s: string, sep: char)
    ensures UpTo(s, sep) <= s
    ensures var rest := s[|UpTo(s, sep)|..]; rest == "" || rest[0] == sep
  {
    if s != "" && s[0] != sep {
      UpToRest(s[1..], sep);
    }
  }

  lemma {:induction false} UpToIs(number: string, rest: string, sep: char)
    requires sep !in number && (rest == "" || rest[0] == sep)
    ensures UpTo(number + rest, sep) == number
  {
    if number == "" {
      assert number + rest == rest;
    } else {
      assert (number + rest)[1..] == number[1..] + rest;
      UpToIs(number[1..], rest, sep);
    }
  }

  lemma {:induction false} OffsetIsCarried(tail: string, prefix: string, n: nat)
    requires ParseUnsigned(UpTo(tail, ':'), U64_MAX) == Some(n)
    ensures CarriesOffset(prefix + tail, prefix, n)
  {
    UpToRest(tail, ':');
    var number, rest := UpTo(tail, ':'), tail[|UpTo(tail, ':')|..];
    assert tail == number + rest;
    assert Parts(prefix + tail, prefix, number, rest);
  }

  lemma {:induction false} CarriedIsOffset(tail: string, prefix: string, n: nat)
    requires CarriesOffset(prefix + tail, prefix, n)
    ensures ParseUnsigned(UpTo(tail, ':'), U64_MAX) == Some(n)
  {
    var number, rest :| Parts(prefix + tail, prefix, number, rest) && ParseUnsigned(number, U64_MAX) == Some(n);
    assert (prefix + tail)[|prefix|..] == tail && (prefix + number + rest)[|prefix|..] == number + rest;
    UpToIs(number, rest, ':');
  }

  lemma {:induction false} CursorOffsetIff(cursor: string, prefix: string, n: nat)
    requires prefix != ""
    ensures CursorOffset(cursor, prefix) == Some(n) <==>
            if cursor == "" then n == 0 else n <= 12000 && CarriesOffset(cursor, prefix, n)
  {
    if cursor != "" && prefix <= cursor {
      var tail := cursor[|prefix|..];
      assert cursor == prefix + tail;
      if ParseUnsigned(UpTo(tail, ':'), U64_MAX) == Some(n) {
        OffsetIsCarried(tail, prefix, n);
      }
      if CarriesOffset(cursor, prefix, n) {
        CarriedIsOffset(tail, prefix, n);
      }
    }
  }

  /** A request is refused as invalid exactly when a parameter is no text or too long, or the
      cursor carries no offset up to 12000 after the prefix for these filters. */
  lemma {:induction false} InvalidIff(v: View, w: World, p: Params, cancelled: nat -> bool)
    ensures var prefix := CursorPrefix(w, FiltersOf(p, w.alnum));
            var cursor := if p.cursor.Text? then p.cursor.s else "";
            Query(v, w, p, cancelled) == Err(InvalidParams) <==>
            || Unusable(p.cursor, 4096) || Unusable(p.search, 512)
            || Unusable(p.genre, 256) || Unusable(p.store, 256) || Unusable(p.category, 256)
            || (cursor != "" && forall n: nat :: n <= 12000 ==> !CarriesOffset(cursor, prefix, n))
  {
    var f := FiltersOf(p, w.alnum);
    var prefix, cursor := CursorPrefix(w, f), ParamText(p.cursor);
    forall n: nat ensures CursorOffset(cursor, prefix) == Some(n) <==>
                          if cursor == "" then n == 0 else n <= 12000 && CarriesOffset(cursor, prefix, n) {
      CursorOffsetIff(cursor, prefix, n);
    }
    if ParamsOk(p) && CursorOffset(cursor, prefix).Some? {
      NeverInvalid(v, w, f, CursorOffset(cursor, prefix).value, PageLimit(p), cancelled);
    }
  }

  lemma {:induction false} NeverInvalid(
      v: View, w: World, f: Filters, offset: nat, limit: nat, cancelled: nat -> bool)
    requires 1 <= limit <= MAX_PAGE_LIMIT
    ensures PageFrom(v, w, f, offset, limit, cancelled) != Err(InvalidParams)
  {
    RankedIsExact(v.entries, f);
    var window := Cut(Ranked(v.entries, f), offset, limit);
    SelectionIsChecked(w, v.entries, window);
    if SelectFrom(w, v.entries, window).Ok? {
      var maker := PageMaker(v, CursorPrefix(w, f), offset, |Ranked(v.entries, f)|,
                             SelectFrom(w, v.entries, window).value);
      SettledIsFetched(Halvings(limit), 0, maker, w.size, cancelled);
    }
  }

  /** Without a limit a page has sixty games, and never more; a limit of at least one holds up to
      that. */
  lemma {:induction false} PageLimitIs(p: Params)
    ensures 1 <= PageLimit(p) <= 60 && (p.limit.None? ==> PageLimit(p) == 60)
    ensures p.limit.Some? && 1 <= p.limit.value <= 60 ==> PageLimit(p) == p.limit.value
    ensures p.limit.Some? && p.limit.value > 60 ==> PageLimit(p) == 60
  {
  }

  // What a page tells about the index, whatever games it has room for.
  ghost predicate Reports(page: ResultPage, v: View, prefix: string, offset: nat, total: nat) {
    var next := offset + |page.games|;
    && page.totalCount == total && page.catalogCount == |v.entries|
    && page.complete == v.complete && page.upstream == v.upstream
    && (page.hasNextPage <==> next < total || !v.complete)
    && page.nextCursor == (if page.hasNextPage then prefix + Decimal(next) + ":" + Decimal(v.pages) else "")
    && (page.facets.Some? <==> offset == 0)
    && (page.facets.Some? ==> FacetsShow(page.facets.value, v))
  }

  ghost predicate FacetsShow(f: Facets, v: View) {
    && (forall g :: g in f.genres <==> exists i :: 0 <= i < |v.entries| && g in v.entries[i].facts.genres)
    && (forall s :: s in f.stores <==> exists i :: 0 <= i < |v.entries| && s in v.entries[i].facts.stores)
    && f.shelves == v.shelves
  }

  lemma {:induction false} FacetsAre(v: View)
    ensures FacetsShow(FacetsOf(v), v)
  {
    var f := FacetsOf(v);
    forall g ensures g in f.genres <==> exists i :: 0 <= i < |v.entries| && g in v.entries[i].facts.genres {
      if i :| 0 <= i < |v.entries| && g in v.entries[i].facts.genres {
        assert v.entries[i] in v.entries;
      }
    }
    forall s ensures s in f.stores <==> exists i :: 0 <= i < |v.entries| && s in v.entries[i].facts.stores {
      if i :| 0 <= i < |v.entries| && s in v.entries[i].facts.stores {
        assert v.entries[i] in v.entries;
      }
    }
  }

  /** Every page says how many games match and are indexed, whether and where more follow, and, the
      first one, what can be filtered by. */
  lemma {:induction false} PageReports(
      v: View, w: World, f: Filters, offset: nat, limit: nat, cancelled: nat -> bool)
    requires 1 <= limit <= MAX_PAGE_LIMIT
    ensures var r := PageFrom(v, w, f, offset, limit, cancelled);
            r.Ok? ==> Reports(r.value, v, CursorPrefix(w, f), offset, |Ranked(v.entries, f)|)
  {
    RankedIsExact(v.entries, f);
    var window := Cut(Ranked(v.entries, f), offset, limit);
    if SelectFrom(w, v.entries, window).Ok? {
      MadeReports(v, CursorPrefix(w, f), offset, |Ranked(v.entries, f)|, SelectFrom(w, v.entries, window).value,
                  limit, w.size, cancelled);
    }
  }

  lemma {:induction false} MadeReports(
      v: View, prefix: string, offset: nat, total: nat, selected: seq<Record>, limit: nat, size: ResultPage -> nat,
      cancelled: nat -> bool)
    requires limit >= 1
    ensures var r := FirstSettled(Halvings(limit), 0, PageMaker(v, prefix, offset, total, selected), size, cancelled);
            r.Ok? ==> Reports(r.value, v, prefix, offset, total)
  {
    var maker := PageMaker(v, prefix, offset, total, selected);
    SettledIsFetched(Halvings(limit), 0, maker, size, cancelled);
    var r := FirstSettled(Halvings(limit), 0, maker, size, cancelled);
    if r.Ok? {
      var i :| 0 <= i < |Halvings(limit)| && r == maker(Halvings(limit)[i]);
      PageOfReports(v, prefix, offset, total, selected, Halvings(limit)[i]);
    }
  }

  lemma {:induction false} PageOfReports(
      v: View, prefix: string, offset: nat, total: nat, selected: seq<Record>, count: nat)
    ensures Reports(PageOf(v, prefix, offset, total, selected, count), v, prefix, offset, total)
  {
    FacetsAre(v);
  }

  // ---- What the id check guarantees ----

  // The record an entry stands for is where the index says it is.
  predicate Stands(w: World, e: Entry) {
    w.look(e.key, e.slot).Some? && w.look(e.key, e.slot).value.id == e.id
  }

  // A selection is the records of its matches, and it fails exactly when one of them has moved.
  lemma {:induction false} SelectionIsChecked(w: World, entries: seq<Entry>, ms: seq<Match>)
    requires forall i :: 0 <= i < |ms| ==> ms[i].at < |entries|
    ensures var r := SelectFrom(w, entries, ms);
            && (r.Ok? <==> forall i :: 0 <= i < |ms| ==> Stands(w, entries[ms[i].at]))
            && (r.Err? ==> r.error == CacheChanged)
            && (r.Ok? ==>
                  |r.value| == |ms| && forall i :: 0 <= i < |ms| ==>
                    Some(r.value[i]) == w.look(entries[ms[i].at].key, entries[ms[i].at].slot))
  {
    if ms != [] {
      SelectionIsChecked(w, entries, ms[1..]);
      assert forall i :: 0 < i < |ms| ==> ms[i] == ms[1..][i - 1];
      if forall i :: 0 <= i < |ms| ==> Stands(w, entries[ms[i].at]) {
        assert Stands(w, entries[ms[0].at]);
        assert forall i :: 0 <= i < |ms| - 1 ==> ms[1..][i] == ms[i + 1];
      }
    }
  }

  // Each game is the record its match stands for, under the id of its entry.
  ghost predicate Shows(games: seq<Record>, v: View, w: World, ms: seq<Match>) {
    && |games| <= |ms|
    && forall i :: 0 <= i < |games| ==>
         && ms[i].at < |v.entries| && games[i].id == v.entries[ms[i].at].id
         && Some(games[i]) == w.look(v.entries[ms[i].at].key, v.entries[ms[i].at].slot)
  }

  /** Whatever the documents hold by now, a page shows under the ids of its matches the records
      that are there, and `store_cache_changed` is the answer exactly when one of the matches it
      was to be cut from is no longer there under its id. */
  lemma {:induction false} PageIsChecked(
      v: View, w: World, f: Filters, offset: nat, limit: nat, cancelled: nat -> bool)
    requires 1 <= limit <= MAX_PAGE_LIMIT
    ensures var window, r := Cut(Ranked(v.entries, f), offset, limit), PageFrom(v, w, f, offset, limit, cancelled);
            && (forall i :: 0 <= i < |window| ==> window[i].at < |v.entries|)
            && (r == Err(CacheChanged) <==> exists i :: 0 <= i < |window| && !Stands(w, v.entries[window[i].at]))
            && (r.Ok? ==> Shows(r.value.games, v, w, window))
  {
    var ms := Ranked(v.entries, f);
    var window := Cut(ms, offset, limit);
    RankedIsExact(v.entries, f);
    SelectionIsChecked(w, v.entries, window);
    if SelectFrom(w, v.entries, window).Ok? {
      var selected := SelectFrom(w, v.entries, window).value;
      var maker := PageMaker(v, CursorPrefix(w, f), offset, |ms|, selected);
      SettledIsFetched(Halvings(limit), 0, maker, w.size, cancelled);
      MadeShows(v, w, f, offset, |ms|, selected, window);
    }
  }

  lemma {:induction false} MadeShows(
      v: View, w: World, f: Filters, offset: nat, total: nat, selected: seq<Record>, window: seq<Match>)
    requires Shows(selected, v, w, window)
    ensures forall count: nat ::
              Shows(PageOf(v, CursorPrefix(w, f), offset, total, selected, count).games, v, w, window)
  {
  }

  // ---- The walk ----

  datatype End = Finished | Stopped(error: ServiceError) | Unfinished

  datatype Tour = Tour(pages: seq<ResultPage>, end: End)

  // A client asks for a page and follows its cursor, at most `steps` times.
  ghost function Follow(ask: string -> Result<ResultPage, ServiceError>, cursor: string, steps: nat): Tour
    decreases steps
  {
    if steps == 0 then Tour([], Unfinished) else
    match ask(cursor)
    case Err(e) => Tour([], Stopped(e))
    case Ok(page) =>
      if !page.hasNextPage then Tour([page], Finished) else
      var rest := Follow(ask, page.nextCursor, steps - 1);
      Tour([page] + rest.pages, rest.end)
  }

  // The same request with another cursor.
  ghost function Asking(v: View, w: World, p: Params): string -> Result<ResultPage, ServiceError> {
    (cursor: string) => Query(v, w, p.(cursor := Text(cursor)), Never)
  }

  function AllGames(pages: seq<ResultPage>): seq<Record> {
    if pages == [] then [] else pages[0].games + AllGames(pages[1..])
  }

  // Every entry's record is still where the index says it is.
  ghost predicate Readable(v: View, w: World) {
    forall i :: 0 <= i < |v.entries| ==> Stands(w, v.entries[i])
  }

  // The records the matches stand for.
  ghost function RecordsOf(v: View, w: World, ms: seq<Match>): (rs: seq<Record>)
    requires Readable(v, w) && forall i :: 0 <= i < |ms| ==> ms[i].at < |v.entries|
    ensures |rs| == |ms|
    ensures forall i :: 0 <= i < |ms| ==>
              Some(rs[i]) == w.look(v.entries[ms[i].at].key, v.entries[ms[i].at].slot)
  {
    seq(|ms|, i requires 0 <= i < |ms| => w.look(v.entries[ms[i].at].key, v.entries[ms[i].at].slot).value)
  }

  lemma {:induction false} ReadableSelects(v: View, w: World, ms: seq<Match>)
    requires Readable(v, w) && forall i :: 0 <= i < |ms| ==> ms[i].at < |v.entries|
    ensures SelectFrom(w, v.entries, ms) == Ok(RecordsOf(v, w, ms))
  {
    if ms != [] {
      ReadableSelects(v, w, ms[1..]);
      assert RecordsOf(v, w, ms) == [RecordsOf(v, w, ms)[0]] + RecordsOf(v, w, ms[1..]);
    }
  }

  // The stretch of a list a page is cut from.
  function Cut<T>(xs: seq<T>, offset: nat, limit: nat): seq<T> {
    if offset >= |xs| then [] else xs[offset..Min(offset + limit, |xs|)]
  }

  // The assumptions of the walk: a complete index within its cap, readable documents and
  // 16-character fingerprints.
  ghost predicate Settled(v: View, w: World) {
    && Readable(v, w) && v.complete && |v.entries| <= MAX_ENTRIES && v.pages <= MAX_PAGES
    && forall f :: ByteLen(w.fingerprint(f)) == 16
  }

  ghost function AllRecords(v: View, w: World, f: Filters): (rs: seq<Record>)
    requires Settled(v, w)
    ensures |rs| == |Ranked(v.entries, f)|
  {
    RankedIsExact(v.entries, f);
    RecordsOf(v, w, Ranked(v.entries, f))
  }

  lemma {:induction false} SelectedRecords(v: View, w: World, f: Filters, offset: nat, limit: nat)
    requires Settled(v, w)
    ensures var window := Cut(Ranked(v.entries, f), offset, limit);
            && (forall i :: 0 <= i < |window| ==> window[i].at < |v.entries|)
            && SelectFrom(w, v.entries, window) == Ok(Cut(AllRecords(v, w, f), offset, limit))
  {
    RankedIsExact(v.entries, f);
    CutSelects(v, w, Ranked(v.entries, f), offset, limit);
  }

  lemma {:induction false} CutSelects(v: View, w: World, ms: seq<Match>, offset: nat, limit: nat)
    requires Readable(v, w) && forall i :: 0 <= i < |ms| ==> ms[i].at < |v.entries|
    ensures forall i :: 0 <= i < |Cut(ms, offset, limit)| ==> Cut(ms, offset, limit)[i].at < |v.entries|
    ensures SelectFrom(w, v.entries, Cut(ms, offset, limit)) == Ok(Cut(RecordsOf(v, w, ms), offset, limit))
  {
    ReadableSelects(v, w, Cut(ms, offset, limit));
    assert RecordsOf(v, w, Cut(ms, offset, limit)) == Cut(RecordsOf(v, w, ms), offset, limit);
  }

  // A page of the records from an offset on: it advances unless nothing is left, fits the
  // budget, and says whether and where more follows.
  ghost predicate Advances(page: ResultPage, rs: seq<Record>, offset: nat, w: World, prefix: string, pages: nat) {
    var next := offset + |page.games|;
    && w.size(page) <= RESULT_BUDGET
    && next <= |rs| && page.games == rs[offset..next]
    && (offset < |rs| ==> page.games != [])
    && (page.hasNextPage <==> next < |rs|)
    && (page.hasNextPage ==> page.nextCursor == MakeCursor(prefix, next, pages))
  }

  lemma {:induction false} MadePageAdvances(
      v: View, prefix: string, offset: nat, rs: seq<Record>, limit: nat, count: nat, w: World)
    requires v.complete && offset <= |rs| && limit >= 1 && count >= 1
    requires w.size(PageOf(v, prefix, offset, |rs|, Cut(rs, offset, limit), count)) <= RESULT_BUDGET
    ensures Advances(PageOf(v, prefix, offset, |rs|, Cut(rs, offset, limit), count), rs, offset, w, prefix, v.pages)
  {
    var selected := Cut(rs, offset, limit);
    var n := Min(|selected|, count);
    assert selected[..n] == rs[offset..offset + n];
  }

  lemma {:induction false} SettledPage(v: View, prefix: string, offset: nat, rs: seq<Record>, limit: nat, w: World)
    requires v.complete && offset <= |rs| && limit >= 1
    ensures var maker := PageMaker(v, prefix, offset, |rs|, Cut(rs, offset, limit));
            var r := FirstSettled(Halvings(limit), 0, maker, w.size, Never);
            if r.Ok? then Advances(r.value, rs, offset, w, prefix, v.pages)
            else r.error == TooLarge
                 && w.size(PageOf(v, prefix, offset, |rs|, Cut(rs, offset, limit), 1)) > RESULT_BUDGET
  {
    var selected := Cut(rs, offset, limit);
    var counts, maker := Halvings(limit), PageMaker(v, prefix, offset, |rs|, selected);
    HalvingsPositive(limit);
    SettledMeans(counts, 0, maker, w.size, Never);
    var r := FirstSettled(counts, 0, maker, w.size, Never);
    if r.Ok? {
      var i :| 0 <= i < |counts| && r == maker(counts[i]);
      MadePageAdvances(v, prefix, offset, rs, limit, counts[i], w);
    } else {
      assert maker(counts[|counts| - 1]) == Ok(PageOf(v, prefix, offset, |rs|, selected, 1));
    }
  }

  // The single-record page at an offset, which the size error is about.
  function SmallestPage(v: View, prefix: string, rs: seq<Record>, limit: nat, offset: nat): ResultPage {
    PageOf(v, prefix, offset, |rs|, Cut(rs, offset, limit), 1)
  }

  // What one page of the walk may be.
  ghost predicate GoodPage(
      r: Result<ResultPage, ServiceError>, v: View, w: World, prefix: string, rs: seq<Record>, limit: nat, offset: nat)
  {
    if r.Ok? then Advances(r.value, rs, offset, w, prefix, v.pages)
    else r.error == TooLarge && w.size(SmallestPage(v, prefix, rs, limit, offset)) > RESULT_BUDGET
  }

  /** One page of the walk is the next stretch of the ranked records; the only failure is
      one record that does not fit. */
  lemma {:induction false} WalkStep(v: View, w: World, f: Filters, offset: nat, limit: nat)
    requires Settled(v, w) && 1 <= limit <= LOCAL_PAGE_LIMIT
    requires offset <= |AllRecords(v, w, f)|
    ensures GoodPage(PageFrom(v, w, f, offset, limit, Never), v, w, CursorPrefix(w, f), AllRecords(v, w, f), limit,
                     offset)
  {
    var rs, prefix := AllRecords(v, w, f), CursorPrefix(w, f);
    SelectedRecords(v, w, f, offset, limit);
    SettledPage(v, prefix, offset, rs, limit, w);
    assert PageFrom(v, w, f, offset, limit, Never)
        == FirstSettled(Halvings(limit), 0, PageMaker(v, prefix, offset, |rs|, Cut(rs, offset, limit)), w.size, Never);
  }

  lemma {:induction false} MadeCursorIsShort(w: World, f: Filters, next: nat, pages: nat)
    requires ByteLen(w.fingerprint(f)) == 16 && next <= MAX_ENTRIES && pages <= MAX_PAGES
    ensures ByteLen(MakeCursor(CursorPrefix(w, f), next, pages)) <= MAX_CURSOR_BYTES
  {
    assert Pow10(5) == 100000 && Pow10(3) == 1000;
    DecimalLength(next, 5);
    DecimalLength(pages, 3);
    var prefix := CursorPrefix(w, f);
    assert ByteLen("local:") <= 24 by { CharsBytes("local:"); }
    assert ByteLen(":") <= 4 by { CharsBytes(":"); }
    ByteLenConcat("local:", w.fingerprint(f));
    ByteLenConcat("local:" + w.fingerprint(f), ":");
    ByteLenConcat(prefix, Decimal(next));
    ByteLenConcat(prefix + Decimal(next), ":");
    ByteLenConcat(prefix + Decimal(next) + ":", Decimal(pages));
  }

  // What a walk from an offset brings back.
  ghost predicate Covers(v: View, w: World, prefix: string, rs: seq<Record>, limit: nat, offset: nat, tour: Tour)
    requires offset <= |rs|
  {
    var pages, games := tour.pages, AllGames(tour.pages);
    && (forall i :: 0 <= i < |pages| ==> w.size(pages[i]) <= RESULT_BUDGET)
    && (forall i :: 0 <= i < |pages| ==> pages[i].hasNextPage ==> pages[i].games != [])
    && games <= rs[offset..]
    && (tour.end == Finished ==> games == rs[offset..] && pages != [])
    && (tour.end != Finished ==>
          && tour.end == Stopped(TooLarge)
          && w.size(SmallestPage(v, prefix, rs, limit, offset + |games|)) > RESULT_BUDGET)
  }

  lemma {:induction false} QueryIsPage(v: View, w: World, p: Params, cursor: string, offset: nat)
    requires ParamsOk(p) && ByteLen(cursor) <= MAX_CURSOR_BYTES
    requires CursorOffset(cursor, CursorPrefix(w, FiltersOf(p, w.alnum))) == Some(offset)
    ensures Asking(v, w, p)(cursor) == PageFrom(v, w, FiltersOf(p, w.alnum), offset, PageLimit(p), Never)
  {
  }

  // The same walk in terms of offsets instead of cursors, for any source of pages.
  ghost function FollowAt(pageAt: nat -> Result<ResultPage, ServiceError>, offset: nat, steps: nat): Tour
    decreases steps
  {
    if steps == 0 then Tour([], Unfinished) else
    match pageAt(offset)
    case Err(e) => Tour([], Stopped(e))
    case Ok(page) =>
      if !page.hasNextPage then Tour([page], Finished) else
      var rest := FollowAt(pageAt, offset + |page.games|, steps - 1);
      Tour([page] + rest.pages, rest.end)
  }

  ghost function PageSource(v: View, w: World, f: Filters, limit: nat): nat -> Result<ResultPage, ServiceError>
    requires 1 <= limit <= MAX_PAGE_LIMIT
  {
    (offset: nat) => PageFrom(v, w, f, offset, limit, Never)
  }

  // A cursor the index accepts as the offset o.
  ghost predicate Reads(cursor: string, prefix: string, o: nat) {
    ByteLen(cursor) <= MAX_CURSOR_BYTES && CursorOffset(cursor, prefix) == Some(o)
  }

  /** Cursors carry exactly the offset: following them is following offsets. */
  lemma {:induction false} CursorsAreOffsets(
      ask: string -> Result<ResultPage, ServiceError>, pageAt: nat -> Result<ResultPage, ServiceError>,
      v: View, w: World, f: Filters, rs: seq<Record>, limit: nat, cursor: string, offset: nat, steps: nat)
    requires forall c, o :: Reads(c, CursorPrefix(w, f), o) ==> ask(c) == pageAt(o)
    requires forall o: nat :: o <= |rs| ==> GoodPage(pageAt(o), v, w, CursorPrefix(w, f), rs, limit, o)
    requires Reads(cursor, CursorPrefix(w, f), offset) && offset <= |rs| <= MAX_ENTRIES
    requires ByteLen(w.fingerprint(f)) == 16 && v.pages <= MAX_PAGES
    ensures Follow(ask, cursor, steps) == FollowAt(pageAt, offset, steps)
    decreases steps
  {
    if steps > 0 {
      var r := pageAt(offset);
      assert ask(cursor) == r && GoodPage(r, v, w, CursorPrefix(w, f), rs, limit, offset);
      if r.Ok? && r.value.hasNextPage {
        var next := offset + |r.value.games|;
        MadeCursorIsShort(w, f, next, v.pages);
        CursorRoundTrip(CursorPrefix(w, f), next, v.pages);
        CursorsAreOffsets(ask, pageAt, v, w, f, rs, limit, r.value.nextCursor, next, steps - 1);
      }
    }
  }

  lemma {:induction false} PagesAreGood(v: View, w: World, f: Filters, limit: nat, rs: seq<Record>)
    requires Settled(v, w) && 1 <= limit <= LOCAL_PAGE_LIMIT && rs == AllRecords(v, w, f)
    ensures forall o: nat :: o <= |rs| ==>
              GoodPage(PageSource(v, w, f, limit)(o), v, w, CursorPrefix(w, f), rs, limit, o)
  {
    forall o: nat | o <= |rs| ensures GoodPage(PageSource(v, w, f, limit)(o), v, w, CursorPrefix(w, f), rs, limit, o) {
      WalkStep(v, w, f, o, limit);
    }
  }

  lemma {:induction false} WalkFrom(
      pageAt: nat -> Result<ResultPage, ServiceError>, v: View, w: World, prefix: string, rs: seq<Record>, limit: nat,
      offset: nat, steps: nat)
    requires forall o: nat :: o <= |rs| ==> GoodPage(pageAt(o), v, w, prefix, rs, limit, o)
    requires offset <= |rs| && steps > |rs| - offset
    ensures Covers(v, w, prefix, rs, limit, offset, FollowAt(pageAt, offset, steps))
    decreases steps
  {
    var r := pageAt(offset);
    assert GoodPage(r, v, w, prefix, rs, limit, offset);
    if r.Err? {
      StopCovers(v, w, prefix, rs, limit, offset);
    } else if r.value.hasNextPage {
      var next := offset + |r.value.games|;
      WalkFrom(pageAt, v, w, prefix, rs, limit, next, steps - 1);
      StepCovers(v, w, prefix, rs, limit, offset, r.value, FollowAt(pageAt, next, steps - 1));
    } else {
      LastCovers(v, w, prefix, rs, limit, offset, r.value);
    }
  }

  lemma {:induction false} StopCovers(v: View, w: World, prefix: string, rs: seq<Record>, limit: nat, offset: nat)
    requires offset <= |rs| && w.size(SmallestPage(v, prefix, rs, limit, offset)) > RESULT_BUDGET
    ensures Covers(v, w, prefix, rs, limit, offset, Tour([], Stopped(TooLarge)))
  {
    assert AllGames([]) == [];
  }

  lemma {:induction false} LastCovers(
      v: View, w: World, prefix: string, rs: seq<Record>, limit: nat, offset: nat, page: ResultPage)
    requires offset <= |rs| && Advances(page, rs, offset, w, prefix, v.pages) && !page.hasNextPage
    ensures Covers(v, w, prefix, rs, limit, offset, Tour([page], Finished))
  {
    assert [page][1..] == [];
    assert AllGames([page]) == page.games + [] == page.games;
    assert page.games == rs[offset..];
  }

  lemma {:induction false} StepCovers(
      v: View, w: World, prefix: string, rs: seq<Record>, limit: nat, offset: nat, page: ResultPage, rest: Tour)
    requires offset <= |rs| && Advances(page, rs, offset, w, prefix, v.pages) && page.hasNextPage
    requires Covers(v, w, prefix, rs, limit, offset + |page.games|, rest)
    ensures Covers(v, w, prefix, rs, limit, offset, Tour([page] + rest.pages, rest.end))
  {
    var pages, more := [page] + rest.pages, AllGames(rest.pages);
    assert pages[1..] == rest.pages;
    assert AllGames(pages) == page.games + more;
    StretchGrows(rs, offset, page.games, more);
  }

  lemma {:induction false} StretchGrows<T>(rs: seq<T>, a: nat, first: seq<T>, more: seq<T>)
    requires a + |first| <= |rs| && first == rs[a..a + |first|] && more <= rs[a + |first|..]
    ensures first + more <= rs[a..] && a + |first + more| == a + |first| + |more|
    ensures more == rs[a + |first|..] ==> first + more == rs[a..]
  {
    assert rs[a..] == first + rs[a + |first|..];
  }

  lemma {:induction false} AskingIsPaging(v: View, w: World, p: Params, f: Filters)
    requires ParamsOk(p) && FiltersOf(p, w.alnum) == f
    ensures forall c, o :: Reads(c, CursorPrefix(w, f), o) ==>
              Asking(v, w, p)(c) == PageSource(v, w, f, PageLimit(p))(o)
  {
    forall c, o | Reads(c, CursorPrefix(w, f), o)
      ensures Asking(v, w, p)(c) == PageSource(v, w, f, PageLimit(p))(o)
    {
      QueryIsPage(v, w, p, c, o);
    }
  }

  /** The cursor walk: on an unchanged complete index, following `nextCursor` from the empty
      cursor returns every match exactly once in rank order, never an empty page before the
      last and never a page over budget; it ends, or stops with the size error at a record
      that does not fit a page of its own. */
  lemma {:induction false} CursorWalk(v: View, w: World, p: Params, f: Filters, rs: seq<Record>)
    requires ParamsOk(p) && FiltersOf(p, w.alnum) == f
    requires Settled(v, w) && rs == AllRecords(v, w, f)
    ensures var tour := Follow(Asking(v, w, p), "", |v.entries| + 1);
            && Covers(v, w, CursorPrefix(w, f), rs, PageLimit(p), 0, tour)
            && (tour.end == Finished ==> AllGames(tour.pages) == rs)
  {
    var ask, pageAt := Asking(v, w, p), PageSource(v, w, f, PageLimit(p));
    RankedIsExact(v.entries, f);
    AskingIsPaging(v, w, p, f);
    PagesAreGood(v, w, f, PageLimit(p), rs);
    WalkAllPages(ask, pageAt, v, w, f, rs, PageLimit(p), |v.entries| + 1);
  }

  lemma {:induction false} WalkAllPages(
      ask: string -> Result<ResultPage, ServiceError>, pageAt: nat -> Result<ResultPage, ServiceError>,
      v: View, w: World, f: Filters, rs: seq<Record>, limit: nat, steps: nat)
    requires forall c, o :: Reads(c, CursorPrefix(w, f), o) ==> ask(c) == pageAt(o)
    requires forall o: nat :: o <= |rs| ==> GoodPage(pageAt(o), v, w, CursorPrefix(w, f), rs, limit, o)
    requires ByteLen(w.fingerprint(f)) == 16 && v.pages <= MAX_PAGES && |rs| <= MAX_ENTRIES && steps > |rs|
    ensures var tour := Follow(ask, "", steps);
            && Covers(v, w, CursorPrefix(w, f), rs, limit, 0, tour)
            && (tour.end == Finished ==> AllGames(tour.pages) == rs)
  {
    assert Reads("", CursorPrefix(w, f), 0);
    WalkPages(ask, pageAt, v, w, f, rs, limit, "", 0, steps);
    assert rs[0..] == rs;
  }

  // A walk that starts with a cursor the index reads.
  lemma {:induction false} WalkPages(
      ask: string -> Result<ResultPage, ServiceError>, pageAt: nat -> Result<ResultPage, ServiceError>,
      v: View, w: World, f: Filters, rs: seq<Record>, limit: nat, cursor: string, offset: nat, steps: nat)
    requires forall c, o :: Reads(c, CursorPrefix(w, f), o) ==> ask(c) == pageAt(o)
    requires forall o: nat :: o <= |rs| ==> GoodPage(pageAt(o), v, w, CursorPrefix(w, f), rs, limit, o)
    requires ByteLen(w.fingerprint(f)) == 16 && v.pages <= MAX_PAGES && |rs| <= MAX_ENTRIES
    requires Reads(cursor, CursorPrefix(w, f), offset) && offset <= |rs| && steps > |rs| - offset
    ensures Covers(v, w, CursorPrefix(w, f), rs, limit, offset, Follow(ask, cursor, steps))
  {
    CursorsAreOffsets(ask, pageAt, v, w, f, rs, limit, cursor, offset, steps);
    WalkFrom(pageAt, v, w, CursorPrefix(w, f), rs, limit, offset, steps);
  }
}
