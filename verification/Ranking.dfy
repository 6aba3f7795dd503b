/** Ranked title search: the score one entry gets for one query, and the order it
induces between the kinds of match. */
module Ranking {
  import opened Prelude
  import opened TypoMatch
  import opened Words

  const QUERY_TOKENS: nat := 8
  const OWNED_BONUS: nat := 300

  // The part of an index entry the ranking reads.
  datatype Card = Card(title: string, words: seq<string>, acronym: string, owned: bool)

  function Initials(words: seq<string>): string
    requires AllWords(words)
  {
    if words == [] then "" else [words[0][0]] + Initials(words[1..])
  }

  // What `StoreIndex::add` establishes for every entry it stores.
  ghost predicate ValidCard(c: Card) {
    AllWords(c.words) && c.title == Join(c.words) && c.acronym == Initials(c.words)
  }

  function MakeCard(title: string, alnum: char -> bool, owned: bool): (c: Card)
    ensures ValidCard(c)
    ensures c.title == Normalized(title, alnum) && c.owned == owned
  {
    var text := Normalized(title, alnum);
    assert Join(Split(text)) == text by { NormalizedTwice(title, alnum); }
    Card(text, Split(text), Initials(Split(text)), owned)
  }

  predicate Contains(text: string, part: string) {
    part <= text || (text != "" && Contains(text[1..], part))
  }

  // `query.replace(' ', "")`
  function WithoutBlanks(query: string): string {
    if query == "" then ""
    else if query[0] == ' ' then WithoutBlanks(query[1..])
    else [query[0]] + WithoutBlanks(query[1..])
  }

  function WordScore(word: string, token: string): Option<nat> {
    if word == token then Some(300)
    else if token <= word then Some(200)
    else if ByteLen(token) >= 3 && Contains(word, token) then Some(100)
    else if ByteLen(token) >= 4 && OneTypo(word, token) then Some(30)
    else None
  }

  // `filter_map(..).max()`
  function BestWord(words: seq<string>, token: string): Option<nat> {
    if words == [] then None else
    var rest := BestWord(words[1..], token);
    match WordScore(words[0], token)
    case None => rest
    case Some(v) => if rest.Some? && rest.value >= v then rest else Some(v)
  }

  function TokenSum(words: seq<string>, tokens: seq<string>): Option<nat> {
    if tokens == [] then Some(0) else
    match (TokenSum(words, tokens[..|tokens| - 1]), BestWord(words, tokens[|tokens| - 1]))
    case (Some(sum), Some(best)) => Some(sum + best)
    case _ => None
  }

  datatype Kind = Unfiltered | Exact | Acronym | Prefix | Substring | Loose

  function KindOf(c: Card, query: string): Kind {
    if query == "" then Unfiltered
    else if c.title == query then Exact
    else if c.acronym == WithoutBlanks(query) then Acronym
    else if query <= c.title then Prefix
    else if Contains(c.title, query) then Substring
    else Loose
  }

  function KindBase(k: Kind): nat {
    match k
    case Unfiltered => 0
    case Exact => 12000
    case Acronym => 11000
    case Prefix => 9000
    case Substring => 7000
    case Loose => 4000
  }

  function Bonus(c: Card): nat {
    if c.owned then OWNED_BONUS else 0
  }

  ghost function Score(c: Card, query: string, tokens: seq<string>): Option<nat> {
    var kind := KindOf(c, query);
    if kind == Unfiltered then Some(0)
    else if kind == Exact || kind == Acronym then Some(KindBase(kind) + Bonus(c))
    else match TokenSum(c.words, tokens)
      case None => None
      case Some(sum) => Some(KindBase(kind) + sum + Bonus(c))
  }

  // The first eight words of the query.
  function Tokens(qs: seq<string>): seq<string> {
    if |qs| <= QUERY_TOKENS then qs else qs[..QUERY_TOKENS]
  }

  /** The scoring loop: the running score is the base plus the best match of every token
      so far, and one unmatched token rejects the entry. */
  method ScoreEntry(c: Card, query: string, tokens: seq<string>) returns (r: Option<nat>)
    ensures r == Score(c, query, tokens)
  {
    if query == "" {
      return Some(0);
    }
    if c.title == query {
      return Some(12000 + if c.owned then 300 else 0);
    }
    if c.acronym == WithoutBlanks(query) {
      return Some(11000 + if c.owned then 300 else 0);
    }
    var base := if query <= c.title then 9000 else if Contains(c.title, query) then 7000 else 4000;
    var score := base;
    for i := 0 to |tokens|
      invariant score >= base && TokenSum(c.words, tokens[..i]) == Some(score - base)
    {
      var best := BestWord(c.words, tokens[i]);
      TokenSumStep(c.words, tokens, i);
      if best.None? {
        NoSumAfterMiss(c.words, tokens, i);
        return None;
      }
      score := score + best.value;
    }
    assert tokens[..|tokens|] == tokens;
    return Some(score + if c.owned then 300 else 0);
  }

  lemma {:induction false} TokenSumStep(words: seq<string>, tokens: seq<string>, i: nat)
    requires i < |tokens|
    ensures var sum, best := TokenSum(words, tokens[..i]), BestWord(words, tokens[i]);
            TokenSum(words, tokens[..i + 1]) ==
            if sum.Some? && best.Some? then Some(sum.value + best.value) else None
  {
    assert tokens[..i + 1][..i] == tokens[..i];
  }

  lemma {:induction false} NoSumAfterMiss(words: seq<string>, tokens: seq<string>, i: nat)
    requires i < |tokens| && BestWord(words, tokens[i]).None?
    ensures TokenSum(words, tokens).None?
    decreases |tokens|
  {
    if i < |tokens| - 1 {
      NoSumAfterMiss(words, tokens[..|tokens| - 1], i);
    }
  }

  lemma {:induction false} BestWordRange(words: seq<string>, token: string)
    ensures BestWord(words, token).Some? ==> BestWord(words, token).value in {30, 100, 200, 300}
  {
    if words != [] {
      BestWordRange(words[1..], token);
    }
  }

  lemma {:induction false} BestWordAtLeast(words: seq<string>, token: string, i: nat)
    requires i < |words| && WordScore(words[i], token).Some?
    ensures BestWord(words, token).Some?
    ensures BestWord(words, token).value >= WordScore(words[i], token).value
  {
    if i > 0 {
      BestWordAtLeast(words[1..], token, i - 1);
    }
  }

  lemma {:induction false} TokenSumRange(words: seq<string>, tokens: seq<string>)
    requires TokenSum(words, tokens).Some?
    ensures 30 * |tokens| <= TokenSum(words, tokens).value <= 300 * |tokens|
  {
    if tokens != [] {
      TokenSumRange(words, tokens[..|tokens| - 1]);
      BestWordRange(words, tokens[|tokens| - 1]);
    }
  }

  lemma {:induction false} ExactTokens(words: seq<string>, tokens: seq<string>)
    requires |tokens| <= |words| && tokens == words[..|tokens|]
    ensures TokenSum(words, tokens) == Some(300 * |tokens|)
    decreases |tokens|
  {
    if tokens != [] {
      var n := |tokens| - 1;
      assert tokens[..n] == words[..n];
      ExactTokens(words, tokens[..n]);
      assert tokens[n] == words[n];
      BestWordAtLeast(words, tokens[n], n);
      BestWordRange(words, tokens[n]);
    }
  }

  // ---- What the scores mean ----

  ghost predicate OccursIn(part: string, text: string) {
    exists a, b :: text == a + part + b
  }

  lemma {:induction false} ContainsIff(text: string, part: string)
    ensures Contains(text, part) <==> OccursIn(part, text)
  {
    if part <= text {
      assert text == "" + part + text[|part|..];
    } else if text != "" {
      ContainsIff(text[1..], part);
      if a, b :| text[1..] == a + part + b {
        assert text == ([text[0]] + a) + part + b;
      }
      if a, b :| text == a + part + b {
        assert a != "" by { assert a == "" ==> text == part + b; }
        assert text[1..] == a[1..] + part + b;
      }
    } else {
      assert forall a, b :: text == a + part + b ==> part == "";
    }
  }

  ghost predicate WithinOneTypo(word: string, token: string) {
    WithinOneEdit(TakeChars(word, PREFIX_CHARS), TakeChars(token, PREFIX_CHARS))
  }

  // How well a word matches a token.
  ghost predicate Matches(word: string, token: string, score: nat) {
    match score
    case 300 => word == token
    case 200 => token <= word
    case 100 => ByteLen(token) >= 3 && OccursIn(token, word)
    case 30 => ByteLen(token) >= 4 && WithinOneTypo(word, token)
    case _ => false
  }

  // The best of the words matches with this score, and none with a higher one.
  ghost predicate BestIs(words: seq<string>, token: string, score: nat) {
    && (exists i :: 0 <= i < |words| && Matches(words[i], token, score))
    && (forall i, higher: nat :: 0 <= i < |words| && higher > score ==> !Matches(words[i], token, higher))
  }

  lemma {:induction false} WordScoreIs(word: string, token: string)
    ensures var r := WordScore(word, token);
            && (r.Some? ==> Matches(word, token, r.value) && r.value in {30, 100, 200, 300})
            && (r.Some? ==> forall higher: nat :: higher > r.value ==> !Matches(word, token, higher))
            && (r.None? ==> forall score: nat :: !Matches(word, token, score))
  {
    ContainsIff(word, token);
    OneTypoExact(word, token);
  }

  /** A token scores 300 if it is one of the words, else 200 if it starts one, else 100 if it has
      three bytes and occurs in one, else 30 if it has four bytes and is one edit away from one on
      the first 64 characters, and nothing otherwise. */
  lemma {:induction false} BestWordIs(words: seq<string>, token: string)
    ensures var r := BestWord(words, token);
            && (r.Some? ==> BestIs(words, token, r.value))
            && (r.None? ==> forall i, score: nat :: 0 <= i < |words| ==> !Matches(words[i], token, score))
  {
    if words != [] {
      var rest, first := BestWord(words[1..], token), WordScore(words[0], token);
      BestWordIs(words[1..], token);
      WordScoreIs(words[0], token);
      assert forall i :: 1 <= i < |words| ==> words[i] == words[1..][i - 1];
      if rest.Some? {
        var i :| 0 <= i < |words| - 1 && Matches(words[1..][i], token, rest.value);
        assert Matches(words[i + 1], token, rest.value);
      }
    }
  }

  // The words one after the other, without anything in between.
  function Flat(ws: seq<string>): string {
    if ws == [] then "" else ws[0] + Flat(ws[1..])
  }

  lemma {:induction false} WithoutBlanksConcat(a: string, b: string)
    ensures WithoutBlanks(a + b) == WithoutBlanks(a) + WithoutBlanks(b)
  {
    if a == "" {
      assert a + b == b;
    } else {
      assert (a + b)[1..] == a[1..] + b;
      WithoutBlanksConcat(a[1..], b);
    }
  }

  lemma {:induction false} WordStays(w: string)
    requires ' ' !in w
    ensures WithoutBlanks(w) == w
  {
    if w != "" {
      WordStays(w[1..]);
    }
  }

  lemma {:induction false} FirstWordStays(w: string, rest: string)
    requires ' ' !in w
    ensures WithoutBlanks(w + " " + rest) == w + WithoutBlanks(rest)
  {
    WordStays(w);
    WithoutBlanksConcat(w + " ", rest);
    WithoutBlanksConcat(w, " ");
    assert " "[1..] == "" && WithoutBlanks("") == "";
  }

  lemma {:induction false} QueryWithoutBlanks(qs: seq<string>)
    requires AllWords(qs)
    ensures WithoutBlanks(Join(qs)) == Flat(qs)
  {
    if qs != [] {
      WordStays(qs[0]);
      if |qs| > 1 {
        QueryWithoutBlanks(qs[1..]);
        FirstWordStays(qs[0], Join(qs[1..]));
      } else {
        assert qs[1..] == [] && Flat([]) == "";
      }
    }
  }

  lemma {:induction false} InitialsAre(ws: seq<string>, i: nat)
    requires AllWords(ws)
    ensures |Initials(ws)| == |ws|
    ensures i < |ws| ==> Initials(ws)[i] == ws[i][0]
  {
    if ws != [] {
      InitialsAre(ws[1..], if i > 0 then i - 1 else 0);
    }
  }

  lemma {:induction false} SameWords(ws: seq<string>, qs: seq<string>)
    requires AllWords(ws) && AllWords(qs)
    ensures Join(ws) == Join(qs) <==> ws == qs
  {
    SplitJoin(ws);
    SplitJoin(qs);
  }

  /** The tokens' scores add up, and one that matches nothing rejects the entry. */
  lemma {:induction false} TokensAddUp(words: seq<string>, a: seq<string>, b: seq<string>)
    ensures var x, y := TokenSum(words, a), TokenSum(words, b);
            TokenSum(words, a + b) == if x.Some? && y.Some? then Some(x.value + y.value) else None
    ensures |b| == 1 ==> TokenSum(words, b) == BestWord(words, b[0])
  {
    if b == [] {
      assert a + b == a;
    } else {
      assert (a + b)[..|a + b| - 1] == a + b[..|b| - 1];
      TokensAddUp(words, a, b[..|b| - 1]);
    }
  }

  // The initials of a card's words spell the query.
  ghost predicate Spells(words: seq<string>, query: string) {
    |words| == |query| && forall i :: 0 <= i < |words| ==> words[i] != "" && words[i][0] == query[i]
  }

  /** Scores. A title with exactly the words of the query scores 12000; otherwise one whose words'
      initials spell it 11000; otherwise its tokens, the first eight words, add to 9000, 7000 or
      4000 for a title that starts with, holds or lacks the query. An owned game scores 300 more. */
  lemma {:induction false} ScoreIs(c: Card, qs: seq<string>)
    requires ValidCard(c) && AllWords(qs) && qs != []
    ensures var tokens := Tokens(qs); tokens <= qs && |tokens| == Min(8, |qs|)
    ensures var r, sum := Score(c, Join(qs), Tokens(qs)), TokenSum(c.words, Tokens(qs));
            var bonus := if c.owned then 300 else 0;
            if c.words == qs then r == Some(12000 + bonus)
            else if Spells(c.words, Flat(qs)) then r == Some(11000 + bonus)
            else if sum.None? then r == None
            else if Join(qs) <= Join(c.words) then r == Some(9000 + sum.value + bonus)
            else if OccursIn(Join(qs), Join(c.words)) then r == Some(7000 + sum.value + bonus)
            else r == Some(4000 + sum.value + bonus)
  {
    SameWords(c.words, qs);
    QueryWithoutBlanks(qs);
    SpellsIff(c.words, Flat(qs));
    ContainsIff(c.title, Join(qs));
    assert Join(qs) != "" by { SameWords(qs, []); }
  }

  lemma {:induction false} SpellsIff(words: seq<string>, query: string)
    requires AllWords(words)
    ensures Initials(words) == query <==> Spells(words, query)
  {
    InitialsAre(words, 0);
    forall i | 0 <= i < |words| ensures Initials(words)[i] == words[i][0] {
      InitialsAre(words, i);
    }
  }

  /** When the title starts with the query every token but the last is a whole word, so
      only the last token can score 200 instead of 300. */
  lemma {:induction false} PrefixTokens(c: Card, qs: seq<string>)
    requires ValidCard(c) && AllWords(qs) && qs != [] && Join(qs) <= c.title
    ensures var n := |Tokens(qs)|;
            TokenSum(c.words, Tokens(qs)) in {Some(300 * n), Some(300 * n - 100)}
  {
    JoinedPrefix(c.words, qs);
    var ts := Tokens(qs);
    var n := |ts|;
    assert forall i :: 0 <= i < n - 1 ==> ts[i] == qs[i] == c.words[i];
    assert ts[n - 1] == qs[n - 1] <= c.words[n - 1];
    PrefixTokenSum(c.words, ts);
  }

  lemma {:induction false} PrefixTokenSum(words: seq<string>, ts: seq<string>)
    requires 0 < |ts| <= |words| && ts[|ts| - 1] <= words[|ts| - 1]
    requires forall i :: 0 <= i < |ts| - 1 ==> ts[i] == words[i]
    ensures TokenSum(words, ts) in {Some(300 * |ts|), Some(300 * |ts| - 100)}
  {
    var n := |ts| - 1;
    assert ts[..n] == words[..n];
    ExactTokens(words, ts[..n]);
    BestWordAtLeast(words, ts[n], n);
    BestWordRange(words, ts[n]);
  }

  // Where every score of one kind lies, for a query of n tokens.
  ghost predicate InBand(kind: Kind, n: nat, score: nat) {
    match kind
    case Unfiltered => score == 0
    case Exact => 12000 <= score <= 12300
    case Acronym => 11000 <= score <= 11300
    case Prefix => 8900 + 300 * n <= score <= 9300 + 300 * n
    case Substring => 7000 + 30 * n <= score <= 7300 + 300 * n
    case Loose => 4000 + 30 * n <= score <= 4300 + 300 * n
  }

  lemma {:induction false} ScoreInBand(c: Card, qs: seq<string>)
    requires ValidCard(c) && AllWords(qs)
    requires Score(c, Join(qs), Tokens(qs)).Some?
    ensures InBand(KindOf(c, Join(qs)), |Tokens(qs)|, Score(c, Join(qs), Tokens(qs)).value)
  {
    var kind := KindOf(c, Join(qs));
    if kind == Prefix {
      PrefixTokens(c, qs);
    } else if kind == Substring || kind == Loose {
      TokenSumRange(c.words, Tokens(qs));
    }
  }

  // `Beats(a, b)`: every match of kind a outranks every match of kind b for one query,
  // whoever owns what and however many tokens the query has.
  predicate Beats(a: Kind, b: Kind) {
    match a
    case Exact => b == Acronym || b == Prefix || b == Substring || b == Loose
    case Acronym => b == Substring || b == Loose
    case Prefix => b == Substring || b == Loose
    case Substring => b == Loose
    case _ => false
  }

  /** Ranking follows the kind of match. */
  lemma {:induction false} RankedByKind(x: Card, y: Card, qs: seq<string>)
    requires ValidCard(x) && ValidCard(y) && AllWords(qs)
    requires Score(x, Join(qs), Tokens(qs)).Some? && Score(y, Join(qs), Tokens(qs)).Some?
    requires Beats(KindOf(x, Join(qs)), KindOf(y, Join(qs)))
    ensures Score(x, Join(qs), Tokens(qs)).value > Score(y, Join(qs), Tokens(qs)).value
  {
    ScoreInBand(x, qs);
    ScoreInBand(y, qs);
  }

  /** The one pair of kinds that is not ordered: an acronym match outranks a prefix match
      exactly up to five tokens, at six unless only the prefix match is owned, at seven only
      if the acronym match alone is owned, and never at eight. */
  lemma {:induction false} AcronymOverPrefix(x: Card, y: Card, qs: seq<string>)
    requires ValidCard(x) && ValidCard(y) && AllWords(qs)
    requires KindOf(x, Join(qs)) == Acronym && KindOf(y, Join(qs)) == Prefix
    ensures Score(x, Join(qs), Tokens(qs)).Some? && Score(y, Join(qs), Tokens(qs)).Some?
    ensures var n := |Tokens(qs)|;
            Score(x, Join(qs), Tokens(qs)).value > Score(y, Join(qs), Tokens(qs)).value <==>
            (n <= 5 || (n == 6 && (x.owned || !y.owned)) || (n == 7 && x.owned && !y.owned))
  {
    PrefixTokens(y, qs);
  }

  // One letter per word: the acronym of such a list is the list without its blanks, and a
  // longer list makes a title that starts with the shorter one.
  ghost predicate Letters(ws: seq<string>) {
    AllWords(ws) && forall i :: 0 <= i < |ws| ==> |ws[i]| == 1
  }

  lemma {:induction false} AcronymMatch(qs: seq<string>, first: string)
    requires Letters(qs) && qs != [] && IsWord(first) && first[0] == qs[0][0] && |first| == 2
    ensures var ws := [first] + qs[1..];
            KindOf(Card(Join(ws), ws, Initials(ws), false), Join(qs)) == Acronym
  {
    var ws := [first] + qs[1..];
    assert ws[1..] == qs[1..];
    assert |Join(ws)| == |Join(qs)| + 1;
    BlanksRemoved(qs);
  }

  lemma {:induction false} PrefixMatch(qs: seq<string>, last: string)
    requires Letters(qs) && qs != [] && IsWord(last) && |last| == 1
    ensures var ws := qs + [last];
            KindOf(Card(Join(ws), ws, Initials(ws), true), Join(qs)) == Prefix
  {
    var ws := qs + [last];
    JoinExtends(qs, last);
    InitialsOfLetters(ws);
    InitialsOfLetters(qs);
    BlanksRemoved(qs);
  }

  /** Six tokens and ownership really do turn the two around: 11100 against 11000. */
  lemma {:induction false} OwnedPrefixOvertakesAcronym(qs: seq<string>)
    requires qs == ["a", "b", "c", "d", "e", "f"]
    ensures exists x, y ::
              && ValidCard(x) && ValidCard(y)
              && KindOf(x, Join(qs)) == Acronym && KindOf(y, Join(qs)) == Prefix
              && Score(x, Join(qs), Tokens(qs)) == Some(11000)
              && Score(y, Join(qs), Tokens(qs)) == Some(11100)
  {
    assert Letters(qs);
    var xs, ys := ["aa"] + qs[1..], qs + ["g"];
    AcronymMatch(qs, "aa");
    PrefixMatch(qs, "g");
    var x := Card(Join(xs), xs, Initials(xs), false);
    var y := Card(Join(ys), ys, Initials(ys), true);
    ExactTokens(ys, qs);
    assert ValidCard(x) && ValidCard(y);
    assert Score(x, Join(qs), Tokens(qs)) == Some(11000);
    assert Score(y, Join(qs), Tokens(qs)) == Some(11100);
  }

  lemma {:induction false} JoinExtends(ws: seq<string>, w: string)
    requires ws != []
    ensures Join(ws + [w]) == Join(ws) + " " + w
  {
    if |ws| > 1 {
      assert (ws + [w])[1..] == ws[1..] + [w];
      JoinExtends(ws[1..], w);
    }
  }

  lemma {:induction false} InitialsOfLetters(ws: seq<string>)
    requires Letters(ws)
    ensures |Initials(ws)| == |ws|
  {
    if ws != [] {
      InitialsOfLetters(ws[1..]);
    }
  }

  lemma {:induction false} BlanksRemoved(ws: seq<string>)
    requires Letters(ws)
    ensures WithoutBlanks(Join(ws)) == Initials(ws)
  {
    if |ws| > 1 {
      var s := Join(ws);
      assert s[1..] == " " + Join(ws[1..]);
      assert s[1..][1..] == Join(ws[1..]);
      BlanksRemoved(ws[1..]);
    } else if |ws| == 1 {
      assert ws[1..] == [] && ws[0][1..] == "";
    }
  }
}
