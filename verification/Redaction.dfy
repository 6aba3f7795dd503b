/** Redacting diagnostics text within a byte budget. Which tokens are sensitive and which
characters are white space is left open. */
module Redaction {
  import opened Prelude
  import opened Words

  const MASK: string := "[redacted]"
  const ELLIPSIS: string := [0x2026 as char]

  type Sensitive = string -> bool
  type Space = char -> bool

  function TokenEnd(s: string, space: Space): (n: nat)
    ensures n <= |s| && (forall i :: 0 <= i < n ==> !space(s[i])) && (n < |s| ==> space(s[n]))
  {
    if s == "" || space(s[0]) then 0 else 1 + TokenEnd(s[1..], space)
  }

  // `split_whitespace`
  function Tokens(s: string, space: Space): (tokens: seq<string>)
    ensures forall k :: 0 <= k < |tokens| ==>
              tokens[k] != "" && forall i :: 0 <= i < |tokens[k]| ==> !space(tokens[k][i])
    decreases |s|
  {
    if s == "" then []
    else if space(s[0]) then Tokens(s[1..], space)
    else
      var n := TokenEnd(s, space);
      [s[..n]] + Tokens(s[n..], space)
  }

  function Rendered(token: string, sensitive: Sensitive): string {
    if sensitive(token) then MASK else token
  }

  function AllRendered(tokens: seq<string>, sensitive: Sensitive): (r: seq<string>)
    ensures |r| == |tokens| && forall i :: 0 <= i < |r| ==> r[i] == Rendered(tokens[i], sensitive)
  {
    seq(|tokens|, i requires 0 <= i < |tokens| => Rendered(tokens[i], sensitive))
  }

  // ---- Redacting one text ----

  // Text followed by the space that precedes the next token.
  function Led(s: string): string {
    if s == "" then "" else s + " "
  }

  // How many leading tokens are kept: the next one no longer fits.
  function KeptFrom(r: seq<string>, n: nat, limit: nat): (kept: nat)
    requires n <= |r|
    ensures n <= kept <= |r|
    decreases |r| - n
  {
    if n == |r| || ByteLen(Led(Join(r[..n]))) + ByteLen(r[n]) > limit then n else KeptFrom(r, n + 1, limit)
  }

  function Pieces(r: seq<string>, limit: nat): seq<string> {
    var n := KeptFrom(r, 0, limit);
    if n == |r| then r else r[..n] + [ELLIPSIS]
  }

  function Redacted(r: seq<string>, limit: nat): string {
    Join(Pieces(r, limit))
  }

  lemma {:induction false} JoinSnoc(ws: seq<string>, w: string)
    requires forall i :: 0 <= i < |ws| ==> ws[i] != ""
    ensures Join(ws + [w]) == Led(Join(ws)) + w
    ensures ws != [] ==> Join(ws) != ""
  {
    if |ws| > 1 {
      assert (ws + [w])[1..] == ws[1..] + [w];
      JoinSnoc(ws[1..], w);
    }
  }

  lemma {:induction false} LedBytes(s: string)
    ensures ByteLen(Led(s)) == if s == "" then 0 else ByteLen(s) + 1
    ensures ByteLen(ELLIPSIS) == 3
  {
    ByteLenConcat(s, " ");
    assert " "[1..] == "" && ELLIPSIS[1..] == "";
  }

  lemma {:induction false} KeptFits(r: seq<string>, n: nat, limit: nat)
    requires n <= |r| && ByteLen(Join(r[..n])) <= limit
    requires forall i :: 0 <= i < |r| ==> r[i] != ""
    ensures ByteLen(Join(r[..KeptFrom(r, n, limit)])) <= limit
    decreases |r| - n
  {
    if n < |r| && ByteLen(Led(Join(r[..n]))) + ByteLen(r[n]) <= limit {
      assert r[..n + 1] == r[..n] + [r[n]];
      JoinSnoc(r[..n], r[n]);
      ByteLenConcat(Led(Join(r[..n])), r[n]);
      KeptFits(r, n + 1, limit);
    }
  }

  /** The text is at most four bytes over its limit. */
  lemma {:induction false} RedactedBytes(r: seq<string>, limit: nat)
    requires forall i :: 0 <= i < |r| ==> r[i] != ""
    ensures ByteLen(Redacted(r, limit)) <= limit + 4
  {
    var n := KeptFrom(r, 0, limit);
    assert r[..0] == [];
    KeptFits(r, 0, limit);
    if n == |r| {
      assert r[..n] == r;
    } else {
      JoinSnoc(r[..n], ELLIPSIS);
      ByteLenConcat(Led(Join(r[..n])), ELLIPSIS);
      LedBytes(Join(r[..n]));
    }
  }

  /** And four bytes over is reached: by a first token that fills the limit, and a second. */
  lemma {:induction false} RedactedBytesTight(a: string, b: string, rest: seq<string>, limit: nat)
    requires ByteLen(a) == limit > 0 && b != ""
    ensures ByteLen(Redacted([a, b] + rest, limit)) == limit + 4
  {
    var r := [a, b] + rest;
    assert r[..0] == [] && r[..1] == [a];
    LedBytes(a);
    NonEmptyBytes(b);
    assert KeptFrom(r, 1, limit) == 1;
    assert KeptFrom(r, 0, limit) == 1;
    JoinSnoc([a], ELLIPSIS);
    ByteLenConcat(Led(a), ELLIPSIS);
  }

  lemma {:induction false} NonEmptyBytes(s: string)
    requires s != ""
    ensures ByteLen(s) > 0
  {
  }

  /** As many tokens are kept as fit: with the next one the text would be over the limit. */
  lemma {:induction false} KeptIsLongest(r: seq<string>, n: nat, limit: nat)
    requires n <= |r| && ByteLen(Join(r[..n])) <= limit
    requires forall i :: 0 <= i < |r| ==> r[i] != ""
    ensures var kept := KeptFrom(r, n, limit);
            && ByteLen(Join(r[..kept])) <= limit
            && (kept < |r| ==> ByteLen(Join(r[..kept + 1])) > limit)
    decreases |r| - n
  {
    if n < |r| {
      assert r[..n + 1] == r[..n] + [r[n]];
      JoinSnoc(r[..n], r[n]);
      ByteLenConcat(Led(Join(r[..n])), r[n]);
      if ByteLen(Led(Join(r[..n]))) + ByteLen(r[n]) <= limit {
        KeptIsLongest(r, n + 1, limit);
      }
    }
  }

  /** The tokens of a text are its words: those of two parts with white space between them are the
      tokens of the one and then of the other, and text without white space is one token. */
  lemma {:induction false} TokensAtSpace(a: string, gap: char, b: string, space: Space)
    requires space(gap)
    ensures Tokens(a + [gap] + b, space) == Tokens(a, space) + Tokens(b, space)
    decreases |a|
  {
    var s := a + [gap] + b;
    if a == "" {
      assert s[1..] == b;
    } else if space(a[0]) {
      assert s[1..] == a[1..] + [gap] + b;
      TokensAtSpace(a[1..], gap, b, space);
    } else {
      var w, rest := a[..TokenEnd(a, space)], a[TokenEnd(a, space)..];
      assert a == w + rest && s == w + (rest + [gap] + b);
      FirstTokenSplit(w, rest, space);
      FirstTokenSplit(w, rest + [gap] + b, space);
      TokensAtSpace(rest, gap, b, space);
    }
  }

  lemma {:induction false} FirstTokenSplit(w: string, rest: string, space: Space)
    requires w != "" && (forall i :: 0 <= i < |w| ==> !space(w[i])) && (rest == "" || space(rest[0]))
    ensures Tokens(w + rest, space) == [w] + Tokens(rest, space)
  {
    TokenEndAt(w, rest, space);
    assert (w + rest)[..|w|] == w && (w + rest)[|w|..] == rest;
  }

  lemma {:induction false} TokenEndAt(w: string, rest: string, space: Space)
    requires (forall i :: 0 <= i < |w| ==> !space(w[i])) && (rest == "" || space(rest[0]))
    ensures TokenEnd(w + rest, space) == |w|
  {
    if w == "" {
      assert w + rest == rest;
    } else {
      assert (w + rest)[1..] == w[1..] + rest;
      TokenEndAt(w[1..], rest, space);
    }
  }

  lemma {:induction false} OneToken(w: string, space: Space)
    requires w != "" && forall i :: 0 <= i < |w| ==> !space(w[i])
    ensures Tokens(w, space) == [w] && Tokens("", space) == []
  {
    TokenEndAt(w, "", space);
    assert w + "" == w;
  }

  // The first n tokens, each masked if it is sensitive, with an ellipsis exactly when some
  // were left out.
  predicate IsSafePrefix(out: seq<string>, tokens: seq<string>, n: nat, sensitive: Sensitive) {
    && n <= |tokens|
    && |out| == (if n < |tokens| then n + 1 else n)
    && (n < |tokens| ==> out[n] == ELLIPSIS)
    && forall k :: 0 <= k < n ==> out[k] == (if sensitive(tokens[k]) then MASK else tokens[k])
  }

  lemma {:induction false} PiecesAreWords(r: seq<string>, limit: nat)
    requires AllWords(r)
    ensures AllWords(Pieces(r, limit))
  {
    var n := KeptFrom(r, 0, limit);
    forall i | 0 <= i < |Pieces(r, limit)| ensures IsWord(Pieces(r, limit)[i]) {
      if i < n {
        assert Pieces(r, limit)[i] == r[i];
      }
    }
  }

  lemma {:induction false} PiecesAreSafe(tokens: seq<string>, sensitive: Sensitive, limit: nat)
    ensures var r := AllRendered(tokens, sensitive);
            IsSafePrefix(Pieces(r, limit), tokens, KeptFrom(r, 0, limit), sensitive)
  {
  }

  lemma {:induction false} TokensAreWords(value: string, space: Space)
    requires space(' ')
    ensures AllWords(Tokens(value, space))
  {
    var tokens := Tokens(value, space);
    forall k | 0 <= k < |tokens| ensures IsWord(tokens[k]) {
      assert forall i :: 0 <= i < |tokens[k]| ==> tokens[k][i] != ' ';
    }
  }

  /** What comes out of a text: splitting it at its spaces gives a prefix of the tokens of the
      text, each masked if it is sensitive, with an ellipsis exactly when some were left out. */
  lemma {:induction false} NothingSensitive(value: string, space: Space, sensitive: Sensitive, limit: nat)
    requires space(' ')
    ensures var tokens := Tokens(value, space);
            var r := AllRendered(tokens, sensitive);
            IsSafePrefix(Split(Redacted(r, limit)), tokens, KeptFrom(r, 0, limit), sensitive)
  {
    var tokens := Tokens(value, space);
    var r := AllRendered(tokens, sensitive);
    TokensAreWords(value, space);
    assert AllWords(r);
    PiecesAreWords(r, limit);
    SplitJoin(Pieces(r, limit));
    PiecesAreSafe(tokens, sensitive, limit);
  }

  // One more token fits, or the text ends here.
  lemma {:induction false} OneMore(r: seq<string>, i: nat, limit: nat)
    requires i < |r| && forall k :: 0 <= k < |r| ==> r[k] != ""
    ensures Join(r[..i + 1]) == Led(Join(r[..i])) + r[i]
    ensures if ByteLen(Led(Join(r[..i]))) + ByteLen(r[i]) <= limit
            then KeptFrom(r, i, limit) == KeptFrom(r, i + 1, limit)
            else KeptFrom(r, i, limit) == i && Join(r[..i] + [ELLIPSIS]) == Led(Join(r[..i])) + ELLIPSIS
  {
    assert r[..i + 1] == r[..i] + [r[i]];
    JoinSnoc(r[..i], r[i]);
    JoinSnoc(r[..i], ELLIPSIS);
  }

  /** `redact` */
  method Redact(value: string, limit: nat, space: Space, sensitive: Sensitive) returns (result: string)
    ensures result == Redacted(AllRendered(Tokens(value, space), sensitive), limit)
    ensures ByteLen(result) <= limit + 4
  {
    var tokens := Tokens(value, space);
    ghost var r := AllRendered(tokens, sensitive);
    RedactedBytes(r, limit);
    result := "";
    assert r[..0] == [];
    for i := 0 to |tokens|
      invariant result == Join(r[..i])
      invariant KeptFrom(r, 0, limit) == KeptFrom(r, i, limit)
    {
      var rendered := Rendered(tokens[i], sensitive);
      OneMore(r, i, limit);
      result := Led(result);
      if ByteLen(result) + ByteLen(rendered) > limit {
        return result + ELLIPSIS;
      }
      result := result + rendered;
    }
    assert r[..|r|] == r;
  }

  // ---- Redacting lines ----

  function RedactedLine(line: string, limit: nat, space: Space, sensitive: Sensitive): string {
    Redacted(AllRendered(Tokens(line, space), sensitive), limit)
  }

  // Each line within what the ones before it left, four bytes held back.
  function LinesFrom(output: string, lines: seq<string>, limit: nat, space: Space, sensitive: Sensitive): string
    decreases |lines|
  {
    var remaining := SaturatingSub(limit, ByteLen(output));
    if lines == [] || remaining < 4 then output
    else
      var rendered := RedactedLine(lines[0], remaining - 4, space, sensitive);
      LinesFrom(output + rendered + "\n", lines[1..], limit, space, sensitive)
  }

  lemma {:induction false} LinesGrow(
      output: string, lines: seq<string>, limit: nat, space: Space, sensitive: Sensitive)
    ensures output <= LinesFrom(output, lines, limit, space, sensitive)
    decreases |lines|
  {
    var remaining := SaturatingSub(limit, ByteLen(output));
    if lines != [] && remaining >= 4 {
      LinesGrow(output + RedactedLine(lines[0], remaining - 4, space, sensitive) + "\n", lines[1..], limit, space,
                sensitive);
    }
  }

  /** The lines end exactly when none is left or fewer than four bytes are. */
  lemma {:induction false} LinesEndIff(
      output: string, lines: seq<string>, limit: nat, space: Space, sensitive: Sensitive)
    ensures LinesFrom(output, lines, limit, space, sensitive) == output <==>
            lines == [] || limit < ByteLen(output) + 4
  {
    var remaining := SaturatingSub(limit, ByteLen(output));
    if lines != [] && remaining >= 4 {
      LinesGrow(output + RedactedLine(lines[0], remaining - 4, space, sensitive) + "\n", lines[1..], limit, space,
                sensitive);
    }
  }

  // A line redacted without a limit, with its line end, and all of them.
  function WholeLine(line: string, space: Space, sensitive: Sensitive): string {
    Join(AllRendered(Tokens(line, space), sensitive)) + "\n"
  }

  function AllLines(lines: seq<string>, space: Space, sensitive: Sensitive): string {
    if lines == [] then ""
    else WholeLine(lines[0], space, sensitive) + AllLines(lines[1..], space, sensitive)
  }

  lemma {:induction false} OneLineFits(
      output: string, line: string, rest: string, limit: nat, space: Space, sensitive: Sensitive)
    requires ByteLen(output) + ByteLen(WholeLine(line, space, sensitive) + rest) + 4 <= limit
    ensures var whole := WholeLine(line, space, sensitive);
            && ByteLen(output + whole) + ByteLen(rest) + 4 <= limit
            && output + RedactedLine(line, SaturatingSub(limit, ByteLen(output)) - 4, space, sensitive) + "\n"
               == output + whole
  {
    var r := AllRendered(Tokens(line, space), sensitive);
    var whole := WholeLine(line, space, sensitive);
    ByteLenConcat(whole, rest);
    ByteLenConcat(output, whole);
    ByteLenConcat(Join(r), "\n");
    WholeIfItFits(r, SaturatingSub(limit, ByteLen(output)) - 4);
    Regrouped(output, Join(r), "\n");
  }

  lemma {:induction false} WholeIfItFits(r: seq<string>, limit: nat)
    requires ByteLen(Join(r)) <= limit && forall i :: 0 <= i < |r| ==> r[i] != ""
    ensures Redacted(r, limit) == Join(r)
  {
    AllKept(r, 0, limit);
  }

  lemma {:induction false} AllKept(r: seq<string>, n: nat, limit: nat)
    requires n <= |r| && ByteLen(Join(r)) <= limit && forall i :: 0 <= i < |r| ==> r[i] != ""
    ensures KeptFrom(r, n, limit) == |r|
    decreases |r| - n
  {
    if n < |r| {
      assert r[..n + 1] == r[..n] + [r[n]];
      JoinSnoc(r[..n], r[n]);
      ByteLenConcat(Led(Join(r[..n])), r[n]);
      PrefixBytes(r, n + 1);
      AllKept(r, n + 1, limit);
    }
  }

  lemma {:induction false} PrefixBytes(r: seq<string>, n: nat)
    requires n <= |r| && forall i :: 0 <= i < |r| ==> r[i] != ""
    ensures ByteLen(Join(r[..n])) <= ByteLen(Join(r))
    decreases |r| - n
  {
    if n < |r| {
      assert r[..n + 1] == r[..n] + [r[n]];
      JoinSnoc(r[..n], r[n]);
      ByteLenConcat(Led(Join(r[..n])), r[n]);
      LedBytes(Join(r[..n]));
      PrefixBytes(r, n + 1);
    } else {
      assert r[..n] == r;
    }
  }

  /** Lines that all fit are all there, redacted, in order. */
  lemma {:induction false} LinesFit(
      output: string, lines: seq<string>, limit: nat, space: Space, sensitive: Sensitive)
    requires ByteLen(output) + ByteLen(AllLines(lines, space, sensitive)) + 4 <= limit
    ensures LinesFrom(output, lines, limit, space, sensitive) == output + AllLines(lines, space, sensitive)
    decreases |lines|
  {
    if lines == [] {
      assert output + "" == output;
    } else {
      var whole, rest := WholeLine(lines[0], space, sensitive), AllLines(lines[1..], space, sensitive);
      OneLineFits(output, lines[0], rest, limit, space, sensitive);
      LinesFit(output + whole, lines[1..], limit, space, sensitive);
      Regrouped(output, whole, rest);
    }
  }

  /** `redact_lines`: at most one byte over the limit. */
  method RedactLines(lines: seq<string>, limit: nat, space: Space, sensitive: Sensitive) returns (output: string)
    ensures output == LinesFrom("", lines, limit, space, sensitive)
    ensures ByteLen(output) <= limit + 1
  {
    output := "";
    for i := 0 to |lines|
      invariant LinesFrom(output, lines[i..], limit, space, sensitive) == LinesFrom("", lines, limit, space, sensitive)
      invariant ByteLen(output) <= limit + 1
    {
      var remaining: nat := SaturatingSub(limit, ByteLen(output));
      if remaining < 4 {
        break;
      }
      assert lines[i..][0] == lines[i] && lines[i..][1..] == lines[i + 1..];
      var rendered := Redact(lines[i], remaining - 4, space, sensitive);
      LineBytes(output, rendered);
      output := output + rendered + "\n";
    }
  }

  lemma {:induction false} LineBytes(output: string, rendered: string)
    ensures ByteLen(output + rendered + "\n") == ByteLen(output) + ByteLen(rendered) + 1
  {
    ByteLenConcat(output + rendered, "\n");
    ByteLenConcat(output, rendered);
    assert "\n"[1..] == "";
  }

  /** One byte over is reached. */
  lemma {:induction false} LinesTight(
      line: string, limit: nat, space: Space, sensitive: Sensitive, a: string, b: string)
    requires limit > 4 && ByteLen(a) == limit - 4 && b != ""
    requires AllRendered(Tokens(line, space), sensitive) == [a, b]
    ensures ByteLen(LinesFrom("", [line], limit, space, sensitive)) == limit + 1
  {
    RedactedBytesTight(a, b, [], limit - 4);
    assert [a, b] + [] == [a, b];
    LineBytes("", RedactedLine(line, limit - 4, space, sensitive));
    assert [line][1..] == [];
  }
}
