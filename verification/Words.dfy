/** Titles and queries as lists of words (`normalized`, `split_whitespace`).

Lower-casing and the Unicode alphanumeric table stay outside: text arrives lower-cased
and `alnum` says which characters are kept.
 */
module Words {
  predicate IsWord(w: string) {
    w != "" && ' ' !in w
  }

  predicate AllWords(ws: seq<string>) {
    forall i :: 0 <= i < |ws| ==> IsWord(ws[i])
  }

  function Join(ws: seq<string>): string {
    if |ws| == 0 then "" else if |ws| == 1 then ws[0] else ws[0] + " " + Join(ws[1..])
  }

  // Length of the leading run of non-blank characters.
  function WordEnd(s: string): (n: nat)
    ensures n <= |s| && forall i :: 0 <= i < n ==> s[i] != ' '
    ensures n < |s| ==> s[n] == ' '
    ensures s != "" && s[0] != ' ' ==> n > 0
  {
    if s == "" || s[0] == ' ' then 0 else 1 + WordEnd(s[1..])
  }

  function Split(s: string): (ws: seq<string>)
    ensures AllWords(ws)
    decreases |s|
  {
    if s == "" then []
    else if s[0] == ' ' then Split(s[1..])
    else [s[..WordEnd(s)]] + Split(s[WordEnd(s)..])
  }

  function Spaced(text: string, alnum: char -> bool): (s: string)
    ensures |s| == |text|
    ensures forall i :: 0 <= i < |s| ==> s[i] == if alnum(text[i]) then text[i] else ' '
  {
    if text == "" then ""
    else [if alnum(text[0]) then text[0] else ' '] + Spaced(text[1..], alnum)
  }

  function Normalized(text: string, alnum: char -> bool): string {
    Join(Split(Spaced(text, alnum)))
  }

  lemma {:induction false} WordEndAt(w: string, rest: string)
    requires IsWord(w) && (rest == "" || rest[0] == ' ')
    ensures WordEnd(w + rest) == |w|
  {
    var s := w + rest;
    assert forall k :: 0 <= k < |w| ==> s[k] == w[k] != ' ';
    assert rest != "" ==> s[|w|] == rest[0];
  }

  /** Splitting undoes joining. */
  lemma {:induction false} SplitJoin(ws: seq<string>)
    requires AllWords(ws)
    ensures Split(Join(ws)) == ws
  {
    if |ws| == 0 {
    } else {
      var s := Join(ws);
      var rest := if |ws| == 1 then "" else " " + Join(ws[1..]);
      assert s == ws[0] + rest;
      WordEndAt(ws[0], rest);
      assert s[..|ws[0]|] == ws[0] && s[|ws[0]|..] == rest;
      if |ws| == 1 {
        assert ws == [ws[0]];
      } else {
        assert rest[1..] == Join(ws[1..]);
        SplitJoin(ws[1..]);
      }
    }
  }

  lemma {:induction false} WordAlone(w: string)
    requires IsWord(w)
    ensures Split(w) == [w]
  {
    SplitJoin([w]);
  }

  // A text that starts with a word: what comes after it is split on its own.
  lemma {:induction false} FirstWordSplit(w: string, rest: string)
    requires IsWord(w) && (rest == "" || rest[0] == ' ')
    ensures Split(w + rest) == [w] + Split(rest)
  {
    WordEndAt(w, rest);
    assert (w + rest)[..|w|] == w && (w + rest)[|w|..] == rest;
  }

  /** Splitting is splitting at every blank: the words of two parts with a blank between them are
      those of the one and then those of the other. */
  lemma {:induction false} SplitAtBlank(a: string, b: string)
    ensures Split(a + " " + b) == Split(a) + Split(b)
    decreases |a|
  {
    if a == "" {
      assert (a + " " + b)[1..] == b;
    } else if a[0] == ' ' {
      assert (a + " " + b)[1..] == a[1..] + " " + b;
      SplitAtBlank(a[1..], b);
    } else {
      var w, rest := a[..WordEnd(a)], a[WordEnd(a)..];
      assert a == w + rest && a + " " + b == w + (rest + " " + b);
      FirstWordSplit(w, rest);
      FirstWordSplit(w, rest + " " + b);
      SplitAtBlank(rest, b);
    }
  }

  lemma {:induction false} SpacedIsStable(text: string, alnum: char -> bool)
    requires forall i :: 0 <= i < |text| ==> text[i] == ' ' || alnum(text[i])
    ensures Spaced(text, alnum) == text
  {
    if text != "" {
      SpacedIsStable(text[1..], alnum);
    }
  }

  lemma {:induction false} SpacedChars(text: string, alnum: char -> bool, i: nat)
    requires i < |text|
    ensures Spaced(text, alnum)[i] == ' ' || alnum(Spaced(text, alnum)[i])
  {
    if i > 0 {
      SpacedChars(text[1..], alnum, i - 1);
    }
  }

  lemma {:induction false} SplitChars(s: string, w: string, c: char)
    requires w in Split(s) && c in w
    ensures c in s
    decreases |s|
  {
    if s[0] == ' ' {
      SplitChars(s[1..], w, c);
    } else if w != s[..WordEnd(s)] {
      SplitChars(s[WordEnd(s)..], w, c);
    }
  }

  lemma {:induction false} JoinChars(ws: seq<string>, c: char)
    requires c in Join(ws)
    ensures c == ' ' || exists i :: 0 <= i < |ws| && c in ws[i]
  {
    if |ws| > 1 {
      if c !in ws[0] && c != ' ' {
        JoinChars(ws[1..], c);
        var i :| 0 <= i < |ws[1..]| && c in ws[1..][i];
        assert c in ws[i + 1];
      }
    }
  }

  /** Normalising a normalised text changes nothing, and its words are recovered by
      splitting: title, words and query agree however often they are normalised. */
  lemma {:induction false} NormalizedTwice(text: string, alnum: char -> bool)
    ensures Normalized(Normalized(text, alnum), alnum) == Normalized(text, alnum)
    ensures Join(Split(Normalized(text, alnum))) == Normalized(text, alnum)
  {
    var spaced := Spaced(text, alnum);
    var ws := Split(spaced);
    var once := Join(ws);
    SplitJoin(ws);
    forall i | 0 <= i < |once| ensures once[i] == ' ' || alnum(once[i]) {
      JoinChars(ws, once[i]);
      if once[i] != ' ' {
        var j :| 0 <= j < |ws| && once[i] in ws[j];
        SplitChars(spaced, ws[j], once[i]);
        var k :| 0 <= k < |spaced| && spaced[k] == once[i];
        SpacedChars(text, alnum, k);
      }
    }
    SpacedIsStable(once, alnum);
  }

  // Two joined texts, one the start of the other, have the same first word, and what
  // follows it starts the same way.
  lemma {:induction false} FirstWordAgrees(ws: seq<string>, qs: seq<string>)
    requires AllWords(ws) && AllWords(qs) && |qs| > 1 && |ws| > 0
    requires Join(qs) <= Join(ws)
    ensures ws[0] == qs[0] && |ws| > 1 && Join(qs[1..]) <= Join(ws[1..])
  {
    var s, q := Join(ws), Join(qs);
    var rest := if |ws| == 1 then "" else " " + Join(ws[1..]);
    var tail := Join(qs[1..]) + s[|q|..];
    assert s == ws[0] + rest;
    assert s == q + s[|q|..] == qs[0] + (" " + tail);
    WordEndAt(ws[0], rest);
    WordEndAt(qs[0], " " + tail);
    assert ws[0] == s[..|ws[0]|] && qs[0] == s[..|qs[0]|];
    assert rest == s[|ws[0]|..] == " " + tail;
    assert Join(ws[1..]) == rest[1..] == tail;
  }

  /** A joined text that starts with a joined query has the query's words, except that
      the last one may continue. */
  lemma {:induction false} JoinedPrefix(ws: seq<string>, qs: seq<string>)
    requires AllWords(ws) && AllWords(qs) && |qs| > 0
    requires Join(qs) <= Join(ws)
    ensures |qs| <= |ws|
    ensures forall i :: 0 <= i < |qs| - 1 ==> qs[i] == ws[i]
    ensures qs[|qs| - 1] <= ws[|qs| - 1]
  {
    var s, q := Join(ws), Join(qs);
    assert |q| > 0 && |ws| > 0;
    if |qs| == 1 {
      var rest := if |ws| == 1 then "" else " " + Join(ws[1..]);
      assert s == ws[0] + rest;
      assert |ws| > 1 ==> s[|ws[0]|] == ' ';
      assert forall k :: 0 <= k < |q| ==> s[k] == q[k] != ' ';
    } else {
      FirstWordAgrees(ws, qs);
      JoinedPrefix(ws[1..], qs[1..]);
      forall i | 0 < i < |qs| - 1 ensures qs[i] == ws[i] {
        assert qs[1..][i - 1] == ws[1..][i - 1];
      }
      assert qs[1..][|qs| - 2] <= ws[1..][|qs| - 2];
    }
  }
}
