/** The one-edit matcher of local Store search (`one_typo`).

The code decides by looking at the first position where the two words differ and
comparing what follows. The edits themselves are defined here without any scan, and
the two are proved to agree on every pair of words.
 */
module TypoMatch {
  import opened Prelude

  const PREFIX_CHARS: nat := 64

  function FirstMismatch(a: string, b: string): (k: nat)
    ensures k <= |a| && k <= |b|
    ensures forall i :: 0 <= i < k ==> a[i] == b[i]
    ensures k < |a| && k < |b| ==> a[k] != b[k]
  {
    if a == "" || b == "" || a[0] != b[0] then 0 else 1 + FirstMismatch(a[1..], b[1..])
  }

  predicate OneTypo(a0: string, b0: string) {
    var a := TakeChars(a0, PREFIX_CHARS);
    var b := TakeChars(b0, PREFIX_CHARS);
    if |a| > |b| + 1 || |b| > |a| + 1 then false else
    var first := FirstMismatch(a, b);
    if first == Min(|a|, |b|) then true
    else if |a| == |b| then
      || a[first + 1..] == b[first + 1..]
      || (&& first + 1 < |a|
          && a[first] == b[first + 1]
          && a[first + 1] == b[first]
          && a[first + 2..] == b[first + 2..])
    else if |a| > |b| then a[first + 1..] == b[first..]
    else a[first..] == b[first + 1..]
  }

  // What the matcher is for, edit by edit.

  ghost predicate DropsOne(a: string, b: string) {
    exists i :: 0 <= i < |a| && b == a[..i] + a[i + 1..]
  }

  ghost predicate ChangesOne(a: string, b: string) {
    |a| == |b| && exists i :: 0 <= i < |a| && b == a[i := b[i]]
  }

  ghost predicate SwapsNeighbours(a: string, b: string) {
    exists i :: 0 <= i < |a| - 1 && b == a[i := a[i + 1]][i + 1 := a[i]]
  }

  ghost predicate WithinOneEdit(a: string, b: string) {
    a == b || DropsOne(a, b) || DropsOne(b, a) || ChangesOne(a, b) || SwapsNeighbours(a, b)
  }

  lemma {:induction false} MatchIsAnEdit(a: string, b: string)
    requires |a| <= PREFIX_CHARS && |b| <= PREFIX_CHARS
    requires OneTypo(a, b)
    ensures WithinOneEdit(a, b)
  {
    var f := FirstMismatch(a, b);
    if f == Min(|a|, |b|) {
      if |a| == |b| {
        assert a == b;
      } else if |a| > |b| {
        assert b == a[..f] + a[f + 1..];
      } else {
        assert a == b[..f] + b[f + 1..];
      }
    } else if |a| == |b| {
      if a[f + 1..] == b[f + 1..] {
        forall k | 0 <= k < |a| ensures b[k] == a[f := b[f]][k] {
          if k > f {
            assert a[k] == a[f + 1..][k - f - 1] == b[f + 1..][k - f - 1] == b[k];
          }
        }
        assert b == a[f := b[f]];
      } else {
        var swapped := a[f := a[f + 1]][f + 1 := a[f]];
        forall k | 0 <= k < |a| ensures b[k] == swapped[k] {
          if k > f + 1 {
            assert a[k] == a[f + 2..][k - f - 2] == b[f + 2..][k - f - 2] == b[k];
          }
        }
        assert b == swapped;
      }
    } else if |a| > |b| {
      assert b == a[..f] + a[f + 1..] by { assert b == b[..f] + b[f..]; }
    } else {
      assert a == b[..f] + b[f + 1..] by { assert a == a[..f] + a[f..]; }
    }
  }

  // Both scans of a pair that differs by one dropped character stop at or after the drop.
  lemma {:induction false} DropShifts(a: string, b: string, i: nat, f: nat)
    requires i < |a| && b == a[..i] + a[i + 1..]
    requires f <= |b| && (f < |b| ==> a[f] != b[f])
    ensures f < |b| ==> a[f + 1..] == b[f..]
  {
    if f < |b| {
      assert f >= i by { assert forall k :: 0 <= k < i ==> b[k] == a[k]; }
      forall k | 0 <= k < |b| - f ensures a[f + 1..][k] == b[f..][k] {
        assert b[f + k] == a[i + 1..][f + k - i];
      }
    }
  }

  lemma {:induction false} DropMatches(a: string, b: string, i: nat)
    requires |a| <= PREFIX_CHARS && i < |a| && b == a[..i] + a[i + 1..]
    ensures OneTypo(a, b)
  {
    DropShifts(a, b, i, FirstMismatch(a, b));
  }

  lemma {:induction false} InsertionMatches(a: string, b: string, i: nat)
    requires |a| <= PREFIX_CHARS && i < |a| && b == a[..i] + a[i + 1..]
    ensures OneTypo(b, a)
  {
    DropShifts(a, b, i, FirstMismatch(b, a));
  }

  lemma {:induction false} ChangeMatches(a: string, b: string, i: nat)
    requires |a| == |b| <= PREFIX_CHARS && i < |a| && b == a[i := b[i]]
    ensures OneTypo(a, b)
  {
    var f := FirstMismatch(a, b);
    if f < |a| {
      assert f == i;
      assert a[f + 1..] == b[f + 1..];
    }
  }

  lemma {:induction false} SwapMatches(a: string, b: string, i: nat)
    requires |a| <= PREFIX_CHARS && i < |a| - 1 && b == a[i := a[i + 1]][i + 1 := a[i]]
    ensures OneTypo(a, b)
  {
    var f := FirstMismatch(a, b);
    if f < |a| {
      assert f == i;
      assert a[f + 2..] == b[f + 2..];
    }
  }

  /** Exactness: the scan accepts a pair exactly when, on 64-character prefixes, the two
      are equal or one insertion, deletion, substitution or adjacent swap apart. */
  lemma {:induction false} OneTypoExact(a: string, b: string)
    ensures OneTypo(a, b) <==>
            WithinOneEdit(TakeChars(a, PREFIX_CHARS), TakeChars(b, PREFIX_CHARS))
  {
    var x, y := TakeChars(a, PREFIX_CHARS), TakeChars(b, PREFIX_CHARS);
    assert OneTypo(a, b) == OneTypo(x, y);
    if OneTypo(x, y) {
      MatchIsAnEdit(x, y);
    }
    if WithinOneEdit(x, y) {
      if x == y {
      } else if DropsOne(x, y) {
        var i :| 0 <= i < |x| && y == x[..i] + x[i + 1..];
        DropMatches(x, y, i);
      } else if DropsOne(y, x) {
        var i :| 0 <= i < |y| && x == y[..i] + y[i + 1..];
        InsertionMatches(y, x, i);
      } else if ChangesOne(x, y) {
        var i :| 0 <= i < |x| && y == x[i := y[i]];
        ChangeMatches(x, y, i);
      } else {
        var i :| 0 <= i < |x| - 1 && y == x[i := x[i + 1]][i + 1 := x[i]];
        SwapMatches(x, y, i);
      }
    }
  }

  lemma {:induction false} EditsReverse(a: string, b: string)
    requires WithinOneEdit(a, b)
    ensures WithinOneEdit(b, a)
  {
    if ChangesOne(a, b) {
      var i :| 0 <= i < |a| && b == a[i := b[i]];
      assert a == b[i := a[i]];
    } else if SwapsNeighbours(a, b) {
      var i :| 0 <= i < |a| - 1 && b == a[i := a[i + 1]][i + 1 := a[i]];
      assert a == b[i := b[i + 1]][i + 1 := b[i]];
    }
  }

  lemma {:induction false} OneTypoSymmetric(a: string, b: string)
    ensures OneTypo(a, b) == OneTypo(b, a)
  {
    OneTypoExact(a, b);
    OneTypoExact(b, a);
    var x, y := TakeChars(a, PREFIX_CHARS), TakeChars(b, PREFIX_CHARS);
    if WithinOneEdit(x, y) { EditsReverse(x, y); }
    if WithinOneEdit(y, x) { EditsReverse(y, x); }
  }
}
