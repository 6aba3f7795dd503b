/** The artwork index file: written to a temporary file and renamed into place, with a
backup on systems where a rename does not replace. Every file operation may fail, and the
process may stop between any two of them. */
module ArtworkIndexFile {
  import opened Prelude

  // A file holds one encoded index, or bytes that decode to nothing.
  datatype Content<T> = Encoded(index: T) | Torn

  datatype Files<T> = Files(index: Option<Content<T>>, temporary: Option<Content<T>>, backup: Option<Content<T>>)

  // Which operations of one write succeed, in program order.
  datatype Outcomes = Outcomes(
    created: bool, written: bool, synced: bool, replaced: bool, oldBackupRemoved: bool,
    setAside: bool, secondReplaced: bool, restored: bool, backupRemoved: bool)

  function Decoded<T>(c: Option<Content<T>>): Option<T> {
    if c.Some? && c.value.Encoded? then Some(c.value.index) else None
  }

  // `load_index`: the index file, or else the backup.
  function Load<T>(f: Files<T>): Option<T> {
    if Decoded(f.index).Some? then Decoded(f.index) else Decoded(f.backup)
  }

  // What a crash would leave, moment by moment, and what the caller is told at the end.
  datatype Trace<T> = Trace(moments: seq<Files<T>>, ok: bool)

  function Last<T>(t: Trace<T>): Files<T>
    requires t.moments != []
  {
    t.moments[|t.moments| - 1]
  }

  function Traced<T>(f: Files<T>, index: T, o: Outcomes): (t: Trace<T>)
    ensures t.moments != [] && t.moments[0] == f
  {
    var torn := f.(temporary := Some(Torn));
    var ready := f.(temporary := Some(Encoded(index)));
    if !o.created then Trace([f], false)
    else if !o.written then Trace([f, torn], false)
    else if !o.synced then Trace([f, torn, ready], false)
    else if o.replaced then Trace([f, torn, ready, Files(ready.temporary, None, f.backup)], true)
    else if f.index.None? then Trace([f, torn, ready], false)
    else Trace([f, torn, ready] + SetAside(ready, o), o.setAside && o.secondReplaced)
  }

  // The path for systems whose rename does not replace an existing file.
  function SetAside<T>(f: Files<T>, o: Outcomes): seq<Files<T>> {
    var aside, done := Files(None, f.temporary, f.index), Files(f.temporary, None, f.index);
    (if o.oldBackupRemoved then [f.(backup := None)] else [])
    + (if !o.setAside then []
       else if !o.secondReplaced then [aside] + (if o.restored then [f.(backup := None)] else [])
       else [aside, done] + (if o.backupRemoved then [done.(backup := None)] else []))
  }

  // The index file is never half an index, and one of the two files loads.
  ghost predicate Sound<T>(f: Files<T>) {
    f.index != Some(Torn) && Load(f).Some?
  }

  // The first moment of the set-aside path that loads the new index, if there is one.
  function SetAsideCommit(o: Outcomes): nat {
    if !o.setAside || !o.secondReplaced then 4 else if o.oldBackupRemoved then 2 else 1
  }

  lemma {:induction false} SetAsideRestored<T>(f: Files<T>, o: Outcomes, k: nat)
    requires f.index.Some? && Sound(f) && (!o.setAside || !o.secondReplaced) && k < |SetAside(f, o)|
    ensures k < 4 && Sound(SetAside(f, o)[k]) && Load(SetAside(f, o)[k]) == Load(f)
  {
    if !o.setAside {
    } else {
    }
  }

  lemma {:induction false} SetAsideReplaced<T>(f: Files<T>, index: T, o: Outcomes, k: nat)
    requires f.index.Some? && Sound(f) && f.temporary == Some(Encoded(index))
    requires o.setAside && o.secondReplaced && k < |SetAside(f, o)|
    ensures var m := SetAside(f, o)[k];
            Sound(m) && Load(m) == if k < SetAsideCommit(o) then Load(f) else Some(index)
  {
    if o.oldBackupRemoved {
    } else {
    }
  }

  // The first moment of a write that loads the new index.
  function Commit<T>(f: Files<T>, o: Outcomes): nat {
    if o.created && o.written && o.synced && !o.replaced && f.index.Some? then 3 + SetAsideCommit(o) else 3
  }

  /** Every moment of a write loads: the index of before up to the commit, the new one from it
      on. */
  lemma {:induction false} MomentIs<T>(f: Files<T>, index: T, o: Outcomes, i: nat)
    requires Sound(f) && i < |Traced(f, index, o).moments|
    ensures var m := Traced(f, index, o).moments[i];
            Sound(m) && Load(m) == if i < Commit(f, o) then Load(f) else Some(index)
  {
    if !o.created || !o.written || !o.synced || o.replaced || f.index.None? {
    } else if i >= 3 {
      var ready := f.(temporary := Some(Encoded(index)));
      assert Traced(f, index, o).moments[i] == SetAside(ready, o)[i - 3];
      if o.setAside && o.secondReplaced {
        SetAsideReplaced(ready, index, o, i - 3);
      } else {
        SetAsideRestored(ready, o, i - 3);
      }
    }
  }

  /** At every moment of a write, what loads is the index of before or the new one, and once
      it is the new one it stays. */
  lemma {:induction false} MomentsLoad<T>(f: Files<T>, index: T, o: Outcomes, i: nat, j: nat)
    requires Sound(f) && i <= j < |Traced(f, index, o).moments|
    ensures var a, b := Traced(f, index, o).moments[i], Traced(f, index, o).moments[j];
            && Sound(b)
            && (Load(b) == Load(f) || Load(b) == Some(index))
            && (Load(a) == Some(index) ==> Load(b) == Some(index))
  {
    MomentIs(f, index, o, i);
    MomentIs(f, index, o, j);
  }

  /** The answer is right: after a success the new index loads, after a failure the old one. */
  lemma {:induction false} AnswerIsRight<T>(f: Files<T>, index: T, o: Outcomes)
    requires Sound(f)
    ensures var t := Traced(f, index, o); Load(Last(t)) == if t.ok then Some(index) else Load(f)
  {
  }

  /** When something loads, every moment of every write loads something exactly when the index
      file itself is not torn: with a torn one only the backup loads, and the fallback path
      deletes it first. */
  lemma {:induction false} AlwaysLoadsIff<T>(f: Files<T>, index: T)
    requires Load(f).Some?
    ensures (forall o: Outcomes, i ::
               0 <= i < |Traced(f, index, o).moments| ==> Load(Traced(f, index, o).moments[i]).Some?)
       <==> f.index != Some(Torn)
  {
    if f.index == Some(Torn) {
      var o := Outcomes(true, true, true, false, true, true, true, true, true);
      assert Load(Traced(f, index, o).moments[3]).None?;
    } else {
      forall o: Outcomes, i | 0 <= i < |Traced(f, index, o).moments|
        ensures Load(Traced(f, index, o).moments[i]).Some?
      {
        MomentsLoad(f, index, o, i, i);
      }
    }
  }

  /** How the set-aside path ends: with the file where it was, back where it was or only as the
      backup, or with the new one in its place and the old one as the backup, if that is not removed. */
  lemma {:induction false} AsideEnds<T>(f: Files<T>, o: Outcomes)
    requires f.index.Some?
    ensures var trail := [f] + SetAside(f, o);
            var last := trail[|trail| - 1];
            if !o.setAside then last == if o.oldBackupRemoved then f.(backup := None) else f
            else if !o.secondReplaced then
              last == if o.restored then f.(backup := None) else Files(None, f.temporary, f.index)
            else last == Files(f.temporary, None, if o.backupRemoved then None else f.index)
  {
  }

  // Everything a write needs to succeed: the temporary file is written, and replaces the index
  // file at once or, if there is one to set aside, after that.
  predicate Succeeds<T>(f: Files<T>, o: Outcomes) {
    o.created && o.written && o.synced && (o.replaced || (f.index.Some? && o.setAside && o.secondReplaced))
  }

  /** A write succeeds exactly when those operations do, and then its index loads and is the
      index file, whatever the files were before; nothing else leaves it there. */
  lemma {:induction false} SucceedsIff<T>(f: Files<T>, index: T, o: Outcomes)
    ensures var t := Traced(f, index, o);
            && (t.ok <==> Succeeds(f, o))
            && (t.ok ==> Last(t).index == Some(Encoded(index)) && Last(t).temporary.None?)
            && (t.ok ==> Load(Last(t)) == Some(index))
  {
    if o.setAside && o.secondReplaced {
      var s := SetAside(f.(temporary := Some(Encoded(index))), o);
      assert s[|s| - 1].index == Some(Encoded(index));
    }
  }

  // ---- Runs of writes ----

  // One write, and whether the process stopped part-way through it.
  datatype Attempt<T> = Attempt(index: T, outcomes: Outcomes, cut: Option<nat>)

  function After<T>(f: Files<T>, a: Attempt<T>): Files<T> {
    var t := Traced(f, a.index, a.outcomes);
    if a.cut.Some? && a.cut.value < |t.moments| then t.moments[a.cut.value] else Last(t)
  }

  function AfterAll<T>(f: Files<T>, attempts: seq<Attempt<T>>): Files<T> {
    if attempts == [] then f
    else After(AfterAll(f, attempts[..|attempts| - 1]), attempts[|attempts| - 1])
  }

  // The last index a caller was told is saved, and those of later writes cut part-way.
  ghost function Expected<T>(f: Files<T>, attempts: seq<Attempt<T>>): set<Option<T>> {
    if attempts == [] then {Load(f)} else
    var a := attempts[|attempts| - 1];
    var before := AfterAll(f, attempts[..|attempts| - 1]);
    var expected := Expected(f, attempts[..|attempts| - 1]);
    if a.cut.Some? then expected + {Some(a.index)}
    else if Traced(before, a.index, a.outcomes).ok then {Some(a.index)}
    else expected
  }

  /** Over any sequence of writes, failures and crashes that began with a loadable index, the
      index that loads is the last one reported saved or one whose write was cut since. */
  lemma {:induction false} CrashConsistent<T>(f: Files<T>, attempts: seq<Attempt<T>>)
    requires Sound(f)
    ensures Sound(AfterAll(f, attempts)) && Load(AfterAll(f, attempts)) in Expected(f, attempts)
  {
    if attempts != [] {
      var rest, a := attempts[..|attempts| - 1], attempts[|attempts| - 1];
      CrashConsistent(f, rest);
      AttemptIsExpected(AfterAll(f, rest), a);
    }
  }

  /** Over any sequence that ends with a write that is not cut and whose operations succeed,
      exactly its index loads, whatever happened before. */
  lemma {:induction false} LastWriteLoads<T>(f: Files<T>, attempts: seq<Attempt<T>>, a: Attempt<T>)
    requires a.cut.None? && Succeeds(AfterAll(f, attempts), a.outcomes)
    ensures Load(AfterAll(f, attempts + [a])) == Some(a.index) && Expected(f, attempts + [a]) == {Some(a.index)}
  {
    assert (attempts + [a])[..|attempts|] == attempts;
    SucceedsIff(AfterAll(f, attempts), a.index, a.outcomes);
  }

  lemma {:induction false} AttemptIsExpected<T>(f: Files<T>, a: Attempt<T>)
    requires Sound(f)
    ensures var after := After(f, a);
            && Sound(after)
            && (a.cut.Some? ==> Load(after) in {Load(f), Some(a.index)})
            && (a.cut.None? ==> Load(after) == if Traced(f, a.index, a.outcomes).ok then Some(a.index) else Load(f))
  {
    var t := Traced(f, a.index, a.outcomes);
    if a.cut.Some? && a.cut.value < |t.moments| {
      MomentsLoad(f, a.index, a.outcomes, a.cut.value, a.cut.value);
    } else {
      MomentsLoad(f, a.index, a.outcomes, |t.moments| - 1, |t.moments| - 1);
      AnswerIsRight(f, a.index, a.outcomes);
    }
  }

  // ---- The write itself ----

  lemma {:induction false} Joined<T>(trail: seq<T>, a: T, b: T, c: T, rest: seq<T>)
    ensures trail + [b] + [c] + rest == trail + ([a, b, c] + rest)[1..]
  {
    assert ([a, b, c] + rest)[1..] == [b] + [c] + rest;
  }

  class IndexFile<T> {
    var files: Files<T>
    ghost var trail: seq<Files<T>>             // every state the files went through

    constructor (files: Files<T>)
      ensures Valid() && this.files == files && trail == [files]
    {
      this.files := files;
      this.trail := [files];
    }

    ghost predicate Valid()
      reads this
    {
      trail != [] && trail[|trail| - 1] == files
    }

    method Put(next: Files<T>)
      requires Valid()
      modifies this
      ensures Valid() && files == next && trail == old(trail) + [next]
    {
      files := next;
      trail := trail + [next];
    }

    /** `write_index_atomic`: one file operation after the other. */
    method WriteIndexAtomic(index: T, o: Outcomes) returns (ok: bool)
      requires Valid()
      modifies this
      ensures Valid()
      ensures trail == old(trail) + Traced(old(files), index, o).moments[1..]
      ensures ok == Traced(old(files), index, o).ok && files == Last(Traced(old(files), index, o))
      ensures ok <==> o.created && o.written && o.synced
                      && (o.replaced || (old(files).index.Some? && o.setAside && o.secondReplaced))
      ensures ok ==> files.index == Some(Encoded(index)) && Load(files) == Some(index)
    {
      SucceedsIff(files, index, o);
      if !o.created {
        return false;
      }
      Put(files.(temporary := Some(Torn)));
      if !o.written {
        return false;
      }
      Put(files.(temporary := Some(Encoded(index))));
      if !o.synced {
        return false;
      }
      if o.replaced {
        Put(files.(index := files.temporary, temporary := None));
        return true;
      }
      if files.index.None? {
        return false;
      }
      ghost var ready := files;
      ok := ReplaceAside(o);
      Joined(old(trail), old(files), old(files).(temporary := Some(Torn)), ready, SetAside(ready, o));
    }

    method ReplaceAside(o: Outcomes) returns (ok: bool)
      requires Valid() && files.index.Some? && files.temporary.Some?
      modifies this
      ensures Valid() && ok == (o.setAside && o.secondReplaced)
      ensures trail == old(trail) + SetAside(old(files), o)
    {
      if o.oldBackupRemoved {
        Put(files.(backup := None));
      }
      if !o.setAside {
        return false;
      }
      Put(files.(index := None, backup := files.index));
      if !o.secondReplaced {
        if o.restored {
          Put(files.(index := files.backup, backup := None));
        }
        return false;
      }
      Put(files.(index := files.temporary, temporary := None));
      if o.backupRemoved {
        Put(files.(backup := None));
      }
      ok := true;
    }
  }
}
