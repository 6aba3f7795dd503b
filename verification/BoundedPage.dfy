/** Fetching one page that fits the response budget: the page size is halved until the
encoded page is small enough. */
module BoundedPage {
  import opened Prelude

  const RESULT_BUDGET: nat := 768 * 1024
  const MAX_PAGE_LIMIT: nat := 100
  const MAX_CURSOR_BYTES: nat := 4096

  datatype ServiceError = Cancelled | InvalidParams | TooLarge | CacheChanged | NotPaging | Upstream(code: string)

  function Pow2(n: nat): nat {
    if n == 0 then 1 else 2 * Pow2(n - 1)
  }

  // The page sizes the loop may ask for, largest first.
  function Halvings(count: nat): (h: seq<nat>)
    requires count > 0
    ensures h != [] && h[0] == count && h[|h| - 1] == 1
  {
    if count == 1 then [1] else [count] + Halvings(count / 2)
  }

  /** There are floor(log2(count)) + 1 of them. */
  lemma {:induction false} HalvingsCount(count: nat)
    requires count > 0
    ensures Pow2(|Halvings(count)| - 1) <= count < Pow2(|Halvings(count)|)
  {
    if count > 1 {
      HalvingsCount(count / 2);
    }
  }

  /** Each is half of the one before it, rounded down. */
  lemma {:induction false} HalvingsHalve(count: nat, i: nat)
    requires count > 0 && i < |Halvings(count)|
    ensures Halvings(count)[i] >= 1
    ensures i == 0 ==> Halvings(count)[i] == count
    ensures i > 0 ==> Halvings(count)[i] == Halvings(count)[i - 1] / 2
  {
    if i > 0 {
      HalvingsHalve(count / 2, i - 1);
    }
  }

  lemma {:induction false} HalvingsPositive(count: nat)
    requires count > 0
    ensures forall i :: 0 <= i < |Halvings(count)| ==> Halvings(count)[i] >= 1
  {
    if count > 1 {
      HalvingsPositive(count / 2);
    }
  }

  // What the loop makes of one attempt; `None` means the page was too big.
  function Attempt<P>(count: nat, k: nat, fetch: nat -> Result<P, ServiceError>, size: P -> nat, cancelled: nat -> bool)
    : Option<Result<P, ServiceError>>
  {
    if cancelled(2 * k) then Some(Err(Cancelled)) else
    match fetch(count)
    case Err(e) => Some(Err(e))
    case Ok(page) =>
      if cancelled(2 * k + 1) then Some(Err(Cancelled))
      else if size(page) <= RESULT_BUDGET then Some(Ok(page))
      else None
  }

  // The first attempt that settles the call, over the sizes still to be tried.
  function FirstSettled<P>(
      counts: seq<nat>, k: nat, fetch: nat -> Result<P, ServiceError>, size: P -> nat, cancelled: nat -> bool)
    : Result<P, ServiceError>
  {
    if counts == [] then Err(TooLarge) else
    var a := Attempt(counts[0], k, fetch, size, cancelled);
    if a.Some? then a.value else FirstSettled(counts[1..], k + 1, fetch, size, cancelled)
  }

  // What a call makes of it from the size `count` on, its k-th attempt.
  function SettledFrom<P>(
      count: nat, k: nat, fetch: nat -> Result<P, ServiceError>, size: P -> nat, cancelled: nat -> bool)
    : Result<P, ServiceError>
    requires count > 0
  {
    FirstSettled(Halvings(count), k, fetch, size, cancelled)
  }

  // One attempt settles the call, or it goes on with half the size.
  lemma {:induction false} HalvingStep<P>(
      count: nat, k: nat, fetch: nat -> Result<P, ServiceError>, size: P -> nat, cancelled: nat -> bool)
    requires count > 0
    ensures SettledFrom(count, k, fetch, size, cancelled)
         == var a := Attempt(count, k, fetch, size, cancelled);
            if a.Some? then a.value
            else if count == 1 then Err(TooLarge)
            else SettledFrom(count / 2, k + 1, fetch, size, cancelled)
  {
    if count > 1 {
      assert Halvings(count)[1..] == Halvings(count / 2);
    } else {
      assert Halvings(count)[1..] == [];
      assert FirstSettled([], k + 1, fetch, size, cancelled) == Err(TooLarge);
    }
  }

  // How much was asked for at first, if `tries` halvings left `count`.
  predicate Halved(tries: nat, count: nat, first: nat) {
    Pow2(tries) * count <= first
  }

  lemma {:induction false} HalvedFirst(count: nat)
    ensures Halved(0, count, count)
  {
  }

  lemma {:induction false} HalvedOnce(tries: nat, count: nat, first: nat)
    requires count >= 1 && Halved(tries, count, first)
    ensures Pow2(tries) <= first && Halved(tries + 1, count / 2, first)
  {
    PowersMultiply(tries, count);
  }

  /** The halving loop. `cancelled(i)` says whether the i-th cancellation check fires. */
  method FetchBoundedPage<P>(limit: nat, fetch: nat -> Result<P, ServiceError>, size: P -> nat, cancelled: nat -> bool)
    returns (r: Result<P, ServiceError>, tries: nat)
    ensures r == SettledFrom(Clamp(limit, 1, MAX_PAGE_LIMIT), 0, fetch, size, cancelled)
    ensures 1 <= tries && Pow2(tries - 1) <= Clamp(limit, 1, MAX_PAGE_LIMIT)
    ensures r.Ok? ==> size(r.value) <= RESULT_BUDGET
  {
    var count: nat := Clamp(limit, 1, MAX_PAGE_LIMIT);
    ghost var target := SettledFrom(count, 0, fetch, size, cancelled);
    tries := 0;
    HalvedFirst(count);
    while true
      invariant 1 <= count && Halved(tries, count, Clamp(limit, 1, MAX_PAGE_LIMIT))
      invariant target == SettledFrom(count, tries, fetch, size, cancelled)
      decreases count
    {
      HalvingStep(count, tries, fetch, size, cancelled);
      HalvedOnce(tries, count, Clamp(limit, 1, MAX_PAGE_LIMIT));
      tries := tries + 1;
      if cancelled(2 * (tries - 1)) {
        return Err(Cancelled), tries;
      }
      var fetched := fetch(count);
      if fetched.Err? {
        return fetched, tries;
      }
      if cancelled(2 * (tries - 1) + 1) {
        return Err(Cancelled), tries;
      }
      if size(fetched.value) <= RESULT_BUDGET {
        return fetched, tries;
      }
      if count == 1 {
        return Err(TooLarge), tries;
      }
      count := Max(count / 2, 1);
    }
  }

  lemma {:induction false} PowersMultiply(k: nat, count: nat)
    requires count >= 1
    ensures Pow2(k) <= Pow2(k) * count
    ensures Pow2(k + 1) * (count / 2) <= Pow2(k) * count
  {
    var half := count / 2;
    var p := Pow2(k);
    assert Pow2(k + 1) * half == p * (2 * half);
    MultiplyMonotone(p, 2 * half, count);
    MultiplyMonotone(p, 1, count);
  }

  lemma {:induction false} MultiplyMonotone(p: nat, a: nat, b: nat)
    requires a <= b
    ensures p * a <= p * b
  {
  }

  // The k-th attempt fetches a page that does not fit, and is not cancelled.
  predicate TooBig<P>(
      count: nat, k: nat, fetch: nat -> Result<P, ServiceError>, size: P -> nat, cancelled: nat -> bool)
  {
    && !cancelled(2 * k) && !cancelled(2 * k + 1)
    && fetch(count).Ok? && size(fetch(count).value) > 768 * 1024
  }

  /** The first attempt that is not just too big decides: a cancellation before or after its fetch,
      the error of the fetch, or the page; and when all are too big, that is the error. */
  lemma {:induction false} FirstDecides<P>(
      counts: seq<nat>, k: nat, fetch: nat -> Result<P, ServiceError>, size: P -> nat, cancelled: nat -> bool, i: nat)
    requires i <= |counts| && forall j :: 0 <= j < i ==> TooBig(counts[j], k + j, fetch, size, cancelled)
    ensures var r := FirstSettled(counts, k, fetch, size, cancelled);
            if i == |counts| then r == Err(TooLarge)
            else !TooBig(counts[i], k + i, fetch, size, cancelled) ==>
                   if cancelled(2 * (k + i)) then r == Err(Cancelled)
                   else if fetch(counts[i]).Err? || !cancelled(2 * (k + i) + 1) then r == fetch(counts[i])
                   else r == Err(Cancelled)
  {
    if i > 0 {
      var rest := counts[1..];
      assert TooBig(counts[0], k, fetch, size, cancelled);
      assert forall j :: 0 <= j < i - 1 ==> rest[j] == counts[j + 1] && k + 1 + j == k + (j + 1);
      FirstDecides(rest, k + 1, fetch, size, cancelled, i - 1);
      assert FirstSettled(counts, k, fetch, size, cancelled) == FirstSettled(rest, k + 1, fetch, size, cancelled);
    }
  }

  // What comes back is what one attempt fetched, unless the call is cancelled or nothing fits.
  lemma {:induction false} SettledIsFetched<P>(
      counts: seq<nat>, k: nat, fetch: nat -> Result<P, ServiceError>, size: P -> nat, cancelled: nat -> bool)
    ensures var r := FirstSettled(counts, k, fetch, size, cancelled);
            r == Err(Cancelled) || r == Err(TooLarge) || exists i :: 0 <= i < |counts| && r == fetch(counts[i])
  {
    if counts != [] && Attempt(counts[0], k, fetch, size, cancelled).None? {
      var rest := counts[1..];
      SettledIsFetched(rest, k + 1, fetch, size, cancelled);
      var r := FirstSettled(counts, k, fetch, size, cancelled);
      if i :| 0 <= i < |rest| && r == fetch(rest[i]) {
        assert r == fetch(counts[i + 1]);
      }
    } else if counts != [] && FirstSettled(counts, k, fetch, size, cancelled) != Err(Cancelled) {
      assert FirstSettled(counts, k, fetch, size, cancelled) == fetch(counts[0]);
    }
  }

  /** A page comes back only when it fits, every larger size having been too big; the size
      error comes back exactly when no size fits (no fetch failing, nothing cancelled). */
  lemma {:induction false} SettledMeans<P>(
      counts: seq<nat>, k: nat, fetch: nat -> Result<P, ServiceError>, size: P -> nat, cancelled: nat -> bool)
    requires forall i :: 0 <= i < |counts| ==> fetch(counts[i]).Ok?
    requires forall i :: !cancelled(i)
    ensures var r := FirstSettled(counts, k, fetch, size, cancelled);
            && (r.Err? ==> r.error == TooLarge)
            && (r.Err? ==> forall i :: 0 <= i < |counts| ==> size(fetch(counts[i]).value) > RESULT_BUDGET)
            && (r.Ok? ==> exists i :: 0 <= i < |counts| && r == fetch(counts[i])
                            && size(r.value) <= RESULT_BUDGET
                            && forall j :: 0 <= j < i ==> size(fetch(counts[j]).value) > RESULT_BUDGET)
  {
    if counts != [] && size(fetch(counts[0]).value) > RESULT_BUDGET {
      var rest := counts[1..];
      SettledMeans(rest, k + 1, fetch, size, cancelled);
      var r := FirstSettled(counts, k, fetch, size, cancelled);
      assert r == FirstSettled(rest, k + 1, fetch, size, cancelled);
      if r.Ok? {
        var i :| 0 <= i < |rest| && r == fetch(rest[i]) && size(r.value) <= RESULT_BUDGET
                 && forall j :: 0 <= j < i ==> size(fetch(rest[j]).value) > RESULT_BUDGET;
        assert r == fetch(counts[i + 1]);
        forall j | 0 <= j < i + 1 ensures size(fetch(counts[j]).value) > RESULT_BUDGET {
          if j > 0 { assert counts[j] == rest[j - 1]; }
        }
      } else {
        forall i | 0 <= i < |counts| ensures size(fetch(counts[i]).value) > RESULT_BUDGET {
          if i > 0 { assert counts[i] == rest[i - 1]; }
        }
      }
    } else if counts != [] {
      assert FirstSettled(counts, k, fetch, size, cancelled) == fetch(counts[0]);
    }
  }
}
