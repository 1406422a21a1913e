/**
  Retention of finalized log files: an age pass, then a size pass over the files sorted by time.
  The same loops serve captured output (crates/supervisor/src/journal.rs), with limits that may
  be off, and diagnostics (crates/diagnostics/src/lib.rs), with fixed limits.
*/
module Retention {
  import opened Base

  /** A finalized file; `modified` is its time in nanoseconds. */
  datatype FinalizedFile = FinalizedFile(path: nat, modified: int, size: nat, removed: bool)

  /** The limits in force, None when switched off. */
  datatype Limits = Limits(age: Option<nat>, size: Option<nat>)

  const DIAGNOSTIC_LIMITS: Limits :=
    Limits(Some(7 * 24 * 60 * 60 * 1_000_000_000), Some(256 * 1024 * 1024))

  type Files = seq<FinalizedFile>

  predicate SortedByTime(s: Files) {
    forall i, j :: 0 <= i <= j < |s| ==> s[i].modified <= s[j].modified
  }

  /** A time in the future counts as no age at all. */
  function Age(now: int, f: FinalizedFile): nat {
    Max(0, now - f.modified)
  }

  predicate TooOld(now: int, limits: Limits, f: FinalizedFile) {
    limits.age.Some? && Age(now, f) > limits.age.value
  }

  function Total(s: Files, lo: nat, hi: nat): nat
    requires hi <= |s|
  {
    if lo >= hi then 0 else Total(s, lo, hi - 1) + s[hi - 1].size
  }

  /** The files from `k` on are all within both limits. */
  predicate Fits(s: Files, now: int, limits: Limits, k: nat)
    requires k <= |s|
  {
    && (forall i :: k <= i < |s| ==> !TooOld(now, limits, s[i]))
    && (limits.size.Some? ==> Total(s, k, |s|) <= limits.size.value)
  }

  /** The first index at or after `k` from which on the files fit. */
  function Start(s: Files, now: int, limits: Limits, k: nat): (start: nat)
    requires k <= |s|
    ensures k <= start <= |s| && Fits(s, now, limits, start)
    ensures forall j :: k <= j < start ==> !Fits(s, now, limits, j)
    decreases |s| - k
  {
    if Fits(s, now, limits, k) then k else Start(s, now, limits, k + 1)
  }

  lemma {:induction false} TotalFromFront(s: Files, lo: nat, hi: nat)
    requires lo < hi <= |s|
    ensures Total(s, lo, hi) == s[lo].size + Total(s, lo + 1, hi)
  {
    if lo + 1 < hi {
      TotalFromFront(s, lo, hi - 1);
    }
  }

  /** A suffix of files that fit fits: the files kept are the longest newest run within the limits. */
  lemma {:induction false} ShorterFits(s: Files, now: int, limits: Limits, k: nat, j: nat)
    requires k <= j <= |s| && Fits(s, now, limits, k)
    ensures Fits(s, now, limits, j)
    decreases j - k
  {
    if k < j {
      TotalFromFront(s, k, |s|);
      ShorterFits(s, now, limits, k + 1, j);
    }
  }

  /** The files kept fit, and no longer run of newest files does. */
  lemma KeptIsLongest(s: Files, now: int, limits: Limits, k: nat)
    requires k <= |s|
    ensures Fits(s, now, limits, k) <==> Start(s, now, limits, 0) <= k
  {
    if Start(s, now, limits, 0) <= k {
      ShorterFits(s, now, limits, Start(s, now, limits, 0), k);
    }
  }

  /** Files as they were, but for what has been removed. */
  predicate SameFiles(s: Files, t: Files) {
    |s| == |t| && forall i :: 0 <= i < |s| ==> t[i] == s[i].(removed := t[i].removed)
  }

  predicate RemovedBefore(files: Files, k: nat) {
    forall i :: 0 <= i < |files| ==> (files[i].removed <==> i < k)
  }

  /** The first pass removes the files that are too old, which come first. */
  method RemoveOld(files: array<FinalizedFile>, now: int, limits: Limits, deletable: set<nat>)
    returns (ok: bool, ghost young: nat)
    requires SortedByTime(files[..]) && RemovedBefore(files[..], 0) && limits.age.Some?
    modifies files
    ensures SameFiles(old(files[..]), files[..]) && RemovedBefore(files[..], young)
    ensures young <= Start(old(files[..]), now, limits, 0)
    ensures ok ==> forall j :: 0 <= j < files.Length ==> (TooOld(now, limits, old(files[..])[j]) <==> j < young)
    ensures !ok ==> young < Start(old(files[..]), now, limits, 0) && old(files[..])[young].path !in deletable
  {
    ghost var s := files[..];
    young := 0;
    for i := 0 to files.Length
      invariant SameFiles(s, files[..]) && RemovedBefore(files[..], young)
      invariant 0 <= young <= i && young <= Start(s, now, limits, 0)
      invariant forall j :: 0 <= j < i ==> (TooOld(now, limits, s[j]) <==> j < young)
    {
      assert files[..][i] == files[i];
      if Max(0, now - files[i].modified) > limits.age.value {
        OldAreFirst(s, now, limits, young, i, Start(s, now, limits, 0));
        if files[i].path !in deletable {
          return false, young;
        }
        files[i] := files[i].(removed := true);
        young := i + 1;
      }
    }
    return true, young;
  }

  /** What the files not yet removed come to. */
  method Retained(files: array<FinalizedFile>, ghost young: nat) returns (bytes: nat)
    requires RemovedBefore(files[..], young) && young <= files.Length
    ensures bytes == Total(files[..], young, files.Length)
  {
    bytes := 0;
    for i := 0 to files.Length
      invariant bytes == Total(files[..], young, i)
    {
      assert files[..][i] == files[i];
      if !files[i].removed {
        bytes := bytes + files[i].size;
      }
    }
  }

  lemma {:induction false} TotalSame(s: Files, t: Files, lo: nat, hi: nat)
    requires SameFiles(s, t) && hi <= |s|
    ensures Total(s, lo, hi) == Total(t, lo, hi)
  {
    if lo < hi {
      TotalSame(s, t, lo, hi - 1);
    }
  }

  /** The second pass removes files from the oldest on until the rest is small enough. */
  method RemoveExcess(files: array<FinalizedFile>, ghost s: Files, now: int, limits: Limits, deletable: set<nat>,
                      ghost young: nat)
    returns (ok: bool, ghost first: nat)
    requires SameFiles(s, files[..]) && RemovedBefore(files[..], young) && limits.size.Some?
    requires young <= Start(s, now, limits, 0)
    modifies files
    ensures SameFiles(s, files[..]) && RemovedBefore(files[..], first)
    ensures young <= first <= Start(s, now, limits, 0)
    ensures ok ==> Total(s, first, |s|) <= limits.size.value
    ensures !ok ==> first < Start(s, now, limits, 0) && s[first].path !in deletable
  {
    var bytes := Retained(files, young);
    TotalSame(s, files[..], young, |s|);
    first := young;
    for i := 0 to files.Length
      invariant SameFiles(s, files[..]) && RemovedBefore(files[..], first)
      invariant first == Max(young, i) && first <= Start(s, now, limits, 0)
      invariant bytes == Total(s, first, |s|)
    {
      if bytes <= limits.size.value {
        break;
      }
      assert files[..][i] == files[i];
      if !files[i].removed {
        TooLarge(s, now, limits, first, Start(s, now, limits, 0));
        if files[i].path !in deletable {
          return false, first;
        }
        files[i] := files[i].(removed := true);
        bytes := if bytes >= files[i].size then bytes - files[i].size else 0;
        first := i + 1;
      }
    }
    return true, first;
  }

  /**
    Applies the limits to files sorted by time. A file whose deletion fails ends the run with
    false. When it ends with true, exactly the longest newest run of files within the limits is
    left; in no case is a file of that run deleted.
  */
  method ApplyRetention(files: array<FinalizedFile>, now: int, limits: Limits, deletable: set<nat>) returns (ok: bool)
    requires SortedByTime(files[..]) && RemovedBefore(files[..], 0)
    modifies files
    ensures SameFiles(old(files[..]), files[..])
    ensures var start := Start(old(files[..]), now, limits, 0);
            && (ok ==> RemovedBefore(files[..], start))
            && (!ok ==> exists k :: 0 <= k < start && RemovedBefore(files[..], k) &&
                                    old(files[..])[k].path !in deletable)
  {
    ghost var s := files[..];
    ghost var young := 0;
    if limits.age.Some? {
      ok, young := RemoveOld(files, now, limits, deletable);
      if !ok {
        return false;
      }
    }
    ghost var first := young;
    if limits.size.Some? {
      ok, first := RemoveExcess(files, s, now, limits, deletable, young);
      if !ok {
        return false;
      }
    }
    FirstFit(s, now, limits, young, first, Start(s, now, limits, 0));
    return true;
  }

  /** A file too old is outside every run that fits, and so is every file before it. */
  lemma OldAreFirst(s: Files, now: int, limits: Limits, young: nat, i: nat, start: nat)
    requires SortedByTime(s) && young <= i < |s| && start == Start(s, now, limits, 0)
    requires TooOld(now, limits, s[i])
    requires forall j :: 0 <= j < i ==> (TooOld(now, limits, s[j]) <==> j < young)
    ensures young == i && i < start
  {
    assert forall j :: 0 <= j <= i ==> s[j].modified <= s[i].modified;
    assert young < i ==> TooOld(now, limits, s[young]);
  }

  lemma TooLarge(s: Files, now: int, limits: Limits, first: nat, start: nat)
    requires first < |s| && start == Start(s, now, limits, 0) && first <= start
    requires limits.size.Some? && Total(s, first, |s|) > limits.size.value
    ensures first < start
    ensures Total(s, first, |s|) == s[first].size + Total(s, first + 1, |s|)
  {
    TotalFromFront(s, first, |s|);
  }

  lemma FirstFit(s: Files, now: int, limits: Limits, young: nat, first: nat, start: nat)
    requires young <= first <= start <= |s| && start == Start(s, now, limits, 0)
    requires forall j :: 0 <= j < |s| ==> (TooOld(now, limits, s[j]) <==> j < young)
    requires limits.size.Some? ==> first == |s| || Total(s, first, |s|) <= limits.size.value
    ensures first == start
  {
    assert Fits(s, now, limits, first);
  }
}
