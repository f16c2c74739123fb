/**
  The scheduled expiry sweep: one `updateMany` that marks every ACTIVE file
  created more than 24 hours before `now` as EXPIRED and reports how many
  rows it changed. The schedule itself is not modelled; `now` is a parameter.
 */
module FileExpiry {
  import opened FileModel

  /** `subHours(now, 24)` moves back exactly 24 hours. */
  const DAY_MS: int := 24 * 60 * 60 * 1000

  function Cutoff(now: int): int {
    now - DAY_MS
  }

  /** The `where` clause: still ACTIVE and created strictly before the cutoff. */
  predicate Stale(f: FileRecord, now: int) {
    f.status == Active && f.createdAt < Cutoff(now)
  }

  /** The `data` clause applied to one row. */
  function Expire(f: FileRecord, now: int): (g: FileRecord)
    ensures g.status == Expired <==> f.status == Expired || f.createdAt < now - 86_400_000
    ensures g == f.(status := g.status)
    ensures !Stale(g, now)
  {
    if Stale(f, now) then f.(status := Expired) else f
  }

  /** Number of stale rows in `files`. */
  function CountStale(files: seq<FileRecord>, now: int): nat {
    if |files| == 0 then 0
    else CountStale(files[..|files| - 1], now) + (if Stale(files[|files| - 1], now) then 1 else 0)
  }

  /** Number of positions at which `a` and `b` differ. */
  function CountChanged(a: seq<FileRecord>, b: seq<FileRecord>): nat
    requires |a| == |b|
  {
    if |a| == 0 then 0
    else CountChanged(a[..|a| - 1], b[..|b| - 1]) + (if a[|a| - 1] != b[|b| - 1] then 1 else 0)
  }

  /** The sweep: the updated table and the `count` `updateMany` reports. */
  method Sweep(files: seq<FileRecord>, now: int) returns (swept: seq<FileRecord>, count: nat)
    ensures |swept| == |files|
    ensures forall i :: 0 <= i < |files| ==> swept[i] == Expire(files[i], now)
    ensures count == CountChanged(files, swept)
    ensures count == CountStale(files, now)
    ensures forall i :: 0 <= i < |swept| ==> !Stale(swept[i], now)
  {
    swept := [];
    count := 0;
    var i := 0;
    while i < |files|
      invariant 0 <= i <= |files|
      invariant |swept| == i
      invariant forall j :: 0 <= j < i ==> swept[j] == Expire(files[j], now)
      invariant count == CountChanged(files[..i], swept)
      invariant count == CountStale(files[..i], now)
    {
      var f := files[i];
      var g := Expire(f, now);
      assert files[..i + 1][..i] == files[..i];
      assert (swept + [g])[..i] == swept;
      if f != g {
        count := count + 1;
      }
      swept := swept + [g];
      i := i + 1;
    }
    assert files[..i] == files;
  }

  /** A table in which no row is stale is left as it is by a sweep, with a count of 0. */
  lemma {:induction false} NothingStaleNothingCounted(files: seq<FileRecord>, now: int)
    requires forall i :: 0 <= i < |files| ==> !Stale(files[i], now)
    ensures CountStale(files, now) == 0
    ensures forall i :: 0 <= i < |files| ==> Expire(files[i], now) == files[i]
  {
    if |files| > 0 {
      NothingStaleNothingCounted(files[..|files| - 1], now);
    }
  }

  /** A file created exactly 24 hours before the sweep stays ACTIVE: the comparison is strict. */
  lemma ExactlyOneDayOldStaysActive(f: FileRecord, now: int)
    requires f.status == Active && f.createdAt == now - 86_400_000
    ensures Expire(f, now) == f
  {
  }
}
