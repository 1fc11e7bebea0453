/** Backup retention on the local directory and on the bucket (app/backup.py, app/backup_s3.py).
    Times are seconds; listings are newest first. */
module Retention {

  datatype File = File(name: string, mtime: int, preRestore: bool)

  const DAY := 86400

  predicate NewestFirst(files: seq<File>) {
    forall i, j :: 0 <= i < j < |files| ==> files[i].mtime >= files[j].mtime
  }

  predicate DistinctNames(files: seq<File>) {
    forall i, j :: 0 <= i < j < |files| ==> files[i].name != files[j].name
  }

  /** What retention may touch: everything but pre-restore snapshots. */
  function Scheduled(files: seq<File>): seq<File> {
    if files == [] then []
    else (if files[0].preRestore then [] else [files[0]]) + Scheduled(files[1..])
  }

  function Older(files: seq<File>, cutoff: int): seq<File> {
    if files == [] then []
    else (if files[0].mtime < cutoff then [files[0]] else []) + Older(files[1..], cutoff)
  }

  /** The slices `files[:keep]` and `files[keep:]`, where a count of zero or less keeps everything. */
  function Kept(files: seq<File>, keep: int): seq<File> {
    if 0 < keep < |files| then files[..keep] else files
  }

  function Excess(files: seq<File>, keep: int): seq<File> {
    if 0 < keep < |files| then files[keep..] else []
  }

  /** The drop list both implementations build from a listing of prunable files. */
  function Dropped(files: seq<File>, keep: int, days: int, now: int): seq<File> {
    Excess(files, keep) + if days > 0 then Older(Kept(files, keep), now - days * DAY) else []
  }

  function Names(files: seq<File>): seq<string> {
    seq(|files|, i requires 0 <= i < |files| => files[i].name)
  }

  function Without(files: seq<File>, names: seq<string>): seq<File> {
    if files == [] then []
    else (if files[0].name in names then [] else [files[0]]) + Without(files[1..], names)
  }

  /** The policy as documented: inside the count and inside the age limit, zero meaning no limit. */
  predicate Survives(files: seq<File>, i: nat, keep: int, days: int, now: int)
    requires i < |files|
  {
    (keep <= 0 || i < keep) && (days <= 0 || files[i].mtime >= now - days * DAY)
  }

  /** How many of the newest files the policy keeps. */
  function Surviving(files: seq<File>, keep: int, days: int, now: int): (n: nat)
    ensures n <= |files|
    decreases |files|
  {
    if files == [] then 0
    else if Survives(files, |files| - 1, keep, days, now) then |files|
    else Surviving(files[..|files| - 1], keep, days, now)
  }

  lemma {:induction false} OlderAt(files: seq<File>, cutoff: int)
    ensures forall f :: f in Older(files, cutoff) <==> f in files && f.mtime < cutoff
    ensures DistinctNames(files) ==> DistinctNames(Older(files, cutoff))
    decreases |files|
  {
    if files != [] {
      OlderAt(files[1..], cutoff);
      assert files == [files[0]] + files[1..];
      var rest := Older(files[1..], cutoff);
      if DistinctNames(files) {
        forall i | 0 <= i < |rest| ensures rest[i].name != files[0].name {
          assert rest[i] in rest;
          var j :| 0 <= j < |files[1..]| && files[1..][j] == rest[i];
        }
      }
    }
  }

  /** A file is dropped exactly when the policy does not keep its position. */
  lemma DroppedIffNotSurviving(files: seq<File>, i: nat, keep: int, days: int, now: int)
    requires i < |files| && DistinctNames(files)
    ensures files[i] in Dropped(files, keep, days, now) <==> !Survives(files, i, keep, days, now)
  {
    var kept, excess := Kept(files, keep), Excess(files, keep);
    OlderAt(kept, now - days * DAY);
    if 0 < keep < |files| {
      assert i < keep ==> kept[i] == files[i];
      assert i >= keep ==> excess[i - keep] == files[i];
    }
  }

  /** No name is dropped twice. */
  lemma DroppedOnce(files: seq<File>, keep: int, days: int, now: int)
    requires DistinctNames(files)
    ensures DistinctNames(Dropped(files, keep, days, now))
  {
    var kept, excess := Kept(files, keep), Excess(files, keep);
    OlderAt(kept, now - days * DAY);
    var aged := if days > 0 then Older(kept, now - days * DAY) else [];
    forall i, j | 0 <= i < |excess| && 0 <= j < |aged| ensures excess[i].name != aged[j].name {
      assert aged[j] in kept;
      var k :| 0 <= k < |kept| && kept[k] == aged[j];
      assert files[k] == kept[k] && excess[i] == files[keep + i];
    }
  }

  lemma {:induction false} SurvivingIsPrefix(files: seq<File>, keep: int, days: int, now: int)
    requires NewestFirst(files)
    ensures forall i :: 0 <= i < |files| ==>
              (i < Surviving(files, keep, days, now) <==> Survives(files, i, keep, days, now))
    decreases |files|
  {
    if files != [] && !Survives(files, |files| - 1, keep, days, now) {
      var front := files[..|files| - 1];
      SurvivingIsPrefix(front, keep, days, now);
      assert forall i :: 0 <= i < |front| ==>
          Survives(files, i, keep, days, now) == Survives(front, i, keep, days, now);
    }
  }

  lemma {:induction false} WithoutSuffix(files: seq<File>, names: seq<string>, n: nat)
    requires n <= |files|
    requires forall i :: 0 <= i < |files| ==> (files[i].name in names <==> i >= n)
    ensures Without(files, names) == files[..n]
    decreases |files|
  {
    if files != [] {
      if n > 0 {
        WithoutSuffix(files[1..], names, n - 1);
        assert files[..n] == [files[0]] + files[1..][..n - 1];
      } else {
        WithoutSuffix(files[1..], names, 0);
      }
    }
  }

  /** Survivors are exactly the newest files the policy keeps: a prefix of the listing. */
  lemma {:induction false} SurvivorsArePrefix(files: seq<File>, keep: int, days: int, now: int)
    requires NewestFirst(files) && DistinctNames(files)
    ensures Without(files, Names(Dropped(files, keep, days, now))) == files[..Surviving(files, keep, days, now)]
  {
    var drop, n := Dropped(files, keep, days, now), Surviving(files, keep, days, now);
    SurvivingIsPrefix(files, keep, days, now);
    forall i | 0 <= i < |files| ensures files[i].name in Names(drop) <==> i >= n {
      DroppedIffNotSurviving(files, i, keep, days, now);
      if files[i] in drop {
        var j :| 0 <= j < |drop| && drop[j] == files[i];
        assert Names(drop)[j] == files[i].name;
      }
      if files[i].name in Names(drop) {
        var j :| 0 <= j < |drop| && Names(drop)[j] == files[i].name;
        DroppedAreListed(files, drop[j], keep, days, now);
        var k :| 0 <= k < |files| && files[k] == drop[j];
        assert k == i;
      }
    }
    WithoutSuffix(files, Names(drop), n);
  }

  lemma DroppedAreListed(files: seq<File>, f: File, keep: int, days: int, now: int)
    requires f in Dropped(files, keep, days, now)
    ensures f in files
  {
    var kept := Kept(files, keep);
    if f in Excess(files, keep) {
      assert f in files[keep..];
    } else {
      OlderAt(kept, now - days * DAY);
      assert f in kept;
    }
  }

  lemma {:induction false} OlderNone(files: seq<File>, cutoff: int)
    requires forall i :: 0 <= i < |files| ==> files[i].mtime >= cutoff
    ensures Older(files, cutoff) == []
    decreases |files|
  {
    if files != [] {
      OlderNone(files[1..], cutoff);
    }
  }

  lemma AllSurviveNoneDropped(files: seq<File>, keep: int, days: int, now: int)
    requires forall i :: 0 <= i < |files| ==> Survives(files, i, keep, days, now)
    ensures Dropped(files, keep, days, now) == []
  {
    if files != [] {
      assert Survives(files, |files| - 1, keep, days, now);
    }
    assert Excess(files, keep) == [];
    if days > 0 {
      forall i | 0 <= i < |Kept(files, keep)| ensures Kept(files, keep)[i].mtime >= now - days * DAY {
        assert Survives(files, i, keep, days, now);
      }
      OlderNone(Kept(files, keep), now - days * DAY);
    }
  }

  /** Running retention again at the same time drops nothing. */
  lemma {:induction false} RerunDropsNothing(files: seq<File>, keep: int, days: int, now: int)
    requires NewestFirst(files) && DistinctNames(files)
    ensures Dropped(Without(files, Names(Dropped(files, keep, days, now))), keep, days, now) == []
  {
    SurvivorsArePrefix(files, keep, days, now);
    SurvivingIsPrefix(files, keep, days, now);
    var left := files[..Surviving(files, keep, days, now)];
    assert forall i :: 0 <= i < |left| ==> Survives(left, i, keep, days, now) == Survives(files, i, keep, days, now);
    AllSurviveNoneDropped(left, keep, days, now);
  }

  // ----- the two implementations -----------------------------------------------------------------------

  class LocalDirectory {
    /** The directory's archives in listing order. */
    var files: seq<File>

    constructor (listing: seq<File>)
      ensures files == listing
    {
      files := listing;
    }

    method Unlink(name: string)
      modifies this
      ensures files == Without(old(files), [name])
    {
      files := Without(files, [name]);
    }

    /** `apply_local_retention`. */
    method ApplyRetention(keep: int, days: int, now: int) returns (deleted: seq<string>)
      modifies this
      ensures deleted == Names(Dropped(Scheduled(old(files)), keep, days, now))
      ensures files == Without(old(files), deleted)
    {
      var candidates := Scheduled(files);
      var kept := Kept(candidates, keep);
      var drop := Excess(candidates, keep);
      if days > 0 {
        drop := drop + Older(kept, now - days * DAY);
      }
      assert drop == Dropped(candidates, keep, days, now);
      deleted := [];
      WithoutNothing(files);
      var i := 0;
      while i < |drop|
        invariant 0 <= i <= |drop| && deleted == Names(drop)[..i]
        invariant files == Without(old(files), deleted)
      {
        Unlink(drop[i].name);
        WithoutMore(old(files), deleted, drop[i].name);
        deleted := deleted + [drop[i].name];
        i := i + 1;
      }
    }
  }

  lemma {:induction false} WithoutNothing(files: seq<File>)
    ensures Without(files, []) == files
    decreases |files|
  {
    if files != [] {
      WithoutNothing(files[1..]);
    }
  }

  lemma {:induction false} WithoutMore(files: seq<File>, names: seq<string>, name: string)
    ensures Without(Without(files, names), [name]) == Without(files, names + [name])
    decreases |files|
  {
    if files != [] {
      WithoutMore(files[1..], names, name);
      var rest := Without(files[1..], names);
      assert files[0].name in names + [name] <==> files[0].name in names || files[0].name == name;
      if files[0].name in names {
        assert Without(files, names) == rest;
      } else {
        assert Without(files, names)[0] == files[0] && Without(files, names)[1..] == rest;
      }
    }
  }

  /** `apply_s3_retention` on the bucket's listing of the backup prefix: the names it deletes. */
  method S3Drop(files: seq<File>, keep: int, days: int, now: int) returns (names: seq<string>)
    ensures names == Names(Dropped(files, keep, days, now))
  {
    var drop := if keep > 0 then (if keep < |files| then files[keep..] else []) else [];
    if days > 0 {
      var cutoff := now - days * DAY;
      var kept := if keep > 0 then (if keep < |files| then files[..keep] else files) else files;
      drop := drop + Older(kept, cutoff);
    }
    assert drop == Dropped(files, keep, days, now);
    names := Names(drop);
  }

  lemma {:induction false} ScheduledMember(files: seq<File>, f: File)
    ensures f in Scheduled(files) <==> f in files && !f.preRestore
    decreases |files|
  {
    if files != [] {
      ScheduledMember(files[1..], f);
      assert files == [files[0]] + files[1..];
    }
  }

  lemma {:induction false} ScheduledKeepsOrder(files: seq<File>)
    requires DistinctNames(files) && NewestFirst(files)
    ensures DistinctNames(Scheduled(files)) && NewestFirst(Scheduled(files))
    decreases |files|
  {
    if files != [] {
      ScheduledKeepsOrder(files[1..]);
      var rest := Scheduled(files[1..]);
      forall i | 0 <= i < |rest| ensures rest[i].name != files[0].name && rest[i].mtime <= files[0].mtime {
        ScheduledMember(files[1..], rest[i]);
        var j :| 0 <= j < |files[1..]| && files[1..][j] == rest[i];
        assert files[j + 1] == rest[i];
      }
    }
  }

  lemma NamesDiffer(files: seq<File>, f: File, g: File)
    requires DistinctNames(files) && f in files && g in files && f != g
    ensures f.name != g.name
  {
    var a :| 0 <= a < |files| && files[a] == f;
    var b :| 0 <= b < |files| && files[b] == g;
  }

  /** Retention of the local directory never removes a pre-restore snapshot, and keeps of the scheduled
      archives exactly a newest prefix. */
  lemma {:induction false} LocalSurvivors(files: seq<File>, keep: int, days: int, now: int)
    requires NewestFirst(files) && DistinctNames(files)
    ensures var after := Without(files, Names(Dropped(Scheduled(files), keep, days, now)));
            && Scheduled(after) == Scheduled(files)[..Surviving(Scheduled(files), keep, days, now)]
            && (forall f :: f in files && f.preRestore ==> f in after)
  {
    var names := Names(Dropped(Scheduled(files), keep, days, now));
    ScheduledKeepsOrder(files);
    SurvivorsArePrefix(Scheduled(files), keep, days, now);
    ScheduledWithout(files, names);
    forall f | f in files && f.preRestore ensures f in Without(files, names) {
      var drop := Dropped(Scheduled(files), keep, days, now);
      forall j | 0 <= j < |drop| ensures names[j] != f.name {
        DroppedAreListed(Scheduled(files), drop[j], keep, days, now);
        ScheduledMember(files, drop[j]);
        NamesDiffer(files, drop[j], f);
      }
      WithoutKeeps(files, names, f);
    }
  }

  lemma {:induction false} ScheduledWithout(files: seq<File>, names: seq<string>)
    ensures Scheduled(Without(files, names)) == Without(Scheduled(files), names)
    decreases |files|
  {
    if files != [] {
      ScheduledWithout(files[1..], names);
      var left, rest := Without(files[1..], names), Scheduled(files[1..]);
      if files[0].name in names {
        assert Without(files, names) == left;
      } else {
        assert Without(files, names)[0] == files[0] && Without(files, names)[1..] == left;
      }
      if files[0].preRestore {
        assert Scheduled(files) == rest;
      } else {
        assert Scheduled(files)[0] == files[0] && Scheduled(files)[1..] == rest;
      }
    }
  }

  lemma {:induction false} WithoutKeeps(files: seq<File>, names: seq<string>, f: File)
    requires f in files && f.name !in names
    ensures f in Without(files, names)
    decreases |files|
  {
    if files[0] != f {
      assert f in files[1..];
      WithoutKeeps(files[1..], names, f);
    }
  }
}
