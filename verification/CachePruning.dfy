/** Oldest-first eviction of cached files, under arbitrary removal failures. */
module CachePruning {
  import opened Sequences

  /** known says whether the entry's metadata could be read. */
  datatype Entry = Entry(isDir: bool, known: bool, size: nat, modified: int)

  type Directory = map<string, Entry>

  const MAX_CACHE_BYTES: nat := 0x1000_0000
  const MAX_CAPTURE_BYTES: nat := 0x400_0000

  /** The entries a trim counts: plain files it may touch, whose metadata it could read. */
  ghost function Counted(dir: Directory, mine: string -> bool): Directory {
    map name | name in dir && Counts(dir[name]) && mine(name) :: dir[name]
  }

  predicate Counts(e: Entry) {
    !e.isDir && e.known
  }

  /** Exactly the plain files with readable metadata that are ours are counted, with their sizes. */
  lemma CountedIff(dir: Directory, mine: string -> bool, name: string)
    ensures name in Counted(dir, mine) <==> name in dir && !dir[name].isDir && dir[name].known && mine(name)
    ensures name in Counted(dir, mine) ==> Counted(dir, mine)[name] == dir[name]
  {}

  ghost function TotalBytes(dir: Directory): nat
    decreases |dir|
  {
    if dir == map[] then 0
    else
      var name :| name in dir;
      dir[name].size + TotalBytes(dir - {name})
  }

  lemma {:induction false} BytesWithout(dir: Directory, name: string)
    requires name in dir
    ensures TotalBytes(dir) == dir[name].size + TotalBytes(dir - {name})
    decreases |dir|
  {
    var pick :| pick in dir && TotalBytes(dir) == dir[pick].size + TotalBytes(dir - {pick});
    if pick != name {
      BytesWithout(dir - {pick}, name);
      BytesWithout(dir - {name}, pick);
      assert dir - {pick} - {name} == dir - {name} - {pick};
    }
  }

  predicate NotNewer(dir: Directory, a: string, b: string) {
    a in dir && b in dir && dir[a].modified <= dir[b].modified
  }

  ghost predicate OldestFirst(names: seq<string>, dir: Directory) {
    (forall i :: 0 <= i < |names| ==> names[i] in dir) &&
    forall i, j :: 0 <= i < j < |names| ==> NotNewer(dir, names[i], names[j])
  }

  /** left is what remains of the counted files, freed the bytes removed, failed whether some removal failed. */
  datatype Outcome = Outcome(left: Directory, freed: nat, failed: bool)

  /** The removal loop over a listing; removing a name in stuck fails. */
  ghost function Sweep(names: seq<string>, dir: Directory, total: int, limit: int, stuck: set<string>): Outcome
    requires forall i :: 0 <= i < |names| ==> names[i] in dir
    requires Distinct(names)
  {
    if names == [] || total <= limit then Outcome(dir, 0, false)
    else
      assert forall i :: 0 <= i < |names[1..]| ==> names[1..][i] == names[i + 1];
      if names[0] in stuck then
        var rest := Sweep(names[1..], dir, total, limit, stuck);
        Outcome(rest.left, rest.freed, true)
      else
        var size := dir[names[0]].size;
        var rest := Sweep(names[1..], dir - {names[0]}, total - size, limit, stuck);
        Outcome(rest.left, size + rest.freed, rest.failed)
  }

  ghost function Removed(dir: Directory, left: Directory): set<string> {
    dir.Keys - left.Keys
  }

  /** Bytes freed and bytes left add up to the bytes at the start; nothing is altered, only removed. */
  lemma {:induction false} SweepConserves(
      names: seq<string>, dir: Directory, total: int, limit: int, stuck: set<string>)
    requires Distinct(names) && forall i :: 0 <= i < |names| ==> names[i] in dir
    ensures var o := Sweep(names, dir, total, limit, stuck);
      && o.freed + TotalBytes(o.left) == TotalBytes(dir)
      && o.left.Keys <= dir.Keys && o.left == dir - Removed(dir, o.left)
      && (forall name :: name in Removed(dir, o.left) ==> name in names && name !in stuck)
  {
    var o := Sweep(names, dir, total, limit, stuck);
    if names != [] && total > limit {
      assert forall i :: 0 <= i < |names[1..]| ==> names[1..][i] == names[i + 1];
      if names[0] in stuck {
        SweepConserves(names[1..], dir, total, limit, stuck);
      } else {
        BytesWithout(dir, names[0]);
        SweepConserves(names[1..], dir - {names[0]}, total - dir[names[0]].size, limit, stuck);
        assert Removed(dir, o.left) == Removed(dir - {names[0]}, o.left) + {names[0]};
      }
    }
  }

  /** A removed file is no newer than any file that was left although it could have been removed. */
  lemma {:induction false} SweepTakesOldest(
      names: seq<string>, dir: Directory, total: int, limit: int, stuck: set<string>, gone: string, kept: string)
    requires Distinct(names) && OldestFirst(names, dir)
    requires var o := Sweep(names, dir, total, limit, stuck); gone in Removed(dir, o.left) && kept in o.left
    requires kept in names && kept !in stuck && gone in dir && kept in dir
    ensures dir[gone].modified <= dir[kept].modified
  {
    SweepConserves(names, dir, total, limit, stuck);
    assert names != [] && total > limit;
    assert forall i :: 0 <= i < |names[1..]| ==> names[1..][i] == names[i + 1];
    if names[0] in stuck {
      SweepTakesOldest(names[1..], dir, total, limit, stuck, gone, kept);
    } else {
      var rest := dir - {names[0]};
      SweepConserves(names[1..], rest, total - dir[names[0]].size, limit, stuck);
      if gone != names[0] {
        SweepTakesOldest(names[1..], rest, total - dir[names[0]].size, limit, stuck, gone, kept);
      }
    }
  }

  /** If the rest still does not fit, every file was tried and some removal failed. */
  lemma {:induction false} SweepFitsOrExhausts(
      names: seq<string>, dir: Directory, total: int, limit: int, stuck: set<string>)
    requires Distinct(names) && forall i :: 0 <= i < |names| ==> names[i] in dir
    requires total == TotalBytes(dir)
    ensures var o := Sweep(names, dir, total, limit, stuck);
      && (TotalBytes(o.left) > limit ==>
        forall name :: name in names ==> name in stuck || name !in o.left)
      && (TotalBytes(o.left) > limit && (exists name :: name in names && name in stuck) ==> o.failed)
      && (o.failed ==> exists name :: name in names && name in stuck)
  {
    if names != [] && total > limit {
      var o := Sweep(names, dir, total, limit, stuck);
      assert forall i :: 0 <= i < |names[1..]| ==> names[1..][i] == names[i + 1];
      assert forall name :: name in names ==> name == names[0] || name in names[1..];
      if names[0] in stuck {
        SweepFitsOrExhausts(names[1..], dir, total, limit, stuck);
        SweepConserves(names[1..], dir, total, limit, stuck);
      } else {
        var rest := dir - {names[0]};
        BytesWithout(dir, names[0]);
        SweepFitsOrExhausts(names[1..], rest, total - dir[names[0]].size, limit, stuck);
        SweepConserves(names[1..], rest, total - dir[names[0]].size, limit, stuck);
      }
    }
  }

  /** victim was the newest file removed, and with it still there the files exceeded the limit. */
  ghost predicate NeededVictim(dir: Directory, left: Directory, limit: int, victim: string) {
    victim in Removed(dir, left) && victim in dir && TotalBytes(left) + dir[victim].size > limit &&
    forall name :: name in Removed(dir, left) ==> dir[name].modified <= dir[victim].modified
  }

  lemma VictimOfLargerDirectory(dir: Directory, first: string, left: Directory, limit: int, victim: string)
    requires first in dir && first !in left && NeededVictim(dir - {first}, left, limit, victim)
    requires dir[first].modified <= dir[victim].modified
    ensures NeededVictim(dir, left, limit, victim)
  {
    assert Removed(dir, left) == Removed(dir - {first}, left) + {first};
  }

  /** No removal is gratuitous: just before the last one, the files exceeded the limit. */
  lemma {:induction false} SweepStopsInTime(
      names: seq<string>, dir: Directory, total: int, limit: int, stuck: set<string>)
    returns (victim: string)
    requires Distinct(names) && OldestFirst(names, dir) && total == TotalBytes(dir)
    requires Removed(dir, Sweep(names, dir, total, limit, stuck).left) != {}
    ensures victim in names
    ensures NeededVictim(dir, Sweep(names, dir, total, limit, stuck).left, limit, victim)
  {
    var o := Sweep(names, dir, total, limit, stuck);
    assert forall i :: 0 <= i < |names[1..]| ==> names[1..][i] == names[i + 1];
    if names[0] in stuck {
      victim := SweepStopsInTime(names[1..], dir, total, limit, stuck);
    } else {
      var rest := dir - {names[0]};
      BytesWithout(dir, names[0]);
      SweepConserves(names[1..], rest, total - dir[names[0]].size, limit, stuck);
      if Removed(rest, o.left) == {} {
        assert o.left == rest;
        victim := names[0];
      } else {
        victim := SweepStopsInTime(names[1..], rest, total - dir[names[0]].size, limit, stuck);
        VictimOfLargerDirectory(dir, names[0], o.left, limit, victim);
      }
    }
  }

  ghost predicate StrictlyNewest(dir: Directory, newest: string) {
    newest in dir && forall name :: name in dir && name != newest ==> dir[name].modified < dir[newest].modified
  }

  /** Everything a trim promises about the counted files before and after it. */
  ghost predicate Trimmed(
      before: Directory, after: Directory, limit: int, stuck: set<string>, freed: int, failed: bool)
  {
    && after == before - Removed(before, after)
    && freed + TotalBytes(after) == TotalBytes(before)
    && Removed(before, after) !! stuck
    && (forall gone, kept :: gone in Removed(before, after) && kept in after && kept !in stuck ==>
      before[gone].modified <= after[kept].modified)
    && (Removed(before, after) != {} ==> exists victim :: NeededVictim(before, after, limit, victim))
    && (TotalBytes(after) > limit ==> failed && forall name :: name in before ==> name in stuck || name !in after)
    && (failed ==> TotalBytes(before) > limit && exists name :: name in before && name in stuck)
  }

  /** Whatever order ties come out in, and whichever removals fail, the sweep keeps the trim's promises. */
  lemma SweepTrims(names: seq<string>, dir: Directory, limit: nat, stuck: set<string>)
    requires Distinct(names) && OldestFirst(names, dir) && Elements(names) == dir.Keys
    ensures var o := Sweep(names, dir, TotalBytes(dir), limit, stuck);
      Trimmed(dir, o.left, limit, stuck, o.freed, o.failed)
  {
    var o := Sweep(names, dir, TotalBytes(dir), limit, stuck);
    SweepConserves(names, dir, TotalBytes(dir), limit, stuck);
    SweepFitsOrExhausts(names, dir, TotalBytes(dir), limit, stuck);
    assert forall name :: name in dir <==> name in Elements(names);
    forall gone, kept | gone in Removed(dir, o.left) && kept in o.left && kept !in stuck
      ensures dir[gone].modified <= o.left[kept].modified
    {
      SweepTakesOldest(names, dir, TotalBytes(dir), limit, stuck, gone, kept);
    }
    if Removed(dir, o.left) != {} {
      var victim := SweepStopsInTime(names, dir, TotalBytes(dir), limit, stuck);
    }
    assert (forall name :: name in dir ==> name !in o.left) ==> o.left == map[];
  }

  lemma {:induction false} BytesMonotone(part: Directory, dir: Directory)
    requires part.Keys <= dir.Keys && forall name :: name in part ==> part[name] == dir[name]
    ensures TotalBytes(part) <= TotalBytes(dir)
    decreases |dir|
  {
    if part != map[] {
      var name :| name in part;
      BytesWithout(part, name);
      BytesWithout(dir, name);
      BytesMonotone(part - {name}, dir - {name});
    }
  }

  /** The files a trim cannot remove. */
  ghost function Immovable(dir: Directory, stuck: set<string>): Directory {
    map name | name in dir && name in stuck :: dir[name]
  }

  lemma ImmovableAndOne(dir: Directory, stuck: set<string>, name: string)
    requires name in dir && name !in stuck
    ensures TotalBytes(Immovable(dir, stuck)) + dir[name].size <= TotalBytes(dir)
    ensures (forall other :: other in dir ==> other == name || other in stuck) ==>
      TotalBytes(Immovable(dir, stuck)) + dir[name].size == TotalBytes(dir)
  {
    BytesWithout(dir, name);
    BytesMonotone(Immovable(dir, stuck), dir - {name});
    if forall other :: other in dir ==> other == name || other in stuck {
      assert Immovable(dir, stuck) == dir - {name};
    }
  }

  /** The last file in the listing survives exactly when it fits beside the files that cannot be removed. */
  lemma {:induction false} LastSurvivesIff(names: seq<string>, dir: Directory, limit: int, stuck: set<string>)
    requires Distinct(names) && names != [] && forall i :: 0 <= i < |names| ==> names[i] in dir
    requires names[|names| - 1] !in stuck
    requires forall name :: name in dir ==> name in names || name in stuck
    ensures var last := names[|names| - 1];
      last in Sweep(names, dir, TotalBytes(dir), limit, stuck).left <==>
      TotalBytes(Immovable(dir, stuck)) + dir[last].size <= limit
  {
    var last := names[|names| - 1];
    ImmovableAndOne(dir, stuck, last);
    if |names| == 1 {
      assert names[1..] == [];
    } else if TotalBytes(dir) > limit {
      assert forall i :: 0 <= i < |names[1..]| ==> names[1..][i] == names[i + 1];
      if names[0] in stuck {
        LastSurvivesIff(names[1..], dir, limit, stuck);
      } else {
        var rest := dir - {names[0]};
        BytesWithout(dir, names[0]);
        assert Immovable(rest, stuck) == Immovable(dir, stuck);
        LastSurvivesIff(names[1..], rest, limit, stuck);
      }
    }
  }

  /** The strictly newest file is removed only when it does not fit beside the files that cannot be removed. */
  ghost predicate NewestKept(before: Directory, after: Directory, limit: int, stuck: set<string>) {
    forall newest :: StrictlyNewest(before, newest) ==>
      (newest in after <==> newest in stuck || TotalBytes(Immovable(before, stuck)) + before[newest].size <= limit)
  }

  /** The strictly newest file survives a trim exactly when it cannot be removed, or fits beside those that cannot. */
  lemma NewestSurvivesIff(names: seq<string>, dir: Directory, limit: int, stuck: set<string>, newest: string)
    requires Distinct(names) && OldestFirst(names, dir) && Elements(names) == dir.Keys
    requires StrictlyNewest(dir, newest)
    ensures newest in Sweep(names, dir, TotalBytes(dir), limit, stuck).left <==>
      newest in stuck || TotalBytes(Immovable(dir, stuck)) + dir[newest].size <= limit
  {
    SweepConserves(names, dir, TotalBytes(dir), limit, stuck);
    assert newest in Elements(names);
    var i :| 0 <= i < |names| && names[i] == newest;
    var last := names[|names| - 1];
    assert last in Elements(names);
    assert i == |names| - 1 || NotNewer(dir, newest, last);
    assert last == newest;
    if newest !in stuck {
      assert forall name :: name in dir ==> name in Elements(names);
      LastSurvivesIff(names, dir, limit, stuck);
    }
  }

  // --- the directory and the trim that works on it ---

  datatype Listing = Listed | Missing | Unreadable

  /** What the file system makes of a write: all of it, a file with fewer bytes, or no file. */
  datatype Disk = Accepts | CutsShort(kept: nat) | Rejects

  /** No write goes through in a directory that is not there. */
  function OnDisk(present: bool, disk: Disk): Disk {
    if present then disk else Rejects
  }

  function Written(dir: Directory, name: string, size: nat, now: int): Directory {
    dir[name := Entry(false, true, size, now)]
  }

  /** The directory after an attempt to write. */
  function AfterWrite(dir: Directory, name: string, size: nat, now: int, disk: Disk): Directory {
    match disk
    case Accepts => Written(dir, name, size, now)
    case CutsShort(kept) => Written(dir, name, if kept < size then kept else size, now)
    case Rejects => dir
  }

  class CacheDirectory {
    var present: bool
    var entries: Directory

    ghost predicate Valid()
      reads this
    {
      !present ==> entries == map[]
    }

    constructor (present: bool, entries: Directory)
      requires !present ==> entries == map[]
      ensures Valid() && this.present == present && this.entries == entries
    {
      this.present, this.entries := present, entries;
    }

    /** A missing directory is told apart from one that cannot be read. */
    method List(readable: bool) returns (listing: Listing)
      ensures listing.Listed? <==> present && readable
      ensures listing.Missing? <==> !present
    {
      listing := if !present then Missing else if readable then Listed else Unreadable;
    }

    /** stuck holds the names whose removal the file system refuses. */
    method Remove(name: string, stuck: set<string>) returns (removed: bool)
      modifies this`entries
      ensures removed == (name !in stuck)
      ensures entries == if removed then old(entries) - {name} else old(entries)
    {
      removed := name !in stuck;
      if removed {
        entries := entries - {name};
      }
    }

    method Write(name: string, size: nat, now: int, disk: Disk) returns (written: bool)
      requires Valid()
      modifies this`entries
      ensures Valid() && written == OnDisk(present, disk).Accepts?
      ensures entries == AfterWrite(old(entries), name, size, now, OnDisk(present, disk))
    {
      if !present || disk.Rejects? {
        return false;
      }
      var kept := if disk.CutsShort? && disk.kept < size then disk.kept else size;
      entries := entries[name := Entry(false, true, kept, now)];
      written := disk.Accepts?;
    }
  }

  /** A listing of the given names by modification time; names of equal time may come out either way. */
  method SortByModified(names: seq<string>, dir: Directory) returns (out: seq<string>)
    requires Distinct(names) && forall i :: 0 <= i < |names| ==> names[i] in dir
    ensures Distinct(out) && OldestFirst(out, dir) && Elements(out) == Elements(names)
  {
    out := [];
    for n := 0 to |names|
      invariant OldestFirst(out, dir) && multiset(out) == multiset(names[..n])
    {
      assert names[..n + 1] == names[..n] + [names[n]];
      out := InsertByModified(out, names[n], dir);
    }
    assert names[..|names|] == names;
    PermutationKeepsDistinct(names, out);
  }

  method InsertByModified(names: seq<string>, name: string, dir: Directory) returns (out: seq<string>)
    requires OldestFirst(names, dir) && name in dir
    ensures OldestFirst(out, dir) && multiset(out) == multiset(names) + multiset{name}
  {
    var k := |names|;
    while k > 0 && dir[name].modified < dir[names[k - 1]].modified
      invariant 0 <= k <= |names|
      invariant forall i :: k <= i < |names| ==> dir[name].modified < dir[names[i]].modified
    {
      k := k - 1;
    }
    SpliceByModified(names, k, name, dir);
    out := names[..k] + [name] + names[k..];
  }

  lemma SpliceByModified(names: seq<string>, k: nat, name: string, dir: Directory)
    requires OldestFirst(names, dir) && k <= |names| && name in dir
    requires forall i :: k <= i < |names| ==> dir[name].modified < dir[names[i]].modified
    requires k > 0 ==> dir[names[k - 1]].modified <= dir[name].modified
    ensures OldestFirst(names[..k] + [name] + names[k..], dir)
    ensures multiset(names[..k] + [name] + names[k..]) == multiset(names) + multiset{name}
  {
    InsertIsPermutation(names, k, name);
    forall i | 0 <= i < k ensures NotNewer(dir, names[i], name) {
      assert i == k - 1 || NotNewer(dir, names[i], names[k - 1]);
    }
  }

  lemma CountedWithout(rest: Directory, name: string, mine: string -> bool)
    requires name in rest
    ensures Counts(rest[name]) && mine(name) ==>
      Counted(rest - {name}, mine) == Counted(rest, mine) - {name} &&
      TotalBytes(Counted(rest, mine)) == rest[name].size + TotalBytes(Counted(rest - {name}, mine))
    ensures !(Counts(rest[name]) && mine(name)) ==> Counted(rest - {name}, mine) == Counted(rest, mine)
  {
    if Counts(rest[name]) && mine(name) {
      BytesWithout(Counted(rest, mine), name);
      assert Counted(rest - {name}, mine) == Counted(rest, mine) - {name};
    } else {
      assert Counted(rest - {name}, mine) == Counted(rest, mine);
    }
  }

  /** Walks the directory in whatever order it comes, adding up the files that count. */
  method ListCounted(entries: Directory, mine: string -> bool) returns (names: seq<string>, total: nat)
    ensures Distinct(names) && Elements(names) == Counted(entries, mine).Keys
    ensures total == TotalBytes(Counted(entries, mine))
  {
    names, total := [], 0;
    var rest := entries;
    while rest.Keys != {}
      invariant rest.Keys <= entries.Keys && forall name :: name in rest ==> rest[name] == entries[name]
      invariant Distinct(names) && Elements(names) == Counted(entries, mine).Keys - rest.Keys
      invariant total + TotalBytes(Counted(rest, mine)) == TotalBytes(Counted(entries, mine))
      decreases rest.Keys
    {
      var name :| name in rest.Keys;
      CountedWithout(rest, name, mine);
      if Counts(rest[name]) && mine(name) {
        assert name !in Elements(names);
        assert Elements(names + [name]) == Elements(names) + {name};
        names := names + [name];
        total := total + rest[name].size;
      }
      rest := rest - {name};
    }
    assert Counted(rest, mine) == map[];
  }

  /** What one pass over the sorted listing has still to do, given what it already did. */
  ghost function Resume(o: Outcome, freed: nat, failed: bool): Outcome {
    Outcome(o.left, freed + o.freed, failed || o.failed)
  }

  /** The removal pass: stops as soon as the rest fits, and goes on after a failed removal. */
  method RemoveOldest(dir: CacheDirectory, files: seq<string>, ghost before: Directory, bytes: nat, limit: nat,
                      stuck: set<string>)
    returns (freed: nat, failed: bool)
    requires Distinct(files) && bytes == TotalBytes(before)
    requires forall i :: 0 <= i < |files| ==> files[i] in before
    requires before.Keys <= dir.entries.Keys && forall name :: name in before ==> before[name] == dir.entries[name]
    modifies dir`entries
    ensures var o := Sweep(files, before, TotalBytes(before), limit, stuck);
      && freed == o.freed && failed == o.failed
      && dir.entries == old(dir.entries) - Removed(before, o.left)
  {
    freed, failed := 0, false;
    var total: int := bytes;
    ghost var left := before;
    var i := 0;
    assert files[0..] == files;
    while i < |files| && total > limit
      invariant 0 <= i <= |files|
      invariant left.Keys <= before.Keys && forall name :: name in left ==> left[name] == before[name]
      invariant forall k :: i <= k < |files| ==> files[k] in left
      invariant dir.entries == old(dir.entries) - Removed(before, left)
      invariant Sweep(files, before, TotalBytes(before), limit, stuck) ==
        Resume(Sweep(files[i..], left, total, limit, stuck), freed, failed)
    {
      assert files[i..][1..] == files[i + 1..];
      var size := dir.entries[files[i]].size;
      var removed := dir.Remove(files[i], stuck);
      if removed {
        total, freed := total - size, freed + size;
        left := left - {files[i]};
      } else {
        failed := true;
      }
      i := i + 1;
    }
  }

  lemma SweepKeepsNewest(names: seq<string>, dir: Directory, limit: nat, stuck: set<string>)
    requires Distinct(names) && OldestFirst(names, dir) && Elements(names) == dir.Keys
    ensures NewestKept(dir, Sweep(names, dir, TotalBytes(dir), limit, stuck).left, limit, stuck)
  {
    forall newest | StrictlyNewest(dir, newest)
      ensures newest in Sweep(names, dir, TotalBytes(dir), limit, stuck).left <==>
        newest in stuck || TotalBytes(Immovable(dir, stuck)) + dir[newest].size <= limit
    {
      NewestSurvivesIff(names, dir, limit, stuck, newest);
    }
  }

  lemma NothingToTrim(dir: Directory, limit: nat, stuck: set<string>)
    requires TotalBytes(dir) <= limit
    ensures Trimmed(dir, dir, limit, stuck, 0, false) && NewestKept(dir, dir, limit, stuck)
  {
    assert Removed(dir, dir) == {};
    forall newest | StrictlyNewest(dir, newest) && newest !in stuck
      ensures TotalBytes(Immovable(dir, stuck)) + dir[newest].size <= limit
    {
      ImmovableAndOne(dir, stuck, newest);
    }
  }

  lemma CountedAfterTrim(dir: Directory, left: Directory, mine: string -> bool)
    requires var before := Counted(dir, mine); left == before - Removed(before, left)
    ensures Counted(dir - Removed(Counted(dir, mine), left), mine) == left
  {}

  /** Everything one trim of a directory does: nothing unless it is there and can be read. */
  ghost predicate Pruned(before: Directory, after: Directory, listing: Listing, mine: string -> bool, limit: int,
                         stuck: set<string>, freed: int, failed: bool)
  {
    if !listing.Listed? then after == before && freed == 0 && failed == listing.Unreadable?
    else
      var b, a := Counted(before, mine), Counted(after, mine);
      && after == before - Removed(b, a)
      && Trimmed(b, a, limit, stuck, freed, failed)
      && NewestKept(b, a, limit, stuck)
  }

  function ListingOf(present: bool, readable: bool): Listing {
    if !present then Missing else if readable then Listed else Unreadable
  }

  /** Trims the files that mine accepts to limit bytes, oldest first. */
  method PruneDir(dir: CacheDirectory, limit: nat, mine: string -> bool, readable: bool, stuck: set<string>)
    returns (freed: nat, failed: bool)
    requires dir.Valid()
    modifies dir`entries
    ensures dir.Valid()
    ensures Pruned(
      old(dir.entries), dir.entries, ListingOf(dir.present, readable), mine, limit, stuck, freed, failed)
    ensures dir.entries.Keys <= old(dir.entries).Keys
    ensures forall name :: name in dir.entries ==> dir.entries[name] == old(dir.entries)[name]
    ensures forall name :: name in old(dir.entries) && name !in dir.entries ==>
      !old(dir.entries)[name].isDir && old(dir.entries)[name].known && mine(name) && name !in stuck
    ensures !dir.present || !readable ==> freed == 0 && failed == dir.present
  {
    var listing := dir.List(readable);
    freed, failed := 0, listing.Unreadable?;
    if !listing.Listed? {
      return;
    }
    ghost var before := Counted(dir.entries, mine);
    var files, total := ListCounted(dir.entries, mine);
    if total <= limit {
      NothingToTrim(before, limit, stuck);
      return;
    }
    assert forall i :: 0 <= i < |files| ==> files[i] in Elements(files);
    files := SortByModified(files, dir.entries);
    assert forall i :: 0 <= i < |files| ==> files[i] in Elements(files);
    freed, failed := RemoveOldest(dir, files, before, total, limit, stuck);
    SweepTrims(files, before, limit, stuck);
    SweepKeepsNewest(files, before, limit, stuck);
    CountedAfterTrim(old(dir.entries), Sweep(files, before, total, limit, stuck).left, mine);
  }

  // --- both directories ---

  predicate AnyName(name: string) {
    true
  }

  predicate EndsWith(name: string, suffix: string) {
    |suffix| <= |name| && name[|name| - |suffix|..] == suffix
  }

  /** The capture directory is shared; only webcam photos and voice recordings are the daemon's to trim. */
  predicate IsOwnCapture(name: string) {
    ("webcam-" <= name && EndsWith(name, ".jpg")) || ("voice-" <= name && EndsWith(name, ".m4a"))
  }

  /** The files of ours are those named like a webcam photo or a voice recording from end to end. */
  lemma OwnCaptureIff(name: string)
    ensures IsOwnCapture(name) <==>
      exists middle :: name == "webcam-" + middle + ".jpg" || name == "voice-" + middle + ".m4a"
  {
    MiddleOf(name, "webcam-", ".jpg");
    MiddleOf(name, "voice-", ".m4a");
  }

  lemma NoOverlap(name: string, prefix: string, suffix: string)
    requires prefix != [] && prefix <= name && EndsWith(name, suffix)
    requires forall c :: c in suffix ==> c !in prefix
    ensures |name| >= |prefix| + |suffix|
  {
    forall k | |name| - |suffix| <= k < |name| ensures name[k] in suffix {
      assert name[k] == name[|name| - |suffix|..][k - (|name| - |suffix|)];
    }
    assert name[|prefix| - 1] == prefix[|prefix| - 1];
  }

  lemma MiddleOf(name: string, prefix: string, suffix: string)
    requires prefix != [] && suffix != [] && forall c :: c in suffix ==> c !in prefix
    ensures prefix <= name && EndsWith(name, suffix) <==> exists middle :: name == prefix + middle + suffix
  {
    if prefix <= name && EndsWith(name, suffix) {
      NoOverlap(name, prefix, suffix);
      assert name == prefix + name[|prefix|..|name| - |suffix|] + suffix;
    }
    if middle :| name == prefix + middle + suffix {
      assert name[|name| - |suffix|..] == suffix;
    }
  }

  /** What a trim without failure leaves is within the limit, and nothing is lost count of. */
  lemma PrunedFits(before: Directory, after: Directory, listing: Listing, mine: string -> bool, limit: nat,
                   stuck: set<string>, freed: int, failed: bool)
    requires Pruned(before, after, listing, mine, limit, stuck, freed, failed)
    requires listing.Missing? ==> before == map[]
    ensures !failed ==> TotalBytes(Counted(after, mine)) <= limit
    ensures freed + TotalBytes(Counted(after, mine)) == TotalBytes(Counted(before, mine))
  {
    if listing.Missing? {
      assert Counted(after, mine) == map[];
    }
  }

  /** What the file system will do while both directories are trimmed. */
  datatype TrimFaults = TrimFaults(
    mediaReadable: bool, mediaStuck: set<string>, capturesReadable: bool, captureStuck: set<string>)

  /** Trims both directories; each keeps to its own limit and its own files, and either failure is reported. */
  method PruneCaches(media: CacheDirectory, captures: CacheDirectory, faults: TrimFaults)
    returns (freed: nat, failed: bool)
    requires media != captures && media.Valid() && captures.Valid()
    modifies media`entries, captures`entries
    ensures media.Valid() && captures.Valid()
    ensures exists mediaFreed, mediaFailed, captureFreed, captureFailed :: (
      Pruned(
        old(media.entries), media.entries, ListingOf(media.present, faults.mediaReadable),
        AnyName, MAX_CACHE_BYTES, faults.mediaStuck, mediaFreed, mediaFailed) &&
      Pruned(
        old(captures.entries), captures.entries, ListingOf(captures.present, faults.capturesReadable),
        IsOwnCapture, MAX_CAPTURE_BYTES, faults.captureStuck, captureFreed, captureFailed) &&
      freed == mediaFreed + captureFreed && failed == (mediaFailed || captureFailed))
    ensures !failed ==>
      TotalBytes(Counted(media.entries, AnyName)) <= MAX_CACHE_BYTES &&
      TotalBytes(Counted(captures.entries, IsOwnCapture)) <= MAX_CAPTURE_BYTES
    ensures freed + TotalBytes(Counted(media.entries, AnyName)) + TotalBytes(Counted(captures.entries, IsOwnCapture)) ==
      old(TotalBytes(Counted(media.entries, AnyName)) + TotalBytes(Counted(captures.entries, IsOwnCapture)))
  {
    var mediaFreed, mediaFailed := PruneDir(media, MAX_CACHE_BYTES, AnyName, faults.mediaReadable, faults.mediaStuck);
    var captureFreed, captureFailed :=
      PruneDir(captures, MAX_CAPTURE_BYTES, IsOwnCapture, faults.capturesReadable, faults.captureStuck);
    PrunedFits(
      old(media.entries), media.entries, ListingOf(media.present, faults.mediaReadable), AnyName,
      MAX_CACHE_BYTES, faults.mediaStuck, mediaFreed, mediaFailed);
    PrunedFits(
      old(captures.entries), captures.entries, ListingOf(captures.present, faults.capturesReadable), IsOwnCapture,
      MAX_CAPTURE_BYTES, faults.captureStuck, captureFreed, captureFailed);
    freed, failed := mediaFreed + captureFreed, mediaFailed || captureFailed;
  }
}
