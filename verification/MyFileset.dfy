/** Refreshing the list of files named by a setfile (libmy/my_fileset.c).

    A reader is an opaque handle; every load makes a new one.  What the disk
    holds at the moment of a refresh is a parameter. */
module MyFileset {
  import opened ByteOrder
  import opened Maybe

  type Name = Bytes

  /** `ptr` is None for a file that exists and could not be opened as a table. */
  datatype FileEntry = FileEntry(fname: Name, ptr: Option<nat>, keep: bool)

  /** `updated`: the setfile can be read and its inode or modification time differs from the last
      time.  `names` are its lines that name existing files; those in `good` open as tables. */
  datatype Disk = Disk(updated: bool, names: seq<Name>, good: set<Name>) {
    predicate Distinct() { forall i, j :: 0 <= i < j < |names| ==> names[i] != names[j] }
  }

  ghost predicate NamesRise(es: seq<FileEntry>) {
    forall i, j :: 0 <= i < j < |es| ==> Less(es[i].fname, es[j].fname)
  }

  ghost function NamesOf(es: seq<FileEntry>): set<Name> { set e <- es :: e.fname }

  ghost function ReadersOf(es: seq<FileEntry>): set<nat> { set e | e in es && e.ptr.Some? :: e.ptr.value }

  /** No reader serves two entries. */
  ghost predicate OwnReaders(es: seq<FileEntry>) {
    forall i, j :: 0 <= i < j < |es| && es[i].ptr.Some? ==> es[i].ptr != es[j].ptr
  }

  ghost predicate Entries(es: seq<FileEntry>) {
    NamesRise(es) && OwnReaders(es) && forall e <- es :: !e.keep
  }

  // ---------- looking a name up ----------

  /** What bsearch promises on a sorted vector. */
  method FetchEntry(es: seq<FileEntry>, fname: Name) returns (at: Option<nat>)
    requires NamesRise(es)
    ensures at.Some? ==> at.value < |es| && es[at.value].fname == fname
    ensures at == None ==> forall i :: 0 <= i < |es| ==> es[i].fname != fname
  {
    hide Less;
    var lo, hi := 0, |es|;
    while lo < hi
      invariant 0 <= lo <= hi <= |es|
      invariant forall i :: 0 <= i < lo ==> Less(es[i].fname, fname)
      invariant forall i :: hi <= i < |es| ==> Less(fname, es[i].fname)
    {
      var mid := (lo + hi) / 2;
      LessTrichotomy(es[mid].fname, fname);
      if es[mid].fname == fname { return Some(mid); }
      if Less(es[mid].fname, fname) {
        forall i | 0 <= i < mid ensures Less(es[i].fname, fname) { LessTransitive(es[i].fname, es[mid].fname, fname); }
        lo := mid + 1;
      } else {
        forall i | mid < i < |es| ensures Less(fname, es[i].fname) { LessTransitive(fname, es[mid].fname, es[i].fname); }
        hi := mid;
      }
    }
    forall i | 0 <= i < |es| ensures es[i].fname != fname { LessTrichotomy(es[i].fname, fname); }
    at := None;
  }

  // ---------- sorting the new vector ----------

  ghost predicate DistinctNames(es: seq<FileEntry>) {
    forall i, j :: 0 <= i < j < |es| ==> es[i].fname != es[j].fname
  }

  /** What qsort promises on entries with distinct names. */
  method SortEntries(es: seq<FileEntry>) returns (s: seq<FileEntry>)
    requires DistinctNames(es)
    ensures NamesRise(s) && multiset(s) == multiset(es)
  {
    hide Less, NamesRise;
    s := [];
    NothingRises();
    var n := 0;
    while n < |es|
      invariant n <= |es| && NamesRise(s) && multiset(s) == multiset(es[..n])
    {
      forall k | 0 <= k < |s| ensures s[k].fname != es[n].fname { NotYetSorted(es, n, s, k); }
      s := InsertEntry(s, es[n]);
      assert es[..n + 1] == es[..n] + [es[n]];
      n := n + 1;
    }
    assert es[..n] == es;
  }

  lemma NothingRises()
    ensures NamesRise([])
  {
  }

  method InsertEntry(s: seq<FileEntry>, e: FileEntry) returns (t: seq<FileEntry>)
    requires NamesRise(s) && forall k :: 0 <= k < |s| ==> s[k].fname != e.fname
    ensures NamesRise(t) && multiset(t) == multiset(s) + multiset{e}
  {
    hide Less, NamesRise;
    var at := |s|;
    while at > 0 && Less(e.fname, s[at - 1].fname)
      invariant 0 <= at <= |s| && (at < |s| ==> Less(e.fname, s[at].fname))
    {
      at := at - 1;
    }
    if at > 0 { LessTrichotomy(e.fname, s[at - 1].fname); }
    InsertRises(s, e, at);
    assert s == s[..at] + s[at..];
    t := s[..at] + [e] + s[at..];
  }

  lemma NotYetSorted(es: seq<FileEntry>, n: nat, s: seq<FileEntry>, k: nat)
    requires DistinctNames(es) && n < |es| && multiset(s) == multiset(es[..n]) && k < |s|
    ensures s[k].fname != es[n].fname
  {
    assert s[k] in multiset(es[..n]);
    var i :| 0 <= i < n && es[i] == s[k];
  }

  lemma {:induction false} InsertRises(s: seq<FileEntry>, e: FileEntry, at: nat)
    requires NamesRise(s) && at <= |s|
    requires at > 0 ==> Less(s[at - 1].fname, e.fname)
    requires at < |s| ==> Less(e.fname, s[at].fname)
    ensures NamesRise(s[..at] + [e] + s[at..])
  {
    hide Less;
    var t := s[..at] + [e] + s[at..];
    forall i, j | 0 <= i < j < |t| ensures Less(t[i].fname, t[j].fname) {
      if j == at && i < at - 1 { LessTransitive(s[i].fname, s[at - 1].fname, e.fname); }
      if i == at && at < j - 1 { LessTransitive(e.fname, s[at].fname, s[j - 1].fname); }
      if i < at && at < j { assert Less(s[i].fname, s[j - 1].fname); }
    }
  }

  // ---------- a refresh ----------

  /** The new vector has exactly the names listed.  A name that was there keeps its reader,
      a new one has the reader just loaded for it. */
  ghost predicate Refreshed(before: seq<FileEntry>, after: seq<FileEntry>, disk: Disk, from: nat, to: nat) {
    && (forall n :: n in NamesOf(after) <==> n in disk.names)
    && (forall e <- after, o <- before :: e.fname == o.fname ==> e.ptr == o.ptr)
    && (forall e <- after :: e.fname !in NamesOf(before) ==> (e.ptr.Some? <==> e.fname in disk.good))
    && (forall e <- after :: e.fname !in NamesOf(before) && e.ptr.Some? ==> from <= e.ptr.value < to)
  }

  /** The entries collected so far while the setfile is read. */
  ghost predicate Collected(es: seq<FileEntry>, collected: seq<FileEntry>, disk: Disk, n: nat, from: nat, to: nat) {
    && n == |collected| <= |disk.names| && from <= to
    && (forall k :: 0 <= k < n ==> collected[k].fname == disk.names[k] && !collected[k].keep)
    && (forall k :: 0 <= k < n ==> forall o <- es :: collected[k].fname == o.fname ==> collected[k].ptr == o.ptr)
    && (forall k :: 0 <= k < n && collected[k].fname !in NamesOf(es) ==> (collected[k].ptr.Some? <==> collected[k].fname in disk.good))
    && (forall k :: 0 <= k < n && collected[k].fname !in NamesOf(es) && collected[k].ptr.Some? ==> from <= collected[k].ptr.value < to)
    && OwnReaders(collected)
  }

  ghost predicate OldReaders(es: seq<FileEntry>, from: nat) { forall e <- es :: e.ptr.Some? ==> e.ptr.value < from }

  /** Collecting one more name, as `ent`. */
  lemma {:induction false} CollectOne(es: seq<FileEntry>, collected: seq<FileEntry>, disk: Disk, n: nat, from: nat, to: nat, to2: nat, ent: FileEntry)
    requires Collected(es, collected, disk, n, from, to) && n < |disk.names| && disk.Distinct() && Entries(es) && OldReaders(es, from)
    requires ent.fname == disk.names[n] && !ent.keep && to <= to2
    requires (exists o :: o in es && o.fname == ent.fname && ent.ptr == o.ptr && to2 == to)
             || (ent.fname !in NamesOf(es) && ent.ptr == (if ent.fname in disk.good then Some(to) else None) && to2 == to + 1)
    ensures Collected(es, collected + [ent], disk, n + 1, from, to2)
  {
    var f2 := collected + [ent];
    forall o | o in es && ent.fname == o.fname ensures ent.ptr == o.ptr { OneName(es, ent.fname); }
    assert (exists o :: o in es && o.fname == ent.fname) ==> ent.fname in NamesOf(es);
    forall i | 0 <= i < n && collected[i].ptr.Some? ensures collected[i].ptr != ent.ptr {
      NotTaken(es, collected, disk, n, from, to, ent, i);
    }
    forall k | 0 <= k <= n ensures f2[k] == if k < n then collected[k] else ent { }
  }

  lemma {:induction false} OneName(es: seq<FileEntry>, fname: Name)
    requires NamesRise(es)
    ensures forall o, p :: o in es && p in es && o.fname == fname && p.fname == fname ==> o == p
  {
    forall o, p | o in es && p in es && o.fname == fname && p.fname == fname ensures o == p {
      var i :| 0 <= i < |es| && es[i] == o;
      var j :| 0 <= j < |es| && es[j] == p;
      LessTrichotomy(fname, fname);
    }
  }

  lemma {:induction false} OneReader(es: seq<FileEntry>, o: FileEntry, p: FileEntry)
    requires OwnReaders(es) && o in es && p in es && o.ptr.Some? && o.ptr == p.ptr
    ensures o == p
  {
    var i :| 0 <= i < |es| && es[i] == o;
    var j :| 0 <= j < |es| && es[j] == p;
  }

  lemma {:induction false} NotTaken(es: seq<FileEntry>, collected: seq<FileEntry>, disk: Disk, n: nat, from: nat, to: nat, ent: FileEntry, i: nat)
    requires Collected(es, collected, disk, n, from, to) && n < |disk.names| && disk.Distinct() && Entries(es) && OldReaders(es, from)
    requires ent.fname == disk.names[n] && i < n && collected[i].ptr.Some?
    requires (exists o :: o in es && o.fname == ent.fname && ent.ptr == o.ptr)
             || (ent.fname !in NamesOf(es) && (ent.ptr.Some? ==> ent.ptr.value == to))
    ensures collected[i].ptr != ent.ptr
  {
    var f := collected[i];
    assert f.fname != ent.fname;
    if f.fname in NamesOf(es) {
      var o :| o in es && o.fname == f.fname;
      assert f.ptr == o.ptr;
      if p :| p in es && p.fname == ent.fname && ent.ptr == p.ptr {
        if f.ptr == ent.ptr { OneReader(es, o, p); }
      }
    }
  }

  // ---------- marking the entries found ----------

  ghost function NewNames(es: seq<FileEntry>, names: seq<Name>): set<Name> { set n | n in names && n !in NamesOf(es) }

  ghost predicate Marked(was: seq<FileEntry>, es: seq<FileEntry>, names: seq<Name>) {
    |es| == |was| && forall k :: 0 <= k < |es| ==> es[k] == was[k].(keep := was[k].fname in names)
  }

  lemma {:induction false} NothingCollected(was: seq<FileEntry>, disk: Disk, from: nat)
    requires forall e <- was :: !e.keep
    ensures Collected(was, [], disk, 0, from, from) && NewNames(was, disk.names[..0]) == {}
    ensures Marked(was, was, disk.names[..0]) && ReadersOf([]) == {}
  {
  }

  lemma MarkedRises(was: seq<FileEntry>, es: seq<FileEntry>, names: seq<Name>)
    requires Entries(was) && Marked(was, es, names)
    ensures NamesRise(es)
  {
  }

  lemma {:induction false} NotFound(was: seq<FileEntry>, es: seq<FileEntry>, disk: Disk, i: nat)
    requires i < |disk.names| && disk.Distinct() && Marked(was, es, disk.names[..i])
    requires forall k :: 0 <= k < |es| ==> es[k].fname != disk.names[i]
    ensures disk.names[i] !in NamesOf(was) && disk.names[i] !in NewNames(was, disk.names[..i])
    ensures Marked(was, es, disk.names[..i + 1])
    ensures NewNames(was, disk.names[..i + 1]) == NewNames(was, disk.names[..i]) + {disk.names[i]}
  {
    var name := disk.names[i];
    assert disk.names[..i + 1] == disk.names[..i] + [name];
    forall k | 0 <= k < |was| ensures was[k].fname != name { assert es[k].fname == was[k].fname; }
  }

  lemma {:induction false} Found(was: seq<FileEntry>, es: seq<FileEntry>, disk: Disk, i: nat, j: nat)
    requires i < |disk.names| && Marked(was, es, disk.names[..i]) && Entries(was) && j < |es| && es[j].fname == disk.names[i]
    ensures was[j] in was && was[j].fname == disk.names[i] && was[j].ptr == es[j].ptr
    ensures es[j].ptr.Some? ==> es[j].ptr.value in ReadersOf(was)
    ensures Marked(was, es[j := es[j].(keep := true)], disk.names[..i + 1])
    ensures NewNames(was, disk.names[..i + 1]) == NewNames(was, disk.names[..i])
  {
    var name := disk.names[i];
    assert disk.names[..i + 1] == disk.names[..i] + [name];
    assert was[j] in was;
    forall k | 0 <= k < |was| && k != j ensures was[k].fname != name { OneName(was, name); LessTrichotomy(name, name); }
  }

  lemma {:induction false} ReadersSnoc(fs: seq<FileEntry>, e: FileEntry)
    ensures ReadersOf(fs + [e]) == ReadersOf(fs) + (if e.ptr.Some? then {e.ptr.value} else {})
  {
    assert forall x :: x in fs + [e] <==> x in fs || x == e;
    if e.ptr.Some? { assert e in fs + [e]; }
  }

  // ---------- after the names have been read ----------

  lemma {:induction false} NewNamesDistinct(was: seq<FileEntry>, collected: seq<FileEntry>, disk: Disk, from: nat, to: nat)
    requires Collected(was, collected, disk, |disk.names|, from, to) && disk.Distinct()
    ensures DistinctNames(collected)
  {
  }

  ghost function Dropped(es: seq<FileEntry>, names: seq<Name>): set<Name> { set e | e in es && e.fname !in names :: e.fname }

  ghost function DroppedReaders(es: seq<FileEntry>, names: seq<Name>): set<nat> {
    set e | e in es && e.fname !in names && e.ptr.Some? :: e.ptr.value
  }

  lemma {:induction false} DropOne(was: seq<FileEntry>, names: seq<Name>, i: nat)
    requires i < |was| && NamesRise(was)
    ensures Dropped(was[..i + 1], names) == Dropped(was[..i], names) + (if was[i].fname in names then {} else {was[i].fname})
    ensures was[i].fname !in Dropped(was[..i], names)
    ensures DroppedReaders(was[..i + 1], names)
            == DroppedReaders(was[..i], names) + (if was[i].fname !in names && was[i].ptr.Some? then {was[i].ptr.value} else {})
  {
    assert was[..i + 1] == was[..i] + [was[i]];
    assert forall x :: x in was[..i + 1] <==> x in was[..i] || x == was[i];
    assert was[i] in was[..i + 1];
    forall e | e in was[..i] ensures e.fname != was[i].fname {
      var k :| 0 <= k < i && was[k] == e;
      LessTrichotomy(was[k].fname, was[i].fname);
    }
  }

  /** Dropping the readers of files no longer named leaves the readers of the new entries. */
  lemma {:induction false} LiveAfter(was: seq<FileEntry>, collected: seq<FileEntry>, disk: Disk, from: nat, to: nat)
    requires Collected(was, collected, disk, |disk.names|, from, to) && Entries(was) && OldReaders(was, from)
    ensures (ReadersOf(was) + ReadersOf(collected)) - DroppedReaders(was, disk.names) == ReadersOf(collected)
  {
    hide NamesRise, OwnReaders;
    forall r | r in ReadersOf(was) && r !in DroppedReaders(was, disk.names) ensures r in ReadersOf(collected) {
      var e :| e in was && e.ptr.Some? && e.ptr.value == r;
      assert e.fname in disk.names;
      var k :| 0 <= k < |disk.names| && disk.names[k] == e.fname;
      assert collected[k].ptr == e.ptr && collected[k] in collected;
    }
    forall r | r in ReadersOf(collected) ensures r !in DroppedReaders(was, disk.names) {
      if r in DroppedReaders(was, disk.names) { KeptIsNotDropped(was, collected, disk, from, to, r); }
    }
  }

  lemma {:induction false} KeptIsNotDropped(was: seq<FileEntry>, collected: seq<FileEntry>, disk: Disk, from: nat, to: nat, r: nat)
    requires Collected(was, collected, disk, |disk.names|, from, to) && Entries(was) && OldReaders(was, from)
    requires r in ReadersOf(collected)
    ensures r !in DroppedReaders(was, disk.names)
  {
    hide NamesRise;
    var f :| f in collected && f.ptr.Some? && f.ptr.value == r;
    var k :| 0 <= k < |collected| && collected[k] == f;
    forall e | e in was && e.fname !in disk.names && e.ptr.Some? ensures e.ptr.value != r {
      if f.fname in NamesOf(was) {
        var o :| o in was && o.fname == f.fname;
        assert f.ptr == o.ptr;
        if e.ptr == o.ptr { OneReader(was, o, e); }
      }
    }
  }

  lemma {:induction false} SortedAlike(was: seq<FileEntry>, collected: seq<FileEntry>, sorted: seq<FileEntry>, disk: Disk, from: nat, to: nat)
    requires Collected(was, collected, disk, |disk.names|, from, to) && OldReaders(was, from)
    requires NamesRise(sorted) && multiset(sorted) == multiset(collected)
    ensures Entries(sorted) && ReadersOf(sorted) == ReadersOf(collected) && OldReaders(sorted, to)
    ensures Refreshed(was, sorted, disk, from, to)
  {
    hide NamesRise;
    forall e ensures e in sorted <==> e in collected { assert e in sorted <==> e in multiset(sorted); assert e in collected <==> e in multiset(collected); }
    forall e | e in sorted ensures exists k :: 0 <= k < |collected| && collected[k] == e { assert e in collected; }
    SortedOwn(collected, sorted);
    SortedRefreshed(was, collected, sorted, disk, from, to);
    forall e | e in sorted && e.ptr.Some? ensures e.ptr.value < to {
      var k :| 0 <= k < |collected| && collected[k] == e;
      if e.fname in NamesOf(was) { var o :| o in was && o.fname == e.fname; assert e.ptr == o.ptr; }
    }
  }

  lemma {:induction false} SortedOwn(collected: seq<FileEntry>, sorted: seq<FileEntry>)
    requires OwnReaders(collected) && NamesRise(sorted) && forall e :: e in sorted <==> e in collected
    ensures OwnReaders(sorted)
  {
    forall i, j | 0 <= i < j < |sorted| && sorted[i].ptr.Some? ensures sorted[i].ptr != sorted[j].ptr {
      assert sorted[i] in collected && sorted[j] in collected;
      LessTrichotomy(sorted[i].fname, sorted[j].fname);
      if sorted[i].ptr == sorted[j].ptr { OneReader(collected, sorted[i], sorted[j]); }
    }
  }

  lemma {:induction false} SortedRefreshed(was: seq<FileEntry>, collected: seq<FileEntry>, sorted: seq<FileEntry>, disk: Disk, from: nat, to: nat)
    requires Collected(was, collected, disk, |disk.names|, from, to)
    requires forall e :: e in sorted <==> e in collected
    ensures Refreshed(was, sorted, disk, from, to)
  {
    hide OwnReaders;
    forall n ensures n in NamesOf(sorted) <==> n in disk.names {
      if n in disk.names { var k :| 0 <= k < |disk.names| && disk.names[k] == n; assert collected[k] in collected; assert collected[k] in sorted; }
      if n in NamesOf(sorted) { var e :| e in sorted && e.fname == n; var k :| 0 <= k < |collected| && collected[k] == e; }
    }
    forall e | e in sorted ensures exists k :: 0 <= k < |collected| && collected[k] == e { assert e in collected; }
  }

  lemma {:induction false} LoadedNames(was: seq<FileEntry>, after: seq<FileEntry>, disk: Disk, from: nat, to: nat)
    requires Refreshed(was, after, disk, from, to)
    ensures NewNames(was, disk.names) == NamesOf(after) - NamesOf(was)
    ensures Dropped(was, disk.names) == NamesOf(was) - NamesOf(after)
  {
    forall n ensures n in NewNames(was, disk.names) <==> n in NamesOf(after) - NamesOf(was) { }
    forall n ensures n in Dropped(was, disk.names) <==> n in NamesOf(was) - NamesOf(after) { }
  }

  class Files {
    var entries: seq<FileEntry>
    var nLoaded: nat
    var nUnloaded: nat
    ghost var live: set<nat>
    /** The handle the next reader will get. */
    var nextReader: nat

    ghost predicate Valid()
      reads this`entries, this`live, this`nextReader
    {
      Entries(entries) && live == ReadersOf(entries) && OldReaders(entries, nextReader)
    }

    constructor ()
      ensures Valid() && entries == [] && live == {}
    {
      entries, nLoaded, nUnloaded, live, nextReader := [], 0, 0, {}, 0;
    }

    /** Unloads everything. */
    method Destroy()
      requires Valid()
      modifies this`entries, this`nUnloaded, this`live
      ensures Valid() && entries == [] && live == {} && nUnloaded == old(nUnloaded) + |old(entries)|
    {
      nUnloaded := nUnloaded + |entries|;
      entries, live := [], {};
    }

    /** The owner's load and unload callbacks count from here. */
    method StartCounting()
      modifies this`nLoaded, this`nUnloaded
      ensures nLoaded == 0 && nUnloaded == 0
    {
      nLoaded, nUnloaded := 0, 0;
    }

    /** Reads the setfile if it has changed: files kept keep their reader, new ones are
        loaded, and the readers of files no longer named are destroyed. */
    method Reload(disk: Disk) returns (ghost loaded: set<Name>, ghost unloaded: set<Name>)
      requires Valid() && disk.Distinct() && nLoaded == 0 && nUnloaded == 0
      modifies this
      ensures Valid() && nextReader >= old(nextReader)
      ensures nLoaded == |loaded| && nUnloaded == |unloaded|
      ensures !disk.updated ==> entries == old(entries) && nextReader == old(nextReader) && loaded == {} && unloaded == {}
      ensures disk.updated ==> Refreshed(old(entries), entries, disk, old(nextReader), nextReader)
                               && loaded == NamesOf(entries) - NamesOf(old(entries))
                               && unloaded == NamesOf(old(entries)) - NamesOf(entries)
    {
      hide Less, NamesRise, OwnReaders, NamesOf, ReadersOf, Collected, Refreshed, OldReaders;
      loaded, unloaded := {}, {};
      if !disk.updated { return; }
      ghost var was, from := entries, nextReader;
      var newEntries: seq<FileEntry>;
      newEntries, loaded := ReadNames(disk);
      NewNamesDistinct(was, newEntries, disk, from, nextReader);
      var sorted := SortEntries(newEntries);
      unloaded := UnloadOthers(disk, was, newEntries, from);
      entries := sorted;
      SortedAlike(was, newEntries, sorted, disk, from, nextReader);
      LoadedNames(was, sorted, disk, from, nextReader);
    }

    /** Collects an entry for each name, loading the new ones and marking those found. */
    method ReadNames(disk: Disk) returns (collected: seq<FileEntry>, ghost loaded: set<Name>)
      requires Valid() && disk.Distinct() && nLoaded == 0
      modifies this`entries, this`nLoaded, this`live, this`nextReader
      ensures Collected(old(entries), collected, disk, |disk.names|, old(nextReader), nextReader)
      ensures loaded == NewNames(old(entries), disk.names) && nLoaded == |loaded|
      ensures Marked(old(entries), entries, disk.names)
      ensures live == old(live) + ReadersOf(collected) && nextReader >= old(nextReader)
    {
      hide NamesRise, OwnReaders, NamesOf, ReadersOf, Collected, Marked, NewNames, OldReaders;
      ghost var was, from, all := entries, nextReader, live;
      collected, loaded := [], {};
      NothingCollected(was, disk, from);
      var i := 0;
      while i < |disk.names|
        invariant i <= |disk.names| && Collected(was, collected, disk, i, from, nextReader) && from <= nextReader
        invariant Marked(was, entries, disk.names[..i])
        invariant loaded == NewNames(was, disk.names[..i]) && nLoaded == |loaded|
        invariant live == all + ReadersOf(collected)
      {
        var ent;
        ent, loaded := ReadName(disk, i, was, from, collected, loaded);
        ReadersSnoc(collected, ent);
        collected := collected + [ent];
        i := i + 1;
      }
      assert disk.names[..i] == disk.names;
    }

    /** One line of the setfile. */
    method ReadName(disk: Disk, i: nat, ghost was: seq<FileEntry>, ghost from: nat, ghost collected: seq<FileEntry>, ghost loaded: set<Name>)
      returns (ent: FileEntry, ghost loaded2: set<Name>)
      requires i < |disk.names| && disk.Distinct() && Entries(was) && OldReaders(was, from)
      requires Collected(was, collected, disk, i, from, nextReader) && Marked(was, entries, disk.names[..i])
      requires loaded == NewNames(was, disk.names[..i]) && nLoaded == |loaded| && ReadersOf(was) <= live
      modifies this`entries, this`nLoaded, this`live, this`nextReader
      ensures nextReader >= old(nextReader)
      ensures Collected(was, collected + [ent], disk, i + 1, from, nextReader) && Marked(was, entries, disk.names[..i + 1])
      ensures loaded2 == NewNames(was, disk.names[..i + 1]) && nLoaded == |loaded2|
      ensures live == old(live) + (if ent.ptr.Some? then {ent.ptr.value} else {})
    {
      hide Less, Entries, NamesRise, NamesOf, ReadersOf, Collected, Marked, NewNames, OldReaders, Disk.Distinct;
      var name := disk.names[i];
      loaded2 := loaded;
      MarkedRises(was, entries, disk.names[..i]);
      var at := FetchEntry(entries, name);
      if at == None {
        NotFound(was, entries, disk, i);
        ent := FileEntry(name, if name in disk.good then Some(nextReader) else None, false);
        CollectOne(was, collected, disk, i, from, nextReader, nextReader + 1, ent);
        nLoaded := nLoaded + 1;
        nextReader := nextReader + 1;
        live := live + (if ent.ptr.Some? then {ent.ptr.value} else {});
        loaded2 := loaded + {name};
      } else {
        Found(was, entries, disk, i, at.value);
        ent := FileEntry(name, entries[at.value].ptr, false);
        CollectOne(was, collected, disk, i, from, nextReader, nextReader, ent);
        entries := entries[at.value := entries[at.value].(keep := true)];
      }
    }

    /** Unloads the old entries that were not marked. */
    method UnloadOthers(disk: Disk, ghost was: seq<FileEntry>, ghost collected: seq<FileEntry>, ghost from: nat)
      returns (ghost unloaded: set<Name>)
      requires Marked(was, entries, disk.names) && Entries(was) && OldReaders(was, from) && nUnloaded == 0
      requires Collected(was, collected, disk, |disk.names|, from, nextReader) && live == ReadersOf(was) + ReadersOf(collected)
      modifies this`nUnloaded, this`live
      ensures unloaded == Dropped(was, disk.names) && nUnloaded == |unloaded| && live == ReadersOf(collected)
    {
      hide Less, NamesRise, OwnReaders, NamesOf, ReadersOf, Collected, OldReaders, Dropped, DroppedReaders;
      ghost var all := live;
      unloaded := {};
      NothingDropped(disk.names);
      assert was[..0] == [];
      var i := 0;
      while i < |entries|
        invariant i <= |entries| && unloaded == Dropped(was[..i], disk.names) && nUnloaded == |unloaded|
        invariant live == all - DroppedReaders(was[..i], disk.names)
      {
        DropOne(was, disk.names, i);
        var ent := entries[i];
        if !ent.keep {
          nUnloaded := nUnloaded + 1;
          unloaded := unloaded + {ent.fname};
          live := live - (if ent.ptr.Some? then {ent.ptr.value} else {});
        }
        i := i + 1;
      }
      assert was[..i] == was;
      LiveAfter(was, collected, disk, from, nextReader);
    }
  }

  lemma NothingDropped(names: seq<Name>)
    ensures Dropped([], names) == {} && DroppedReaders([], names) == {}
  {
  }
}
