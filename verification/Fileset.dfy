/** Several filesets over one setfile (mtbl/fileset.c).

    The filesets share a list of open readers and the time it was last
    refreshed; each keeps a merger made from that list at some time.  Readers and
    mergers are handles, so that using a destroyed one can be spoken of. */
module Fileset {
  import opened ByteOrder
  import opened Maybe
  import opened MyFileset

  const NEVER := 0xFFFF_FFFF

  datatype Time = Time(sec: nat, nsec: nat)

  const ZERO := Time(0, 0)

  predicate Before(a: Time, b: Time) { a.sec < b.sec || (a.sec == b.sec && a.nsec < b.nsec) }

  /** Filters are absent when None. */
  datatype Options = Options(interval: nat, nameFilter: Option<Name -> bool>, readerFilter: Option<nat -> bool>)

  datatype MergerRef = MergerRef(id: nat, sources: seq<nat>)

  datatype FilesetState = FilesetState(opt: Options, fsLast: Time, merger: MergerRef, destroyed: bool)

  /** An open iterator, with the merger it reads from. */
  datatype Iter = Iter(f: nat, merger: MergerRef)

  predicate Passes(opt: Options, e: FileEntry) {
    && e.ptr.Some?
    && (opt.nameFilter.Some? ==> opt.nameFilter.value(e.fname))
    && (opt.readerFilter.Some? ==> opt.readerFilter.value(e.ptr.value))
  }

  /** The readers a fileset's merger should have: those of the current entries passing its filters, in order. */
  function SourcesOf(opt: Options, es: seq<FileEntry>): seq<nat> {
    if |es| == 0 then []
    else
      var e := es[|es| - 1];
      SourcesOf(opt, es[..|es| - 1]) + if Passes(opt, e) then [e.ptr.value] else []
  }

  /** They are exactly the readers of the entries that each filter there is says yes to. */
  lemma SourcesAreReaders(opt: Options, es: seq<FileEntry>)
    ensures forall r :: r in SourcesOf(opt, es) <==>
              exists e :: e in es && e.ptr == Some(r)
                          && (opt.nameFilter == None || opt.nameFilter.value(e.fname))
                          && (opt.readerFilter == None || opt.readerFilter.value(r))
    ensures forall r <- SourcesOf(opt, es) :: r in ReadersOf(es)
  {
    hide SourcesOf, ReadersOf;
    PassingSources(opt, es);
    forall r ensures r in SourcesOf(opt, es) <==>
                       exists e :: e in es && e.ptr == Some(r)
                                   && (opt.nameFilter == None || opt.nameFilter.value(e.fname))
                                   && (opt.readerFilter == None || opt.readerFilter.value(r))
    {
      if e :| e in es && e.ptr == Some(r) && (opt.nameFilter == None || opt.nameFilter.value(e.fname))
              && (opt.readerFilter == None || opt.readerFilter.value(r)) { assert Passes(opt, e); }
      if r in SourcesOf(opt, es) { var e :| e in es && Passes(opt, e) && e.ptr.value == r; }
    }
  }

  lemma {:induction false} PassingSources(opt: Options, es: seq<FileEntry>)
    ensures forall r :: r in SourcesOf(opt, es) <==> exists e :: e in es && Passes(opt, e) && e.ptr.value == r
    ensures forall r <- SourcesOf(opt, es) :: r in ReadersOf(es)
  {
    hide Passes;
    if |es| > 0 {
      var n := |es| - 1;
      PassingSources(opt, es[..n]);
      assert es == es[..n] + [es[n]];
      assert forall e :: e in es <==> e in es[..n] || e == es[n];
      if Passes(opt, es[n]) { PassingHasReader(opt, es[n]); }
      ReadersSnoc(es[..n], es[n]);
    }
  }

  lemma PassingHasReader(opt: Options, e: FileEntry)
    requires Passes(opt, e)
    ensures e.ptr.Some?
  {
  }

  method CollectSources(opt: Options, es: seq<FileEntry>) returns (sources: seq<nat>)
    ensures sources == SourcesOf(opt, es)
  {
    hide Passes;
    sources := [];
    var i := 0;
    while i < |es|
      invariant i <= |es| && sources == SourcesOf(opt, es[..i])
    {
      assert es[..i + 1][..i] == es[..i];
      if Passes(opt, es[i]) {
        PassingHasReader(opt, es[i]);
        sources := sources + [es[i].ptr.value];
      }
      i := i + 1;
    }
    assert es[..i] == es;
  }

  // ---------- what every call keeps ----------

  predicate IsInUse(sets: seq<FilesetState>, f: nat) { f < |sets| && !sets[f].destroyed }

  ghost predicate IsCurrent(sets: seq<FilesetState>, f: nat, es: seq<FileEntry>) {
    f < |sets| && sets[f].merger.sources == SourcesOf(sets[f].opt, es)
  }

  ghost predicate MergersOk(sets: seq<FilesetState>, live: set<nat>, next: nat) {
    && (forall f: nat :: IsInUse(sets, f) ==> sets[f].merger.id in live)
    && (forall f: nat, g: nat :: IsInUse(sets, f) && IsInUse(sets, g) && sets[f].merger.id == sets[g].merger.id ==> f == g)
    && (forall m <- live :: m < next)
  }

  /** While a fileset has an open iterator its merger is the one the iterator uses,
      and it is as recent as the shared list. */
  ghost predicate ItersOk(sets: seq<FilesetState>, iters: map<nat, Iter>, nIters: nat, nextIter: nat, fsLast: Time) {
    && nIters == |iters.Keys| && (forall i <- iters :: i < nextIter)
    && (forall i <- iters :: IsInUse(sets, iters[i].f) && iters[i].merger == sets[iters[i].f].merger && sets[iters[i].f].fsLast == fsLast)
  }

  ghost predicate TimesOk(sets: seq<FilesetState>, fsLast: Time) {
    forall f: nat :: f < |sets| ==> sets[f].fsLast == fsLast || Before(sets[f].fsLast, fsLast)
  }

  /** Every fileset as recent as the shared list has the right merger. */
  ghost predicate InSync(sets: seq<FilesetState>, fsLast: Time, es: seq<FileEntry>) {
    forall f: nat :: IsInUse(sets, f) && sets[f].fsLast == fsLast ==> IsCurrent(sets, f, es)
  }

  /** A refresh with this setfile loads or unloads something. */
  ghost predicate Changes(disk: Disk, es: seq<FileEntry>) { disk.updated && NamesIn(disk) != NamesOf(es) }

  ghost function NamesIn(disk: Disk): set<Name> { set n | n in disk.names }

  // ---------- history ----------

  /** The list a merger was made from, and how many setfiles had been read by then. */
  datatype Made = Made(at: nat, entries: seq<FileEntry>)

  /** Every setfile read since then names the file. */
  ghost predicate StillNamed(n: Name, versions: seq<set<Name>>, at: nat) {
    forall w :: at <= w < |versions| ==> n in versions[w]
  }

  ghost predicate HasEntry(es: seq<FileEntry>, n: Name, ptr: Option<nat>) {
    exists i :: 0 <= i < |es| && es[i].fname == n && es[i].ptr == ptr
  }

  /** A file of the old list is still there, with its reader, or its reader is gone. */
  ghost predicate Traced(m: Made, versions: seq<set<Name>>, es: seq<FileEntry>, next: nat) {
    && m.at <= |versions|
    && forall k :: 0 <= k < |m.entries| && m.entries[k].ptr.Some? ==>
         && m.entries[k].ptr.value < next
         && (StillNamed(m.entries[k].fname, versions, m.at) ==> HasEntry(es, m.entries[k].fname, m.entries[k].ptr))
         && (!StillNamed(m.entries[k].fname, versions, m.at) ==> m.entries[k].ptr.value !in ReadersOf(es))
  }

  ghost predicate HistoryOk(sets: seq<FilesetState>, made: seq<Made>, versions: seq<set<Name>>, es: seq<FileEntry>, next: nat) {
    && |made| == |sets|
    && forall f: nat :: IsInUse(sets, f) ==>
         sets[f].merger.sources == SourcesOf(sets[f].opt, made[f].entries) && Traced(made[f], versions, es, next)
  }

  lemma {:induction false} JustMade(es: seq<FileEntry>, versions: seq<set<Name>>, next: nat)
    requires OldReaders(es, next)
    ensures Traced(Made(|versions|, es), versions, es, next)
  {
    forall k | 0 <= k < |es| && es[k].ptr.Some? ensures es[k].ptr.value < next && HasEntry(es, es[k].fname, es[k].ptr) {
      assert es[k] in es;
    }
  }

  /** One more setfile is read. */
  lemma {:induction false} OneMoreRead(m: Made, versions: seq<set<Name>>, es: seq<FileEntry>, after: seq<FileEntry>, disk: Disk, from: nat, to: nat)
    requires Traced(m, versions, es, from) && Entries(es) && OldReaders(es, from) && from <= to && Refreshed(es, after, disk, from, to)
    ensures Traced(m, versions + [NamesIn(disk)], after, to)
  {
    hide NamesRise, OwnReaders;
    var versions2 := versions + [NamesIn(disk)];
    forall k | 0 <= k < |m.entries| && m.entries[k].ptr.Some?
      ensures StillNamed(m.entries[k].fname, versions2, m.at) ==> HasEntry(after, m.entries[k].fname, m.entries[k].ptr)
      ensures !StillNamed(m.entries[k].fname, versions2, m.at) ==> m.entries[k].ptr.value !in ReadersOf(after)
    {
      var e := m.entries[k];
      NamedAgain(e.fname, versions, NamesIn(disk), m.at);
      if StillNamed(e.fname, versions, m.at) {
        var i :| 0 <= i < |es| && es[i].fname == e.fname && es[i].ptr == e.ptr;
        if e.fname in disk.names { KeptEntry(es, after, disk, from, to, i); } else { GoneEntry(es, after, disk, from, to, i); }
      } else {
        GoneBefore(es, after, disk, from, to, e.ptr.value);
      }
    }
  }

  lemma NamedAgain(n: Name, versions: seq<set<Name>>, names: set<Name>, at: nat)
    requires at <= |versions|
    ensures StillNamed(n, versions + [names], at) <==> StillNamed(n, versions, at) && n in names
  {
    var versions2 := versions + [names];
    if StillNamed(n, versions2, at) {
      assert versions2[|versions|] == names;
      forall w | at <= w < |versions| ensures n in versions[w] { assert versions2[w] == versions[w]; }
    }
  }

  lemma {:induction false} KeptEntry(es: seq<FileEntry>, after: seq<FileEntry>, disk: Disk, from: nat, to: nat, i: nat)
    requires Refreshed(es, after, disk, from, to) && i < |es| && es[i].fname in disk.names
    ensures HasEntry(after, es[i].fname, es[i].ptr)
  {
    assert es[i].fname in NamesOf(after);
    var e :| e in after && e.fname == es[i].fname;
    var j :| 0 <= j < |after| && after[j] == e;
    assert es[i] in es && e.ptr == es[i].ptr;
  }

  lemma {:induction false} GoneEntry(es: seq<FileEntry>, after: seq<FileEntry>, disk: Disk, from: nat, to: nat, i: nat)
    requires Refreshed(es, after, disk, from, to) && Entries(es) && OldReaders(es, from) && i < |es|
    requires es[i].fname !in disk.names && es[i].ptr.Some?
    ensures es[i].ptr.value !in ReadersOf(after)
  {
    forall e | e in after && e.ptr.Some? ensures e.ptr.value != es[i].ptr.value {
      assert e.fname in NamesOf(after);
      assert es[i] in es;
      if e.fname in NamesOf(es) {
        var o :| o in es && o.fname == e.fname;
        assert e.ptr == o.ptr;
        if o.ptr == es[i].ptr { OneReader(es, o, es[i]); }
      }
    }
  }

  lemma {:induction false} GoneBefore(es: seq<FileEntry>, after: seq<FileEntry>, disk: Disk, from: nat, to: nat, r: nat)
    requires Refreshed(es, after, disk, from, to) && r < from && r !in ReadersOf(es)
    ensures r !in ReadersOf(after)
  {
    forall e | e in after && e.ptr.Some? ensures e.ptr.value != r {
      if e.fname in NamesOf(es) {
        var o :| o in es && o.fname == e.fname;
        assert e.ptr == o.ptr;
      }
    }
  }

  /** The history of every fileset after one more setfile is read. */
  lemma {:induction false} HistoryRead(sets: seq<FilesetState>, made: seq<Made>, versions: seq<set<Name>>, es: seq<FileEntry>,
                                       after: seq<FileEntry>, disk: Disk, from: nat, to: nat)
    requires HistoryOk(sets, made, versions, es, from) && Entries(es) && OldReaders(es, from) && from <= to && Refreshed(es, after, disk, from, to)
    ensures HistoryOk(sets, made, versions + [NamesIn(disk)], after, to)
  {
    hide Traced, Refreshed, Entries, OldReaders, SourcesOf;
    forall f: nat | IsInUse(sets, f) ensures Traced(made[f], versions + [NamesIn(disk)], after, to) {
      OneMoreRead(made[f], versions, es, after, disk, from, to);
    }
  }

  /** The history after one fileset gets a merger made from the list as it is. */
  lemma {:induction false} HistoryMade(sets: seq<FilesetState>, made: seq<Made>, versions: seq<set<Name>>, es: seq<FileEntry>, next: nat,
                                       f: nat, x: FilesetState)
    requires HistoryOk(sets, made, versions, es, next) && OldReaders(es, next) && f < |sets|
    requires x.merger.sources == SourcesOf(x.opt, es)
    ensures HistoryOk(sets[f := x], made[f := Made(|versions|, es)], versions, es, next)
  {
    hide Traced, OldReaders, SourcesOf;
    JustMade(es, versions, next);
    var sets2 := sets[f := x];
    forall g: nat | IsInUse(sets2, g) && g != f ensures IsInUse(sets, g) { }
  }

  /** Stamps and destruction do not matter to it. */
  lemma {:induction false} HistoryStamped(sets: seq<FilesetState>, made: seq<Made>, versions: seq<set<Name>>, es: seq<FileEntry>, next: nat,
                                          f: nat, t: Time)
    requires HistoryOk(sets, made, versions, es, next) && f < |sets|
    ensures HistoryOk(sets[f := sets[f].(fsLast := t)], made, versions, es, next)
    ensures HistoryOk(sets[f := sets[f].(destroyed := true)], made, versions, es, next)
  {
    hide Traced, SourcesOf;
    var a, b := sets[f := sets[f].(fsLast := t)], sets[f := sets[f].(destroyed := true)];
    forall g: nat | IsInUse(a, g) ensures IsInUse(sets, g) { }
    forall g: nat | IsInUse(b, g) ensures IsInUse(sets, g) { }
  }

  /** Loading or unloading something is having other names than before. */
  lemma {:induction false} ChangesIff(was: seq<FileEntry>, now: seq<FileEntry>, disk: Disk, from: nat, to: nat)
    requires Refreshed(was, now, disk, from, to)
    ensures NamesOf(now) == NamesIn(disk)
    ensures NamesOf(now) - NamesOf(was) != {} || NamesOf(was) - NamesOf(now) != {} <==> NamesIn(disk) != NamesOf(was)
  {
    hide NamesOf;
    forall n ensures n in NamesOf(now) <==> n in NamesIn(disk) { }
  }

  /** Only fileset f changes, and only its merger and its time. */
  ghost predicate OnlyChanges(a: seq<FilesetState>, b: seq<FilesetState>, f: nat) {
    f < |a| == |b| && b == a[f := a[f].(merger := b[f].merger, fsLast := b[f].fsLast)]
  }

  /** `users` are the filesets not destroyed yet. */
  ghost predicate UsersOk(sets: seq<FilesetState>, users: set<nat>, nFs: nat) {
    nFs == |users| && (forall f <- users :: f < |sets|) && forall f: nat :: f < |sets| ==> (f in users <==> !sets[f].destroyed)
  }

  /** All that concerns the filesets and their iterators. */
  ghost predicate FilesetsOk(sets: seq<FilesetState>, live: set<nat>, next: nat, iters: map<nat, Iter>, nIters: nat, nextIter: nat,
                             fsLast: Time, users: set<nat>, nFs: nat)
  {
    && MergersOk(sets, live, next) && ItersOk(sets, iters, nIters, nextIter, fsLast) && TimesOk(sets, fsLast) && UsersOk(sets, users, nFs)
  }

  // ---------- one fileset gets a new merger ----------

  lemma {:induction false} NewMerger(sets: seq<FilesetState>, live: set<nat>, next: nat, f: nat, m: MergerRef, t: Time)
    requires MergersOk(sets, live, next) && IsInUse(sets, f) && m.id == next
    ensures MergersOk(sets[f := sets[f].(merger := m, fsLast := t)], live - {sets[f].merger.id} + {m.id}, next + 1)
  {
    var sets2 := sets[f := sets[f].(merger := m, fsLast := t)];
    forall g: nat | IsInUse(sets2, g) ensures IsInUse(sets, g) && sets2[g].merger.id == (if g == f then next else sets[g].merger.id) { }
  }

  lemma {:induction false} SameMergers(sets: seq<FilesetState>, live: set<nat>, next: nat, f: nat, t: Time)
    requires MergersOk(sets, live, next) && f < |sets|
    ensures MergersOk(sets[f := sets[f].(fsLast := t)], live, next)
  {
    var sets2 := sets[f := sets[f].(fsLast := t)];
    forall g: nat ensures IsInUse(sets2, g) == IsInUse(sets, g) { }
  }

  /** A fileset older than the list has no open iterators, so replacing its merger pulls nothing away. */
  lemma {:induction false} OthersIterate(sets: seq<FilesetState>, iters: map<nat, Iter>, nIters: nat, nextIter: nat, fsLast: Time,
                                         f: nat, x: FilesetState)
    requires ItersOk(sets, iters, nIters, nextIter, fsLast) && f < |sets| && sets[f].fsLast != fsLast
    ensures ItersOk(sets[f := x], iters, nIters, nextIter, fsLast)
  {
    forall i | i in iters ensures iters[i].f != f { }
  }

  lemma {:induction false} Resynced(sets: seq<FilesetState>, fsLast: Time, es: seq<FileEntry>, f: nat, m: MergerRef)
    requires TimesOk(sets, fsLast) && IsInUse(sets, f) && m.sources == SourcesOf(sets[f].opt, es)
    ensures InSync(sets, fsLast, es) ==> InSync(sets[f := sets[f].(merger := m, fsLast := fsLast)], fsLast, es)
    ensures TimesOk(sets[f := sets[f].(merger := m, fsLast := fsLast)], fsLast)
  {
    hide SourcesOf;
    var sets2 := sets[f := sets[f].(merger := m, fsLast := fsLast)];
    if InSync(sets, fsLast, es) {
      forall g: nat | IsInUse(sets2, g) && sets2[g].fsLast == fsLast ensures IsCurrent(sets2, g, es) {
        if g != f { assert IsInUse(sets, g) && IsCurrent(sets, g, es); }
      }
    }
  }

  /** After a refresh at a later time only the calling fileset is as recent as the list. */
  lemma {:induction false} RefreshedSync(sets: seq<FilesetState>, was: Time, now: Time, es: seq<FileEntry>, f: nat, m: MergerRef)
    requires TimesOk(sets, was) && Before(was, now) && IsInUse(sets, f)
    ensures var sets2 := sets[f := sets[f].(merger := m, fsLast := now)];
            TimesOk(sets2, now) && (InSync(sets2, now, es) <==> m.sources == SourcesOf(sets[f].opt, es))
  {
    hide SourcesOf;
    var sets2 := sets[f := sets[f].(merger := m, fsLast := now)];
    forall g: nat | g < |sets2| && g != f ensures Before(sets2[g].fsLast, now) && sets2[g].fsLast != now {
      assert sets[g].fsLast == was || Before(sets[g].fsLast, was);
    }
    assert IsInUse(sets2, f);
  }

  lemma NoneOpen(sets: seq<FilesetState>, sets2: seq<FilesetState>, iters: map<nat, Iter>, nextIter: nat, t: Time, t2: Time)
    requires ItersOk(sets, iters, 0, nextIter, t)
    ensures ItersOk(sets2, iters, 0, nextIter, t2)
  {
    assert iters.Keys == {};
  }

  lemma ClosedKeys(iters: map<nat, Iter>, i: nat)
    requires i in iters
    ensures (iters - {i}).Keys == iters.Keys - {i} && |(iters - {i}).Keys| == |iters.Keys| - 1
  {
  }

  lemma {:induction false} IterCloses(sets: seq<FilesetState>, iters: map<nat, Iter>, nIters: nat, nextIter: nat, fsLast: Time, i: nat)
    requires ItersOk(sets, iters, nIters, nextIter, fsLast) && i in iters
    ensures nIters > 0 && ItersOk(sets, iters - {i}, nIters - 1, nextIter, fsLast) && IsInUse(sets, iters[i].f)
  {
    ClosedKeys(iters, i);
  }

  lemma {:induction false} IterOpens(sets: seq<FilesetState>, iters: map<nat, Iter>, nIters: nat, nextIter: nat, fsLast: Time, f: nat)
    requires ItersOk(sets, iters, nIters, nextIter, fsLast) && IsInUse(sets, f) && sets[f].fsLast == fsLast
    ensures nextIter !in iters && ItersOk(sets, iters[nextIter := Iter(f, sets[f].merger)], nIters + 1, nextIter + 1, fsLast)
  {
    var iters2 := iters[nextIter := Iter(f, sets[f].merger)];
    assert nextIter !in iters;
    assert iters2.Keys == iters.Keys + {nextIter};
  }

  // ---------- a refresh that changes nothing ----------

  /** A refresh that neither loads nor unloads leaves the vector as it was. */
  lemma {:induction false} SameEntries(was: seq<FileEntry>, now: seq<FileEntry>, disk: Disk, from: nat, to: nat)
    requires Entries(was) && Entries(now) && Refreshed(was, now, disk, from, to)
    requires NamesOf(now) - NamesOf(was) == {} && NamesOf(was) - NamesOf(now) == {}
    ensures now == was
  {
    hide OwnReaders, Less;
    forall n ensures n in NamesOf(now) <==> n in NamesOf(was) {
      assert n !in NamesOf(now) - NamesOf(was) && n !in NamesOf(was) - NamesOf(now);
    }
    SameOrder(was, now);
    forall i | 0 <= i < |was| ensures now[i] == was[i] {
      assert now[i] in now && was[i] in was;
    }
  }

  /** Vectors sorted by name with the same names have them in the same places. */
  lemma {:induction false} SameOrder(a: seq<FileEntry>, b: seq<FileEntry>)
    requires NamesRise(a) && NamesRise(b) && forall n :: n in NamesOf(a) <==> n in NamesOf(b)
    ensures |a| == |b| && forall i :: 0 <= i < |a| ==> a[i].fname == b[i].fname
  {
    var n := 0;
    while n < |a| && n < |b|
      invariant n <= |a| && n <= |b| && forall i :: 0 <= i < n ==> a[i].fname == b[i].fname
    {
      NotEarlier(a, b, n);
      NotEarlier(b, a, n);
      LessTrichotomy(a[n].fname, b[n].fname);
      n := n + 1;
    }
    if n < |a| { NotExtra(b, a, n); }
    if n < |b| { NotExtra(a, b, n); }
  }

  lemma {:induction false} NotEarlier(a: seq<FileEntry>, b: seq<FileEntry>, n: nat)
    requires NamesRise(a) && NamesRise(b) && n < |a| && n < |b| && forall i :: 0 <= i < n ==> a[i].fname == b[i].fname
    requires forall m :: m in NamesOf(a) <==> m in NamesOf(b)
    ensures !Less(a[n].fname, b[n].fname)
  {
    hide Less;
    assert a[n] in a;
    assert a[n].fname in NamesOf(b);
    var e :| e in b && e.fname == a[n].fname;
    var j :| 0 <= j < |b| && b[j] == e;
    if j < n { LessTrichotomy(a[j].fname, a[n].fname); } else if j > n { LessTrichotomy(b[n].fname, b[j].fname); }
    LessTrichotomy(a[n].fname, b[n].fname);
  }

  lemma {:induction false} NotExtra(a: seq<FileEntry>, b: seq<FileEntry>, n: nat)
    requires NamesRise(b) && n == |a| < |b| && forall i :: 0 <= i < n ==> a[i].fname == b[i].fname
    ensures b[n].fname !in NamesOf(a) && b[n].fname in NamesOf(b)
  {
    hide Less;
    forall e | e in a ensures e.fname != b[n].fname {
      var j :| 0 <= j < |a| && a[j] == e;
      LessTrichotomy(b[j].fname, b[n].fname);
    }
    assert b[n] in b;
  }

  // ---------- the filesets ----------

  class Filesets {
    const files: Files
    var nFs: nat
    var nIters: nat
    var reloadNeeded: bool
    var fsLast: Time
    var sets: seq<FilesetState>
    /** Handles for the next merger and the next iterator. */
    var nextMerger: nat
    var nextIter: nat
    ghost var iters: map<nat, Iter>
    ghost var liveMergers: set<nat>
    ghost var users: set<nat>
    /** What the setfile named, each time it was read. */
    ghost var versions: seq<set<Name>>
    /** What each fileset's merger was made from. */
    ghost var made: seq<Made>

    ghost predicate Current(f: nat)
      reads this`sets, files`entries
    {
      IsCurrent(sets, f, files.entries)
    }

    predicate InUse(f: nat)
      reads this`sets
    {
      IsInUse(sets, f)
    }

    ghost predicate Valid()
      reads this, files
    {
      && files.Valid() && FilesetsOk(sets, liveMergers, nextMerger, iters, nIters, nextIter, fsLast, users, nFs)
      && (fsLast == ZERO ==> files.entries == []) && HistoryOk(sets, made, versions, files.entries, files.nextReader)
    }

    /** No fileset that counts as recent has an old merger. */
    ghost predicate Synced()
      reads this`sets, this`fsLast, files`entries
    {
      InSync(sets, fsLast, files.entries)
    }

    constructor (opt: Options)
      ensures Valid() && fresh(files) && |sets| == 1 && InUse(0) && sets[0].opt == opt && reloadNeeded && fsLast == ZERO
      ensures iters == map[] && nIters == 0 && files.entries == [] && Synced()
    {
      files := new Files();
      nFs, nIters, reloadNeeded, fsLast := 1, 0, true, ZERO;
      sets := [FilesetState(opt, ZERO, MergerRef(0, []), false)];
      iters, liveMergers, nextMerger, nextIter, users := map[], {0}, 1, 0, {0};
      versions, made := [], [Made(0, [])];
    }

    /** Replaces the fileset's merger by one over the current entries. */
    method ReinitMerger(f: nat)
      requires InUse(f)
      modifies this`sets, this`liveMergers, this`nextMerger, this`made
      ensures made == old(Remade(f))
      ensures sets == old(sets)[f := old(sets[f]).(merger := MergerRef(old(nextMerger), SourcesOf(old(sets[f]).opt, files.entries)))]
      ensures liveMergers == old(liveMergers) - {old(sets[f]).merger.id} + {old(nextMerger)} && nextMerger == old(nextMerger) + 1
      ensures InUse(f) && forall r :: r in sets[f].merger.sources <==>
                exists e :: e in files.entries && e.ptr == Some(r)
                            && (sets[f].opt.nameFilter == None || sets[f].opt.nameFilter.value(e.fname))
                            && (sets[f].opt.readerFilter == None || sets[f].opt.readerFilter.value(r))
    {
      SourcesAreReaders(sets[f].opt, files.entries);
      var sources := CollectSources(sets[f].opt, files.entries);
      liveMergers := liveMergers - {sets[f].merger.id} + {nextMerger};
      sets := sets[f := sets[f].(merger := MergerRef(nextMerger, sources))];
      nextMerger := nextMerger + 1;
      made := Remade(f);
    }

    /** The history once f has a merger made from the list as it is. */
    ghost function Remade(f: nat): seq<Made>
      reads this`made, this`versions, files`entries
    {
      if f < |made| then made[f := Made(|versions|, files.entries)] else made
    }

    /** When `reload` reads the setfile again. */
    predicate Due(f: nat, now: Time)
      requires f < |sets|
      reads this`sets, this`nIters, this`reloadNeeded, this`fsLast
    {
      && nIters == 0
      && (reloadNeeded || (sets[f].opt.interval != NEVER && now.sec - fsLast.sec > sets[f].opt.interval))
    }

    /** Afterwards the merger is current exactly if its stamp was old, it was current, or the setfile is due and changes. */
    method Reload(f: nat, now: Time, disk: Disk) returns (ghost loaded: set<Name>, ghost unloaded: set<Name>)
      requires Valid() && InUse(f) && Before(fsLast, now) && disk.Distinct()
      modifies this`sets, this`liveMergers, this`nextMerger, this`made, this`reloadNeeded, this`fsLast, this`versions, files
      ensures Valid() && InUse(f) && OnlyChanges(old(sets), sets, f) && sets[f].fsLast == fsLast
      ensures old(Due(f, now)) <==> old(nIters == 0 && (reloadNeeded || (sets[f].opt.interval != 0xFFFF_FFFF
                                                                         && now.sec > fsLast.sec + sets[f].opt.interval)))
      ensures Current(f) <==> old(sets[f].fsLast) != old(fsLast) || old(Current(f)) || (old(Due(f, now)) && Changes(disk, old(files.entries)))
      ensures old(Synced()) ==> Synced()
      ensures f < |made| == |old(made)| && made == old(made)[f := made[f]]
      ensures made == if old(Due(f, now)) && Changes(disk, old(files.entries)) then Remade(f)
                      else if old(sets[f].fsLast) != old(fsLast) then old(Remade(f)) else old(made)
      ensures old(Due(f, now)) ==> fsLast == now && !reloadNeeded
      ensures !old(Due(f, now)) ==> fsLast == old(fsLast) && reloadNeeded == old(reloadNeeded) && unchanged(files) && versions == old(versions)
      ensures old(Due(f, now)) ==> versions == old(versions) + if disk.updated then [NamesIn(disk)] else []
      ensures old(Due(f, now)) && disk.updated ==>
                && Refreshed(old(files.entries), files.entries, disk, old(files.nextReader), files.nextReader)
                && loaded == NamesOf(files.entries) - NamesOf(old(files.entries))
                && unloaded == NamesOf(old(files.entries)) - NamesOf(files.entries)
      ensures old(Due(f, now)) && !disk.updated ==> files.entries == old(files.entries)
      ensures old(sets[f].fsLast) == old(fsLast) && !old(Due(f, now)) ==> sets == old(sets)
    {
      hide MergersOk, ItersOk, TimesOk, UsersOk, SourcesOf, Entries, Refreshed, NamesOf, Files.Valid, HistoryOk, InSync, Changes, IsCurrent, Before;
      loaded, unloaded := {}, {};
      SyncedMeans(this, f);
      HistoryLength(sets, made, versions, files.entries, files.nextReader);
      if sets[f].fsLast != fsLast {
        Resync(f);
      }
      if !reloadNeeded && sets[f].opt.interval == NEVER { return; }
      if nIters > 0 { return; }
      if reloadNeeded || now.sec - fsLast.sec > sets[f].opt.interval {
        loaded, unloaded := Refresh(f, now, disk);
      }
    }

    /** Brings a merger made from an older list up to date. */
    method Resync(f: nat)
      requires Valid() && InUse(f) && sets[f].fsLast != fsLast
      modifies this`sets, this`liveMergers, this`nextMerger, this`made
      ensures Valid() && InUse(f) && OnlyChanges(old(sets), sets, f) && sets[f].fsLast == fsLast
      ensures Current(f) && (old(Synced()) ==> Synced())
      ensures made == old(Remade(f))
    {
      hide MergersOk, ItersOk, TimesOk, UsersOk, SourcesOf, Files.Valid, HistoryOk, InSync;
      ghost var was, m := sets, MergerRef(nextMerger, SourcesOf(sets[f].opt, files.entries));
      ghost var x := was[f].(merger := m, fsLast := fsLast);
      OpenFiles(files);
      NewMerger(was, liveMergers, nextMerger, f, m, fsLast);
      OthersIterate(was, iters, nIters, nextIter, fsLast, f, x);
      Resynced(was, fsLast, files.entries, f, m);
      HistoryMade(was, made, versions, files.entries, files.nextReader, f, x);
      HistoryLength(was, made, versions, files.entries, files.nextReader);
      ReinitMerger(f);
      sets := sets[f := sets[f].(fsLast := fsLast)];
      assert sets == was[f := x];
      SameUsers(was, sets, users, nFs);
    }

    /** Rereads the setfile; only the calling fileset's merger is rebuilt, and only if files came or went.
        It is current afterwards exactly if the setfile changes the list or it was current. */
    method Refresh(f: nat, now: Time, disk: Disk) returns (ghost loaded: set<Name>, ghost unloaded: set<Name>)
      requires Valid() && InUse(f) && Before(fsLast, now) && disk.Distinct() && nIters == 0
      modifies this`sets, this`liveMergers, this`nextMerger, this`made, this`reloadNeeded, this`fsLast, this`versions, files
      ensures Valid() && InUse(f) && OnlyChanges(old(sets), sets, f) && sets[f].fsLast == fsLast == now && !reloadNeeded
      ensures Current(f) <==> Changes(disk, old(files.entries)) || old(Current(f))
      ensures Synced() <==> Current(f)
      ensures !Changes(disk, old(files.entries)) ==> sets[f].merger == old(sets[f].merger) && made == old(made)
      ensures Changes(disk, old(files.entries)) ==> made == Remade(f) && f < |made| && |old(made)| == |made| && made == old(made)[f := made[f]]
      ensures versions == old(versions) + if disk.updated then [NamesIn(disk)] else []
      ensures disk.updated ==>
                && Refreshed(old(files.entries), files.entries, disk, old(files.nextReader), files.nextReader)
                && loaded == NamesOf(files.entries) - NamesOf(old(files.entries))
                && unloaded == NamesOf(old(files.entries)) - NamesOf(files.entries)
      ensures !disk.updated ==> files.entries == old(files.entries) && loaded == {} && unloaded == {}
    {
      hide MergersOk, ItersOk, TimesOk, UsersOk, SourcesOf, Entries, OldReaders, Refreshed, NamesOf, Files.Valid, HistoryOk, InSync, Before;
      ghost var was, before, from, list := sets, files.entries, files.nextReader, made;
      OpenFiles(files);
      HistoryLength(was, list, versions, before, from);
      files.StartCounting();
      loaded, unloaded := files.Reload(disk);
      OpenFiles(files);
      if disk.updated {
        ChangesIff(before, files.entries, disk, from, files.nextReader);
        HistoryRead(was, list, versions, before, files.entries, disk, from, files.nextReader);
        versions := versions + [NamesIn(disk)];
      }
      ghost var live, next := liveMergers, nextMerger;
      if files.nLoaded > 0 || files.nUnloaded > 0 {
        ghost var m := MergerRef(next, SourcesOf(sets[f].opt, files.entries));
        NewMerger(was, live, next, f, m, now);
        HistoryMade(was, list, versions, files.entries, files.nextReader, f, was[f].(merger := m, fsLast := now));
        ReinitMerger(f);
      } else {
        if disk.updated { SameEntries(before, files.entries, disk, from, files.nextReader); }
        SameMergers(was, live, next, f, now);
        HistoryStamped(was, list, versions, files.entries, files.nextReader, f, now);
      }
      Stamp(f, now, was);
    }

    /** Marks the fileset as made from the list just read. */
    method Stamp(f: nat, now: Time, ghost was: seq<FilesetState>)
      requires IsInUse(was, f) && |sets| == |was| && sets == was[f := was[f].(merger := sets[f].merger)]
      requires files.Valid() && nIters == 0 && ItersOk(was, iters, 0, nextIter, fsLast) && Before(fsLast, now)
      requires MergersOk(was[f := was[f].(merger := sets[f].merger, fsLast := now)], liveMergers, nextMerger)
      requires TimesOk(was, fsLast) && UsersOk(was, users, nFs)
      requires HistoryOk(was[f := was[f].(merger := sets[f].merger, fsLast := now)], made, versions, files.entries, files.nextReader)
      modifies this`sets, this`fsLast, this`reloadNeeded
      ensures Valid() && InUse(f) && sets == was[f := was[f].(merger := old(sets[f].merger), fsLast := now)] && fsLast == now && !reloadNeeded
      ensures Synced() <==> Current(f)
    {
      hide MergersOk, ItersOk, TimesOk, UsersOk, SourcesOf, Files.Valid, HistoryOk, InSync;
      ghost var m := sets[f].merger;
      RefreshedSync(was, fsLast, now, files.entries, f, m);
      fsLast := now;
      sets := sets[f := sets[f].(fsLast := now)];
      assert sets == was[f := was[f].(merger := m, fsLast := now)];
      NoneOpen(was, sets, iters, nextIter, old(fsLast), now);
      reloadNeeded := false;
      SameUsers(was, sets, users, nFs);
    }

    /** Rereads the setfile at once, or, with iterators open, asks for it to be reread when the last one
        closes.  It is the one call that can leave a fileset behind: when its stamp is old, its merger not
        current, and the setfile changes nothing. */
    method ReloadNow(f: nat, now: Time, disk: Disk) returns (ghost loaded: set<Name>, ghost unloaded: set<Name>)
      requires Valid() && InUse(f) && Before(fsLast, now) && disk.Distinct()
      modifies this`sets, this`liveMergers, this`nextMerger, this`made, this`reloadNeeded, this`fsLast, this`versions, files
      ensures Valid() && InUse(f) && OnlyChanges(old(sets), sets, f)
      ensures nIters > 0 ==> reloadNeeded && unchanged(files) && sets == old(sets) && fsLast == old(fsLast) && versions == old(versions)
      ensures nIters == 0 ==> sets[f].fsLast == fsLast == now && !reloadNeeded
      ensures nIters == 0 ==> (Current(f) <==> Changes(disk, old(files.entries)) || old(Current(f))) && (Synced() <==> Current(f))
      ensures nIters == 0 ==> versions == old(versions) + if disk.updated then [NamesIn(disk)] else []
      ensures old(Synced()) && (nIters > 0 || old(sets[f].fsLast) == old(fsLast)) ==> Synced()
      ensures nIters > 0 || !Changes(disk, old(files.entries)) ==> sets[f].merger == old(sets[f].merger) && made == old(made)
      ensures nIters == 0 && Changes(disk, old(files.entries)) ==> made == Remade(f) && f < |made| == |old(made)| && made == old(made)[f := made[f]]
      ensures nIters == 0 && disk.updated ==>
                && Refreshed(old(files.entries), files.entries, disk, old(files.nextReader), files.nextReader)
                && loaded == NamesOf(files.entries) - NamesOf(old(files.entries))
                && unloaded == NamesOf(old(files.entries)) - NamesOf(files.entries)
      ensures nIters == 0 && !disk.updated ==> files.entries == old(files.entries) && loaded == {} && unloaded == {}
    {
      hide MergersOk, ItersOk, TimesOk, UsersOk, SourcesOf, Entries, Refreshed, NamesOf, Files.Valid, IsCurrent, HistoryOk, InSync, Changes;
      loaded, unloaded := {}, {};
      SyncedMeans(this, f);
      if nIters > 0 {
        reloadNeeded := true;
        return;
      }
      loaded, unloaded := Refresh(f, now, disk);
    }

    /** Opening an iterator of any kind first brings the fileset up to date. */
    method OpenIter(f: nat, now: Time, disk: Disk) returns (i: nat)
      requires Valid() && InUse(f) && Before(fsLast, now) && disk.Distinct()
      modifies this, files
      ensures Valid() && InUse(f) && OnlyChanges(old(sets), sets, f)
      ensures sets[f].fsLast == fsLast && i !in old(iters) && iters == old(iters)[i := Iter(f, sets[f].merger)]
      ensures Current(f) <==> old(sets[f].fsLast) != old(fsLast) || old(Current(f)) || (old(Due(f, now)) && Changes(disk, old(files.entries)))
      ensures old(Synced()) ==> Synced()
      ensures made == if old(Due(f, now)) && Changes(disk, old(files.entries)) then Remade(f)
                      else if old(sets[f].fsLast) != old(fsLast) then old(Remade(f)) else old(made)
      ensures versions == old(versions) + if old(Due(f, now)) && disk.updated then [NamesIn(disk)] else []
      ensures old(sets[f].fsLast) == old(fsLast) && !old(Due(f, now)) ==> sets == old(sets) && unchanged(files)
    {
      hide MergersOk, ItersOk, TimesOk, UsersOk, SourcesOf, Entries, Refreshed, NamesOf, Files.Valid, IsCurrent, HistoryOk, InSync, Changes;
      ghost var loaded, unloaded := Reload(f, now, disk);
      IterOpens(sets, iters, nIters, nextIter, fsLast, f);
      i := nextIter;
      nIters := nIters + 1;
      iters := iters[i := Iter(f, sets[f].merger)];
      nextIter := nextIter + 1;
    }

    /** Closing an iterator gives a postponed reload its chance. */
    method CloseIter(i: nat, f: nat, now: Time, disk: Disk) returns (ghost loaded: set<Name>, ghost unloaded: set<Name>)
      requires Valid() && i in iters && iters[i].f == f && Before(fsLast, now) && disk.Distinct()
      modifies this, files
      ensures Valid() && OnlyChanges(old(sets), sets, f) && iters == old(iters) - {i}
      ensures nIters == 0 && old(reloadNeeded) ==>
                fsLast == now && !reloadNeeded && InUse(f) && (Current(f) <==> Changes(disk, old(files.entries)) || old(Current(f)))
      ensures nIters == 0 && old(reloadNeeded) && disk.updated ==>
                Refreshed(old(files.entries), files.entries, disk, old(files.nextReader), files.nextReader)
      ensures nIters > 0 ==> unchanged(files) && fsLast == old(fsLast) && made == old(made) && versions == old(versions)
      ensures nIters == 0 ==>
                var due := old(reloadNeeded) || (old(sets[f]).opt.interval != NEVER && now.sec - old(fsLast).sec > old(sets[f]).opt.interval);
                && versions == old(versions) + (if due && disk.updated then [NamesIn(disk)] else [])
                && made == if due && Changes(disk, old(files.entries)) then Remade(f) else old(made)
      ensures nIters == |iters.Keys| && (old(Synced()) ==> Synced())
    {
      hide MergersOk, TimesOk, UsersOk, SourcesOf, Entries, Refreshed, NamesOf, Files.Valid, IsCurrent, HistoryOk, InSync, Changes;
      IterCloses(sets, iters, nIters, nextIter, fsLast, i);
      nIters := nIters - 1;
      iters := iters - {i};
      loaded, unloaded := Reload(f, now, disk);
    }

    /** Another fileset over the same list, with options of its own. */
    method Dup(opt: Options) returns (f: nat)
      requires Valid()
      modifies this`sets, this`nFs, this`liveMergers, this`nextMerger, this`made, this`users
      ensures Valid() && (old(Synced()) ==> Synced())
      ensures f == |old(sets)| && sets == old(sets) + [FilesetState(opt, ZERO, MergerRef(old(nextMerger), []), false)]
      ensures made == old(made) + [Made(|versions|, [])]
    {
      hide Files.Valid, FilesetsOk, SourcesOf, HistoryOk, InSync;
      f := |sets|;
      var x := FilesetState(opt, ZERO, MergerRef(nextMerger, []), false);
      Duplicated(sets, liveMergers, nextMerger, iters, nIters, nextIter, fsLast, files.entries, users, nFs, f, x);
      HistoryGrows(sets, made, versions, files.entries, files.nextReader, x);
      sets, nextMerger, nFs := sets + [x], nextMerger + 1, nFs + 1;
      made, liveMergers, users := made + [Made(|versions|, [])], liveMergers + {x.merger.id}, users + {f};
    }

    /** Destroys a fileset that has no open iterators; the last one takes the readers with it. */
    method Destroy(f: nat)
      requires Valid() && InUse(f) && forall i <- iters :: iters[i].f != f
      modifies this`sets, this`nFs, this`liveMergers, this`users, files
      ensures Valid() && sets == old(sets)[f := old(sets[f]).(destroyed := true)] && iters == old(iters)
      ensures nFs == 0 <==> forall g: nat :: g < |sets| ==> sets[g].destroyed
      ensures if nFs == 0 then files.live == {} else unchanged(files)
      ensures old(Synced()) ==> Synced()
    {
      hide FilesetsOk, SourcesOf, Entries, OldReaders, HistoryOk, InSync;
      Destroyed(sets, liveMergers, nextMerger, iters, nIters, nextIter, fsLast, files.entries, users, nFs, f);
      HistoryStamped(sets, made, versions, files.entries, files.nextReader, f, fsLast);
      ghost var sets2 := sets[f := sets[f].(destroyed := true)];
      if forall g: nat :: g < |sets2| ==> sets2[g].destroyed { HistoryOver(sets2, made, versions, files.entries, files.nextReader); }
      nFs := nFs - 1;
      users := users - {f};
      if nFs == 0 { files.Destroy(); }
      liveMergers := liveMergers - {sets[f].merger.id};
      sets := sets[f := sets[f].(destroyed := true)];
    }
  }

  lemma SyncedMeans(fs: Filesets, f: nat)
    requires fs.InUse(f)
    ensures fs.Synced() && fs.sets[f].fsLast == fs.fsLast ==> fs.Current(f)
  {
    hide SourcesOf;
  }

  lemma HistoryLength(sets: seq<FilesetState>, made: seq<Made>, versions: seq<set<Name>>, es: seq<FileEntry>, next: nat)
    requires HistoryOk(sets, made, versions, es, next)
    ensures |made| == |sets|
  {
  }

  lemma {:induction false} HistoryGrows(sets: seq<FilesetState>, made: seq<Made>, versions: seq<set<Name>>, es: seq<FileEntry>, next: nat,
                                        x: FilesetState)
    requires HistoryOk(sets, made, versions, es, next) && x.merger.sources == []
    ensures HistoryOk(sets + [x], made + [Made(|versions|, [])], versions, es, next)
  {
    hide Traced;
    assert SourcesOf(x.opt, []) == [];
    assert Traced(Made(|versions|, []), versions, es, next) by { NothingTraced(versions, es, next); }
    forall g: nat | IsInUse(sets + [x], g) && g < |sets| ensures IsInUse(sets, g) { }
  }

  lemma NothingTraced(versions: seq<set<Name>>, es: seq<FileEntry>, next: nat)
    ensures Traced(Made(|versions|, []), versions, es, next)
  {
  }

  lemma HistoryOver(sets: seq<FilesetState>, made: seq<Made>, versions: seq<set<Name>>, es: seq<FileEntry>, next: nat)
    requires HistoryOk(sets, made, versions, es, next) && forall g: nat :: g < |sets| ==> sets[g].destroyed
    ensures forall m: nat :: HistoryOk(sets, made, versions, [], m)
  {
    hide Traced, SourcesOf;
  }

  lemma {:induction false} Destroyed(sets: seq<FilesetState>, live: set<nat>, next: nat, iters: map<nat, Iter>, nIters: nat, nextIter: nat,
                                     fsLast: Time, es: seq<FileEntry>, users: set<nat>, nFs: nat, f: nat)
    requires FilesetsOk(sets, live, next, iters, nIters, nextIter, fsLast, users, nFs) && IsInUse(sets, f) && forall i <- iters :: iters[i].f != f
    ensures var sets2 := sets[f := sets[f].(destroyed := true)];
            && nFs > 0 && FilesetsOk(sets2, live - {sets[f].merger.id}, next, iters, nIters, nextIter, fsLast, users - {f}, nFs - 1)
            && (InSync(sets, fsLast, es) ==> InSync(sets2, fsLast, es)) && (nFs == 1 ==> InSync(sets2, fsLast, []))
            && (nFs == 1 <==> forall g: nat :: g < |sets2| ==> sets2[g].destroyed)
  {
    var sets2 := sets[f := sets[f].(destroyed := true)];
    forall g: nat ensures IsInUse(sets2, g) == (IsInUse(sets, g) && g != f) { }
    forall g: nat | g < |sets| ensures IsCurrent(sets2, g, es) == IsCurrent(sets, g, es) { }
    var rest := users - {f};
    assert |rest| == |users| - 1;
    if nFs > 1 { var g :| g in rest; assert !sets2[g].destroyed; }
  }

  lemma SameUsers(sets: seq<FilesetState>, sets2: seq<FilesetState>, users: set<nat>, nFs: nat)
    requires UsersOk(sets, users, nFs) && |sets2| == |sets| && forall f: nat :: f < |sets| ==> sets2[f].destroyed == sets[f].destroyed
    ensures UsersOk(sets2, users, nFs)
  {
  }

  lemma {:induction false} Duplicated(sets: seq<FilesetState>, live: set<nat>, next: nat, iters: map<nat, Iter>, nIters: nat, nextIter: nat,
                                      fsLast: Time, es: seq<FileEntry>, users: set<nat>, nFs: nat, f: nat, x: FilesetState)
    requires FilesetsOk(sets, live, next, iters, nIters, nextIter, fsLast, users, nFs) && (fsLast == ZERO ==> es == [])
    requires f == |sets| && x.fsLast == ZERO && x.merger == MergerRef(next, []) && !x.destroyed
    ensures FilesetsOk(sets + [x], live + {next}, next + 1, iters, nIters, nextIter, fsLast, users + {f}, nFs + 1)
    ensures InSync(sets, fsLast, es) ==> InSync(sets + [x], fsLast, es)
  {
    var sets2 := sets + [x];
    forall g: nat ensures IsInUse(sets2, g) == (IsInUse(sets, g) || g == f) { }
    forall g: nat | g < f ensures sets2[g] == sets[g] && IsCurrent(sets2, g, es) == IsCurrent(sets, g, es) { }
    assert fsLast == ZERO ==> SourcesOf(x.opt, es) == [];
    assert f !in users;
  }

  lemma OpenFiles(files: Files)
    requires files.Valid()
    ensures Entries(files.entries) && files.live == ReadersOf(files.entries) && OldReaders(files.entries, files.nextReader)
  {
  }

  /** Every setfile read since the fileset's merger was made names all the files the merger reads. */
  ghost predicate NothingUnloaded(fs: Filesets, f: nat)
    requires f < |fs.made| && f < |fs.sets|
    reads fs
  {
    forall k :: 0 <= k < |fs.made[f].entries| && Passes(fs.sets[f].opt, fs.made[f].entries[k]) ==>
      StillNamed(fs.made[f].entries[k].fname, fs.versions, fs.made[f].at)
  }

  /** In every state: an open iterator's merger exists, and all its readers are open exactly when
      every setfile read since the merger was made names their files. */
  lemma {:induction false} IteratorsReadOpenReadersIff(fs: Filesets, i: nat)
    requires fs.Valid() && i in fs.iters
    ensures var f := fs.iters[i].f;
            && f < |fs.made| && f < |fs.sets| && fs.iters[i].merger == fs.sets[f].merger && fs.iters[i].merger.id in fs.liveMergers
            && ((forall r <- fs.iters[i].merger.sources :: r in fs.files.live) <==> NothingUnloaded(fs, f))
  {
    hide SourcesOf;
    var f := fs.iters[i].f;
    TracedSources(fs.sets[f].opt, fs.made[f], fs.versions, fs.files.entries, fs.files.nextReader);
  }

  lemma {:induction false} TracedSources(opt: Options, m: Made, versions: seq<set<Name>>, es: seq<FileEntry>, next: nat)
    requires Traced(m, versions, es, next)
    ensures (forall r <- SourcesOf(opt, m.entries) :: r in ReadersOf(es)) <==>
            forall k :: 0 <= k < |m.entries| && Passes(opt, m.entries[k]) ==> StillNamed(m.entries[k].fname, versions, m.at)
  {
    hide StillNamed, Passes;
    PassingSources(opt, m.entries);
    forall k | 0 <= k < |m.entries| && Passes(opt, m.entries[k])
      ensures m.entries[k].ptr.Some? && m.entries[k].ptr.value in SourcesOf(opt, m.entries)
      ensures m.entries[k].ptr.value in ReadersOf(es) <==> StillNamed(m.entries[k].fname, versions, m.at)
    {
      PassingHasReader(opt, m.entries[k]);
      assert m.entries[k] in m.entries;
      if StillNamed(m.entries[k].fname, versions, m.at) {
        var i :| 0 <= i < |es| && es[i].fname == m.entries[k].fname && es[i].ptr == m.entries[k].ptr;
        assert es[i] in es;
      }
    }
    forall r | r in SourcesOf(opt, m.entries)
      ensures exists k :: 0 <= k < |m.entries| && Passes(opt, m.entries[k]) && m.entries[k].ptr.value == r
    {
      var e :| e in m.entries && Passes(opt, e) && e.ptr.value == r;
      var k :| 0 <= k < |m.entries| && m.entries[k] == e;
    }
  }

  /** As long as no fileset has been left behind, every open iterator reads from open readers only. */
  lemma {:induction false} SyncedIsSafe(fs: Filesets, i: nat)
    requires fs.Valid() && fs.Synced() && i in fs.iters
    ensures forall r <- fs.iters[i].merger.sources :: r in fs.files.live
  {
    var f := fs.iters[i].f;
    assert IsCurrent(fs.sets, f, fs.files.entries);
    SourcesAreReaders(fs.sets[f].opt, fs.files.entries);
  }

  // ---------- the fileset left behind ----------

  const UNFILTERED := Options(60, None, None)

  lemma {:induction false} SingleEntry(es: seq<FileEntry>, disk: Disk, was: seq<FileEntry>, from: nat, to: nat, a: Name)
    requires Entries(es) && disk.names == [a] && disk.good == {a} && Refreshed(was, es, disk, from, to) && a !in NamesOf(was)
    ensures |es| == 1 && es[0].fname == a && es[0].ptr.Some? && from <= es[0].ptr.value < to
    ensures NamesOf(es) == {a} && SourcesOf(UNFILTERED, es) == [es[0].ptr.value] && ReadersOf(es) == {es[0].ptr.value}
  {
    forall n ensures n in NamesOf(es) <==> n == a { }
    assert a in NamesOf(es);
    var e :| e in es && e.fname == a;
    var k :| 0 <= k < |es| && es[k] == e;
    forall i | 0 <= i < |es| ensures es[i].fname == a {
      assert es[i] in es;
      assert es[i].fname in NamesOf(es);
    }
    assert |es| > 1 ==> Less(es[0].fname, es[1].fname);
    LessTrichotomy(a, a);
    assert es == [e];
    assert es[..0] == [];
    assert SourcesOf(UNFILTERED, es) == SourcesOf(UNFILTERED, []) + [e.ptr.value];
  }

  /** Two filesets over one setfile that names one file, both up to date. */
  method TwoFilesets(a: Name) returns (fs: Filesets, g: nat, ghost r: nat)
    ensures fresh(fs) && fresh(fs.files) && fs.Valid() && fs.InUse(0) && fs.InUse(g) && g != 0 && fs.nIters == 0 && fs.fsLast == Time(1, 0)
    ensures NamesOf(fs.files.entries) == {a} && fs.sets[0].opt == UNFILTERED && fs.sets[g].opt == UNFILTERED
    ensures fs.sets[g].merger.sources == [r] && r < fs.files.nextReader && !fs.reloadNeeded && fs.sets[g].fsLast == fs.fsLast
  {
    hide Entries, Refreshed, NamesOf, ReadersOf, SourcesOf, MergersOk, ItersOk, TimesOk, InSync, UsersOk, Files.Valid, HistoryOk, OldReaders;
    NothingNamed(a);
    fs := new Filesets(UNFILTERED);
    ghost var was, from := fs.files.entries, fs.files.nextReader;
    ghost var l, u := fs.Reload(0, Time(1, 0), Disk(true, [a], {a}));
    OpenFiles(fs.files);
    SingleEntry(fs.files.entries, Disk(true, [a], {a}), was, from, fs.files.nextReader, a);
    r := fs.files.entries[0].ptr.value;
    g := fs.Dup(UNFILTERED);
    l, u := fs.Reload(g, Time(2, 0), Disk(false, [], {}));
  }

  /** The file the setfile names is replaced; reload_now is called on the first fileset, which loads
      the new file and unloads the old, and then on the second, which sees no change.  The second is
      taken for up to date, and its next iterator reads from the reader that has been destroyed. */
  method ReloadNowLeavesBehind(a: Name, b: Name) returns (fs: Filesets, g: nat, i: nat)
    requires a != b
    ensures fresh(fs) && fresh(fs.files) && fs.Valid() && i in fs.iters && fs.iters[i].f == g && !fs.Synced()
    ensures exists r :: r in fs.iters[i].merger.sources && r !in fs.files.live
  {
    hide Entries, Refreshed, NamesOf, ReadersOf, SourcesOf, MergersOk, ItersOk, TimesOk, InSync, UsersOk, Files.Valid, HistoryOk, OldReaders;
    var none := Disk(false, [], {});
    ghost var r;
    fs, g, r := TwoFilesets(a);
    ghost var was, from := fs.files.entries, fs.files.nextReader;
    ghost var l, u := fs.ReloadNow(0, Time(3, 0), Disk(true, [b], {b}));
    OpenFiles(fs.files);
    SingleEntry(fs.files.entries, Disk(true, [b], {b}), was, from, fs.files.nextReader, b);
    ghost var list := fs.files.entries;
    assert r !in fs.files.live && SourcesOf(UNFILTERED, list) != [r];
    l, u := fs.ReloadNow(g, Time(4, 0), none);
    OpenFiles(fs.files);
    i := fs.OpenIter(g, Time(5, 0), none);
    assert r in fs.iters[i].merger.sources && fs.files.entries == list;
    SyncedMeans(fs, g);
  }

  lemma NothingNamed(a: Name)
    ensures NamesOf([]) == {} && a !in NamesOf([])
  {
  }
}
