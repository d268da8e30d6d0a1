/** What a merger reads from: entries in order from anywhere, or the iterator of a table
    (mtbl/reader.c) with its cached block and recorded offset. */
module MergeSource {
  import opened ByteOrder
  import opened Maybe
  import T = Table
  import RM = ReaderModel

  datatype Scan = Scan(blks: seq<T.DataBlock>, st: RM.State)

  /** A table's iterator over all its entries. */
  type TableScan = t: Scan | RM.WellTyped(t.blks, t.st) witness Scan([], RM.State(0, -1, 0, false, false, 0))

  /** `at` is the entry that comes next. */
  datatype Source = Given(at: nat) | Scanned(t: TableScan)

  /** What the source will still hand out. */
  ghost function Left(src: seq<Entry>, from: Source): seq<Entry> {
    match from
    case Given(at) => if at <= |src| then src[at..] else []
    case Scanned(t) => RM.Remaining(t.blks, t.st)
  }

  ghost predicate SourceOk(src: seq<Entry>, from: Source) {
    && Sorted(src) && |Left(src, from)| <= |src| && Left(src, from) == src[|src| - |Left(src, from)|..]
    && (from.Scanned? ==> RM.TableOrder(from.t.blks) && RM.InStep(from.t.blks, from.t.st) && T.AllEntries(from.t.blks) == src)
  }

  /** mtbl_iter_next on the source. */
  function Load(src: seq<Entry>, from: Source): (Source, Option<Entry>) {
    match from
    case Given(at) => if at < |src| then (Given(at + 1), Some(src[at])) else (from, None)
    case Scanned(t) =>
      var (st, out) := RM.NextStep(t.blks, RM.All, false, t.st);
      (Scanned(Scan(t.blks, st)), out)
  }

  /** mtbl_iter_seek on the source. */
  function SeekIn(src: seq<Entry>, from: Source, key: Bytes): Source {
    match from
    case Given(at) => Given(LowerBound(src, key))
    case Scanned(t) => Scanned(Scan(t.blks, RM.SeekStep(t.blks, t.st, key)))
  }

  /** The seek would search the wrong block. */
  predicate StaleAt(from: Source, key: Bytes) { from.Scanned? && RM.StaleSeek(from.t.blks, from.t.st, key) }

  lemma {:induction false} LoadTakes(src: seq<Entry>, from: Source)
    requires SourceOk(src, from)
    ensures var (f, out) := Load(src, from);
            var left := Left(src, from);
            && SourceOk(src, f) && (f.Given? <==> from.Given?)
            && if left == [] then out == None && Left(src, f) == [] else out == Some(left[0]) && Left(src, f) == left[1..]
  {
    hide Sorted, RM.TableOrder, RM.InStep, RM.NextStep, RM.Remaining, T.AllEntries;
    if from.Scanned? {
      var t := from.t;
      RM.NextTakesHead(t.blks, RM.All, false, t.st);
      EndsEmpty(t.blks, t.st);
    }
  }

  lemma EndsEmpty(blks: seq<T.DataBlock>, s: RM.State)
    requires RM.WellTyped(blks, s)
    ensures var (s2, out) := RM.NextStep(blks, RM.All, false, s); !s2.valid ==> RM.Remaining(blks, s2) == []
    ensures RM.Passes(RM.All, [])
  {
  }

  lemma {:induction false} SeekLeaves(src: seq<Entry>, from: Source, key: Bytes)
    requires SourceOk(src, from) && !StaleAt(from, key)
    ensures SourceOk(src, SeekIn(src, from, key)) && (SeekIn(src, from, key).Given? <==> from.Given?)
    ensures Left(src, SeekIn(src, from, key)) == src[LowerBound(src, key)..]
  {
    hide Sorted, RM.TableOrder, RM.InStep, RM.SeekStep, RM.Remaining, T.AllEntries, RM.StaleSeek, LowerBound;
    if from.Scanned? { RM.SeekCorrectIffNotStale(from.t.blks, from.t.st, key); }
  }

  // ---------- how sources start ----------

  datatype Input = Input(src: seq<Entry>, from: Source)

  ghost predicate InputOk(i: Input) { SourceOk(i.src, i.from) && Left(i.src, i.from) == i.src }

  function SrcsOf(ins: seq<Input>): (ts: seq<seq<Entry>>)
    ensures |ts| == |ins| && forall i :: 0 <= i < |ins| ==> ts[i] == ins[i].src
  {
    seq(|ins|, i requires 0 <= i < |ins| => ins[i].src)
  }

  function Cursors(srcs: seq<seq<Entry>>): (ins: seq<Input>)
    ensures |ins| == |srcs| && forall i :: 0 <= i < |srcs| ==> ins[i] == Input(srcs[i], Given(0))
  {
    seq(|srcs|, i requires 0 <= i < |srcs| => Input(srcs[i], Given(0)))
  }

  lemma CursorsOk(srcs: seq<seq<Entry>>)
    requires forall t <- srcs :: Sorted(t)
    ensures forall i <- Cursors(srcs) :: InputOk(i) && i.from.Given?
    ensures SrcsOf(Cursors(srcs)) == srcs
  {
    forall k | 0 <= k < |srcs| ensures InputOk(Cursors(srcs)[k]) { assert srcs[k] in srcs; }
  }

  /** A table's iterator at its start; an empty table has none. */
  function ScanOf(blks: seq<T.DataBlock>): Input {
    if |blks| == 0 then Input([], Given(0))
    else Input(T.AllEntries(blks), Scanned(Scan(blks, StartState(blks))))
  }

  function StartState(blks: seq<T.DataBlock>): (s: RM.State)
    requires |blks| > 0
    ensures RM.WellTyped(blks, s)
  {
    RM.Start(blks, 0, 0, false)
  }

  lemma {:induction false} ScanOk(blks: seq<T.DataBlock>)
    requires RM.TableOrder(blks)
    ensures InputOk(ScanOf(blks)) && ScanOf(blks).src == T.AllEntries(blks)
  {
    if |blks| > 0 {
      ScanStarts(blks);
      hide RM.InStep, RM.Remaining, T.AllEntries;
    }
  }

  lemma {:induction false} ScanStarts(blks: seq<T.DataBlock>)
    requires RM.TableOrder(blks) && |blks| > 0
    ensures RM.InStep(blks, StartState(blks)) && RM.Remaining(blks, StartState(blks)) == T.AllEntries(blks)
  {
    hide T.Separated, Sorted, T.AllEntries;
    RM.SplitEntries(blks, 0);
    assert T.AllEntries(blks[..0]) == [] by { NoBlocks(blks[..0]); }
    forall j | 0 < j < |blks| ensures blks[j].off != 0 { assert blks[0].off < blks[j].off; }
  }

  lemma NoBlocks(blks: seq<T.DataBlock>)
    requires |blks| == 0
    ensures T.AllEntries(blks) == []
  {
  }
}
