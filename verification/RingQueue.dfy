/** The single-producer single-consumer ring queue (libmy/my_queue_mb.c), with
    the two threads interleaved at every access to the shared fields, under
    sequential consistency. */
module RingQueue {
  import opened Maybe

  const TWO32 := 0x1_0000_0000

  // ---------- masks ----------

  /** Bitwise and. */
  function And(x: nat, y: nat): nat {
    if x == 0 || y == 0 then 0 else (if x % 2 == 1 && y % 2 == 1 then 1 else 0) + 2 * And(x / 2, y / 2)
  }

  predicate PowerOfTwo(n: nat) { n > 0 && (n == 1 || (n % 2 == 0 && PowerOfTwo(n / 2))) }

  /** The test in init: clearing the lowest bit leaves nothing. */
  lemma {:induction false} AndWithPred(n: nat)
    requires n > 0
    ensures And(n - 1, n) == 0 <==> PowerOfTwo(n)
  {
    if n % 2 == 0 {
      AndWithPred(n / 2);
      assert (n - 1) / 2 == n / 2 - 1;
    } else if n > 1 {
      AndSelf(n / 2);
      assert (n - 1) / 2 == n / 2;
    }
  }

  lemma {:induction false} AndSelf(n: nat)
    ensures And(n, n) == n
  {
    if n > 0 { AndSelf(n / 2); }
  }

  lemma {:induction false} MaskSmall(x: nat, n: nat)
    requires PowerOfTwo(n) && x < n
    ensures And(x, n - 1) == x
  {
    if x > 0 {
      MaskSmall(x / 2, n / 2);
      assert (n - 1) / 2 == n / 2 - 1;
    }
  }

  /** Masking a wrapped negative number. */
  lemma {:induction false} MaskWrapped(m: nat, n: nat, d: nat)
    requires PowerOfTwo(m) && PowerOfTwo(n) && n <= m && 0 < d <= n
    ensures And(m - d, n - 1) == n - d
  {
    if n > 1 {
      assert (n - 1) / 2 == n / 2 - 1;
      if d % 2 == 0 {
        MaskWrapped(m / 2, n / 2, d / 2);
        assert (m - d) / 2 == m / 2 - d / 2;
      } else {
        MaskWrapped(m / 2, n / 2, (d + 1) / 2);
        assert (m - d) / 2 == m / 2 - (d + 1) / 2;
      }
      ZeroLeft(n / 2 - 1);
    }
  }

  lemma ZeroLeft(y: nat)
    ensures And(0, y) == 0
  {
  }

  lemma {:induction false} Halves(m: nat)
    requires m % 2 == 0 && m > 0 && PowerOfTwo(m / 2)
    ensures PowerOfTwo(m)
  {
  }

  lemma WordIsPower()
    ensures PowerOfTwo(TWO32)
  {
    ByteIsPower();
    var m: nat := 0x100;
    Raise(m, 0x1_0000);
    Raise(0x1_0000, 0x100_0000);
    Raise(0x100_0000, TWO32);
  }

  lemma ByteIsPower()
    ensures PowerOfTwo(0x100)
  {
    Halves(2);
    Halves(4);
    Halves(8);
    Halves(16);
    Halves(32);
    Halves(64);
    Halves(128);
    Halves(256);
  }

  lemma Raise(m: nat, n: nat)
    requires m > 0 && PowerOfTwo(m) && n == 256 * m
    ensures PowerOfTwo(n)
  {
    hide PowerOfTwo;
    Halves(2 * m);
    Halves(4 * m);
    Halves(8 * m);
    Halves(16 * m);
    Halves(32 * m);
    Halves(64 * m);
    Halves(128 * m);
    Halves(256 * m);
  }

  /** Subtraction of `unsigned` values. */
  function Minus(a: int, b: int): nat
    requires 0 <= a < TWO32 && 0 <= b <= TWO32
  {
    if a >= b then a - b else TWO32 + a - b
  }

  function Space(head: nat, tail: nat, size: nat): nat
    requires head < TWO32 && tail < TWO32 && size > 0
  {
    And(Minus(tail, head + 1), size - 1)
  }

  function Count(head: nat, tail: nat, size: nat): nat
    requires head < TWO32 && tail < TWO32 && size > 0
  {
    And(Minus(head, tail), size - 1)
  }

  function Next(i: nat, size: nat): nat
    requires size > 0
  {
    And(i + 1, size - 1)
  }

  /** Steps forward around the ring from `tail` to `head`. */
  function Distance(tail: nat, head: nat, size: nat): nat
    requires tail < size && head < size
  {
    if head >= tail then head - tail else head + size - tail
  }

  lemma SpaceAndCount(head: nat, tail: nat, size: nat)
    requires PowerOfTwo(size) && size <= TWO32 && head < size && tail < size
    ensures Count(head, tail, size) == Distance(tail, head, size)
    ensures Space(head, tail, size) == size - 1 - Distance(tail, head, size)
    ensures Next(head, size) == if head + 1 < size then head + 1 else 0
  {
    hide And, PowerOfTwo;
    WordIsPower();
    MaskedDifference(head, tail, size);
    MaskedRoom(head, tail, size);
    if head + 1 < size { MaskSmall(head + 1, size); } else { MaskSelf(size); }
  }

  lemma MaskedDifference(head: nat, tail: nat, size: nat)
    requires PowerOfTwo(size) && PowerOfTwo(TWO32) && size <= TWO32 && head < size && tail < size
    ensures Count(head, tail, size) == Distance(tail, head, size)
  {
    hide And, PowerOfTwo;
    if head >= tail { MaskSmall(head - tail, size); } else { MaskWrapped(TWO32, size, tail - head); }
  }

  lemma MaskedRoom(head: nat, tail: nat, size: nat)
    requires PowerOfTwo(size) && PowerOfTwo(TWO32) && size <= TWO32 && head < size && tail < size
    ensures Space(head, tail, size) == size - 1 - Distance(tail, head, size)
  {
    hide And, PowerOfTwo;
    if tail >= head + 1 { MaskSmall(tail - head - 1, size); } else { MaskWrapped(TWO32, size, head + 1 - tail); }
  }

  lemma {:induction false} MaskSelf(n: nat)
    requires PowerOfTwo(n)
    ensures And(n, n - 1) == 0
  {
    if n > 1 {
      MaskSelf(n / 2);
      assert (n - 1) / 2 == n / 2 - 1;
    }
  }

  // ---------- the two threads ----------

  datatype Producer<T> =
    | Ready
    | Writing(item: T, space: nat)      // has read `tail` and found room
    | Publishing(item: T, space: nat)   // has written the slot

  datatype Consumer<T> =
    | Waiting
    | Copying(count: nat)               // has read `head` and found an item
    | Releasing(item: T, count: nat)    // has copied the slot

  /** `sent` and `got` are histories: the items put in and taken out. */
  datatype State<T> = State(size: nat, data: seq<T>, head: nat, tail: nat, p: Producer<T>, c: Consumer<T>, sent: seq<T>, got: seq<T>)

  function Init<T>(size: nat, blank: T): Option<State<T>> {
    if size < 2 || And(size - 1, size) != 0 then None
    else Some(State(size, seq(size, _ => blank), 0, 0, Ready, Waiting, [], []))
  }

  datatype Label<T> = TryInsert(item: T) | WriteSlot | PublishHead | TryRemove | CopySlot | PublishTail

  predicate InRange<T>(s: State<T>) { 0 < s.size <= TWO32 && |s.data| == s.size && s.head < s.size && s.tail < s.size }

  predicate Enabled<T>(s: State<T>, l: Label<T>) {
    InRange(s) &&
    match l
    case TryInsert(_) => s.p == Ready
    case WriteSlot => s.p.Writing?
    case PublishHead => s.p.Publishing?
    case TryRemove => s.c == Waiting
    case CopySlot => s.c.Copying?
    case PublishTail => s.c.Releasing?
  }

  function After<T>(s: State<T>, l: Label<T>): State<T>
    requires Enabled(s, l)
  {
    match l
    case TryInsert(item) =>
      var space := Space(s.head, s.tail, s.size);
      if space >= 1 then s.(p := Writing(item, space)) else s
    case WriteSlot => s.(data := s.data[s.head := s.p.item], p := Publishing(s.p.item, s.p.space))
    case PublishHead => s.(head := Next(s.head, s.size), p := Ready, sent := s.sent + [s.p.item])
    case TryRemove =>
      var count := Count(s.head, s.tail, s.size);
      if count >= 1 then s.(c := Copying(count)) else s
    case CopySlot => s.(c := Releasing(s.data[s.tail], s.c.count))
    case PublishTail => s.(tail := Next(s.tail, s.size), c := Waiting, got := s.got + [s.c.item])
  }

  /** What the call reports when this step ends it: success, and the space or count left. */
  function Reported<T>(s: State<T>, l: Label<T>): Option<(bool, nat)>
    requires Enabled(s, l)
  {
    match l
    case TryInsert(_) => var space := Space(s.head, s.tail, s.size); if space >= 1 then None else Some((false, space))
    case PublishHead => if s.p.space >= 1 then Some((true, s.p.space - 1)) else None
    case TryRemove => var count := Count(s.head, s.tail, s.size); if count >= 1 then None else Some((false, count))
    case PublishTail => if s.c.count >= 1 then Some((true, s.c.count - 1)) else None
    case _ => None
  }

  // ---------- what every interleaving keeps ----------

  function Held<T>(s: State<T>): nat
    requires InRange(s)
  {
    Distance(s.tail, s.head, s.size)
  }

  function Slot(tail: nat, j: nat, size: nat): nat
    requires tail < size && j < size
  {
    if tail + j < size then tail + j else tail + j - size
  }

  /** The unread slots hold, in order, the items sent and not yet got. */
  ghost predicate Inv<T>(s: State<T>) {
    && InRange(s) && PowerOfTwo(s.size)
    && |s.got| + Held(s) == |s.sent| && s.got == s.sent[..|s.got|]
    && (forall j :: 0 <= j < Held(s) ==> s.data[Slot(s.tail, j, s.size)] == s.sent[|s.got| + j])
    && (s.p.Writing? || s.p.Publishing? ==> 1 <= s.p.space <= s.size - 1 - Held(s))
    && (s.p.Publishing? ==> s.data[s.head] == s.p.item)
    && (s.c.Copying? || s.c.Releasing? ==> 1 <= s.c.count <= Held(s))
    && (s.c.Releasing? ==> s.c.item == s.data[s.tail])
  }

  /** Init accepts exactly the powers of two from 2 on. */
  lemma {:induction false} InitKeeps<T>(size: nat, blank: T)
    requires size <= TWO32
    ensures Init(size, blank).Some? <==> size >= 2 && PowerOfTwo(size)
    ensures Init(size, blank).Some? ==> Inv(Init(size, blank).value) && Init(size, blank).value.sent == []
  {
    if size >= 2 { AndWithPred(size); }
  }

  lemma {:induction false} InsertKeeps<T>(s: State<T>, l: Label<T>)
    requires Inv(s) && Enabled(s, l) && (l.TryInsert? || l.WriteSlot?)
    ensures Inv(After(s, l))
  {
    SpaceAndCount(s.head, s.tail, s.size);
    if l.WriteSlot? {
      var s2 := After(s, l);
      forall j | 0 <= j < Held(s2) ensures s2.data[Slot(s2.tail, j, s2.size)] == s2.sent[|s2.got| + j] {
        assert Slot(s.tail, j, s.size) != s.head;
      }
    }
  }

  lemma {:induction false} PublishHeadKeeps<T>(s: State<T>)
    requires Inv(s) && Enabled(s, PublishHead)
    ensures Inv(After(s, PublishHead)) && Held(After(s, PublishHead)) == Held(s) + 1
  {
    SpaceAndCount(s.head, s.tail, s.size);
    var s2 := After(s, PublishHead);
    assert s2.sent[..|s.got|] == s.sent[..|s.got|];
    forall j | 0 <= j < Held(s2) ensures s2.data[Slot(s2.tail, j, s2.size)] == s2.sent[|s2.got| + j] {
      if j == Held(s) { assert Slot(s.tail, j, s.size) == s.head; }
    }
  }

  lemma {:induction false} RemoveKeeps<T>(s: State<T>, l: Label<T>)
    requires Inv(s) && Enabled(s, l) && (l.TryRemove? || l.CopySlot?)
    ensures Inv(After(s, l))
  {
    SpaceAndCount(s.head, s.tail, s.size);
  }

  lemma {:induction false} PublishTailKeeps<T>(s: State<T>)
    requires Inv(s) && Enabled(s, PublishTail)
    ensures Inv(After(s, PublishTail)) && Held(After(s, PublishTail)) + 1 == Held(s)
  {
    SpaceAndCount(s.tail, s.head, s.size);
    var s2 := After(s, PublishTail);
    assert Slot(s.tail, 0, s.size) == s.tail;
    assert s.c.item == s.sent[|s.got|];
    assert s.sent[..|s.got| + 1] == s.sent[..|s.got|] + [s.sent[|s.got|]];
    forall j | 0 <= j < Held(s2) ensures s2.data[Slot(s2.tail, j, s2.size)] == s2.sent[|s2.got| + j] {
      assert Slot(s2.tail, j, s.size) == Slot(s.tail, j + 1, s.size);
    }
  }

  lemma {:induction false} StepKeeps<T>(s: State<T>, l: Label<T>)
    requires Inv(s) && Enabled(s, l)
    ensures Inv(After(s, l))
  {
    hide Inv;
    match l
    case TryInsert(_) => InsertKeeps(s, l);
    case WriteSlot => InsertKeeps(s, l);
    case PublishHead => PublishHeadKeeps(s);
    case TryRemove => RemoveKeeps(s, l);
    case CopySlot => RemoveKeeps(s, l);
    case PublishTail => PublishTailKeeps(s);
  }

  ghost predicate IsRun<T(!new)>(from: State<T>, ls: seq<Label<T>>, to: State<T>)
    decreases |ls|
  {
    if |ls| == 0 then to == from else Enabled(from, ls[0]) && IsRun(After(from, ls[0]), ls[1..], to)
  }

  /** In every interleaving the consumer gets a prefix of what the producer sent, and at
      most size - 1 items are held. */
  lemma {:induction false} FirstInFirstOut<T(!new)>(s: State<T>, ls: seq<Label<T>>, s2: State<T>)
    requires Inv(s) && IsRun(s, ls, s2)
    ensures Inv(s2) && s2.got <= s2.sent && |s2.sent| - |s2.got| == Held(s2) <= s2.size - 1
    decreases |ls|
  {
    hide Enabled;
    if |ls| > 0 {
      StepKeeps(s, ls[0]);
      FirstInFirstOut(After(s, ls[0]), ls[1..], s2);
    }
  }

  /** The reports are safe: insert never promises more room, nor remove more items, than there is;
      insert fails only on a full ring and remove only on an empty one. */
  lemma {:induction false} ReportsAreSafe<T>(s: State<T>, l: Label<T>)
    requires Inv(s) && Enabled(s, l) && Reported(s, l).Some?
    ensures Inv(After(s, l))
    ensures var (ok, n) := Reported(s, l).value;
            && (l.TryInsert? ==> !ok && n == 0 && Held(s) == s.size - 1)
            && (l.PublishHead? ==> ok && n <= s.size - 1 - Held(After(s, l)))
            && (l.TryRemove? ==> !ok && n == 0 && Held(s) == 0)
            && (l.PublishTail? ==> ok && n <= Held(After(s, l)))
  {
    SpaceAndCount(s.head, s.tail, s.size);
    StepKeeps(s, l);
    match l
    case PublishHead => PublishHeadKeeps(s);
    case PublishTail => PublishTailKeeps(s);
    case _ =>
  }

  /** A call to insert that the consumer does not interrupt: full, or the item goes in and the room left is exact. */
  lemma {:induction false} InsertAnswers<T>(s: State<T>, x: T)
    requires Inv(s) && s.p == Ready
    ensures Enabled(s, TryInsert(x))
    ensures Held(s) == s.size - 1 ==> Reported(s, TryInsert(x)) == Some((false, 0)) && After(s, TryInsert(x)) == s
    ensures Held(s) < s.size - 1 ==>
              && Reported(s, TryInsert(x)) == None && Enabled(After(s, TryInsert(x)), WriteSlot)
              && var s2 := After(After(s, TryInsert(x)), WriteSlot);
              && Enabled(s2, PublishHead) && Reported(s2, PublishHead) == Some((true, s.size - 2 - Held(s)))
              && var s3 := After(s2, PublishHead);
              && Inv(s3) && s3.p == Ready && s3.sent == s.sent + [x] && s3.got == s.got && Held(s3) == Held(s) + 1
  {
    SpaceAndCount(s.head, s.tail, s.size);
    if Held(s) < s.size - 1 {
      hide Inv, Next, Space, Count;
      var s1 := After(s, TryInsert(x));
      StepKeeps(s, TryInsert(x));
      StepKeeps(s1, WriteSlot);
      PublishHeadKeeps(After(s1, WriteSlot));
    }
  }

  /** A call to remove that the producer does not interrupt: empty, or it returns the oldest item not yet got. */
  lemma {:induction false} RemoveAnswers<T>(s: State<T>)
    requires Inv(s) && s.c == Waiting
    ensures Enabled(s, TryRemove)
    ensures Held(s) == 0 ==> Reported(s, TryRemove) == Some((false, 0)) && After(s, TryRemove) == s
    ensures Held(s) > 0 ==>
              && Reported(s, TryRemove) == None && Enabled(After(s, TryRemove), CopySlot)
              && var s2 := After(After(s, TryRemove), CopySlot);
              && Enabled(s2, PublishTail) && Reported(s2, PublishTail) == Some((true, Held(s) - 1))
              && var s3 := After(s2, PublishTail);
              && Inv(s3) && s3.c == Waiting && s3.sent == s.sent && |s.got| < |s.sent| && s3.got == s.got + [s.sent[|s.got|]]
              && Held(s3) + 1 == Held(s)
  {
    SpaceAndCount(s.head, s.tail, s.size);
    if Held(s) > 0 {
      assert s.data[Slot(s.tail, 0, s.size)] == s.sent[|s.got|];
      hide Inv, Next, Space, Count;
      var s1 := After(s, TryRemove);
      StepKeeps(s, TryRemove);
      StepKeeps(s1, CopySlot);
      PublishTailKeeps(After(s1, CopySlot));
    }
  }
}
