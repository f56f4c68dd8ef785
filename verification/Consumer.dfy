/**
 The table of acquired buffers of `WLConsumer`: a fixed number of entries,
 searched by the address at which a buffer is locked, with 0 for an unused one.
 */
module Consumer {
  import opened Wrappers
  import opened Wayland

  /** A graphic buffer carries what pushFrame needs of it. */
  type GraphicBuffer = Frame

  const INVALID_SLOT := -1
  const UNUSED_ID: nat := 0
  const SIZE_T := 0x1_0000_0000_0000_0000

  /** A size_t on a 64-bit target. */
  type SizeT = n: nat | n < SIZE_T

  /** Slot and buffer are recorded because the queue may reuse the slot before the release. */
  datatype AcquiredBuffer = AcquiredBuffer(slot: int, buffer: Option<GraphicBuffer>, id: nat) {
    predicate Used() {
      id != UNUSED_ID
    }
  }

  const UNUSED := AcquiredBuffer(INVALID_SLOT, None, UNUSED_ID)

  /** What a lock records, and what a release hands back. */
  datatype Record = Record(slot: int, buffer: GraphicBuffer, id: nat)

  datatype Held = Held(slot: int, buffer: GraphicBuffer)

  datatype Status = Ok | BadValue | Failed(code: int)

  /** acquireBufferLocked; the item carries no buffer when the slot's buffer is already known. */
  datatype AcquireResult =
    | NoBufferAvailable
    | AcquireFailed(code: int)
    | Acquired(slot: int, buffer: Option<GraphicBuffer>)

  datatype LockResult = LockFailed(code: int) | Locked(address: nat)
  datatype UnlockResult = UnlockFailed(code: int) | Unlocked

  datatype State = State(
    table: seq<AcquiredBuffer>,
    count: nat,
    overrun: bool,            // an entry beyond the table was written
    acquired: seq<Held>,      // history
    abandoned: seq<Held>,     // history: acquired, then lockBufferItem failed
    locks: seq<Record>,       // history
    released: seq<Record>,    // history
    pushed: seq<GraphicBuffer>) // history: frames given to pushFrame

  /** The first entry with this id, or the size of the table. */
  function Find(table: seq<AcquiredBuffer>, id: nat): (i: nat)
    ensures i <= |table|
    ensures i < |table| ==> table[i].id == id
    ensures forall j :: 0 <= j < i ==> table[j].id != id
  {
    FindFrom(table, id, 0)
  }

  function FindFrom(table: seq<AcquiredBuffer>, id: nat, from: nat): (i: nat)
    requires from <= |table|
    ensures from <= i <= |table|
    ensures i < |table| ==> table[i].id == id
    ensures forall j :: from <= j < i ==> table[j].id != id
    decreases |table| - from
  {
    if from == |table| || table[from].id == id then from else FindFrom(table, id, from + 1)
  }

  /** The buffer of an acquired item: its own, or the one the slot already holds. */
  function BufferOf(item: AcquireResult, slotBuffer: GraphicBuffer): GraphicBuffer
    requires item.Acquired?
  {
    match item.buffer case Some(b) => b case None => slotBuffer
  }

  /** lockNextBuffer, with the results of the calls it makes. */
  function LockNext(c: State, given: bool, item: AcquireResult, slotBuffer: GraphicBuffer, lock: LockResult): (State, Status) {
    if !given then (c, BadValue)
    else match item
      case NoBufferAvailable => (c, BadValue)
      case AcquireFailed(code) => (c, Failed(code))
      case Acquired(slot, _) =>
        var buffer := BufferOf(item, slotBuffer);
        var c1 := c.(acquired := c.acquired + [Held(slot, buffer)]);
        match lock
        case LockFailed(code) => (c1.(abandoned := c.abandoned + [Held(slot, buffer)]), Failed(code))
        case Locked(address) =>
          var i := Find(c.table, UNUSED_ID);
          var c2 := c1.(pushed := c.pushed + [buffer], locks := c.locks + [Record(slot, buffer, address)],
                        count := (c.count + 1) % SIZE_T);
          if i < |c.table| then (c2.(table := c.table[i := AcquiredBuffer(slot, Some(buffer), address)]), Ok)
          else (c2.(overrun := true), Ok)
  }

  /** unlockBuffer of the buffer locked at `id`. */
  function Unlock(c: State, id: nat, result: UnlockResult): (State, Status) {
    var i := if id != UNUSED_ID then Find(c.table, id) else |c.table|;
    if i == |c.table| then (c, BadValue)
    else match result
      case UnlockFailed(code) => (c, Failed(code))
      case Unlocked =>
        var held := c.table[i];
        (c.(table := c.table[i := UNUSED],
            count := (c.count - 1) % SIZE_T,
            released := if held.buffer.Some? then c.released + [Record(held.slot, held.buffer.value, id)] else c.released),
         Ok)
  }

  // ---------- runs ----------

  datatype Op =
    | LockOp(given: bool, item: AcquireResult, slotBuffer: GraphicBuffer, lock: LockResult)
    | UnlockOp(id: nat, result: UnlockResult)

  function Apply(c: State, op: Op): State {
    match op
    case LockOp(given, item, slotBuffer, lock) => LockNext(c, given, item, slotBuffer, lock).0
    case UnlockOp(id, result) => Unlock(c, id, result).0
  }

  function Run(c: State, ops: seq<Op>): State
    decreases |ops|
  {
    if ops == [] then c else Run(Apply(c, ops[0]), ops[1..])
  }

  /** The table at construction; the counter starts as whatever memory held. */
  function Start(size: nat, c0: nat): State {
    State(seq(size, _ => UNUSED), c0, false, [], [], [], [], [])
  }

  predicate HasFree(table: seq<AcquiredBuffer>) {
    exists i :: 0 <= i < |table| && !table[i].Used()
  }

  predicate Locks(op: Op) {
    op.LockOp? && op.given && op.item.Acquired? && op.lock.Locked?
  }

  /** A successful lockAsync gives a non-null address that no held buffer has. */
  predicate FreshAddress(c: State, op: Op) {
    Locks(op) ==> op.lock.address != UNUSED_ID && forall i :: 0 <= i < |c.table| ==> c.table[i].id != op.lock.address
  }

  /** A run in which addresses are fresh and a buffer is locked only while an entry is free. */
  predicate Disciplined(c: State, ops: seq<Op>)
    decreases |ops|
  {
    ops == []
    || (FreshAddress(c, ops[0]) && (Locks(ops[0]) ==> HasFree(c.table)) && Disciplined(Apply(c, ops[0]), ops[1..]))
  }

  // ---------- the accounts ----------

  function RecordOf(e: AcquiredBuffer): multiset<Record> {
    if e.Used() && e.buffer.Some? then multiset{Record(e.slot, e.buffer.value, e.id)} else multiset{}
  }

  /** The records of the used entries. */
  function Holding(table: seq<AcquiredBuffer>): multiset<Record> {
    if table == [] then multiset{} else Holding(table[..|table| - 1]) + RecordOf(table[|table| - 1])
  }

  function Occupied(table: seq<AcquiredBuffer>): nat {
    if table == [] then 0 else Occupied(table[..|table| - 1]) + (if table[|table| - 1].Used() then 1 else 0)
  }

  function HeldBy(records: seq<Record>): seq<Held> {
    seq(|records|, i requires 0 <= i < |records| => Held(records[i].slot, records[i].buffer))
  }

  function BuffersOf(records: seq<Record>): seq<GraphicBuffer> {
    seq(|records|, i requires 0 <= i < |records| => records[i].buffer)
  }

  /** The latest lock at an address. */
  function LatestAt(locks: seq<Record>, id: nat): Option<Record> {
    if locks == [] then None
    else if locks[|locks| - 1].id == id then Some(locks[|locks| - 1])
    else LatestAt(locks[..|locks| - 1], id)
  }

  /** Used entries have pairwise different addresses. */
  predicate DistinctIds(table: seq<AcquiredBuffer>) {
    forall i, j :: 0 <= i < j < |table| && table[i].Used() ==> table[i].id != table[j].id
  }

  /** Each used entry still says what the latest lock at its address recorded. */
  predicate Recorded(table: seq<AcquiredBuffer>, locks: seq<Record>) {
    forall i :: 0 <= i < |table| && table[i].Used() ==>
      && table[i].buffer.Some?
      && LatestAt(locks, table[i].id) == Some(Record(table[i].slot, table[i].buffer.value, table[i].id))
  }

  /** Every lock is held or released, every acquisition locked or abandoned. */
  ghost predicate Balanced(c: State) {
    && multiset(c.locks) == multiset(c.released) + Holding(c.table)
    && multiset(c.acquired) == multiset(HeldBy(c.locks)) + multiset(c.abandoned)
    && c.pushed == BuffersOf(c.locks)
  }

  ghost predicate Inv(c: State, c0: nat) {
    && !c.overrun
    && c.count == (c0 + Occupied(c.table)) % SIZE_T
    && DistinctIds(c.table)
    && Recorded(c.table, c.locks)
    && Balanced(c)
  }

  lemma {:induction false} UpdateAccounts(table: seq<AcquiredBuffer>, i: nat, e: AcquiredBuffer)
    requires i < |table|
    ensures Holding(table[i := e]) + RecordOf(table[i]) == Holding(table) + RecordOf(e)
    ensures Occupied(table[i := e]) + (if table[i].Used() then 1 else 0) == Occupied(table) + (if e.Used() then 1 else 0)
  {
    hide RecordOf;
    var k := |table| - 1;
    var new' := table[i := e];
    if i == k {
      assert new'[..k] == table[..k];
    } else {
      assert new'[..k] == table[..k][i := e] && new'[k] == table[k];
      UpdateAccounts(table[..k], i, e);
      var others, last := table[..k], RecordOf(table[k]);
      assert Holding(new') + RecordOf(table[i]) == (Holding(others[i := e]) + RecordOf(others[i])) + last;
    }
  }

  lemma {:induction false} StartInv(size: nat, c0: nat)
    requires c0 < SIZE_T
    ensures Inv(Start(size, c0), c0)
  {
    EmptyTable(size);
    var c := Start(size, c0);
    assert multiset(c.locks) == multiset{} && multiset(c.acquired) == multiset{};
    assert HeldBy(c.locks) == [] && BuffersOf(c.locks) == [];
  }

  lemma {:induction false} EmptyTable(size: nat)
    ensures Holding(seq(size, _ => UNUSED)) == multiset{} && Occupied(seq(size, _ => UNUSED)) == 0
  {
    if size > 0 {
      assert seq(size, _ => UNUSED)[..size - 1] == seq(size - 1, _ => UNUSED);
      EmptyTable(size - 1);
    }
  }

  lemma AbandonKeeps(c: State, c0: nat, held: Held)
    requires Inv(c, c0)
    ensures Inv(c.(acquired := c.acquired + [held], abandoned := c.abandoned + [held]), c0)
  {
  }

  /** A record added to the histories. */
  lemma HistorySnoc(locks: seq<Record>, r: Record)
    ensures multiset(locks + [r]) == multiset(locks) + multiset{r}
    ensures HeldBy(locks + [r]) == HeldBy(locks) + [Held(r.slot, r.buffer)]
    ensures BuffersOf(locks + [r]) == BuffersOf(locks) + [r.buffer]
    ensures forall id :: LatestAt(locks + [r], id) == if r.id == id then Some(r) else LatestAt(locks, id)
  {
  }

  lemma FillEntry(table: seq<AcquiredBuffer>, locks: seq<Record>, i: nat, r: Record)
    requires i < |table| && DistinctIds(table) && Recorded(table, locks)
    requires r.id != UNUSED_ID && forall j :: 0 <= j < |table| ==> table[j].id != r.id
    ensures var t := table[i := AcquiredBuffer(r.slot, Some(r.buffer), r.id)]; DistinctIds(t) && Recorded(t, locks + [r])
  {
  }

  lemma ClearEntry(table: seq<AcquiredBuffer>, locks: seq<Record>, i: nat)
    requires i < |table| && DistinctIds(table) && Recorded(table, locks)
    ensures DistinctIds(table[i := UNUSED]) && Recorded(table[i := UNUSED], locks)
  {
  }

  lemma LockStep(c: State, slot: int, item: AcquireResult, slotBuffer: GraphicBuffer, address: nat)
    requires HasFree(c.table) && item.Acquired? && item.slot == slot
    ensures var i, r := Find(c.table, UNUSED_ID), Record(slot, BufferOf(item, slotBuffer), address);
      && i < |c.table| && !c.table[i].Used()
      && LockNext(c, true, item, slotBuffer, Locked(address)) ==
           (c.(acquired := c.acquired + [Held(slot, r.buffer)], pushed := c.pushed + [r.buffer], locks := c.locks + [r],
               count := (c.count + 1) % SIZE_T, table := c.table[i := AcquiredBuffer(slot, Some(r.buffer), address)]), Ok)
  {
  }

  lemma LockKeeps(c: State, c0: nat, slot: int, item: AcquireResult, slotBuffer: GraphicBuffer, address: nat)
    requires Inv(c, c0) && HasFree(c.table) && address != UNUSED_ID && item.Acquired? && item.slot == slot
    requires forall i :: 0 <= i < |c.table| ==> c.table[i].id != address
    ensures Inv(LockNext(c, true, item, slotBuffer, Locked(address)).0, c0)
  {
    hide LockNext, DistinctIds, Recorded, LatestAt, Holding, Occupied, HeldBy, BuffersOf;
    LockStep(c, slot, item, slotBuffer, address);
    var c' := LockNext(c, true, item, slotBuffer, Locked(address)).0;
    var i, r := Find(c.table, UNUSED_ID), Record(slot, BufferOf(item, slotBuffer), address);
    HistorySnoc(c.locks, r);
    FillEntry(c.table, c.locks, i, r);
    UpdateAccounts(c.table, i, AcquiredBuffer(slot, Some(r.buffer), address));
    assert multiset(c'.acquired) == multiset(c.acquired) + multiset{Held(slot, r.buffer)};
    assert multiset(HeldBy(c'.locks)) == multiset(HeldBy(c.locks)) + multiset{Held(slot, r.buffer)};
    assert Holding(c'.table) == Holding(c.table) + multiset{r};
  }

  /** A release hands back what the latest lock at that address recorded. */
  lemma UnlockKeeps(c: State, c0: nat, id: nat)
    requires Inv(c, c0) && id != UNUSED_ID && Find(c.table, id) < |c.table|
    ensures var c' := Unlock(c, id, Unlocked).0;
      && Inv(c', c0)
      && LatestAt(c.locks, id).Some? && c'.released == c.released + [LatestAt(c.locks, id).value]
  {
    hide DistinctIds, LatestAt, Holding, Occupied, HeldBy, BuffersOf;
    var c' := Unlock(c, id, Unlocked).0;
    var i := Find(c.table, id);
    var r := Record(c.table[i].slot, c.table[i].buffer.value, id);
    ClearEntry(c.table, c.locks, i);
    UpdateAccounts(c.table, i, UNUSED);
    assert multiset(c'.released) == multiset(c.released) + multiset{r};
    assert Holding(c.table) == Holding(c'.table) + multiset{r};
  }

  lemma ApplyKeeps(c: State, c0: nat, op: Op)
    requires Inv(c, c0) && FreshAddress(c, op) && (Locks(op) ==> HasFree(c.table))
    ensures Inv(Apply(c, op), c0)
  {
    hide Inv, Find;
    match op
    case LockOp(given, item, slotBuffer, lock) =>
      if given && item.Acquired? {
        match lock
        case LockFailed(_) => AbandonKeeps(c, c0, Held(item.slot, BufferOf(item, slotBuffer)));
        case Locked(address) => LockKeeps(c, c0, item.slot, item, slotBuffer, address);
      }
    case UnlockOp(id, result) =>
      if id != UNUSED_ID && Find(c.table, id) < |c.table| && result.Unlocked? {
        UnlockKeeps(c, c0, id);
      }
  }

  lemma {:induction false} RunKeeps(c: State, c0: nat, ops: seq<Op>)
    requires Inv(c, c0) && Disciplined(c, ops)
    ensures Inv(Run(c, ops), c0)
    decreases |ops|
  {
    hide Inv, Apply;
    if ops != [] {
      ApplyKeeps(c, c0, ops[0]);
      RunKeeps(Apply(c, ops[0]), c0, ops[1..]);
    }
  }

  lemma {:induction false} HoldingSize(table: seq<AcquiredBuffer>)
    requires forall i :: 0 <= i < |table| && table[i].Used() ==> table[i].buffer.Some?
    ensures |Holding(table)| == Occupied(table)
  {
    if table != [] {
      HoldingSize(table[..|table| - 1]);
    }
  }

  /**
   Over every disciplined run, whatever fails: acquisitions are releases plus
   used entries plus abandoned items; the counter, from any initial value, moves
   with the used entries modulo 2^64; used addresses are distinct; nothing is
   released that was not locked with the same slot and buffer; and the frames
   pushed are the buffers locked, in order.
   */
  lemma TableConserved(size: nat, c0: nat, ops: seq<Op>)
    requires c0 < SIZE_T && Disciplined(Start(size, c0), ops)
    ensures var c := Run(Start(size, c0), ops);
      && !c.overrun
      && |c.acquired| == |c.released| + Occupied(c.table) + |c.abandoned|
      && c.count == (c0 + Occupied(c.table)) % SIZE_T
      && DistinctIds(c.table)
      && multiset(c.released) <= multiset(c.locks)
      && c.pushed == BuffersOf(c.locks)
  {
    hide Run, Disciplined, Start, DistinctIds, LatestAt, Holding;
    StartInv(size, c0);
    RunKeeps(Start(size, c0), c0, ops);
    var c := Run(Start(size, c0), ops);
    HoldingSize(c.table);
    assert |multiset(c.locks)| == |multiset(c.released)| + |Holding(c.table)|;
    assert |multiset(c.acquired)| == |multiset(HeldBy(c.locks))| + |multiset(c.abandoned)|;
  }

  /**
   What each release hands back: the slot and buffer of the latest lock at its
   address, whatever the queue has put in that slot since.
   */
  lemma ReleaseNamesItsLock(size: nat, c0: nat, ops: seq<Op>, id: nat, result: UnlockResult)
    requires c0 < SIZE_T && Disciplined(Start(size, c0), ops)
    ensures var c := Run(Start(size, c0), ops);
      var (c', status) := Unlock(c, id, result);
      && (status == Ok <==> result.Unlocked? && id != UNUSED_ID && exists i :: 0 <= i < |c.table| && c.table[i].id == id)
      && (status == Ok ==> LatestAt(c.locks, id).Some? && c'.released == c.released + [LatestAt(c.locks, id).value])
      && (status != Ok ==> c' == c)
  {
    hide Run, Disciplined, Start, LatestAt, Inv;
    StartInv(size, c0);
    RunKeeps(Start(size, c0), c0, ops);
    var c := Run(Start(size, c0), ops);
    if id != UNUSED_ID && Find(c.table, id) < |c.table| {
      UnlockKeeps(c, c0, id);
    }
  }

  /** The unchecked search result is out of bounds exactly when a buffer is locked with no entry free. */
  lemma OverrunIffFull(c: State, op: Op)
    requires !c.overrun
    ensures Apply(c, op).overrun <==> Locks(op) && !HasFree(c.table)
  {
  }

  // ---------- the histories, from the operations alone ----------

  predicate Acquires(op: Op) {
    op.LockOp? && op.given && op.item.Acquired?
  }

  /** The item an operation acquires. */
  function HeldOf(op: Op): Held
    requires Acquires(op)
  {
    Held(op.item.slot, BufferOf(op.item, op.slotBuffer))
  }

  predicate AnyResult(r: LockResult) {
    true
  }

  predicate Succeeded(r: LockResult) {
    r.Locked?
  }

  predicate LockRefused(r: LockResult) {
    r.LockFailed?
  }

  /** The items that the operations acquire, in order, filtered by how lockAsync went. */
  function ItemsOf(ops: seq<Op>, kept: LockResult -> bool): seq<Held> {
    if ops == [] then []
    else (if Acquires(ops[0]) && kept(ops[0].lock) then [HeldOf(ops[0])] else []) + ItemsOf(ops[1..], kept)
  }

  /** The histories of c' are those of c followed by what the operations acquired, locked and could not lock. */
  predicate Extends(c: State, ops: seq<Op>, c': State) {
    && c'.acquired == c.acquired + ItemsOf(ops, AnyResult)
    && HeldBy(c'.locks) == HeldBy(c.locks) + ItemsOf(ops, Succeeded)
    && c'.abandoned == c.abandoned + ItemsOf(ops, LockRefused)
  }

  lemma OneItem(op: Op, kept: LockResult -> bool)
    ensures ItemsOf([op], kept) == if Acquires(op) && kept(op.lock) then [HeldOf(op)] else []
  {
    assert [op][1..] == [];
  }

  lemma ApplyExtends(c: State, op: Op)
    ensures Extends(c, [op], Apply(c, op))
  {
    hide Find, ItemsOf, HeldBy;
    OneItem(op, AnyResult);
    OneItem(op, Succeeded);
    OneItem(op, LockRefused);
    if Locks(op) {
      HistorySnoc(c.locks, Record(op.item.slot, BufferOf(op.item, op.slotBuffer), op.lock.address));
    }
  }

  lemma {:induction false} ItemsOfCons(ops: seq<Op>, kept: LockResult -> bool)
    requires ops != []
    ensures ItemsOf(ops, kept) == ItemsOf([ops[0]], kept) + ItemsOf(ops[1..], kept)
  {
    OneItem(ops[0], kept);
  }

  /**
   In every run, disciplined or not: the buffers locked are the items acquired,
   in the same order, filtered by whether lockAsync succeeded; the others are
   abandoned.
   */
  lemma {:induction false} LocksInAcquireOrder(c: State, ops: seq<Op>)
    ensures Extends(c, ops, Run(c, ops))
    decreases |ops|
  {
    hide Apply, HeldBy, ItemsOf;
    if ops == [] {
      NoItems();
    } else {
      ApplyExtends(c, ops[0]);
      LocksInAcquireOrder(Apply(c, ops[0]), ops[1..]);
      ItemsOfCons(ops, AnyResult);
      ItemsOfCons(ops, Succeeded);
      ItemsOfCons(ops, LockRefused);
    }
  }

  lemma NoItems()
    ensures forall kept :: ItemsOf([], kept) == []
  {
  }

  /**
   In every run, the i-th operation acquires the item's own buffer, or the slot's
   when the item brings none; if the lock succeeds that buffer is recorded with
   its slot and address and pushed, and if it fails it is abandoned.
   */
  lemma LockCarries(c: State, ops: seq<Op>, i: nat)
    requires i < |ops| && ops[i].LockOp? && ops[i].given && ops[i].item.Acquired?
    ensures var before, after, op := Run(c, ops[..i]), Run(c, ops[..i + 1]), ops[i];
      var buffer := if op.item.buffer.Some? then op.item.buffer.value else op.slotBuffer;
      && after.acquired == before.acquired + [Held(op.item.slot, buffer)]
      && (op.lock.Locked? ==>
            && after.locks == before.locks + [Record(op.item.slot, buffer, op.lock.address)]
            && after.pushed == before.pushed + [buffer] && after.abandoned == before.abandoned)
      && (op.lock.LockFailed? ==>
            && after.abandoned == before.abandoned + [Held(op.item.slot, buffer)]
            && after.locks == before.locks && after.pushed == before.pushed)
  {
    hide Find, Run;
    assert ops[..i + 1] == ops[..i] + [ops[i]];
    RunSnoc(c, ops[..i], ops[i]);
  }

  lemma {:induction false} RunSnoc(c: State, ops: seq<Op>, op: Op)
    ensures Run(c, ops + [op]) == Apply(Run(c, ops), op)
    decreases |ops|
  {
    hide Apply;
    if ops == [] {
      assert [] + [op] == [op] && [op][1..] == [];
      assert Run(c, [op]) == Run(Apply(c, op), []);
    } else {
      assert (ops + [op])[1..] == ops[1..] + [op];
      RunSnoc(Apply(c, ops[0]), ops[1..], op);
    }
  }

  // ---------- a lock that fails loses its item ----------

  /** An item is acquired and cannot be locked. */
  predicate Loses(op: Op) {
    Acquires(op) && op.lock.LockFailed?
  }

  lemma {:induction false} NothingRefused(ops: seq<Op>)
    ensures ItemsOf(ops, LockRefused) == [] <==> forall i :: 0 <= i < |ops| ==> !Loses(ops[i])
  {
    if ops != [] {
      NothingRefused(ops[1..]);
      forall i | 1 <= i < |ops| ensures ops[i] == ops[1..][i - 1] {}
    }
  }

  /** Over every disciplined run, what was acquired is released or still held if and only if no item met a failing lock. */
  lemma AllGivenBackIff(size: nat, c0: nat, ops: seq<Op>)
    requires c0 < SIZE_T && Disciplined(Start(size, c0), ops)
    ensures var c := Run(Start(size, c0), ops);
      |c.acquired| == |c.released| + Occupied(c.table)
      <==> forall i :: 0 <= i < |ops| ==> !Loses(ops[i])
  {
    hide Run, Disciplined, Occupied, DistinctIds, ItemsOf;
    TableConserved(size, c0, ops);
    LocksInAcquireOrder(Start(size, c0), ops);
    NothingRefused(ops);
  }

  /** One failing lock: the item is neither held nor released, and the table has forgotten it. */
  lemma ItemLost(size: nat, c0: nat, slot: int, buffer: GraphicBuffer, code: int)
    requires c0 < SIZE_T
    ensures var ops := [LockOp(true, Acquired(slot, Some(buffer)), buffer, LockFailed(code))];
      var c := Run(Start(size, c0), ops);
      && Disciplined(Start(size, c0), ops)
      && c.acquired == [Held(slot, buffer)] && c.released == [] && Occupied(c.table) == 0
  {
    var op := LockOp(true, Acquired(slot, Some(buffer)), buffer, LockFailed(code));
    var c := Apply(Start(size, c0), op);
    assert [op][1..] == [];
    assert Run(Start(size, c0), [op]) == Run(c, []) == c;
    EmptyTable(size);
  }
}
