/**
 The objects of the frame pipeline: `WLConsumer` with its table edited in place,
 and `WLFrameOutput` with its flag, each method tied to the state functions.
 */
module FrameOutput {
  import opened Wrappers
  import opened Consumer
  import opened PushRun
  import opened SingleWindowManager
  import L = FrameLoop

  /** What one iteration does to the table: a lock and, if it succeeds, its unlock. */
  function Handled(c: State, item: AcquireResult, slotBuffer: GraphicBuffer, lock: LockResult, unlock: UnlockResult): State {
    var (c', status) := LockNext(c, true, item, slotBuffer, lock);
    if status == Ok && lock.Locked? then Unlock(c', lock.address, unlock).0 else c'
  }

  /** The run loop's step is the method's, unless the table is overrun. */
  lemma ServeHandles(l: L.Loop, o: L.Outcome)
    requires !L.Serve(l, o).c.overrun
    ensures L.Serve(l, o).c == Handled(l.c, L.ItemFor(l.h, o), o.slotBuffer, o.lock, o.unlock)
  {
  }

  class WLConsumer {
    const maxLockedBuffers: nat
    const acquiredBuffers: array<AcquiredBuffer>
    const wm: WindowManager
    var currentLockedBuffers: SizeT
    ghost var acquired: seq<Held>
    ghost var abandoned: seq<Held>
    ghost var locks: seq<Record>
    ghost var released: seq<Record>
    ghost var pushed: seq<GraphicBuffer>

    ghost predicate Valid() {
      acquiredBuffers.Length == maxLockedBuffers
    }

    ghost function View(): State
      reads this, acquiredBuffers
    {
      State(acquiredBuffers[..], currentLockedBuffers, false, acquired, abandoned, locks, released, pushed)
    }

    /** The counter is left as memory held it. */
    constructor (maxLockedBuffers: nat, wm: WindowManager, garbage: SizeT)
      ensures Valid() && this.maxLockedBuffers == maxLockedBuffers && this.wm == wm && fresh(acquiredBuffers)
      ensures View() == Start(maxLockedBuffers, garbage)
    {
      this.maxLockedBuffers := maxLockedBuffers;
      this.wm := wm;
      acquiredBuffers := new AcquiredBuffer[maxLockedBuffers](_ => UNUSED);
      currentLockedBuffers := garbage;
      acquired, abandoned, locks, released, pushed := [], [], [], [], [];
      new;
      assert acquiredBuffers[..] == seq(maxLockedBuffers, _ => UNUSED);
    }

    /** The first entry with this id, or the size of the table, which is no index. */
    method FindAcquiredBufferLocked(id: nat) returns (index: nat)
      requires Valid()
      ensures index == Find(acquiredBuffers[..], id) <= maxLockedBuffers
      ensures index < maxLockedBuffers ==> acquiredBuffers[index].id == id
      ensures index == maxLockedBuffers ==> forall i :: 0 <= i < maxLockedBuffers ==> acquiredBuffers[i].id != id
    {
      index := 0;
      while index < maxLockedBuffers
        invariant index <= maxLockedBuffers
        invariant forall i :: 0 <= i < index ==> acquiredBuffers[..][i].id != id
      {
        if acquiredBuffers[index].id == id {
          return;
        }
        index := index + 1;
      }
    }

    /** The assertion on the search result is what the caller has to provide for. */
    method LockNextBuffer(given: bool, item: AcquireResult, slotBuffer: GraphicBuffer, lock: LockResult)
      returns (status: Status)
      requires Valid()
      requires given && item.Acquired? && lock.Locked? ==> HasFree(acquiredBuffers[..])
      modifies this, acquiredBuffers, wm
      ensures (View(), status) == LockNext(old(View()), given, item, slotBuffer, lock)
      ensures wm.View() ==
        if given && item.Acquired? && lock.Locked? then Pushed(old(wm.View()), BufferOf(item, slotBuffer)) else old(wm.View())
      ensures given && item.Acquired? && lock.Locked? ==>
        var buffer := if item.buffer.Some? then item.buffer.value else slotBuffer;
        var index := Find(old(acquiredBuffers[..]), UNUSED_ID);
        && wm.View() == Pushed(old(wm.View()), buffer)
        && pushed == old(pushed) + [buffer] && acquired == old(acquired) + [Held(item.slot, buffer)]
        && locks == old(locks) + [Record(item.slot, buffer, lock.address)]
        && index < |old(acquiredBuffers[..])| && acquiredBuffers[..] ==
             old(acquiredBuffers[..])[index := AcquiredBuffer(item.slot, Some(buffer), lock.address)]
      ensures status ==
        if !given || item.NoBufferAvailable? then BadValue
        else if item.AcquireFailed? then Failed(item.code)
        else if lock.LockFailed? then Failed(lock.code) else Ok
    {
      if !given {
        return BadValue;
      }
      match item
      case NoBufferAvailable => return BadValue;
      case AcquireFailed(code) => return Failed(code);
      case Acquired(slot, _) =>
        var buffer := BufferOf(item, slotBuffer);
        acquired := acquired + [Held(slot, buffer)];
        if lock.LockFailed? {
          abandoned := abandoned + [Held(slot, buffer)];
          return Failed(lock.code);
        }
        wm.PushFrame(buffer);
        pushed := pushed + [buffer];
        locks := locks + [Record(slot, buffer, lock.address)];
        var index := FindAcquiredBufferLocked(UNUSED_ID);
        acquiredBuffers[index] := AcquiredBuffer(slot, Some(buffer), lock.address);
        currentLockedBuffers := (currentLockedBuffers + 1) % SIZE_T;
        return Ok;
    }

    method UnlockBuffer(address: nat, result: UnlockResult) returns (status: Status)
      requires Valid()
      modifies this, acquiredBuffers
      ensures (View(), status) == Unlock(old(View()), address, result)
      ensures status ==
        if address == UNUSED_ID || forall i :: 0 <= i < maxLockedBuffers ==> old(acquiredBuffers[..])[i].id != address then BadValue
        else if result.UnlockFailed? then Failed(result.code) else Ok
      ensures status == Ok ==>
        var index := Find(old(acquiredBuffers[..]), address);
        && index < |old(acquiredBuffers[..])|
        && acquiredBuffers[..] == old(acquiredBuffers[..])[index := AcquiredBuffer(-1, None, 0)]
    {
      var index := maxLockedBuffers;
      if address != UNUSED_ID {
        index := FindAcquiredBufferLocked(address);
      }
      if index == maxLockedBuffers {
        return BadValue;
      }
      if result.UnlockFailed? {
        return Failed(result.code);
      }
      var held := acquiredBuffers[index];
      if held.buffer.Some? {
        released := released + [Record(held.slot, held.buffer.value, address)];
      }
      acquiredBuffers[index] := UNUSED;
      currentLockedBuffers := (currentLockedBuffers - 1) % SIZE_T;
      return Ok;
    }
  }

  class WLFrameOutput {
    var frameAvailable: bool
    const consumer: WLConsumer

    constructor (consumer: WLConsumer)
      ensures this.consumer == consumer && !frameAvailable
    {
      this.consumer := consumer;
      frameAvailable := false;
    }

    method OnFrameAvailable()
      modifies this
      ensures frameAvailable
    {
      frameAvailable := true;
    }

    /**
     One iteration of the run loop. With the flag clear it waits, during which
     the callback may run, and returns without looking at the flag again.
     */
    method InputBufferLocked(calledBack: bool, item: AcquireResult, slotBuffer: GraphicBuffer, lock: LockResult,
                             unlock: UnlockResult)
      requires consumer.Valid()
      requires frameAvailable && item.Acquired? && lock.Locked? ==> HasFree(consumer.acquiredBuffers[..])
      modifies this, consumer, consumer.acquiredBuffers, consumer.wm
      ensures frameAvailable == (!old(frameAvailable) && calledBack)
      ensures consumer.View() ==
        if old(frameAvailable) then Handled(old(consumer.View()), item, slotBuffer, lock, unlock) else old(consumer.View())
      ensures consumer.wm.View() ==
        if old(frameAvailable) && item.Acquired? && lock.Locked?
        then Pushed(old(consumer.wm.View()), if item.buffer.Some? then item.buffer.value else slotBuffer)
        else old(consumer.wm.View())
    {
      if !frameAvailable {
        if calledBack {
          OnFrameAvailable();
        }
        return;
      }
      frameAvailable := false;
      var status := consumer.LockNextBuffer(true, item, slotBuffer, lock);
      if status != Ok {
        return;
      }
      assert lock.Locked?;
      var unlocked := consumer.UnlockBuffer(lock.address, unlock);
    }
  }

  // ---------- VirtualDisplayManager::run ----------

  /** What one iteration meets: whether the callback runs during its wait, and what its calls return. */
  datatype Iteration = Iteration(
    calledBack: bool, item: AcquireResult, slotBuffer: GraphicBuffer, lock: LockResult, unlock: UnlockResult)
  {
    /** A lock gives a non-null address, and unlocking does not fail. */
    predicate Sound() {
      (lock.Locked? ==> lock.address != UNUSED_ID) && unlock.Unlocked?
    }

    predicate Takes() {
      item.Acquired? && lock.Locked?
    }
  }

  datatype Output = Output(flag: bool, table: State, client: Client)

  function Iterate(o: Output, i: Iteration): Output {
    Output(
      !o.flag && i.calledBack,
      if o.flag then Handled(o.table, i.item, i.slotBuffer, i.lock, i.unlock) else o.table,
      if o.flag && i.Takes() then Pushed(o.client, BufferOf(i.item, i.slotBuffer)) else o.client)
  }

  function IterateAll(o: Output, iterations: seq<Iteration>): Output {
    if iterations == [] then o else Iterate(IterateAll(o, iterations[..|iterations| - 1]), iterations[|iterations| - 1])
  }

  lemma IterateSnoc(o: Output, iterations: seq<Iteration>, n: nat)
    requires n < |iterations|
    ensures IterateAll(o, iterations[..n + 1]) == Iterate(IterateAll(o, iterations[..n]), iterations[n])
  {
    assert iterations[..n + 1][..n] == iterations[..n];
  }

  lemma IterateNone(o: Output, iterations: seq<Iteration>)
    ensures IterateAll(o, iterations[..0]) == o
  {
  }

  /** A lock happens only with an entry free, which is what lockNextBuffer asserts. */
  predicate Fits(o: Output, i: Iteration) {
    o.flag && i.Takes() ==> HasFree(o.table.table)
  }

  predicate AllFit(o: Output, iterations: seq<Iteration>) {
    forall n :: 0 <= n < |iterations| ==> Fits(IterateAll(o, iterations[..n]), iterations[n])
  }

  /** With the one entry free, a sound iteration leaves it free. */
  lemma HandledFree(c: State, i: Iteration)
    requires c.table == [UNUSED] && i.Sound()
    ensures Handled(c, i.item, i.slotBuffer, i.lock, i.unlock).table == [UNUSED]
  {
  }

  /** If unlocking never fails, the one entry is free before every iteration and after the last. */
  lemma {:induction false} SoundFit(o: Output, iterations: seq<Iteration>)
    requires o.table.table == [UNUSED] && forall i :: 0 <= i < |iterations| ==> iterations[i].Sound()
    ensures AllFit(o, iterations) && IterateAll(o, iterations).table.table == [UNUSED]
    decreases |iterations|
  {
    hide Handled, Pushed;
    if iterations != [] {
      var k := |iterations| - 1;
      var before := iterations[..k];
      SoundFit(o, before);
      HandledFree(IterateAll(o, before).table, iterations[k]);
      assert !IterateAll(o, before).table.table[0].Used();
      forall n | 0 <= n < |iterations|
        ensures Fits(IterateAll(o, iterations[..n]), iterations[n])
      {
        if n < k {
          assert before[..n] == iterations[..n] && before[n] == iterations[n];
        }
      }
    }
  }

  ghost function OutputOf(output: WLFrameOutput): Output
    reads output, output.consumer, output.consumer.acquiredBuffers, output.consumer.wm
  {
    Output(output.frameAvailable, output.consumer.View(), output.consumer.wm.View())
  }

  /**
   As many iterations as are given; the source goes on forever. Locks and unlocks
   may fail, as long as nothing is locked with the table full.
   */
  method Run(output: WLFrameOutput, iterations: seq<Iteration>)
    requires output.consumer.Valid() && AllFit(OutputOf(output), iterations)
    modifies output, output.consumer, output.consumer.acquiredBuffers, output.consumer.wm
    ensures OutputOf(output) == IterateAll(old(OutputOf(output)), iterations)
  {
    hide Handled, Pushed, IterateAll;
    ghost var start := OutputOf(output);
    IterateNone(start, iterations);
    for n := 0 to |iterations|
      invariant OutputOf(output) == IterateAll(start, iterations[..n])
    {
      var i := iterations[n];
      IterateSnoc(start, iterations, n);
      assert Fits(IterateAll(start, iterations[..n]), i);
      output.InputBufferLocked(i.calledBack, i.item, i.slotBuffer, i.lock, i.unlock);
    }
    assert iterations[..|iterations|] == iterations;
  }
}
