/**
 `MessageQueue::Handler`: any number of threads ask for a refresh; each sets a bit
 atomically, and the one that found it clear sends the message afterwards.
 */
module MessageQueue {
  const EVENT_MASK_REFRESH: bv32 := 0x2

  type Thread = nat

  /**
   sending: threads that found the bit clear and have not sent yet; returning:
   threads that found it set. queue: messages sent and not yet handled.
   */
  datatype Handler = Handler(
    mEventMask: bv32, sending: set<Thread>, returning: set<Thread>, queue: nat, handled: nat, completed: nat)

  predicate BitSet(h: Handler) {
    h.mEventMask & EVENT_MASK_REFRESH != 0
  }

  /** One atomic action. A thread that is not at that action leaves everything as it is. */
  datatype Action =
    | AtomicOr(thread: Thread)
    | SendMessage(thread: Thread)
    | Return(thread: Thread)
    | HandleMessage

  function Step(h: Handler, action: Action): Handler {
    match action
    case AtomicOr(t) =>
      if t in h.sending + h.returning then h
      else
        var set1 := h.(mEventMask := h.mEventMask | EVENT_MASK_REFRESH);
        if h.mEventMask & EVENT_MASK_REFRESH == 0
        then set1.(sending := h.sending + {t})
        else set1.(returning := h.returning + {t})
    case SendMessage(t) =>
      if t in h.sending then h.(sending := h.sending - {t}, queue := h.queue + 1, completed := h.completed + 1) else h
    case Return(t) =>
      if t in h.returning then h.(returning := h.returning - {t}, completed := h.completed + 1) else h
    case HandleMessage =>
      if h.queue > 0 then h.(queue := h.queue - 1, handled := h.handled + 1) else h
  }

  function Run(h: Handler, actions: seq<Action>): Handler
    decreases |actions|
  {
    if actions == [] then h else Run(Step(h, actions[0]), actions[1..])
  }

  function Initial(mask: bv32): Handler {
    Handler(mask, {}, {}, 0, 0, 0)
  }

  function Sent(h: Handler): nat {
    h.queue + h.handled
  }

  predicate Inv(h: Handler) {
    && Sent(h) + |h.sending| == (if BitSet(h) then 1 else 0)
    && (h.returning != {} || h.completed > 0 ==> BitSet(h))
  }

  lemma OrSets(mask: bv32)
    ensures (mask | EVENT_MASK_REFRESH) & EVENT_MASK_REFRESH != 0
  {
  }

  lemma WithOne(s: set<Thread>, t: Thread)
    ensures t !in s ==> |s + {t}| == |s| + 1
    ensures t in s ==> |s - {t}| == |s| - 1
  {
  }

  lemma OrKeeps(h: Handler, t: Thread)
    requires Inv(h)
    ensures Inv(Step(h, AtomicOr(t)))
  {
    OrSets(h.mEventMask);
    WithOne(h.sending, t);
  }

  lemma OtherKeeps(h: Handler, action: Action)
    requires Inv(h) && !action.AtomicOr?
    ensures Inv(Step(h, action))
  {
    var next := Step(h, action);
    assert BitSet(next) == BitSet(h);
    hide BitSet;
    if action.SendMessage? {
      WithOne(h.sending, action.thread);
    }
  }

  lemma StepKeeps(h: Handler, action: Action)
    requires Inv(h)
    ensures Inv(Step(h, action))
  {
    hide Inv, Step;
    match action
    case AtomicOr(t) => OrKeeps(h, t);
    case SendMessage(t) => OtherKeeps(h, action);
    case Return(t) => OtherKeeps(h, action);
    case HandleMessage => OtherKeeps(h, action);
  }

  lemma {:induction false} RunKeeps(h: Handler, actions: seq<Action>)
    requires Inv(h)
    ensures Inv(Run(h, actions))
    decreases |actions|
  {
    hide Inv, Step;
    if actions != [] {
      StepKeeps(h, actions[0]);
      RunKeeps(Step(h, actions[0]), actions[1..]);
    }
  }

  lemma RunAccounts(mask: bv32, actions: seq<Action>)
    requires mask & EVENT_MASK_REFRESH == 0
    ensures !BitSet(Initial(mask)) && Inv(Initial(mask)) && Inv(Run(Initial(mask), actions))
  {
    hide Step, Run;
    RunKeeps(Initial(mask), actions);
  }

  lemma InvSays(h: Handler)
    requires Inv(h)
    ensures Sent(h) + |h.sending| == (if BitSet(h) then 1 else 0)
    ensures h.handled <= Sent(h) <= 1 && (h.completed > 0 ==> BitSet(h))
  {
    hide BitSet;
  }

  /**
   For any number of threads and any interleaving of their actions with the
   handler's: messages sent plus threads about to send are 1 if the bit is set
   and 0 otherwise. The handler never clears the bit, so it handles at most one
   refresh in the whole run.
   */
  lemma OneRefreshEver(mask: bv32, actions: seq<Action>)
    requires mask & EVENT_MASK_REFRESH == 0
    ensures var h := Run(Initial(mask), actions);
      && Sent(h) + |h.sending| == (if BitSet(h) then 1 else 0)
      && h.handled <= Sent(h) <= 1
  {
    hide Inv, Step, Run, BitSet;
    RunAccounts(mask, actions);
    InvSays(Run(Initial(mask), actions));
  }

  /** The calls of refresh that have begun: an atomic or by a thread that is not inside another call. */
  function Begun(h: Handler, actions: seq<Action>): nat
    decreases |actions|
  {
    if actions == [] then 0
    else
      var begins := actions[0].AtomicOr? && actions[0].thread !in h.sending + h.returning;
      (if begins then 1 else 0) + Begun(Step(h, actions[0]), actions[1..])
  }

  lemma StepCounts(h: Handler, action: Action)
    requires h.sending !! h.returning
    ensures var h' := Step(h, action);
      && h'.sending !! h'.returning
      && h'.completed + |h'.sending| + |h'.returning| == h.completed + |h.sending| + |h.returning|
           + (if action.AtomicOr? && action.thread !in h.sending + h.returning then 1 else 0)
  {
    if !action.HandleMessage? {
      WithOne(h.sending, action.thread);
      WithOne(h.returning, action.thread);
    }
  }

  /** Every call of refresh that begins completes once or is still between its actions. */
  lemma {:induction false} CallsConserved(h: Handler, actions: seq<Action>)
    requires h.sending !! h.returning
    ensures var h' := Run(h, actions);
      && h'.sending !! h'.returning
      && h'.completed + |h'.sending| + |h'.returning|
           == h.completed + |h.sending| + |h.returning| + Begun(h, actions)
    decreases |actions|
  {
    hide Step;
    if actions != [] {
      StepCounts(h, actions[0]);
      CallsConserved(Step(h, actions[0]), actions[1..]);
    }
  }

  predicate Asked(actions: seq<Action>) {
    exists i :: 0 <= i < |actions| && actions[i].AtomicOr?
  }

  lemma {:induction false} BitStays(h: Handler, actions: seq<Action>)
    requires BitSet(h)
    ensures BitSet(Run(h, actions))
    decreases |actions|
  {
    if actions != [] {
      OrSets(h.mEventMask);
      BitStays(Step(h, actions[0]), actions[1..]);
    }
  }

  lemma {:induction false} BitSetIffAsked(h: Handler, actions: seq<Action>)
    requires Inv(h) && !BitSet(h)
    ensures BitSet(Run(h, actions)) <==> Asked(actions)
    decreases |actions|
  {
    if actions != [] {
      var next := Step(h, actions[0]);
      if actions[0].AtomicOr? {
        NobodyInside(h);
        OrSets(h.mEventMask);
        BitStays(next, actions[1..]);
      } else {
        StepKeeps(h, actions[0]);
        BitSetIffAsked(next, actions[1..]);
        AskedLater(actions);
      }
    }
  }

  lemma NobodyInside(h: Handler)
    requires Inv(h) && !BitSet(h)
    ensures h.sending + h.returning == {}
  {
  }

  lemma AskedLater(actions: seq<Action>)
    requires actions != [] && !actions[0].AtomicOr?
    ensures Asked(actions) <==> Asked(actions[1..])
  {
    if i :| 0 <= i < |actions| && actions[i].AtomicOr? {
      assert actions[1..][i - 1].AtomicOr?;
    }
    if i :| 0 <= i < |actions[1..]| && actions[1..][i].AtomicOr? {
      assert actions[i + 1].AtomicOr?;
    }
  }

  /** Exactly one message is sent once any thread has asked and none is between the two actions; none before. */
  lemma SentWhenQuiet(mask: bv32, actions: seq<Action>)
    requires mask & EVENT_MASK_REFRESH == 0
    ensures var h := Run(Initial(mask), actions);
      h.sending == {} ==> Sent(h) == if Asked(actions) then 1 else 0
  {
    hide Inv, Step, Run, BitSet, Asked;
    RunAccounts(mask, actions);
    InvSays(Run(Initial(mask), actions));
    BitSetIffAsked(Initial(mask), actions);
  }

  lemma {:induction false} RunSnoc(h: Handler, actions: seq<Action>, action: Action)
    ensures Run(h, actions + [action]) == Step(Run(h, actions), action)
    decreases |actions|
  {
    hide Step;
    if actions == [] {
      assert [] + [action] == [action] && [action][1..] == [];
      assert Run(h, [action]) == Run(Step(h, action), []);
    } else {
      assert (actions + [action])[1..] == actions[1..] + [action];
      RunSnoc(Step(h, actions[0]), actions[1..], action);
    }
  }

  lemma HandleEffect(h: Handler)
    ensures var h' := Step(h, HandleMessage);
      if h.queue > 0 then h'.queue == h.queue - 1 && h'.handled == h.handled + 1 else h' == h
  {
  }

  /**
   The message does arrive: once any thread has asked and none is between its two
   actions, one more turn of the handler leaves it handled and the queue empty.
   */
  lemma HandledAfterOneTurn(mask: bv32, actions: seq<Action>)
    requires mask & EVENT_MASK_REFRESH == 0 && Asked(actions) && Run(Initial(mask), actions).sending == {}
    ensures var h := Run(Initial(mask), actions + [HandleMessage]); h.handled == 1 && h.queue == 0
  {
    hide Run, Step, Asked;
    SentWhenQuiet(mask, actions);
    RunSnoc(Initial(mask), actions, HandleMessage);
    HandleEffect(Run(Initial(mask), actions));
  }

  /**
   A thread can return from refresh before the message is sent, exactly when some
   thread is still between its two actions.
   */
  lemma CompletedBeforeSent(mask: bv32, actions: seq<Action>)
    requires mask & EVENT_MASK_REFRESH == 0
    ensures var h := Run(Initial(mask), actions);
      h.completed > 0 ==> (Sent(h) == 0 <==> |h.sending| == 1)
  {
    hide Inv, Step, Run, BitSet;
    RunAccounts(mask, actions);
    InvSays(Run(Initial(mask), actions));
  }

  lemma ReturnFirstReachable()
    ensures var h := Run(Initial(0), [AtomicOr(1), AtomicOr(2), Return(2)]);
      h.completed == 1 && Sent(h) == 0 && h.sending == {1}
  {
    var h1 := Step(Initial(0), AtomicOr(1));
    var h2 := Step(h1, AtomicOr(2));
    var h3 := Step(h2, Return(2));
    assert h1 == Handler(2, {1}, {}, 0, 0, 0);
    assert h2 == Handler(2, {1}, {2}, 0, 0, 0);
    assert Run(h3, []) == h3;
    assert [AtomicOr(1), AtomicOr(2), Return(2)][1..] == [AtomicOr(2), Return(2)];
    assert [AtomicOr(2), Return(2)][1..] == [Return(2)];
    assert [Return(2)][1..] == [];
    assert Run(h2, [Return(2)]) == h3;
    assert Run(h1, [AtomicOr(2), Return(2)]) == h3;
  }

  /** The handler object; the looper's queue is the number of messages not yet handled. */
  class RefreshHandler {
    var mEventMask: bv32
    var queue: nat

    constructor ()
      ensures mEventMask == 0 && queue == 0
    {
      mEventMask, queue := 0, 0;
    }

    /** Without interruption: the two actions of one thread, in order. */
    method DispatchRefresh()
      modifies this
      ensures forall t: Thread, handled: nat, completed: nat ::
        var h := Step(Handler(old(mEventMask), {}, {}, old(queue), handled, completed), AtomicOr(t));
        var done := Step(Step(h, SendMessage(t)), Return(t));
        (mEventMask, queue, completed + 1) == (done.mEventMask, done.queue, done.completed)
      ensures queue == old(queue) + (if old(mEventMask) & EVENT_MASK_REFRESH == 0 then 1 else 0)
      ensures mEventMask == old(mEventMask) | EVENT_MASK_REFRESH
    {
      var previous := mEventMask;
      mEventMask := mEventMask | EVENT_MASK_REFRESH;
      if previous & EVENT_MASK_REFRESH == 0 {
        queue := queue + 1;
      }
    }
  }
}
