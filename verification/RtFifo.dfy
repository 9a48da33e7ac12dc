/** The bounded FIFO between two blocks: `RtFifo::push` and `RtFifo::pop`, `RtSemaphore`, and
    `MessageEvent::handle`, as atomic steps of any number of threads.
    A producer takes a permit of the semaphore, locks the mutex, enqueues and writes "GO" to the pipe
    before it unlocks. A consumer reads "GO" from the pipe, locks, dequeues, unlocks and gives the
    permit back. */
module RtFifo {
  import opened Wrappers

  datatype Message = Message(data: nat, length: nat, kind: nat)

  /** Where a thread is. The first five are points of `push`, the others of `handle` and `pop`. */
  datatype Pc =
    | Idle
    | Waiting(msg: Message)   // in `wait`
    | Granted(msg: Message)   // has a permit, wants the mutex
    | Pushing(msg: Message)   // has the mutex
    | Pushed                  // has the mutex, the message is in the queue, no signal yet
    | Listening
    | Popping                 // has read a signal, wants the mutex
    | Holding                 // has the mutex
    | Popped(msg: Message)    // has a message, must give the permit back

  /** What the threads share, and the history: messages enqueued and dequeued, and how many signals were not
      written. */
  datatype State = State(
    threads: seq<Pc>,
    count: nat,
    lock: Option<nat>,
    queue: seq<Message>,
    pipe: string,
    pushed: seq<Message>,
    popped: seq<Message>,
    lost: nat)

  const MAGIC_WORD := "GO"

  datatype Action =
    | Call(t: nat, msg: Message)
    | Wait(t: nat)
    | LockPush(t: nat)
    | Enqueue(t: nat)
    | Signal(t: nat)
    | SignalFails(t: nat)
    | Read(t: nat)
    | LockPop(t: nat)
    | Pop(t: nat)
    | Notify(t: nat)

  /** The capacity of the queue and of the semaphore, and the size of the pipe. */
  datatype Limits = Limits(capacity: nat, pipeSize: nat)

  predicate Enabled(k: Limits, s: State, a: Action) {
    a.t < |s.threads| &&
    var pc := s.threads[a.t];
    match a
    case Call(_, _) => pc.Idle?
    case Wait(_) => pc.Waiting? && s.count != 0
    case LockPush(_) => pc.Granted? && s.lock.None?
    case Enqueue(_) => pc.Pushing?
    case Signal(_) => pc.Pushed? && |s.pipe| + |MAGIC_WORD| <= k.pipeSize
    case SignalFails(_) => pc.Pushed?
    case Read(_) => pc.Listening? && s.pipe != ""
    case LockPop(_) => pc.Popping? && s.lock.None?
    case Pop(_) => pc.Holding?
    case Notify(_) => pc.Popped?
  }

  function Step(k: Limits, s: State, a: Action): State
    requires Enabled(k, s, a)
  {
    var pc := s.threads[a.t];
    match a
    case Call(t, msg) => s.(threads := s.threads[t := Waiting(msg)])
    case Wait(t) => s.(threads := s.threads[t := Granted(pc.msg)], count := s.count - 1)
    case LockPush(t) => s.(threads := s.threads[t := Pushing(pc.msg)], lock := Some(t))
    case Enqueue(t) =>
      s.(threads := s.threads[t := Pushed],
         queue := s.queue + [pc.msg],
         pushed := s.pushed + [pc.msg])
    case Signal(t) => s.(threads := s.threads[t := Idle], lock := None, pipe := s.pipe + MAGIC_WORD)
    case SignalFails(t) => s.(threads := s.threads[t := Idle], lock := None, lost := s.lost + 1)
    case Read(t) =>
      var n := if |s.pipe| < |MAGIC_WORD| then |s.pipe| else |MAGIC_WORD|;
      if s.pipe[..n] == MAGIC_WORD then s.(threads := s.threads[t := Popping], pipe := s.pipe[n..])
      else s.(pipe := s.pipe[n..])
    case LockPop(t) => s.(threads := s.threads[t := Holding], lock := Some(t))
    case Pop(t) =>
      if s.queue == [] then s.(threads := s.threads[t := Listening], lock := None)
      else
        s.(threads := s.threads[t := Popped(s.queue[0])],
           lock := None,
           queue := s.queue[1..],
           popped := s.popped + [s.queue[0]])
    case Notify(t) => s.(threads := s.threads[t := Listening], count := s.count + 1)
  }

  predicate Initial(k: Limits, s: State) {
    && (forall t :: 0 <= t < |s.threads| ==> s.threads[t].Idle? || s.threads[t].Listening?)
    && s == State(s.threads, k.capacity, None, [], "", [], [], 0)
  }

  // ----- Counting threads -----

  datatype Group = HasPermit | OwesPermit | HasSignal | OwesSignal

  predicate Belongs(pc: Pc, g: Group) {
    match g
    case HasPermit => pc.Granted? || pc.Pushing?
    case OwesPermit => pc.Popped?
    case HasSignal => pc.Popping? || pc.Holding?
    case OwesSignal => pc.Pushed?
  }

  function Count(threads: seq<Pc>, g: Group): nat {
    if threads == [] then 0 else (if Belongs(threads[0], g) then 1 else 0) + Count(threads[1..], g)
  }

  lemma {:induction false} CountUpdate(threads: seq<Pc>, t: nat, pc: Pc, g: Group)
    requires t < |threads|
    ensures Count(threads[t := pc], g) + (if Belongs(threads[t], g) then 1 else 0) ==
            Count(threads, g) + (if Belongs(pc, g) then 1 else 0)
  {
    if t == 0 {
      assert threads[t := pc][1..] == threads[1..];
    } else {
      assert threads[t := pc][1..] == threads[1..][t - 1 := pc];
      CountUpdate(threads[1..], t - 1, pc, g);
    }
  }

  lemma {:induction false} CountNone(threads: seq<Pc>, g: Group)
    requires forall t :: 0 <= t < |threads| ==> !Belongs(threads[t], g)
    ensures Count(threads, g) == 0
  {
    if threads != [] {
      CountNone(threads[1..], g);
    }
  }

  lemma {:induction false} CountSome(threads: seq<Pc>, g: Group)
    requires Count(threads, g) > 0
    ensures exists t :: 0 <= t < |threads| && Belongs(threads[t], g)
  {
    if !Belongs(threads[0], g) {
      CountSome(threads[1..], g);
      var t :| 0 <= t < |threads[1..]| && Belongs(threads[1..][t], g);
      assert Belongs(threads[t + 1], g);
    }
  }

  // ----- What every step keeps -----

  function Signals(n: nat): string {
    if n == 0 then "" else MAGIC_WORD + Signals(n - 1)
  }

  lemma {:induction false} SignalsSnoc(n: nat)
    ensures Signals(n) + MAGIC_WORD == Signals(n + 1)
    ensures |Signals(n)| == 2 * n
  {
    if n > 0 {
      SignalsSnoc(n - 1);
      assert MAGIC_WORD + (Signals(n - 1) + MAGIC_WORD) == (MAGIC_WORD + Signals(n - 1)) + MAGIC_WORD;
    } else {
      assert Signals(1) == MAGIC_WORD + "";
    }
  }

  predicate InMutex(pc: Pc) {
    pc.Pushing? || pc.Pushed? || pc.Holding?
  }

  /** Permits: free, in the queue, on the way in, or on the way back; together the capacity. */
  predicate PermitsKept(k: Limits, s: State) {
    s.count + |s.queue| + Count(s.threads, HasPermit) + Count(s.threads, OwesPermit) == k.capacity
  }

  /** Signals: every message in the queue has one in the pipe, one read or one to be written, unless
      writing it failed. */
  predicate SignalsKept(s: State) {
    && |s.pipe| % 2 == 0 && s.pipe == Signals(|s.pipe| / 2)
    && |s.queue| == |s.pipe| / 2 + Count(s.threads, HasSignal) + Count(s.threads, OwesSignal) + s.lost
  }

  predicate MutexKept(s: State) {
    && (s.lock.Some? ==> s.lock.value < |s.threads| && InMutex(s.threads[s.lock.value]))
    && (forall t :: 0 <= t < |s.threads| && InMutex(s.threads[t]) ==> s.lock == Some(t))
  }

  predicate Inv(k: Limits, s: State) {
    && PermitsKept(k, s)
    && SignalsKept(s)
    && MutexKept(s)
    && s.pushed == s.popped + s.queue
    && |s.pipe| <= k.pipeSize
  }

  lemma {:induction false} InitialInv(k: Limits, s: State)
    requires Initial(k, s)
    ensures Inv(k, s)
  {
    CountNone(s.threads, HasPermit);
    CountNone(s.threads, OwesPermit);
    CountNone(s.threads, HasSignal);
    CountNone(s.threads, OwesSignal);
  }

  lemma {:induction false} StepPermits(k: Limits, s: State, a: Action)
    requires Inv(k, s) && Enabled(k, s, a)
    ensures PermitsKept(k, Step(k, s, a))
  {
    CountUpdate(s.threads, a.t, Step(k, s, a).threads[a.t], HasPermit);
    CountUpdate(s.threads, a.t, Step(k, s, a).threads[a.t], OwesPermit);
  }

  lemma {:induction false} StepSignals(k: Limits, s: State, a: Action)
    requires Inv(k, s) && Enabled(k, s, a)
    ensures SignalsKept(Step(k, s, a))
    ensures a.Pop? ==> s.queue != []
    ensures a.Read? ==> "GO" <= s.pipe
  {
    CountUpdate(s.threads, a.t, Step(k, s, a).threads[a.t], HasSignal);
    CountUpdate(s.threads, a.t, Step(k, s, a).threads[a.t], OwesSignal);
    SignalsSnoc(|s.pipe| / 2);
    if a.Read? {
      var n := |s.pipe| / 2;
      assert s.pipe == MAGIC_WORD + Signals(n - 1);
      assert s.pipe[..2] == MAGIC_WORD && s.pipe[2..] == Signals(n - 1);
    }
  }

  lemma {:induction false} StepMutex(k: Limits, s: State, a: Action)
    requires Inv(k, s) && Enabled(k, s, a)
    ensures MutexKept(Step(k, s, a))
  {
  }

  /** Every step of every thread keeps the invariant. */
  lemma {:induction false} StepInv(k: Limits, s: State, a: Action)
    requires Inv(k, s) && Enabled(k, s, a)
    ensures Inv(k, Step(k, s, a))
  {
    StepPermits(k, s, a);
    StepSignals(k, s, a);
    StepMutex(k, s, a);
    if a.Enqueue? {
      var msg := s.threads[a.t].msg;
      assert (s.popped + s.queue) + [msg] == s.popped + (s.queue + [msg]);
      CountUpdate(s.threads, a.t, Idle, HasPermit);
    } else if a.Pop? {
      assert s.popped + s.queue == (s.popped + [s.queue[0]]) + s.queue[1..];
    }
  }

  // ----- Whole runs -----

  predicate Run(k: Limits, s: State, run: seq<Action>)
    decreases |run|
  {
    run != [] ==> Enabled(k, s, run[0]) && Run(k, Step(k, s, run[0]), run[1..])
  }

  function After(k: Limits, s: State, run: seq<Action>): State
    requires Run(k, s, run)
    decreases |run|
  {
    if run == [] then s else After(k, Step(k, s, run[0]), run[1..])
  }

  lemma {:induction false} RunInv(k: Limits, s: State, run: seq<Action>)
    requires Inv(k, s) && Run(k, s, run)
    ensures Inv(k, After(k, s, run))
    decreases |run|
  {
    if run != [] {
      StepInv(k, s, run[0]);
      RunInv(k, Step(k, s, run[0]), run[1..]);
    }
  }

  /** The errors that should not happen: enqueuing a message without room for it, dequeuing one where there is
      none, and reading anything but a signal from the pipe. */
  ghost predicate Wrong(k: Limits, s: State, a: Action) {
    || (a.Enqueue? && |s.queue| >= k.capacity)
    || (a.Pop? && s.queue == [])
    || (a.Read? && !("GO" <= s.pipe))
  }

  lemma {:induction false} NoErrors(k: Limits, s: State, a: Action)
    requires Inv(k, s) && Enabled(k, s, a)
    ensures !Wrong(k, s, a)
  {
    StepSignals(k, s, a);
    if a.Enqueue? {
      CountUpdate(s.threads, a.t, Idle, HasPermit);
    }
  }

  /** Safety of every interleaving: the messages dequeued are a prefix of those enqueued, in order,
      and the rest is in the queue; at most `capacity` messages are queued; the pipe never holds more
      than `2 * capacity` bytes, nor more than its size, and only whole signals; and none of the errors that
      should not happen does. */
  lemma {:induction false} Safety(k: Limits, s: State, run: seq<Action>)
    requires Initial(k, s) && Run(k, s, run)
    ensures var s' := After(k, s, run);
      && s'.pushed == s'.popped + s'.queue
      && |s'.queue| <= k.capacity
      && |s'.pipe| <= 2 * k.capacity && |s'.pipe| <= k.pipeSize
      && forall a :: Enabled(k, s', a) ==> !Wrong(k, s', a)
  {
    InitialInv(k, s);
    RunInv(k, s, run);
    var s' := After(k, s, run);
    forall a | Enabled(k, s', a)
      ensures !Wrong(k, s', a)
    {
      NoErrors(k, s', a);
    }
  }

  /** At most one thread is inside the mutex. */
  lemma {:induction false} MutualExclusion(k: Limits, s: State, run: seq<Action>, t: nat, u: nat)
    requires Initial(k, s) && Run(k, s, run)
    requires t < |After(k, s, run).threads| && u < |After(k, s, run).threads|
    requires InMutex(After(k, s, run).threads[t]) && InMutex(After(k, s, run).threads[u])
    ensures t == u
  {
    InitialInv(k, s);
    RunInv(k, s, run);
  }

  // ----- Progress -----

  /** The steps that complete what is under way: all but starting a push, taking a permit, and
      failing to signal. */
  predicate Helpful(a: Action) {
    !a.Call? && !a.Wait? && !a.SignalFails?
  }

  function Rank(pc: Pc): nat {
    match pc
    case Granted(_) => 9
    case Pushing(_) => 8
    case Pushed => 7
    case Popping => 5
    case Holding => 4
    case Popped(_) => 3
    case _ => 0
  }

  function Ranks(threads: seq<Pc>): nat {
    if threads == [] then 0 else Rank(threads[0]) + Ranks(threads[1..])
  }

  lemma {:induction false} RanksUpdate(threads: seq<Pc>, t: nat, pc: Pc)
    requires t < |threads|
    ensures Ranks(threads[t := pc]) + Rank(threads[t]) == Ranks(threads) + Rank(pc)
  {
    if t == 0 {
      assert threads[t := pc][1..] == threads[1..];
    } else {
      assert threads[t := pc][1..] == threads[1..][t - 1 := pc];
      RanksUpdate(threads[1..], t - 1, pc);
    }
  }

  /** How many helpful steps there can be. */
  function Work(s: State): nat {
    Ranks(s.threads) + 3 * |s.pipe|
  }

  lemma {:induction false} HelpfulWorks(k: Limits, s: State, a: Action)
    requires Inv(k, s) && Enabled(k, s, a) && Helpful(a)
    ensures Work(Step(k, s, a)) < Work(s)
  {
    var s' := Step(k, s, a);
    RanksUpdate(s.threads, a.t, s'.threads[a.t]);
    StepInv(k, s, a);
  }

  predicate HasConsumer(s: State) {
    exists t :: 0 <= t < |s.threads| && Consumer(s.threads[t])
  }

  predicate Consumer(pc: Pc) {
    pc.Listening? || pc.Popping? || pc.Holding? || pc.Popped?
  }

  /** While no permit is free and fewer signals were lost than the queue holds messages, some helpful
      step is enabled: a blocked producer is never stuck. */
  lemma {:induction false} SomeStep(k: Limits, s: State) returns (a: Action)
    requires Inv(k, s) && s.count == 0 && s.lost < k.capacity && HasConsumer(s)
    requires 2 * k.capacity <= k.pipeSize
    ensures Enabled(k, s, a) && Helpful(a)
  {
    if s.lock.Some? {
      var t := s.lock.value;
      match s.threads[t] {
        case Pushing(_) => a := Enqueue(t);
        case Pushed =>
          CountUpdate(s.threads, t, Idle, OwesSignal);
          a := Signal(t);
        case Holding => a := Pop(t);
      }
    } else if Count(s.threads, HasPermit) > 0 {
      CountSome(s.threads, HasPermit);
      var t :| 0 <= t < |s.threads| && Belongs(s.threads[t], HasPermit);
      a := LockPush(t);
    } else if Count(s.threads, OwesPermit) > 0 {
      CountSome(s.threads, OwesPermit);
      var t :| 0 <= t < |s.threads| && Belongs(s.threads[t], OwesPermit);
      a := Notify(t);
    } else if Count(s.threads, HasSignal) > 0 {
      CountSome(s.threads, HasSignal);
      var t :| 0 <= t < |s.threads| && Belongs(s.threads[t], HasSignal);
      a := LockPop(t);
    } else {
      if Count(s.threads, OwesSignal) > 0 {
        CountSome(s.threads, OwesSignal);
      }
      var t :| 0 <= t < |s.threads| && Consumer(s.threads[t]);
      CountUpdate(s.threads, t, Idle, HasSignal);
      CountUpdate(s.threads, t, Idle, OwesPermit);
      a := Read(t);
    }
  }

  lemma {:induction false} ConsumerStays(k: Limits, s: State, a: Action)
    requires Enabled(k, s, a) && HasConsumer(s)
    ensures HasConsumer(Step(k, s, a))
  {
    var t :| 0 <= t < |s.threads| && Consumer(s.threads[t]);
    assert Consumer(Step(k, s, a).threads[t]);
  }

  predicate AllHelpful(run: seq<Action>) {
    forall i :: 0 <= i < |run| ==> Helpful(run[i])
  }

  /** From every state in which the producers are blocked, helpful steps alone lead to one in which a
      permit is free, in at most `Work` steps. */
  lemma {:induction false} NotifyComes(k: Limits, s: State) returns (run: seq<Action>)
    requires Inv(k, s) && s.lost < k.capacity && HasConsumer(s)
    requires 2 * k.capacity <= k.pipeSize
    ensures AllHelpful(run) && |run| <= Work(s) && Run(k, s, run) && After(k, s, run).count > 0
    decreases Work(s)
  {
    if s.count > 0 {
      run := [];
    } else {
      var a := SomeStep(k, s);
      var s' := Step(k, s, a);
      StepInv(k, s, a);
      HelpfulWorks(k, s, a);
      ConsumerStays(k, s, a);
      var rest := NotifyComes(k, s');
      run := [a] + rest;
      assert run[1..] == rest;
    }
  }

  /** And whatever helpful steps are taken instead, they cannot go on for more than `Work` steps, and
      when none is left a permit is free. */
  lemma {:induction false} HelpfulRunsEnd(k: Limits, s: State, run: seq<Action>)
    requires Inv(k, s) && s.lost < k.capacity && HasConsumer(s)
    requires 2 * k.capacity <= k.pipeSize
    requires AllHelpful(run) && Run(k, s, run)
    ensures |run| <= Work(s)
    ensures (forall a :: Helpful(a) ==> !Enabled(k, After(k, s, run), a)) ==> After(k, s, run).count > 0
    decreases |run|
  {
    if run == [] {
      if s.count == 0 {
        var a := SomeStep(k, s);
      }
    } else {
      var s' := Step(k, s, run[0]);
      StepInv(k, s, run[0]);
      HelpfulWorks(k, s, run[0]);
      ConsumerStays(k, s, run[0]);
      HelpfulRunsEnd(k, s', run[1..]);
    }
  }

  // ----- Signals lost -----

  /** When as many signals were lost as the queue has places no thread ever moves on, but to ask for a
      permit: the queue stays full, no permit comes, and a producer that waits for one waits for good. */
  lemma {:induction false} AllLostBlocks(k: Limits, s: State, run: seq<Action>)
    requires Inv(k, s) && s.lost == k.capacity && Run(k, s, run)
    ensures var s' := After(k, s, run);
      && s'.count == 0 && s'.lost == k.capacity && s'.queue == s.queue && s'.pipe == ""
      && |s'.threads| == |s.threads|
      && forall t :: 0 <= t < |s.threads| && s.threads[t].Waiting? ==> s'.threads[t] == s.threads[t]
    decreases |run|
  {
    if run != [] {
      AllLostCalls(k, s, run[0]);
      StepInv(k, s, run[0]);
      AllLostBlocks(k, Step(k, s, run[0]), run[1..]);
    }
  }

  lemma {:induction false} AllLostCalls(k: Limits, s: State, a: Action)
    requires Inv(k, s) && s.lost == k.capacity && Enabled(k, s, a)
    ensures a.Call?
  {
    CountUpdate(s.threads, a.t, Idle, HasPermit);
    CountUpdate(s.threads, a.t, Idle, OwesPermit);
    CountUpdate(s.threads, a.t, Idle, HasSignal);
    CountUpdate(s.threads, a.t, Idle, OwesSignal);
  }

  ghost predicate PermitComes(k: Limits, s: State) {
    exists run :: Run(k, s, run) && After(k, s, run).count > 0
  }

  /** A permit can still come free exactly when fewer signals were lost than the queue has places. */
  lemma {:induction false} PermitComesIff(k: Limits, s: State)
    requires Inv(k, s) && HasConsumer(s) && 2 * k.capacity <= k.pipeSize
    ensures PermitComes(k, s) <==> s.lost < k.capacity
  {
    if s.lost < k.capacity {
      var run := NotifyComes(k, s);
    } else {
      forall run | Run(k, s, run)
        ensures After(k, s, run).count == 0
      {
        AllLostBlocks(k, s, run);
      }
    }
  }

  lemma {:induction false} RunFirst(k: Limits, s: State, a: Action, run: seq<Action>)
    requires Enabled(k, s, a) && Run(k, Step(k, s, a), run)
    ensures Run(k, s, [a] + run) && After(k, s, [a] + run) == After(k, Step(k, s, a), run)
  {
    assert ([a] + run)[1..] == run;
  }

  lemma {:induction false} RunConcat(k: Limits, s: State, run: seq<Action>, more: seq<Action>)
    requires Run(k, s, run) && Run(k, After(k, s, run), more)
    ensures Run(k, s, run + more) && After(k, s, run + more) == After(k, After(k, s, run), more)
    decreases |run|
  {
    if run == [] {
      assert run + more == more;
    } else {
      RunConcat(k, Step(k, s, run[0]), run[1..], more);
      assert (run + more)[1..] == run[1..] + more;
    }
  }

  /** One producer and one consumer, with as many signals lost as messages are in the queue. */
  function Pair(k: Limits, producer: Pc, lock: Option<nat>, queue: seq<Message>, taken: nat, lost: nat): State
    requires taken <= k.capacity
  {
    State([producer, Listening], k.capacity - taken, lock, queue, "", queue, [], lost)
  }

  /** A push of which the signal is not written. */
  function FailedPush(msg: Message): seq<Action> {
    [Call(0, msg), Wait(0), LockPush(0), Enqueue(0), SignalFails(0)]
  }

  function FailedPushes(msgs: seq<Message>): seq<Action> {
    if msgs == [] then [] else FailedPush(msgs[0]) + FailedPushes(msgs[1..])
  }

  lemma {:induction false} PushFails(k: Limits, queue: seq<Message>, msg: Message)
    requires |queue| < k.capacity
    ensures var s := Pair(k, Idle, None, queue, |queue|, |queue|);
      && Run(k, s, FailedPush(msg))
      && After(k, s, FailedPush(msg)) == Pair(k, Idle, None, queue + [msg], |queue| + 1, |queue| + 1)
  {
    var n := |queue|;
    var s0 := Pair(k, Idle, None, queue, n, n);
    var s1 := Pair(k, Waiting(msg), None, queue, n, n);
    var s2 := Pair(k, Granted(msg), None, queue, n + 1, n);
    var s3 := Pair(k, Pushing(msg), Some(0), queue, n + 1, n);
    var s4 := Pair(k, Pushed, Some(0), queue + [msg], n + 1, n);
    var s5 := Pair(k, Idle, None, queue + [msg], n + 1, n + 1);
    assert Step(k, s4, SignalFails(0)) == s5;
    RunFirst(k, s4, SignalFails(0), []);
    assert Step(k, s3, Enqueue(0)) == s4;
    RunFirst(k, s3, Enqueue(0), [SignalFails(0)]);
    assert Step(k, s2, LockPush(0)) == s3;
    RunFirst(k, s2, LockPush(0), [Enqueue(0), SignalFails(0)]);
    assert Step(k, s1, Wait(0)) == s2;
    RunFirst(k, s1, Wait(0), [LockPush(0), Enqueue(0), SignalFails(0)]);
    assert Step(k, s0, Call(0, msg)) == s1;
    RunFirst(k, s0, Call(0, msg), [Wait(0), LockPush(0), Enqueue(0), SignalFails(0)]);
  }

  lemma {:induction false} PushesFail(k: Limits, queue: seq<Message>, msgs: seq<Message>)
    requires |queue| + |msgs| <= k.capacity
    ensures var s := Pair(k, Idle, None, queue, |queue|, |queue|);
      var n := |queue + msgs|;
      && Run(k, s, FailedPushes(msgs))
      && After(k, s, FailedPushes(msgs)) == Pair(k, Idle, None, queue + msgs, n, n)
    decreases |msgs|
  {
    if msgs == [] {
      assert queue + msgs == queue;
    } else {
      PushFails(k, queue, msgs[0]);
      PushesFail(k, queue + [msgs[0]], msgs[1..]);
      assert (queue + [msgs[0]]) + msgs[1..] == queue + msgs;
      RunConcat(k, Pair(k, Idle, None, queue, |queue|, |queue|), FailedPush(msgs[0]), FailedPushes(msgs[1..]));
    }
  }

  /** Failures add up, whatever the capacity: from the start, each push of which the signal is not
      written leaves its message behind and costs one permit for good. */
  lemma {:induction false} LostSignals(k: Limits, msgs: seq<Message>)
    requires |msgs| <= k.capacity && 2 * k.capacity <= k.pipeSize
    ensures var s0 := Pair(k, Idle, None, [], 0, 0);
      var s := Pair(k, Idle, None, msgs, |msgs|, |msgs|);
      && Initial(k, s0) && Run(k, s0, FailedPushes(msgs)) && After(k, s0, FailedPushes(msgs)) == s
      && (PermitComes(k, s) <==> |msgs| < k.capacity)
  {
    var s0 := Pair(k, Idle, None, [], 0, 0);
    PushesFail(k, [], msgs);
    assert [] + msgs == msgs;
    InitialInv(k, s0);
    RunInv(k, s0, FailedPushes(msgs));
    var s := Pair(k, Idle, None, msgs, |msgs|, |msgs|);
    assert Consumer(s.threads[1]);
    PermitComesIff(k, s);
  }

  /** The capacity of every FIFO the sources make. */
  const DEFAULT_FIFO_SIZE: nat := 3

  /** Such a FIFO survives two lost signals. After the third the next push waits for good, whatever
      either thread does, with a full queue and the consumer listening to an empty pipe. */
  lemma {:induction false} ThirdLostSignalBlocks(a: Message, b: Message, c: Message, d: Message, run: seq<Action>)
    requires var k := Limits(DEFAULT_FIFO_SIZE, 65536);
      Run(k, Pair(k, Waiting(d), None, [a, b, c], 3, 3), run)
    ensures var k := Limits(DEFAULT_FIFO_SIZE, 65536);
      var s0 := Pair(k, Idle, None, [], 0, 0);
      var s := Pair(k, Waiting(d), None, [a, b, c], 3, 3);
      var pushes := FailedPushes([a, b, c]) + [Call(0, d)];
      && PermitComes(k, Pair(k, Idle, None, [a, b], 2, 2))
      && Run(k, s0, pushes) && After(k, s0, pushes) == s
      && After(k, s, run).threads[0] == Waiting(d) && After(k, s, run).queue == [a, b, c]
  {
    var k := Limits(DEFAULT_FIFO_SIZE, 65536);
    var s0 := Pair(k, Idle, None, [], 0, 0);
    var full := Pair(k, Idle, None, [a, b, c], 3, 3);
    var s := Pair(k, Waiting(d), None, [a, b, c], 3, 3);
    LostSignals(k, [a, b]);
    LostSignals(k, [a, b, c]);
    assert Step(k, full, Call(0, d)) == s;
    RunFirst(k, full, Call(0, d), []);
    assert [Call(0, d)] + [] == [Call(0, d)];
    RunConcat(k, s0, FailedPushes([a, b, c]), [Call(0, d)]);
    InitialInv(k, s0);
    RunInv(k, s0, FailedPushes([a, b, c]) + [Call(0, d)]);
    AllLostBlocks(k, s, run);
  }

  // ----- The operations, run without interruption -----

  /** The semaphore of the FIFO. `wait` blocks while the count is zero. */
  class RtSemaphore {
    var count: nat

    constructor (initial: nat)
      ensures count == initial
    {
      count := initial;
    }

    method WaitPermit()
      requires count != 0
      modifies this
      ensures count == old(count) - 1
    {
      count := count - 1;
    }

    method NotifyPermit()
      modifies this
      ensures count == old(count) + 1
    {
      count := count + 1;
    }
  }

  /** The FIFO object. Each method is specified as the run of steps that one thread takes. */
  class Fifo {
    var fifo: seq<Message>
    var pipe: string
    const maxSize: nat
    const sizeSem: RtSemaphore

    constructor (maxSize: nat)
      ensures fifo == [] && pipe == "" && this.maxSize == maxSize && fresh(sizeSem) && sizeSem.count == maxSize
    {
      fifo := [];
      pipe := "";
      this.maxSize := maxSize;
      sizeSem := new RtSemaphore(maxSize);
    }

    /** The state of the machine in which one thread is at `pc` and no other takes part. */
    function Alone(pc: Pc): State
      reads this, sizeSem
    {
      State([pc], sizeSem.count, None, fifo, pipe, fifo, [], 0)
    }

    predicate Shows(s: State)
      reads this, sizeSem
    {
      s.queue == fifo && s.pipe == pipe && s.count == sizeSem.count && s.lock.None?
    }

    /** `push`, once a permit is free; `written` is whether selecting and writing the pipe works. */
    method Push(msg: Message, pipeSize: nat, written: bool) returns (ok: bool)
      requires sizeSem.count != 0 && (written ==> |pipe| + |MAGIC_WORD| <= pipeSize)
      modifies this, sizeSem
      ensures ok == written
      ensures fifo == old(fifo) + [msg] && sizeSem.count == old(sizeSem.count) - 1
      ensures pipe == if written then old(pipe) + "GO" else old(pipe)
      ensures var k := Limits(maxSize, pipeSize);
        var run := [Wait(0), LockPush(0), Enqueue(0), if ok then Signal(0) else SignalFails(0)];
        Run(k, old(Alone(Waiting(msg))), run) && Shows(After(k, old(Alone(Waiting(msg))), run))
    {
      PushRun(Limits(maxSize, pipeSize), Alone(Waiting(msg)), msg, written);
      sizeSem.WaitPermit();
      fifo := fifo + [msg];
      if !written {
        return false;
      }
      pipe := pipe + MAGIC_WORD;
      return true;
    }

    /** `pop`, from the point at which the signal has been read. */
    method PopMessage(pipeSize: nat) returns (elem: Option<Message>)
      modifies this, sizeSem
      ensures elem == if old(fifo) == [] then None else Some(old(fifo)[0])
      ensures old(fifo) == if elem.None? then fifo else [elem.value] + fifo
      ensures sizeSem.count == old(sizeSem.count) + if elem.None? then 0 else 1
      ensures pipe == old(pipe)
      ensures var k := Limits(maxSize, pipeSize);
        var run := if elem.Some? then [LockPop(0), Pop(0), Notify(0)] else [LockPop(0), Pop(0)];
        Run(k, old(Alone(Popping)), run) && Shows(After(k, old(Alone(Popping)), run))
    {
      PopRun(Limits(maxSize, pipeSize), Alone(Popping));
      if fifo == [] {
        return None;
      }
      elem := Some(fifo[0]);
      fifo := fifo[1..];
      sizeSem.NotifyPermit();
    }

    /** `MessageEvent::handle`, when the pipe has something to read: a signal is taken and a message
        popped; other words are taken too, and the call fails. */
    method Handle(pipeSize: nat) returns (ok: bool, message: Option<Message>)
      requires pipe != ""
      modifies this, sizeSem
      ensures ok <==> "GO" <= old(pipe) && old(fifo) != []
      ensures pipe == old(pipe)[if |old(pipe)| < |MAGIC_WORD| then |old(pipe)| else |MAGIC_WORD|..]
      ensures message == if ok then Some(old(fifo)[0]) else None
      ensures fifo == if ok then old(fifo)[1..] else old(fifo)
      ensures sizeSem.count == old(sizeSem.count) + if ok then 1 else 0
      ensures var k := Limits(maxSize, pipeSize);
        var run := if !(MAGIC_WORD <= old(pipe)) then [Read(0)]
                   else if ok then [Read(0), LockPop(0), Pop(0), Notify(0)] else [Read(0), LockPop(0), Pop(0)];
        Run(k, old(Alone(Listening)), run) && Shows(After(k, old(Alone(Listening)), run))
    {
      var k := Limits(maxSize, pipeSize);
      ghost var s := Alone(Listening);
      var n := if |pipe| < |MAGIC_WORD| then |pipe| else |MAGIC_WORD|;
      var word := pipe[..n];
      pipe := pipe[n..];
      if word != MAGIC_WORD {
        RunFirst(k, s, Read(0), []);
        assert [Read(0)] + [] == [Read(0)];
        return false, None;
      }
      ghost var popping := Alone(Popping);
      assert Step(k, s, Read(0)) == popping;
      PopRun(k, popping);
      message := PopMessage(pipeSize);
      ok := message.Some?;
      ghost var rest := if ok then [LockPop(0), Pop(0), Notify(0)] else [LockPop(0), Pop(0)];
      RunFirst(k, s, Read(0), rest);
    }
  }

  lemma {:induction false} PushRun(k: Limits, s: State, msg: Message, written: bool)
    requires s.threads == [Waiting(msg)] && s.count != 0 && s.lock.None?
    requires written ==> |s.pipe| + |MAGIC_WORD| <= k.pipeSize
    ensures var run := [Wait(0), LockPush(0), Enqueue(0), if written then Signal(0) else SignalFails(0)];
      && Run(k, s, run)
      && var s' := After(k, s, run);
         && s'.queue == s.queue + [msg] && s'.count == s.count - 1 && s'.lock.None?
         && s'.pipe == if written then s.pipe + MAGIC_WORD else s.pipe
  {
    var last := if written then Signal(0) else SignalFails(0);
    var s1 := Step(k, s, Wait(0));
    var s2 := Step(k, s1, LockPush(0));
    var s3 := Step(k, s2, Enqueue(0));
    RunFirst(k, s3, last, []);
    RunFirst(k, s2, Enqueue(0), [last]);
    RunFirst(k, s1, LockPush(0), [Enqueue(0), last]);
    RunFirst(k, s, Wait(0), [LockPush(0), Enqueue(0), last]);
  }

  lemma {:induction false} PopRun(k: Limits, s: State)
    requires s.threads == [Popping] && s.lock.None?
    ensures var run := if s.queue != [] then [LockPop(0), Pop(0), Notify(0)] else [LockPop(0), Pop(0)];
      && Run(k, s, run)
      && var s' := After(k, s, run);
         && s'.queue == (if s.queue != [] then s.queue[1..] else [])
         && s'.count == (if s.queue != [] then s.count + 1 else s.count)
         && s'.lock.None? && s'.pipe == s.pipe
  {
    var s1 := Step(k, s, LockPop(0));
    var s2 := Step(k, s1, Pop(0));
    if s.queue != [] {
      RunFirst(k, s2, Notify(0), []);
      RunFirst(k, s1, Pop(0), [Notify(0)]);
      RunFirst(k, s, LockPop(0), [Pop(0), Notify(0)]);
    } else {
      RunFirst(k, s1, Pop(0), []);
      RunFirst(k, s, LockPop(0), [Pop(0)]);
    }
  }
}
