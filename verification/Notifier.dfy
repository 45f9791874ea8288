/** The wake-up byte of the event stream: an atomic flag, a pipe and a queue shared by any number of emitting
    and receiving threads. */
module Notifier {
  import opened Clocks

  type Event = nat
  type Thread = nat

  /** Where a thread stands between two atomic operations. */
  datatype Pc =
    | Outside                // an emitter between calls
    | Signaling              // about to swap the flag on
    | Writing(after: Pc)     // found the flag off: owes the pipe one byte
    | Drained                // a receiver whose last `try_recv` said there is nothing (or that has not begun)
    | Holding                // a receiver whose last call returned an event
    | Receiving              // at the top of the `try_recv` loop
    | FoundEmpty             // saw an empty queue, about to swap the flag off
    | Taken                  // took an event, about to look whether more are queued
    | Clearing               // saw none left, about to swap the flag off
    | Checking               // saw more, about to load the flag
    | Rearming               // loaded the flag off, about to swap it on
    | Reading(after: Pc)     // swapped the flag off: will take one byte from the pipe, waiting for it

  datatype System = System(
    threads: map<Thread, Pc>,
    signaled: bool,
    unread: nat,
    queue: seq<Event>)

  datatype Step =
    | Send(t: Thread, e: Event)
    | SwapOn(t: Thread)
    | Write(t: Thread)
    | TryRecv(t: Thread)
    | Take(t: Thread)
    | SeeEmpty(t: Thread)
    | LookAfterTake(t: Thread)
    | SwapOff(t: Thread)
    | Load(t: Thread)
    | Read(t: Thread)

  ghost predicate Init(s: System) {
    && (forall t | t in s.threads :: s.threads[t].Outside? || s.threads[t].Drained?)
    && !s.signaled && s.unread == 0 && s.queue == []
  }

  function Go(s: System, t: Thread, pc: Pc): System {
    s.(threads := s.threads[t := pc])
  }

  function Home(pc: Pc): Pc {
    if pc.Signaling? then Outside else Holding
  }

  ghost predicate Next(s: System, step: Step, s': System) {
    var t := step.t;
    t in s.threads &&
    var pc := s.threads[t];
    match step
    case Send(_, e) =>
      pc.Outside? && s' == Go(s, t, Signaling).(queue := s.queue + [e])
    case SwapOn(_) =>
      (pc.Signaling? || pc.Rearming?)
      && s' == Go(s, t, if s.signaled then Home(pc) else Writing(Home(pc))).(signaled := true)
    case Write(_) =>
      pc.Writing? && s' == Go(s, t, pc.after).(unread := s.unread + 1)
    case TryRecv(_) =>
      (pc.Drained? || pc.Holding?) && s' == Go(s, t, Receiving)
    case Take(_) =>
      // `try_recv`, or a blocking receive whose wait is over
      (pc.Receiving? || pc.Drained? || pc.Holding?) && s.queue != []
      && s' == Go(s, t, Taken).(queue := s.queue[1..])
    case SeeEmpty(_) =>
      pc.Receiving? && s.queue == [] && s' == Go(s, t, FoundEmpty)
    case LookAfterTake(_) =>
      pc.Taken? && s' == Go(s, t, if s.queue == [] then Clearing else Checking)
    case SwapOff(_) =>
      (pc.Clearing? || pc.FoundEmpty?)
      && s' == Go(s, t, if !s.signaled then (if pc.Clearing? then Holding else Drained)
                        else Reading(if pc.Clearing? then Holding else Receiving)).(signaled := false)
    case Load(_) =>
      pc.Checking? && s' == Go(s, t, if s.signaled then Holding else Rearming)
    case Read(_) =>
      pc.Reading? && s.unread > 0 && s' == Go(s, t, pc.after).(unread := s.unread - 1)
  }

  ghost predicate Run(states: seq<System>, steps: seq<Step>) {
    && |states| == |steps| + 1 && Init(states[0])
    && forall i | 0 <= i < |steps| :: Next(states[i], steps[i], states[i + 1])
  }

  ghost predicate Reachable(s: System) {
    exists states, steps :: Run(states, steps) && s == states[|states| - 1]
  }

  // ----- Accounting for the byte

  ghost function Writers(threads: map<Thread, Pc>): set<Thread> {
    set t | t in threads && threads[t].Writing?
  }

  ghost function Readers(threads: map<Thread, Pc>): set<Thread> {
    set t | t in threads && threads[t].Reading?
  }

  /** Bytes in the pipe, plus bytes owed to it, less bytes about to be taken: one while the flag is on, else none. */
  ghost predicate Accounted(s: System) {
    s.unread + |Writers(s.threads)| == |Readers(s.threads)| + if s.signaled then 1 else 0
  }

  ghost predicate Shaped(s: System) {
    forall t | t in s.threads ::
      match s.threads[t]
      case Writing(after) => after.Outside? || after.Holding?
      case Reading(after) => after.Holding? || after.Receiving?
      case _ => true
  }

  /** A thread that will still look at the queue, or swap the flag on, before it comes to rest. */
  predicate Attends(pc: Pc) {
    !(pc.Outside? || pc.Drained? || pc.FoundEmpty? || pc.Writing?) || (pc.Writing? && pc.after.Holding?)
  }

  ghost predicate Attended(s: System) {
    s.queue != [] ==> s.signaled || exists t :: t in s.threads && Attends(s.threads[t])
  }

  predicate Emitter(pc: Pc) {
    pc.Outside? || pc.Signaling? || (pc.Writing? && pc.after.Outside?)
  }

  /** Queued events come from somewhere. */
  ghost predicate Sourced(s: System) {
    s.queue != [] ==> exists t :: t in s.threads && Emitter(s.threads[t])
  }

  ghost predicate Inv(s: System) {
    Accounted(s) && Shaped(s) && Attended(s) && Sourced(s)
  }

  lemma WriterMove(m: map<Thread, Pc>, t: Thread, pc: Pc)
    requires t in m
    ensures |Writers(m[t := pc])| ==
            |Writers(m)| + (if pc.Writing? then 1 else 0) - (if m[t].Writing? then 1 else 0)
  {
    var others := Writers(m) - {t};
    assert Writers(m[t := pc]) == if pc.Writing? then others + {t} else others;
    assert Writers(m) == if m[t].Writing? then others + {t} else others;
  }

  lemma ReaderMove(m: map<Thread, Pc>, t: Thread, pc: Pc)
    requires t in m
    ensures |Readers(m[t := pc])| ==
            |Readers(m)| + (if pc.Reading? then 1 else 0) - (if m[t].Reading? then 1 else 0)
  {
    var others := Readers(m) - {t};
    assert Readers(m[t := pc]) == if pc.Reading? then others + {t} else others;
    assert Readers(m) == if m[t].Reading? then others + {t} else others;
  }

  lemma AccountedKeeps(s: System, step: Step, s': System)
    requires Accounted(s) && Shaped(s) && Next(s, step, s')
    ensures Accounted(s') && Shaped(s')
  {
    WriterMove(s.threads, step.t, s'.threads[step.t]);
    ReaderMove(s.threads, step.t, s'.threads[step.t]);
    hide Writers, Readers;
  }

  lemma AttendedKeeps(s: System, step: Step, s': System)
    requires Attended(s) && Shaped(s) && Next(s, step, s')
    ensures Attended(s')
  {
    var t := step.t;
    if s'.queue != [] && !s'.signaled {
      if Attends(s'.threads[t]) {
      } else {
        var u :| u in s.threads && Attends(s.threads[u]);
        assert u != t && s'.threads[u] == s.threads[u];
      }
    }
  }

  lemma NextKeeps(s: System, step: Step, s': System)
    requires Inv(s) && Next(s, step, s')
    ensures Inv(s')
  {
    hide Next, Accounted, Attended, Sourced;
    AccountedKeeps(s, step, s');
    AttendedKeeps(s, step, s');
    SourcedKeeps(s, step, s');
  }

  lemma SourcedKeeps(s: System, step: Step, s': System)
    requires Sourced(s) && Shaped(s) && Next(s, step, s')
    ensures Sourced(s')
  {
    var t := step.t;
    assert Emitter(s'.threads[t]) <==> Emitter(s.threads[t]);
    if s'.queue != [] && !Emitter(s'.threads[t]) {
      var u :| u in s.threads && Emitter(s.threads[u]);
      assert u != t && s'.threads[u] == s.threads[u];
    }
  }

  lemma InitInv(s: System)
    requires Init(s)
    ensures Inv(s)
  {
    assert Writers(s.threads) == {} && Readers(s.threads) == {};
  }

  lemma {:induction false} RunInv(states: seq<System>, steps: seq<Step>, i: nat)
    requires Run(states, steps) && i < |states|
    ensures Inv(states[i])
  {
    hide Inv, Next, Init;
    if i == 0 {
      InitInv(states[0]);
    } else {
      RunInv(states, steps, i - 1);
      NextKeeps(states[i - 1], steps[i - 1], states[i]);
    }
  }

  lemma ReachableInv(s: System)
    requires Reachable(s)
    ensures Inv(s)
  {
    hide Inv, Next, Init;
    var states, steps :| Run(states, steps) && s == states[|states| - 1];
    RunInv(states, steps, |states| - 1);
  }

  // ----- What receivers may rely on

  /** The byte is accounted for at every point of every interleaving. */
  lemma TokensAccounted(s: System)
    requires Reachable(s)
    ensures s.unread + |Writers(s.threads)| - |Readers(s.threads)| == if s.signaled then 1 else 0
  {
    hide Reachable;
    ReachableInv(s);
  }

  /** A receiver never waits on the pipe for a byte that nobody owes. */
  lemma NoReaderStuck(s: System, t: Thread)
    requires Reachable(s) && t in s.threads && s.threads[t].Reading? && s.unread == 0
    ensures exists w ::
              w in s.threads && s.threads[w].Writing? && Next(s, Write(w), Go(s, w, s.threads[w].after).(unread := 1))
  {
    hide Reachable;
    ReachableInv(s);
    assert t in Readers(s.threads);
    assert Writers(s.threads) != {};
    var w :| w in Writers(s.threads);
    assert Next(s, Write(w), Go(s, w, s.threads[w].after).(unread := 1));
  }

  /** Every receiver has drained until `None`. */
  predicate AllDrained(s: System) {
    forall t | t in s.threads :: s.threads[t].Outside? || s.threads[t].Signaling? || s.threads[t].Drained?
                                 || s.threads[t].FoundEmpty? || (s.threads[t].Writing? && s.threads[t].after.Outside?)
  }

  /** No lost wake-up: once every receiver has drained, queued events mean that the flag is on or that an emitter
      has yet to swap it on. */
  lemma NoLostWakeup(s: System)
    requires Reachable(s) && AllDrained(s) && s.queue != []
    ensures s.signaled || exists t :: t in s.threads && s.threads[t].Signaling?
  {
    hide Reachable, Accounted, Shaped;
    ReachableInv(s);
    if !s.signaled {
      var t :| t in s.threads && Attends(s.threads[t]);
      assert s.threads[t].Signaling?;
    }
  }

  predicate Quiet(s: System) {
    forall t | t in s.threads :: s.threads[t].Outside? || s.threads[t].Drained?
  }

  /** When all calls have returned and all receivers have drained, queued events show as exactly one unread byte. */
  lemma QuietMeansReadable(s: System)
    requires Reachable(s) && Quiet(s) && s.queue != []
    ensures s.unread == 1
  {
    hide Reachable;
    NoLostWakeup(s);
    TokensAccounted(s);
    assert Writers(s.threads) == {} && Readers(s.threads) == {};
  }

  // ----- Why draining matters, and exactly when

  predicate AtRest(pc: Pc) {
    pc.Outside? || pc.Drained? || pc.Holding?
  }

  predicate Resting(threads: map<Thread, Pc>) {
    forall t | t in threads :: AtRest(threads[t])
  }

  /** Every call has returned, an event is queued, and nothing is readable. */
  ghost predicate Stranded(s: System, threads: map<Thread, Pc>) {
    Reachable(s) && s.threads == threads && s.queue != [] && s.unread == 0
  }

  predicate Clean(s: System) {
    !s.signaled && s.unread == 0 && s.queue == []
  }

  lemma Extend(s: System, step: Step, s': System)
    requires Reachable(s) && Next(s, step, s')
    ensures Reachable(s')
  {
    hide Next, Init;
    var states, steps :| Run(states, steps) && s == states[|states| - 1];
    assert Run(states + [s'], steps + [step]);
    assert (states + [s'])[|states|] == s';
  }

  lemma StartsReachable(s: System)
    requires Init(s)
    ensures Reachable(s)
  {
    assert Run([s], []);
    assert [s][|[s]| - 1] == s;
  }

  /** `e` emits one event into an idle stream, and `r` takes it and sees that it was the last. */
  lemma Deliver(s: System, e: Thread, r: Thread) returns (s': System)
    requires Reachable(s) && Clean(s) && e in s.threads && r in s.threads
    requires s.threads[e].Outside? && (s.threads[r].Drained? || s.threads[r].Holding?)
    ensures Reachable(s') && s'.threads == s.threads[r := Clearing] && s'.signaled && s'.unread == 1 && s'.queue == []
  {
    var a := Go(s, e, Signaling).(queue := [0]);
    var b := Go(a, e, Writing(Outside)).(signaled := true);
    var c := Go(b, e, Outside).(unread := 1);
    assert Next(s, Send(e, 0), a) && Next(a, SwapOn(e), b) && Next(b, Write(e), c);
    assert c.threads == s.threads;
    var x := Go(c, r, Receiving);
    var y := Go(x, r, Taken).(queue := []);
    s' := Go(y, r, Clearing);
    assert Next(c, TryRecv(r), x) && Next(x, Take(r), y) && Next(y, LookAfterTake(r), s');
    hide Reachable, Next;
    Extend(s, Send(e, 0), a);
    Extend(a, SwapOn(e), b);
    Extend(b, Write(e), c);
    Extend(c, TryRecv(r), x);
    Extend(x, Take(r), y);
    Extend(y, LookAfterTake(r), s');
  }

  /** Left alone, the receiver then turns the flag off and takes the byte. */
  lemma Settle(s: System, r: Thread) returns (s': System)
    requires Reachable(s) && r in s.threads && s.threads[r].Clearing? && s.signaled && s.unread == 1
    ensures Reachable(s') && s'.threads == s.threads[r := Holding] && !s'.signaled && s'.unread == 0
      && s'.queue == s.queue
  {
    var a := Go(s, r, Reading(Holding)).(signaled := false);
    s' := Go(a, r, Holding).(unread := 0);
    assert Next(s, SwapOff(r), a) && Next(a, Read(r), s');
    hide Reachable, Next;
    Extend(s, SwapOff(r), a);
    Extend(a, Read(r), s');
  }

  /** But an event that lands between the look at the queue and the swap finds the flag still on, and nothing
      announces it any more. */
  lemma Strand(s: System, e: Thread, r: Thread) returns (s': System)
    requires Reachable(s) && Clean(s) && e in s.threads && r in s.threads
    requires s.threads[e].Outside? && s.threads[r].Holding?
    ensures Stranded(s', s.threads)
  {
    var d := Deliver(s, e, r);
    var a := Go(d, e, Signaling).(queue := [0]);
    var b := Go(a, e, Outside);
    assert Next(d, Send(e, 0), a) && Next(a, SwapOn(e), b);
    assert b.threads == d.threads;
    hide Reachable, Next;
    Extend(d, Send(e, 0), a);
    Extend(a, SwapOn(e), b);
    s' := Settle(b, r);
    assert s'.threads == s.threads;
  }

  /** Where everyone starts who is to end up as in `threads`, and where those in `served` have got to. */
  function Placed(threads: map<Thread, Pc>, served: set<Thread>): map<Thread, Pc> {
    map t | t in threads :: if threads[t].Outside? then Outside else if t in served then Holding else Drained
  }

  /** Any set of receivers can each have taken an event from a stream that is idle again. */
  lemma {:induction false} Serve(threads: map<Thread, Pc>, e: Thread, served: set<Thread>) returns (s: System)
    requires e in threads && threads[e].Outside?
    requires forall t | t in served :: t in threads && !threads[t].Outside?
    ensures Reachable(s) && Clean(s) && s.threads == Placed(threads, served)
    decreases |served|
  {
    if served == {} {
      s := System(Placed(threads, {}), false, 0, []);
      StartsReachable(s);
    } else {
      hide Reachable;
      var t :| t in served;
      var before := Serve(threads, e, served - {t});
      var d := Deliver(before, e, t);
      s := Settle(d, t);
      assert s.threads == Placed(threads, served);
    }
  }

  /** Whatever number of threads there is, and wherever they rest: an event can be queued with nothing readable if
      and only if somebody emits and somebody's last receive returned an event. Draining until `None` is exactly
      what rules it out. */
  lemma StrandedIffHolding(threads: map<Thread, Pc>)
    requires Resting(threads)
    ensures (exists s :: Stranded(s, threads)) <==>
            && (exists e :: e in threads && threads[e].Outside?)
            && (exists r :: r in threads && threads[r].Holding?)
  {
    hide Reachable;
    if s :| Stranded(s, threads) {
      ReachableInv(s);
      var e :| e in threads && Emitter(threads[e]);
      if forall r | r in threads :: !threads[r].Holding? {
        QuietMeansReadable(s);
      }
    }
    if e, r :| e in threads && threads[e].Outside? && r in threads && threads[r].Holding? {
      var s := Serve(threads, e, set t | t in threads && threads[t].Holding?);
      assert s.threads == threads;
      var s' := Strand(s, e, r);
    }
  }

  // ----- One thread at a time

  /** The stream as one thread sees it between its own calls: the pipe is readable exactly when events are queued. */
  class EventStream {
    var signaled: bool
    var unread: nat
    var queue: seq<Event>

    ghost predicate Balanced()
      reads this
    {
      unread == if signaled then 1 else 0
    }

    ghost predicate Valid()
      reads this
    {
      Balanced() && (signaled <==> queue != [])
    }

    constructor ()
      ensures Valid() && queue == []
    {
      signaled, unread, queue := false, 0, [];
    }

    method Signal()
      requires Balanced()
      modifies this`signaled, this`unread
      ensures Balanced() && signaled
    {
      var was := signaled;
      signaled := true;
      if !was {
        unread := unread + 1;
      }
    }

    method ConsumeSignal() returns (pending: bool)
      requires Balanced()
      modifies this`signaled, this`unread
      ensures Balanced() && !signaled && pending == old(signaled)
    {
      pending := signaled;
      signaled := false;
      if pending {
        unread := unread - 1;
      }
    }

    method AfterTake()
      requires Balanced()
      modifies this`signaled, this`unread
      ensures Valid()
    {
      if queue == [] {
        var pending := ConsumeSignal();
      } else if !signaled {
        Signal();
      }
    }

    method Emit(e: Event)
      requires Valid()
      modifies this
      ensures Valid() && queue == old(queue) + [e]
    {
      queue := queue + [e];
      Signal();
    }

    /** Also from a state where a wake byte is pending over an empty queue. */
    method TryRecv() returns (e: Option<Event>)
      requires Balanced()
      modifies this
      ensures Valid()
      ensures old(queue) == [] ==> e == None && queue == []
      ensures old(queue) != [] ==> e == Some(old(queue)[0]) && queue == old(queue)[1..]
    {
      while true
        invariant Balanced() && queue == old(queue)
        decreases signaled
      {
        if queue != [] {
          e := Some(queue[0]);
          queue := queue[1..];
          AfterTake();
          return;
        }
        var pending := ConsumeSignal();
        if !pending {
          return None;
        }
      }
    }
  }
}
