/**
 The one-slot mailbox between the encoder stream and a WebRTC track (`latestSampleWriter`):
 one producer, one consumer goroutine and `Close`, interleaved one channel operation at a
 time. A `select` with several ready cases may take any of them; the event says which.
 */
module Mailbox {
  import opened Options

  /** Where the producer is inside `WriteSample`. */
  datatype Producer<T> = Away | Checking(sample: T) | Trying(sample: T) | Draining(sample: T) | Sending(sample: T)

  /** Where the goroutine is: at its `select`, inside the output's write, or returned. */
  datatype Consumer<T> = Selecting | Writing(sample: T) | Returned

  datatype Fate = Pending | Taken | Dropped

  /** `accepted`, `fates`, `written` and `refused` record the run; the code has no such fields. */
  datatype State<T> = State(
    closed: bool, closeReturned: bool, slot: Option<T>, producer: Producer<T>, consumer: Consumer<T>,
    drops: nat, accepted: seq<T>, fates: seq<Fate>, taken: seq<T>, written: seq<T>, refused: nat)

  datatype Event<T> =
    | Call(sample: T)          // the producer enters WriteSample
    | CheckClosed              // first select
    | TrySend                  // second select
    | DrainOne                 // third select
    | FinalSend                // last select, `latest <- sample` chosen
    | FinalClosed              // last select, `<-closed` chosen
    | Take                     // the goroutine receives from `latest`
    | SeeClosed                // the goroutine receives from `closed`
    | Written                  // the output's write returns
    | Close                    // Close closes the channel
    | CloseReturn              // Close has seen `finished`

  function Initial<T>(): State<T> {
    State(false, false, None, Away, Selecting, 0, [], [], [], [], 0)
  }

  /** Which channel operations are ready. */
  predicate Enabled<T>(s: State<T>, e: Event<T>) {
    match e
    case Call(_) => s.producer.Away?
    case CheckClosed => s.producer.Checking?
    case TrySend => s.producer.Trying?
    case DrainOne => s.producer.Draining?
    case FinalSend => s.producer.Sending? && s.slot.None?
    case FinalClosed => s.producer.Sending? && s.closed
    case Take => s.consumer.Selecting? && s.slot.Some?
    case SeeClosed => s.consumer.Selecting? && s.closed
    case Written => s.consumer.Writing?
    case Close => !s.closed
    case CloseReturn => s.closed && s.consumer.Returned?
  }

  function Accept<T>(s: State<T>, sample: T): State<T> {
    s.(slot := Some(sample), producer := Away, accepted := s.accepted + [sample], fates := s.fates + [Pending])
  }

  /** The pending sample, always the newest accepted one, leaves the slot. */
  function Empty<T>(s: State<T>, fate: Fate): State<T> {
    s.(slot := None, fates := if s.fates == [] then [] else s.fates[..|s.fates| - 1] + [fate])
  }

  function Step<T>(s: State<T>, e: Event<T>): State<T> {
    match e
    case Call(sample) => s.(producer := Checking(sample))
    case CheckClosed =>
      if !s.producer.Checking? then s
      else if s.closed then s.(producer := Away, refused := s.refused + 1)
      else s.(producer := Trying(s.producer.sample))
    case TrySend =>
      if !s.producer.Trying? then s
      else if s.slot.None? then Accept(s, s.producer.sample)
      else s.(producer := Draining(s.producer.sample))
    case DrainOne =>
      if !s.producer.Draining? then s
      else if s.slot.Some? then Empty(s, Dropped).(producer := Sending(s.producer.sample), drops := s.drops + 1)
      else s.(producer := Sending(s.producer.sample))
    case FinalSend => if s.producer.Sending? then Accept(s, s.producer.sample) else s
    case FinalClosed => s.(producer := Away, refused := s.refused + 1)
    case Take =>
      if s.slot.None? then s
      else Empty(s, Taken).(consumer := Writing(s.slot.value), taken := s.taken + [s.slot.value])
    case SeeClosed => s.(consumer := Returned)
    case Written =>
      if s.consumer.Writing? then s.(consumer := Selecting, written := s.written + [s.consumer.sample]) else s
    case Close => s.(closed := true)
    case CloseReturn => s.(closeReturned := true)
  }

  predicate Runs<T>(s: State<T>, es: seq<Event<T>>)
    decreases |es|
  {
    es == [] || (Enabled(s, es[0]) && Runs(Step(s, es[0]), es[1..]))
  }

  function Run<T>(s: State<T>, es: seq<Event<T>>): State<T>
    decreases |es|
  {
    if es == [] then s else Run(Step(s, es[0]), es[1..])
  }

  // ---------------------------------------------------------------- what every step keeps

  /** The accepted samples with a given fate, in the order they were accepted. */
  function With<T>(accepted: seq<T>, fates: seq<Fate>, fate: Fate): seq<T>
    requires |accepted| == |fates|
  {
    if fates == [] then []
    else
      var n := |fates| - 1;
      With(accepted[..n], fates[..n], fate) + if fates[n] == fate then [accepted[n]] else []
  }

  function OfSlot<T>(slot: Option<T>): seq<T> { if slot.Some? then [slot.value] else [] }

  function InHand<T>(c: Consumer<T>): seq<T> { if c.Writing? then [c.sample] else [] }

  /**
   The samples taken are exactly those fated so, in acceptance order; likewise the drops; at
   most the newest accepted sample is pending, and it is the one in the slot. The slot is
   empty whenever the producer waits to send. What was taken is written in order.
   */
  ghost predicate Inv<T>(s: State<T>) {
    && |s.accepted| == |s.fates|
    && With(s.accepted, s.fates, Taken) == s.taken
    && |With(s.accepted, s.fates, Dropped)| == s.drops
    && With(s.accepted, s.fates, Pending) == OfSlot(s.slot)
    && (s.slot.Some? ==> s.accepted != [] && s.fates[|s.fates| - 1] == Pending)
    && (s.producer.Sending? ==> s.slot.None?)
    && s.written + InHand(s.consumer) == s.taken
    && (s.closeReturned ==> s.closed && s.consumer.Returned?)
    && (s.consumer.Returned? ==> s.closed)
    && (s.fates != [] && s.fates[|s.fates| - 1] == Dropped ==> s.producer.Sending? || s.closed)
  }

  lemma WithLast<T>(accepted: seq<T>, fates: seq<Fate>, x: T, last: Fate, fate: Fate)
    requires |accepted| == |fates|
    ensures With(accepted + [x], fates + [last], fate)
         == With(accepted, fates, fate) + if last == fate then [x] else []
  {
    assert (accepted + [x])[..|fates|] == accepted && (fates + [last])[..|fates|] == fates;
  }

  lemma AcceptKeeps<T>(s: State<T>, sample: T)
    requires Inv(s) && s.slot.None?
    ensures Inv(Accept(s, sample))
  {
    WithLast(s.accepted, s.fates, sample, Pending, Taken);
    WithLast(s.accepted, s.fates, sample, Pending, Dropped);
    WithLast(s.accepted, s.fates, sample, Pending, Pending);
  }

  /** Emptying the slot changes the fate of the newest accepted sample, which was in it. */
  lemma EmptyMoves<T>(s: State<T>, fate: Fate)
    requires Inv(s) && s.slot.Some? && fate != Pending
    ensures var r := Empty(s, fate);
            && s.slot.value == s.accepted[|s.accepted| - 1]
            && |r.fates| == |s.fates| && r.fates[|r.fates| - 1] == fate
            && With(s.accepted, r.fates, fate) == With(s.accepted, s.fates, fate) + [s.slot.value]
            && With(s.accepted, r.fates, Pending) == []
            && forall f :: f != fate && f != Pending ==> With(s.accepted, r.fates, f) == With(s.accepted, s.fates, f)
  {
    var n := |s.fates| - 1;
    var a, f, x := s.accepted[..n], s.fates[..n], s.accepted[n];
    assert s.accepted == a + [x] && s.fates == f + [Pending];
    assert With(s.accepted, s.fates, Pending) == [s.slot.value];
    hide Inv, With;
    LastFate(a, f, x, fate, s.slot.value);
  }

  lemma LastFate<T>(a: seq<T>, f: seq<Fate>, x: T, fate: Fate, pending: T)
    requires |a| == |f| && fate != Pending && With(a + [x], f + [Pending], Pending) == [pending]
    ensures x == pending
    ensures With(a + [x], f + [fate], fate) == With(a + [x], f + [Pending], fate) + [x]
    ensures With(a + [x], f + [fate], Pending) == []
    ensures forall g :: g != fate && g != Pending ==> With(a + [x], f + [fate], g) == With(a + [x], f + [Pending], g)
  {
    WithLast(a, f, x, Pending, Pending);
    hide With;
    assert |With(a, f, Pending) + [x]| == 1;
    assert (With(a, f, Pending) + [x])[0] == x;
    forall g: Fate, last: Fate
      ensures With(a + [x], f + [last], g) == With(a, f, g) + if last == g then [x] else []
    {
      WithLast(a, f, x, last, g);
    }
  }

  lemma StepKeepsInv<T>(s: State<T>, e: Event<T>)
    requires Inv(s) && Enabled(s, e)
    ensures Inv(Step(s, e))
  {
    hide With, Accept, Empty;
    match e
    case TrySend => if s.slot.None? { AcceptKeeps(s, s.producer.sample); }
    case FinalSend => AcceptKeeps(s, s.producer.sample);
    case DrainOne => if s.slot.Some? { DropKeeps(s); }
    case Take => TakeKeeps(s);
    case _ =>
  }

  lemma DropKeeps<T>(s: State<T>)
    requires Inv(s) && s.slot.Some? && s.producer.Draining?
    ensures Inv(Step(s, DrainOne))
  {
    EmptyMoves(s, Dropped);
    hide With;
  }

  lemma TakeKeeps<T>(s: State<T>)
    requires Inv(s) && Enabled(s, Take)
    ensures Inv(Step(s, Take))
  {
    EmptyMoves(s, Taken);
    hide With;
  }

  lemma {:induction false} RunKeepsInv<T>(s: State<T>, es: seq<Event<T>>)
    requires Inv(s) && Runs(s, es)
    ensures Inv(Run(s, es))
    decreases |es|
  {
    hide Inv, Enabled, Step;
    if es != [] {
      StepKeepsInv(s, es[0]);
      RunKeepsInv(Step(s, es[0]), es[1..]);
    }
  }

  // ---------------------------------------------------------------- conservation and order

  lemma {:induction false} FatesPartition<T>(accepted: seq<T>, fates: seq<Fate>)
    requires |accepted| == |fates|
    ensures |accepted| == |With(accepted, fates, Taken)| + |With(accepted, fates, Dropped)| + |With(accepted, fates, Pending)|
  {
    if fates != [] { FatesPartition(accepted[..|fates| - 1], fates[..|fates| - 1]); }
  }

  /** In every run, accepted = taken + dropped + pending, with at most one pending. */
  lemma NothingLost<T>(es: seq<Event<T>>)
    requires Runs(Initial<T>(), es)
    ensures var s := Run(Initial<T>(), es);
            |s.accepted| == |s.taken| + s.drops + |OfSlot(s.slot)| && |OfSlot(s.slot)| <= 1
  {
    RunKeepsInv(Initial<T>(), es);
    var s := Run(Initial<T>(), es);
    FatesPartition(s.accepted, s.fates);
  }

  function Calls<T>(es: seq<Event<T>>): nat
    decreases |es|
  {
    if es == [] then 0 else (if es[0].Call? then 1 else 0) + Calls(es[1..])
  }

  function Handled<T>(s: State<T>): nat { |s.accepted| + s.refused + if s.producer.Away? then 0 else 1 }

  lemma {:induction false} CallsAreHandled<T>(s: State<T>, es: seq<Event<T>>)
    requires Runs(s, es)
    ensures Handled(Run(s, es)) == Handled(s) + Calls(es)
    decreases |es|
  {
    if es != [] { CallsAreHandled(Step(s, es[0]), es[1..]); }
  }

  /** In every run, each call was accepted or refused, but for the one still under way. */
  lemma EveryCallIsAnswered<T>(es: seq<Event<T>>)
    requires Runs(Initial<T>(), es)
    ensures var s := Run(Initial<T>(), es);
            Calls(es) == |s.accepted| + s.refused + if s.producer.Away? then 0 else 1
  {
    CallsAreHandled(Initial<T>(), es);
  }

  predicate Increasing(at: seq<nat>) { forall i, j :: 0 <= i < j < |at| ==> at[i] < at[j] }

  /** `part` is what `whole` holds at strictly increasing positions `at`. */
  ghost predicate PicksAt<T>(part: seq<T>, whole: seq<T>, at: seq<nat>) {
    && |at| == |part|
    && Increasing(at)
    && forall i :: 0 <= i < |at| ==> at[i] < |whole| && whole[at[i]] == part[i]
  }

  lemma {:induction false} WithPicks<T>(accepted: seq<T>, fates: seq<Fate>, fate: Fate) returns (at: seq<nat>)
    requires |accepted| == |fates|
    ensures PicksAt(With(accepted, fates, fate), accepted, at)
  {
    at := [];
    if fates != [] {
      var n := |fates| - 1;
      at := WithPicks(accepted[..n], fates[..n], fate);
      if fates[n] == fate { at := at + [n]; }
    }
  }

  /** What reaches the track is an in-order subsequence of what was accepted: no reordering, no duplicates. */
  lemma TakenInOrder<T>(es: seq<Event<T>>) returns (at: seq<nat>)
    requires Runs(Initial<T>(), es)
    ensures var s := Run(Initial<T>(), es); PicksAt(s.taken, s.accepted, at) && s.written <= s.taken
  {
    RunKeepsInv(Initial<T>(), es);
    var s := Run(Initial<T>(), es);
    at := WithPicks(s.accepted, s.fates, Taken);
  }

  /** Whenever the goroutine takes a sample, it is the newest one accepted so far. */
  lemma TakesTheNewest<T>(es: seq<Event<T>>)
    requires Runs(Initial<T>(), es) && Enabled(Run(Initial<T>(), es), Take)
    ensures var s := Run(Initial<T>(), es);
            && s.accepted != []
            && Step(s, Take).consumer == Writing(s.accepted[|s.accepted| - 1])
  {
    RunKeepsInv(Initial<T>(), es);
    EmptyMoves(Run(Initial<T>(), es), Taken);
  }

  /** A sample is dropped only to make room: while the mailbox is open and no send is under way, the newest is kept. */
  lemma NewestIsKept<T>(es: seq<Event<T>>)
    requires Runs(Initial<T>(), es)
    ensures var s := Run(Initial<T>(), es);
            !s.closed && !s.producer.Sending? && s.accepted != [] ==>
              || (s.slot == Some(s.accepted[|s.accepted| - 1]))
              || (s.taken != [] && s.taken[|s.taken| - 1] == s.accepted[|s.accepted| - 1])
  {
    RunKeepsInv(Initial<T>(), es);
    var s := Run(Initial<T>(), es);
    if s.slot.Some? {
      EmptyMoves(s, Taken);
    } else if s.fates != [] {
      assert |With(s.accepted, s.fates, Pending)| == 0;
    }
  }

  // ---------------------------------------------------------------- the producer never blocks

  function StepsLeft<T>(p: Producer<T>): nat {
    match p
    case Away => 0
    case Checking(_) => 4
    case Trying(_) => 3
    case Draining(_) => 2
    case Sending(_) => 1
  }

  function NextOfProducer<T>(p: Producer<T>): Event<T>
    requires !p.Away?
  {
    match p
    case Checking(_) => CheckClosed
    case Trying(_) => TrySend
    case Draining(_) => DrainOne
    case Sending(_) => FinalSend
  }

  lemma SlotFreeWhenSending<T>(s: State<T>)
    requires Inv(s) && s.producer.Sending?
    ensures s.slot.None?
  {}

  /** In every reachable state a started WriteSample can go on, whatever the goroutine does, and is done within four steps. */
  lemma ProducerNeverBlocks<T>(es: seq<Event<T>>)
    requires Runs(Initial<T>(), es) && !Run(Initial<T>(), es).producer.Away?
    ensures var s := Run(Initial<T>(), es);
            var e := NextOfProducer(s.producer);
            && Enabled(s, e)
            && StepsLeft(Step(s, e).producer) < StepsLeft(s.producer) <= 4
  {
    RunKeepsInv(Initial<T>(), es);
    if Run(Initial<T>(), es).producer.Sending? { SlotFreeWhenSending(Run(Initial<T>(), es)); }
    hide Inv;
  }

  // ---------------------------------------------------------------- after Close

  function Arriving<T>(p: Producer<T>): nat { if p.Trying? || p.Draining? || p.Sending? then 1 else 0 }

  /**
   Once the channel is closed at most one more sample is accepted (a call already past its
   first check) and at most two more are taken; after Close has returned nothing is taken or
   written.
   */
  lemma {:induction false} AfterClose<T>(s: State<T>, es: seq<Event<T>>)
    requires Inv(s) && s.closed && Runs(s, es)
    ensures var r := Run(s, es);
            && r.closed
            && s.accepted <= r.accepted && s.taken <= r.taken && s.written <= r.written
            && |r.accepted| + Arriving(r.producer) <= |s.accepted| + Arriving(s.producer)
            && |r.taken| + |OfSlot(r.slot)| + Arriving(r.producer) <= |s.taken| + |OfSlot(s.slot)| + Arriving(s.producer)
            && (s.closeReturned ==> r.taken == s.taken && r.written == s.written)
    decreases |es|
  {
    if es != [] {
      StepKeepsInv(s, es[0]);
      AfterClosedStep(s, es[0]);
      AfterClose(Step(s, es[0]), es[1..]);
    }
  }

  lemma AfterClosedStep<T>(s: State<T>, e: Event<T>)
    requires Inv(s) && s.closed && Enabled(s, e)
    ensures var r := Step(s, e);
            && r.closed && (s.closeReturned ==> r.closeReturned)
            && s.accepted <= r.accepted && s.taken <= r.taken && s.written <= r.written
            && |r.accepted| + Arriving(r.producer) <= |s.accepted| + Arriving(s.producer)
            && |r.taken| + |OfSlot(r.slot)| + Arriving(r.producer) <= |s.taken| + |OfSlot(s.slot)| + Arriving(s.producer)
            && (s.closeReturned ==> r.taken == s.taken && r.written == s.written)
  {
    hide With;
  }

  /** Close comes to an end: the write under way is finished, the goroutine sees the closed channel and returns. */
  lemma CloseReturns<T>(s: State<T>)
    requires s.closed && !s.consumer.Returned?
    ensures s.consumer.Writing? ==> Enabled(s, Written) && Step(s, Written).written == s.written + [s.consumer.sample]
    ensures var t := if s.consumer.Writing? then Step(s, Written) else s;
            && t.closed && Enabled(t, SeeClosed)
            && Step(t, SeeClosed).consumer.Returned? && Enabled(Step(t, SeeClosed), CloseReturn)
            && Step(Step(t, SeeClosed), CloseReturn).closeReturned
  {}

  /** An open mailbox can be closed, once; a sample offered to a new one is in the slot after two operations. */
  lemma OpenUntilClosed<T>(s: State<T>, sample: T)
    ensures Enabled(s, Close) <==> !s.closed
    ensures Step(s, Close) == s.(closed := true)
    ensures var r := Step(Step(Step(Initial(), Call(sample)), CheckClosed), TrySend);
            r == State(false, false, Some(sample), Away, Selecting, 0, [sample], [Pending], [], [], 0)
  {}

  /** A call entered after Close began is refused. */
  lemma ClosedRefuses<T>(s: State<T>, sample: T)
    requires s.closed && s.producer.Away?
    ensures var r := Step(Step(s, Call(sample)), CheckClosed);
            r.producer.Away? && r.refused == s.refused + 1 && r.accepted == s.accepted && r.slot == s.slot
  {}

  // ---------------------------------------------------------------- the writer

  /**
   `closed`, `finished` and `latest` are the three channels, `drops` counts the calls of
   `onDrop`. The ghost fields record the run and where the two goroutines are. Each method
   is one channel operation.
   */
  class LatestSampleWriter<T> {
    var closed: bool
    var finished: bool
    var latest: Option<T>
    var drops: nat
    ghost var closeReturned: bool
    ghost var producer: Producer<T>
    ghost var consumer: Consumer<T>
    ghost var accepted: seq<T>
    ghost var fates: seq<Fate>
    ghost var taken: seq<T>
    ghost var written: seq<T>
    ghost var refused: nat

    ghost function View(): State<T>
      reads this
    {
      State(closed, closeReturned, latest, producer, consumer, drops, accepted, fates, taken, written, refused)
    }

    ghost predicate Valid()
      reads this
    {
      Inv(View()) && finished == consumer.Returned?
    }

    constructor ()
      ensures Valid() && View() == Initial()
    {
      closed, finished, latest, drops := false, false, None, 0;
      closeReturned, producer, consumer := false, Away, Selecting;
      accepted, fates, taken, written, refused := [], [], [], [], 0;
    }

    ghost method Enter(sample: T)
      requires Valid() && producer.Away?
      modifies this
      ensures Valid() && View() == Step(old(View()), Call(sample))
    {
      producer := Checking(sample);
    }

    /** The first select of WriteSample. */
    method CheckClosed(sample: T) returns (err: bool)
      requires Valid() && producer == Checking(sample)
      modifies this
      ensures Valid() && View() == Step(old(View()), Event.CheckClosed)
      ensures err == old(closed)
    {
      hide Inv;
      StepKeepsInv(View(), Event.CheckClosed);
      err := closed;
      if err {
        producer, refused := Away, refused + 1;
      } else {
        producer := Trying(sample);
      }
    }

    /** The second select: fill an empty slot. */
    method TrySend(sample: T) returns (sent: bool)
      requires Valid() && producer == Trying(sample)
      modifies this
      ensures Valid() && View() == Step(old(View()), Event.TrySend)
      ensures sent == old(latest).None?
    {
      hide Inv;
      StepKeepsInv(View(), Event.TrySend);
      sent := latest.None?;
      if sent {
        latest := Some(sample);
        producer, accepted, fates := Away, accepted + [sample], fates + [Pending];
      } else {
        producer := Draining(sample);
      }
    }

    /** The third select: throw away what is pending. */
    method DrainOne(sample: T)
      requires Valid() && producer == Draining(sample)
      modifies this
      ensures Valid() && View() == Step(old(View()), Event.DrainOne)
    {
      hide Inv;
      StepKeepsInv(View(), Event.DrainOne);
      if latest.Some? {
        latest, drops := None, drops + 1;
        fates := if fates == [] then [] else fates[..|fates| - 1] + [Dropped];
      }
      producer := Sending(sample);
    }

    /** The last select; `preferClosed` settles the choice when both cases are ready. */
    method FinalSelect(sample: T, preferClosed: bool) returns (err: bool)
      requires Valid() && producer == Sending(sample)
      modifies this
      ensures Valid() && err == (old(closed) && preferClosed)
      ensures View() == Step(old(View()), if err then FinalClosed else FinalSend)
    {
      hide Inv;
      SlotFreeWhenSending(View());
      err := closed && preferClosed;
      StepKeepsInv(View(), if err then FinalClosed else FinalSend);
      if err {
        producer, refused := Away, refused + 1;
      } else {
        latest := Some(sample);
        producer, accepted, fates := Away, accepted + [sample], fates + [Pending];
      }
    }

    /** The goroutine's select, when a sample is received. */
    method Receive() returns (sample: T)
      requires Valid() && Enabled(View(), Take)
      modifies this
      ensures Valid() && View() == Step(old(View()), Take)
      ensures old(latest) == Some(sample)
    {
      hide Inv;
      StepKeepsInv(View(), Take);
      sample := latest.value;
      latest := None;
      fates := if fates == [] then [] else fates[..|fates| - 1] + [Taken];
      consumer, taken := Writing(sample), taken + [sample];
    }

    ghost method OutputReturns()
      requires Valid() && consumer.Writing?
      modifies this
      ensures Valid() && View() == Step(old(View()), Event.Written)
    {
      hide Inv;
      StepKeepsInv(View(), Event.Written);
      written, consumer := written + [consumer.sample], Selecting;
    }

    /** The goroutine's select, when the closed channel is seen. */
    method Finish()
      requires Valid() && Enabled(View(), SeeClosed)
      modifies this
      ensures Valid() && View() == Step(old(View()), SeeClosed)
    {
      hide Inv;
      StepKeepsInv(View(), SeeClosed);
      finished := true;
      consumer := Returned;
    }

    /** The first half of Close. */
    method CloseChannel()
      requires Valid() && !closed
      modifies this
      ensures Valid() && View() == Step(old(View()), Close)
    {
      hide Inv;
      StepKeepsInv(View(), Close);
      closed := true;
    }

    /** A whole WriteSample in which the goroutine is not scheduled. */
    method WriteSample(sample: T) returns (err: bool)
      requires Valid() && producer.Away?
      modifies this
      ensures Valid() && producer.Away? && err == old(closed)
      ensures err ==> latest == old(latest) && accepted == old(accepted) && drops == old(drops)
      ensures !err ==> latest == Some(sample) && accepted == old(accepted) + [sample]
      ensures !err ==> drops == old(drops) + |OfSlot(old(latest))|
    {
      hide Inv;
      Enter(sample);
      err := CheckClosed(sample);
      if !err {
        var sent := TrySend(sample);
        if !sent {
          DrainOne(sample);
          err := FinalSelect(sample, true);
        }
      }
    }
  }
}
