/** The background order processor of blueprints/chartink.py.

    `Step` is one pass of its endless loop over an integer clock, interleaved
    with the orders other threads queue meanwhile.  `Step` knows no timestamp
    deque: it counts accepted stamps in the whole history.  The class at the
    end is the code's own form, with its queues, deque and pop loop. */
module OrderProcessor {
  import opened SlidingWindow

  const SECOND: nat := 1_000_000
  const TENTH: nat := 100_000
  const RATE := 10
  const SMART_ENDPOINT := "placesmartorder"

  datatype Order = Order(endpoint: string, payload: string)

  /** What the broker call came back with: an ok response, any other response,
      or an exception. */
  datatype Response = Accepted | Rejected | Raised

  /** One POST.  `stamp` is the clock reading taken before the rate check and
      `smartSeen` how many smart orders had ever been queued when the smart
      queue was found empty in the same pass. */
  datatype Attempt =
    | SmartPost(order: Order, start: int, finish: int, response: Response)
    | RegularPost(order: Order, stamp: int, start: int, finish: int, response: Response, smartSeen: nat)

  datatype State = State(
    smart: seq<Order>, regular: seq<Order>, clock: int, attempts: seq<Attempt>,
    smartHistory: seq<Order>, regularHistory: seq<Order>)

  /** What the environment does during one pass: the orders queued before the
      smart queue is read and after it, and how long everything takes. */
  datatype Round = Round(
    before: seq<Order>, between: seq<Order>,
    lag: nat, send: nat, reply: nat, overshoot: nat, response: Response)
  {
    predicate Quiet() { before == [] && between == [] }
  }

  const EMPTY := State([], [], 0, [], [], [])

  function Enqueue(s: State, o: Order): State {
    if o.endpoint == SMART_ENDPOINT
    then s.(smart := s.smart + [o], smartHistory := s.smartHistory + [o])
    else s.(regular := s.regular + [o], regularHistory := s.regularHistory + [o])
  }

  function EnqueueAll(s: State, orders: seq<Order>): State
    decreases |orders|
  {
    if orders == [] then s else EnqueueAll(Enqueue(s, orders[0]), orders[1..])
  }

  /** Post the oldest smart order, then sleep for a second. */
  function SmartPass(s: State, r: Round): State
    requires s.smart != []
  {
    var start := s.clock + r.send;
    var post := SmartPost(s.smart[0], start, start + r.reply, r.response);
    s.(smart := s.smart[1..], attempts := s.attempts + [post], clock := post.finish + SECOND + r.overshoot)
  }

  function RegularPass(s: State, r: Round, smartSeen: nat): State
    requires s.regular != []
  {
    var now := s.clock + r.lag;
    var start := now + r.send;
    var post := RegularPost(s.regular[0], now, start, start + r.reply, r.response, smartSeen);
    s.(regular := s.regular[1..], attempts := s.attempts + [post], clock := post.finish)
  }

  function IdlePass(s: State, r: Round): State {
    s.(clock := s.clock + r.lag + TENTH + r.overshoot)
  }

  predicate MaySend(s: State, r: Round) {
    s.regular != [] && Admits(Stamps(s.attempts), s.clock + r.lag, RATE, SECOND)
  }

  function Step(s: State, r: Round): State {
    var s1 := EnqueueAll(s, r.before);
    if s1.smart != [] then EnqueueAll(SmartPass(s1, r), r.between)
    else
      var s2 := EnqueueAll(s1, r.between);
      if MaySend(s2, r) then RegularPass(s2, r, |s1.smartHistory|) else IdlePass(s2, r)
  }

  function Run(s: State, rounds: seq<Round>): State
    decreases |rounds|
  {
    if rounds == [] then s else Run(Step(s, rounds[0]), rounds[1..])
  }

  // ---- Views of the attempt log -------------------------------------------

  predicate Kept(a: Attempt) { a.RegularPost? && a.response == Accepted }

  /** Stamps the rate limiter records: accepted regular posts only. */
  function Stamps(log: seq<Attempt>): seq<int> {
    if log == [] then []
    else Stamps(log[..|log| - 1]) + if Kept(log[|log| - 1]) then [log[|log| - 1].stamp] else []
  }

  /** When the accepted regular posts started. */
  function Starts(log: seq<Attempt>): seq<int> {
    if log == [] then []
    else Starts(log[..|log| - 1]) + if Kept(log[|log| - 1]) then [log[|log| - 1].start] else []
  }

  /** Stamps of the regular posts that were not accepted. */
  function FailedStamps(log: seq<Attempt>): seq<int> {
    if log == [] then []
    else
      var a := log[|log| - 1];
      FailedStamps(log[..|log| - 1]) + if a.RegularPost? && !Kept(a) then [a.stamp] else []
  }

  /** Stamps of every regular post. */
  function AllStamps(log: seq<Attempt>): seq<int> {
    if log == [] then []
    else AllStamps(log[..|log| - 1]) + if log[|log| - 1].RegularPost? then [log[|log| - 1].stamp] else []
  }

  function SmartOrders(log: seq<Attempt>): seq<Order> {
    if log == [] then []
    else SmartOrders(log[..|log| - 1]) + if log[|log| - 1].SmartPost? then [log[|log| - 1].order] else []
  }

  function RegularOrders(log: seq<Attempt>): seq<Order> {
    if log == [] then []
    else RegularOrders(log[..|log| - 1]) + if log[|log| - 1].RegularPost? then [log[|log| - 1].order] else []
  }

  function Begin(a: Attempt): int { if a.SmartPost? then a.start else a.stamp }

  /** The earliest moment anything can follow an attempt. */
  function Release(a: Attempt): int { if a.SmartPost? then a.finish + SECOND else a.finish }

  // ---- What every pass keeps ----------------------------------------------

  /** First in, first out, each order attempted at most once, none lost. */
  predicate Fifo(s: State) {
    && s.smartHistory == SmartOrders(s.attempts) + s.smart
    && s.regularHistory == RegularOrders(s.attempts) + s.regular
  }

  /** Attempts never overlap, and one second passes after every smart post. */
  predicate Timeline(log: seq<Attempt>, clock: int) {
    && (forall i | 0 <= i < |log| ::
          Begin(log[i]) <= log[i].start <= log[i].finish && Release(log[i]) <= clock)
    && (forall i, j | 0 <= i < j < |log| :: Release(log[i]) <= Begin(log[j]))
  }

  /** A regular order goes out only when every smart order queued by the time of
      the check had already been attempted. */
  predicate SmartFirst(log: seq<Attempt>) {
    forall i {:trigger log[i].smartSeen} | 0 <= i < |log| && log[i].RegularPost? ::
      log[i].smartSeen == |SmartOrders(log[..i])|
  }

  predicate Interlaced(stamps: seq<int>, starts: seq<int>, clock: int) {
    && |starts| == |stamps|
    && (forall k | 0 <= k < |starts| :: stamps[k] <= starts[k] <= clock)
    && (forall i, k | 0 <= i < k < |starts| :: starts[i] <= stamps[k])
  }

  predicate Limited(stamps: seq<int>) { Sorted(stamps) && Spaced(stamps, RATE, SECOND) }

  predicate Inv(s: State) {
    && Fifo(s)
    && Timeline(s.attempts, s.clock)
    && SmartFirst(s.attempts)
    && Interlaced(Stamps(s.attempts), Starts(s.attempts), s.clock)
    && Limited(Stamps(s.attempts))
  }

  lemma {:induction false} EnqueueAllKeeps(s: State, orders: seq<Order>)
    requires Fifo(s)
    ensures var t := EnqueueAll(s, orders);
      && Fifo(t) && t.clock == s.clock && t.attempts == s.attempts
      && |s.smart| <= |t.smart| && |s.regular| <= |t.regular|
    decreases |orders|
  {
    if orders != [] {
      var t := Enqueue(s, orders[0]);
      assert t.smartHistory == SmartOrders(t.attempts) + t.smart;
      assert t.regularHistory == RegularOrders(t.attempts) + t.regular;
      EnqueueAllKeeps(t, orders[1..]);
    }
  }

  lemma AppendKeepsTimeline(log: seq<Attempt>, clock: int, a: Attempt, clock': int)
    requires Timeline(log, clock)
    requires clock <= Begin(a) <= a.start <= a.finish && Release(a) <= clock'
    ensures Timeline(log + [a], clock')
  {}

  lemma AppendKeepsSmartFirst(log: seq<Attempt>, a: Attempt)
    requires SmartFirst(log)
    requires a.RegularPost? ==> a.smartSeen == |SmartOrders(log)|
    ensures SmartFirst(log + [a])
  {
    var log' := log + [a];
    forall i | 0 <= i < |log'| && log'[i].RegularPost?
      ensures log'[i].smartSeen == |SmartOrders(log'[..i])|
    {
      assert log'[..i] == log[..i];
      if i == |log| {
        assert log[..i] == log;
      }
    }
  }

  /** How one more attempt changes every view of the log. */
  lemma Append(log: seq<Attempt>, a: Attempt)
    ensures Stamps(log + [a]) == if Kept(a) then Stamps(log) + [a.stamp] else Stamps(log)
    ensures AllStamps(log + [a]) == if a.RegularPost? then AllStamps(log) + [a.stamp] else AllStamps(log)
    ensures Starts(log + [a]) == if Kept(a) then Starts(log) + [a.start] else Starts(log)
    ensures SmartOrders(log + [a]) == if a.SmartPost? then SmartOrders(log) + [a.order] else SmartOrders(log)
    ensures RegularOrders(log + [a]) == if a.RegularPost? then RegularOrders(log) + [a.order] else RegularOrders(log)
  {
    assert (log + [a])[..|log|] == log;
  }

  lemma AppendKeepsLimit(stamps: seq<int>, starts: seq<int>, clock: int, stamp: int, start: int, clock': int)
    requires Limited(stamps) && Interlaced(stamps, starts, clock)
    requires clock <= stamp <= start <= clock'
    requires Admits(stamps, stamp, RATE, SECOND)
    ensures Limited(stamps + [stamp]) && Interlaced(stamps + [stamp], starts + [start], clock')
  {
    forall i | 0 <= i < |stamps| ensures stamps[i] <= stamp {
      assert stamps[i] <= starts[i] <= clock;
    }
    AdmissionKeepsSpacing(stamps, stamp, RATE, SECOND);
  }

  lemma SmartPassKeeps(s: State, r: Round)
    requires Inv(s) && s.smart != []
    ensures Inv(SmartPass(s, r))
  {
    hide Timeline, SmartFirst, Limited, Interlaced, Stamps, Starts, AllStamps, SmartOrders, RegularOrders;
    var t := SmartPass(s, r);
    var a := SmartPost(s.smart[0], s.clock + r.send, s.clock + r.send + r.reply, r.response);
    assert t.attempts == s.attempts + [a];
    Append(s.attempts, a);
    AppendKeepsTimeline(s.attempts, s.clock, a, t.clock);
    AppendKeepsSmartFirst(s.attempts, a);
    LaterClock(Stamps(s.attempts), Starts(s.attempts), s.clock, t.clock);
    assert s.smart == [a.order] + s.smart[1..];
    assert SmartOrders(s.attempts) + s.smart == SmartOrders(s.attempts) + [a.order] + s.smart[1..];
  }

  lemma LaterClock(stamps: seq<int>, starts: seq<int>, clock: int, clock': int)
    requires Interlaced(stamps, starts, clock) && clock <= clock'
    ensures Interlaced(stamps, starts, clock')
  {}

  lemma RegularPassKeeps(s: State, r: Round, smartSeen: nat)
    requires Inv(s) && MaySend(s, r) && smartSeen == |SmartOrders(s.attempts)|
    ensures Inv(RegularPass(s, r, smartSeen))
  {
    hide Timeline, SmartFirst, Limited, Interlaced, Stamps, Starts, AllStamps, SmartOrders, RegularOrders, Admits;
    var t := RegularPass(s, r, smartSeen);
    var now := s.clock + r.lag;
    var a := RegularPost(s.regular[0], now, now + r.send, now + r.send + r.reply, r.response, smartSeen);
    assert t.attempts == s.attempts + [a];
    Append(s.attempts, a);
    AppendKeepsTimeline(s.attempts, s.clock, a, a.finish);
    AppendKeepsSmartFirst(s.attempts, a);
    if r.response == Accepted {
      AppendKeepsLimit(Stamps(s.attempts), Starts(s.attempts), s.clock, a.stamp, a.start, a.finish);
    } else {
      LaterClock(Stamps(s.attempts), Starts(s.attempts), s.clock, a.finish);
    }
    assert s.regular == [a.order] + s.regular[1..];
    assert RegularOrders(s.attempts) + s.regular == RegularOrders(s.attempts) + [a.order] + s.regular[1..];
  }

  lemma IdlePassKeeps(s: State, r: Round)
    requires Inv(s)
    ensures Inv(IdlePass(s, r))
  {}

  lemma EnqueueAllInv(s: State, orders: seq<Order>)
    requires Inv(s)
    ensures Inv(EnqueueAll(s, orders))
    ensures EnqueueAll(s, orders).clock == s.clock && EnqueueAll(s, orders).attempts == s.attempts
  {
    EnqueueAllKeeps(s, orders);
  }

  lemma StepKeeps(s: State, r: Round)
    requires Inv(s)
    ensures Inv(Step(s, r))
  {
    var s1 := EnqueueAll(s, r.before);
    EnqueueAllInv(s, r.before);
    if s1.smart != [] {
      SmartPassKeeps(s1, r);
      EnqueueAllInv(SmartPass(s1, r), r.between);
    } else {
      var s2 := EnqueueAll(s1, r.between);
      EnqueueAllInv(s1, r.between);
      if MaySend(s2, r) {
        EnqueueAllKeeps(s1, r.between);
        assert s1.smartHistory == SmartOrders(s1.attempts);
        RegularPassKeeps(s2, r, |s1.smartHistory|);
      }
    }
  }

  /** Every interleaving keeps the whole invariant. */
  lemma {:induction false} RunKeeps(s: State, rounds: seq<Round>)
    requires Inv(s)
    ensures Inv(Run(s, rounds))
    decreases |rounds|
  {
    if rounds != [] {
      StepKeeps(s, rounds[0]);
      RunKeeps(Step(s, rounds[0]), rounds[1..]);
    }
  }

  // ---- Main results over whole runs ---------------------------------------

  lemma PostBound(stamps: seq<int>, starts: seq<int>, clock: int, from: int)
    requires Limited(stamps) && Interlaced(stamps, starts, clock)
    ensures CountIn(starts, from, from + SECOND) <= 11
  {
    forall i, j | 0 <= i < j < |starts| ensures starts[i] <= starts[j] {
      assert starts[i] <= stamps[j] <= starts[j];
    }
    forall i, j | 0 <= i <= j - 11 < |starts| - 11 ensures starts[j] - starts[i] > SECOND {
      assert stamps[j] - stamps[i + 1] > SECOND;
      assert starts[i] <= stamps[i + 1];
    }
    WindowBound(starts, 11, SECOND, from);
  }

  /** At most 10 stamps and at most 11 accepted posts in any closed second. */
  lemma RateBounds(rounds: seq<Round>, from: int)
    ensures CountIn(Stamps(Run(EMPTY, rounds).attempts), from, from + SECOND) <= 10
    ensures CountIn(Starts(Run(EMPTY, rounds).attempts), from, from + SECOND) <= 11
  {
    RunKeeps(EMPTY, rounds);
    var s := Run(EMPTY, rounds);
    WindowBound(Stamps(s.attempts), RATE, SECOND, from);
    PostBound(Stamps(s.attempts), Starts(s.attempts), s.clock, from);
  }

  /** An accepted post that straddles the start of a window: its stamp was taken
      before, and it starts inside. */
  predicate Straddles(stamps: seq<int>, starts: seq<int>, k: int, from: int)
    requires |stamps| == |starts|
  {
    0 <= k < |starts| && stamps[k] < from <= starts[k]
  }

  /** Without one, starts in the window are stamps in the window. */
  lemma {:induction false} StartsWithinStamps(stamps: seq<int>, starts: seq<int>, from: int, to: int)
    requires |stamps| == |starts|
    requires forall k | 0 <= k < |starts| :: stamps[k] <= starts[k] && !Straddles(stamps, starts, k, from)
    ensures CountIn(starts, from, to) <= CountIn(stamps, from, to)
  {
    if starts != [] {
      var n := |starts| - 1;
      forall k | 0 <= k < n ensures !Straddles(stamps[..n], starts[..n], k, from) {
        assert !Straddles(stamps, starts, k, from);
      }
      assert !Straddles(stamps, starts, n, from);
      StartsWithinStamps(stamps[..n], starts[..n], from, to);
    }
  }

  /** The promised 10 a second holds of accepted posts in every second that no
      such post straddles, so a second with 11 of them has one. */
  lemma TenUnlessStraddled(rounds: seq<Round>, from: int)
    ensures var log := Run(EMPTY, rounds).attempts; |Stamps(log)| == |Starts(log)|
    ensures var log := Run(EMPTY, rounds).attempts;
      (forall k :: !Straddles(Stamps(log), Starts(log), k, from)) ==> CountIn(Starts(log), from, from + SECOND) <= 10
    ensures var log := Run(EMPTY, rounds).attempts;
      CountIn(Starts(log), from, from + SECOND) == 11 ==>
        exists k :: Straddles(Stamps(log), Starts(log), k, from)
  {
    hide Run, CountIn, Stamps, Starts, Straddles, Fifo, Timeline, SmartFirst, Limited;
    EmptyInv();
    RunKeeps(EMPTY, rounds);
    RateBounds(rounds, from);
    var log := Run(EMPTY, rounds).attempts;
    if forall k :: !Straddles(Stamps(log), Starts(log), k, from) {
      StartsWithinStamps(Stamps(log), Starts(log), from, from + SECOND);
    }
  }

  /** Exactly when 11 accepted posts start in one second: one of them straddles its
      start, and the tenth after that one still starts within it. */
  lemma ElevenExact(rounds: seq<Round>, from: int)
    ensures var log := Run(EMPTY, rounds).attempts; |Stamps(log)| == |Starts(log)|
    ensures var log := Run(EMPTY, rounds).attempts;
      CountIn(Starts(log), from, from + SECOND) == 11 <==>
        exists k :: Straddles(Stamps(log), Starts(log), k, from)
          && k + 10 < |Starts(log)| && Starts(log)[k + 10] <= from + SECOND
  {
    hide Run, CountIn, Stamps, Starts, Fifo, Timeline, SmartFirst, Limited;
    EmptyInv();
    RunKeeps(EMPTY, rounds);
    RateBounds(rounds, from);
    TenUnlessStraddled(rounds, from);
    var s := Run(EMPTY, rounds);
    var stamps, starts := Stamps(s.attempts), Starts(s.attempts);
    forall k | Straddles(stamps, starts, k, from)
      ensures CountIn(starts, from, from + SECOND) >= 11 <==> k + 10 < |starts| && starts[k + 10] <= from + SECOND
    {
      StraddledCount(stamps, starts, s.clock, k, from);
    }
  }

  lemma StraddledCount(stamps: seq<int>, starts: seq<int>, clock: int, k: nat, from: int)
    requires Interlaced(stamps, starts, clock) && Straddles(stamps, starts, k, from)
    ensures CountIn(starts, from, from + SECOND) >= 11 <==> k + 10 < |starts| && starts[k + 10] <= from + SECOND
  {
    hide CountIn;
    forall i, j | 0 <= i <= j < |starts| ensures starts[i] <= starts[j] {
      if i < j { assert starts[i] <= stamps[j] <= starts[j]; }
    }
    forall i | 0 <= i < k ensures starts[i] < from { assert starts[i] <= stamps[k]; }
    if k + 10 < |starts| && starts[k + 10] <= from + SECOND {
      CountAtLeast(starts, k, k + 11, from, from + SECOND);
    } else {
      CountAtMost(starts, k, if k + 10 < |starts| then k + 10 else |starts|, from, from + SECOND);
    }
  }

  /** Posts the broker did not accept leave no stamp: counting them too, the
      bound of 10 is exceeded by at most their number. */
  lemma {:induction false} AttemptsInWindow(log: seq<Attempt>, lo: int, hi: int)
    ensures CountIn(AllStamps(log), lo, hi)
         == CountIn(Stamps(log), lo, hi) + CountIn(FailedStamps(log), lo, hi)
  {
    if log != [] {
      var init, a := log[..|log| - 1], log[|log| - 1];
      AttemptsInWindow(init, lo, hi);
      assert forall xs: seq<int> :: xs + [] == xs;
      if a.RegularPost? {
        CountAppend(AllStamps(init), a.stamp, lo, hi);
        CountAppend(if Kept(a) then Stamps(init) else FailedStamps(init), a.stamp, lo, hi);
      }
    }
  }

  lemma AttemptBound(rounds: seq<Round>, from: int)
    ensures var log := Run(EMPTY, rounds).attempts;
      CountIn(AllStamps(log), from, from + SECOND)
        <= 10 + CountIn(FailedStamps(log), from, from + SECOND)
  {
    RateBounds(rounds, from);
    AttemptsInWindow(Run(EMPTY, rounds).attempts, from, from + SECOND);
  }

  /** No post of either kind starts within one second after a smart post ends,
      and posts never overlap. */
  lemma PauseAfterSmart(rounds: seq<Round>, i: nat, j: nat)
    requires i < j < |Run(EMPTY, rounds).attempts|
    ensures var log := Run(EMPTY, rounds).attempts;
      && log[i].finish <= log[j].start
      && (log[i].SmartPost? ==> log[j].start >= log[i].finish + SECOND)
  {
    RunKeeps(EMPTY, rounds);
  }

  /** When a regular order is taken, every smart order queued by the time of that
      pass's check has been attempted. */
  lemma SmartOrdersGoFirst(rounds: seq<Round>, i: nat)
    requires i < |Run(EMPTY, rounds).attempts| && Run(EMPTY, rounds).attempts[i].RegularPost?
    ensures var log := Run(EMPTY, rounds).attempts;
      log[i].smartSeen == |SmartOrders(log[..i])|
  {
    RunKeeps(EMPTY, rounds);
  }

  /** The orders other threads queued during a run, in queueing order. */
  function Arrivals(rounds: seq<Round>): seq<Order> {
    if rounds == [] then [] else rounds[0].before + rounds[0].between + Arrivals(rounds[1..])
  }

  function ToQueue(orders: seq<Order>, smart: bool): seq<Order> {
    if orders == [] then []
    else if (orders[0].endpoint == SMART_ENDPOINT) == smart then [orders[0]] + ToQueue(orders[1..], smart)
    else ToQueue(orders[1..], smart)
  }

  lemma {:induction false} ToQueueConcat(a: seq<Order>, b: seq<Order>, smart: bool)
    ensures ToQueue(a + b, smart) == ToQueue(a, smart) + ToQueue(b, smart)
  {
    if a == [] {
      assert a + b == b;
    } else {
      assert (a + b)[1..] == a[1..] + b;
      ToQueueConcat(a[1..], b, smart);
    }
  }

  lemma {:induction false} EnqueueAllHistory(s: State, orders: seq<Order>)
    ensures EnqueueAll(s, orders).smartHistory == s.smartHistory + ToQueue(orders, true)
    ensures EnqueueAll(s, orders).regularHistory == s.regularHistory + ToQueue(orders, false)
    decreases |orders|
  {
    if orders != [] {
      EnqueueAllHistory(Enqueue(s, orders[0]), orders[1..]);
    }
  }

  lemma StepHistory(s: State, r: Round, smart: bool)
    ensures var h, h' := History(s, smart), History(Step(s, r), smart);
      h' == h + ToQueue(r.before + r.between, smart)
  {
    hide EnqueueAll, MaySend, Stamps, ToQueue;
    var s1 := EnqueueAll(s, r.before);
    EnqueueAllHistory(s, r.before);
    EnqueueAllHistory(if s1.smart != [] then SmartPass(s1, r) else s1, r.between);
    ToQueueConcat(r.before, r.between, smart);
  }

  function History(s: State, smart: bool): seq<Order> {
    if smart then s.smartHistory else s.regularHistory
  }

  lemma {:induction false} RunHistory(s: State, rounds: seq<Round>, smart: bool)
    ensures History(Run(s, rounds), smart) == History(s, smart) + ToQueue(Arrivals(rounds), smart)
    decreases |rounds|
  {
    if rounds != [] {
      var r := rounds[0];
      StepHistory(s, r, smart);
      RunHistory(Step(s, r), rounds[1..], smart);
      ToQueueConcat(r.before + r.between, Arrivals(rounds[1..]), smart);
    }
  }

  /** What was attempted, followed by what is pending, is exactly what was
      queued, per queue and in order. */
  lemma NothingLostOrResent(rounds: seq<Round>)
    ensures var s := Run(EMPTY, rounds);
      && SmartOrders(s.attempts) + s.smart == ToQueue(Arrivals(rounds), true)
      && RegularOrders(s.attempts) + s.regular == ToQueue(Arrivals(rounds), false)
  {
    hide Run, Timeline, SmartFirst, Interlaced, Limited;
    EmptyInv();
    RunKeeps(EMPTY, rounds);
    RunHistory(EMPTY, rounds, true);
    RunHistory(EMPTY, rounds, false);
  }

  // ---- What one pass does, in terms of what was queued ---------------------

  /** A pass with a smart order pending at its check posts the oldest one and sleeps
      for a second. */
  lemma PassWithSmart(s: State, r: Round)
    requires Fifo(s) && (s.smart + ToQueue(r.before, true)) != []
    ensures var t := Step(s, r);
      && |t.attempts| == |s.attempts| + 1 && t.attempts[..|s.attempts|] == s.attempts
      && var a := t.attempts[|s.attempts|];
         && a.SmartPost? && a.order == (s.smart + ToQueue(r.before, true))[0] && a.response == r.response
         && a.start == s.clock + r.send && a.finish == a.start + r.reply
         && t.clock == a.finish + SECOND + r.overshoot
  {
    hide SmartOrders, RegularOrders, ToQueue;
    var s1 := EnqueueAll(s, r.before);
    EnqueueAllKeeps(s, r.before);
    EnqueueAllQueues(s, r.before);
    var t := SmartPass(s1, r);
    EnqueueAllLog(t, r.between);
  }

  /** A pass without one posts the oldest regular order when there is one and fewer
      than ten accepted stamps lie in the last second, and otherwise sleeps a tenth
      of a second. */
  lemma PassWithoutSmart(s: State, r: Round)
    requires (s.smart + ToQueue(r.before, true)) == []
    ensures var t := Step(s, r);
      var pending, now := s.regular + ToQueue(r.before + r.between, false), s.clock + r.lag;
      if pending != [] && CountIn(Stamps(s.attempts), now - SECOND, now) < 10 then
        && |t.attempts| == |s.attempts| + 1 && t.attempts[..|s.attempts|] == s.attempts
        && var a := t.attempts[|s.attempts|];
           && a.RegularPost? && a.order == pending[0] && a.response == r.response && a.stamp == now
           && a.start == now + r.send && a.finish == a.start + r.reply && t.clock == a.finish
      else t.attempts == s.attempts && t.clock == now + TENTH + r.overshoot
  {
    hide SmartOrders, RegularOrders, ToQueue, CountIn, Stamps;
    var s1 := EnqueueAll(s, r.before);
    EnqueueAllQueues(s, r.before);
    EnqueueAllLog(s, r.before);
    assert s1.smart == [];
    var s2 := EnqueueAll(s1, r.between);
    EnqueueAllQueues(s1, r.between);
    EnqueueAllLog(s1, r.between);
    ToQueueConcat(r.before, r.between, false);
    assert s2.regular == s.regular + ToQueue(r.before + r.between, false);
  }

  lemma {:induction false} EnqueueAllQueues(s: State, orders: seq<Order>)
    ensures EnqueueAll(s, orders).smart == s.smart + ToQueue(orders, true)
    ensures EnqueueAll(s, orders).regular == s.regular + ToQueue(orders, false)
    decreases |orders|
  {
    if orders != [] {
      EnqueueAllQueues(Enqueue(s, orders[0]), orders[1..]);
    }
  }

  lemma {:induction false} EnqueueAllLog(s: State, orders: seq<Order>)
    ensures EnqueueAll(s, orders).attempts == s.attempts && EnqueueAll(s, orders).clock == s.clock
    decreases |orders|
  {
    if orders != [] {
      EnqueueAllLog(Enqueue(s, orders[0]), orders[1..]);
    }
  }

  /** Which orders go to which queue. */
  lemma {:induction false} QueuedByEndpoint(orders: seq<Order>, o: Order)
    ensures o in ToQueue(orders, true) <==> o in orders && o.endpoint == "placesmartorder"
    ensures o in ToQueue(orders, false) <==> o in orders && o.endpoint != "placesmartorder"
  {
    if orders != [] {
      QueuedByEndpoint(orders[1..], o);
      assert orders == [orders[0]] + orders[1..];
    }
  }

  lemma {:induction false} RunSplit(s: State, rounds: seq<Round>, k: nat)
    requires k < |rounds|
    ensures Run(s, rounds[..k + 1]) == Step(Run(s, rounds[..k]), rounds[k])
    decreases k
  {
    hide Step;
    if k == 0 {
      assert rounds[..1] == [rounds[0]] && rounds[..0] == [] && [rounds[0]][1..] == [];
    } else {
      assert rounds[..k + 1][1..] == rounds[1..][..k] && rounds[..k][1..] == rounds[1..][..k - 1];
      RunSplit(Step(s, rounds[0]), rounds[1..], k - 1);
    }
  }

  /** Smart first, over every run and in terms of what was queued alone.  The pass
      that posts a regular order finds every smart order queued until its check
      already posted; a pass that finds one that is not posts a smart order. */
  lemma SmartFirstExact(rounds: seq<Round>, k: nat)
    requires k < |rounds|
    ensures var before, after := Run(EMPTY, rounds[..k]).attempts, Run(EMPTY, rounds[..k + 1]).attempts;
      var queued := ToQueue(Arrivals(rounds[..k]) + rounds[k].before, true);
      && before <= after && |after| <= |before| + 1
      && SmartOrders(before) <= queued
      && (|after| > |before| && after[|before|].RegularPost? ==> SmartOrders(before) == queued)
      && (SmartOrders(before) != queued ==>
            |after| > |before| && after[|before|].SmartPost? && after[|before|].order == queued[|SmartOrders(before)|])
  {
    hide Run, SmartOrders, RegularOrders, ToQueue, Stamps, CountIn, Inv, Step, Arrivals;
    var s, r := Run(EMPTY, rounds[..k]), rounds[k];
    RunSplit(EMPTY, rounds, k);
    NothingLostOrResent(rounds[..k]);
    EmptyInv();
    RunKeeps(EMPTY, rounds[..k]);
    InvIsFifo(s);
    ToQueueConcat(Arrivals(rounds[..k]), r.before, true);
    var pending := s.smart + ToQueue(r.before, true);
    assert ToQueue(Arrivals(rounds[..k]) + r.before, true) == SmartOrders(s.attempts) + pending;
    if pending != [] {
      PassWithSmart(s, r);
    } else {
      PassWithoutSmart(s, r);
    }
  }

  lemma InvIsFifo(s: State)
    requires Inv(s)
    ensures Fifo(s)
  {}

  // ---- How tight the rate bounds are --------------------------------------

  function Instant(response: Response): Round { Round([], [], 0, 0, 0, 0, response) }

  predicate BurstReady(s: State, k: nat, response: Response) {
    var counted := CountIn(Stamps(s.attempts), s.clock - SECOND, s.clock);
    && s.smart == [] && |s.regular| >= k
    && (if response == Accepted then counted + k <= RATE else counted < RATE)
  }

  lemma BurstPass(s: State, k: nat, response: Response)
    requires k > 0 && BurstReady(s, k, response)
    ensures var t := Step(s, Instant(response));
      && t.clock == s.clock && BurstReady(t, k - 1, response)
      && AllStamps(t.attempts) == AllStamps(s.attempts) + [s.clock]
      && Starts(t.attempts) == if response == Accepted then Starts(s.attempts) + [s.clock] else Starts(s.attempts)
  {
    hide Stamps, AllStamps, Starts, SmartOrders, RegularOrders, CountIn;
    var r := Instant(response);
    assert MaySend(s, r);
    var t := RegularPass(s, r, |s.smartHistory|);
    var a := t.attempts[|s.attempts|];
    assert Step(s, r) == t && t.attempts == s.attempts + [a];
    Append(s.attempts, a);
    CountAppend(Stamps(s.attempts), s.clock, s.clock - SECOND, s.clock);
  }

  /** Passes that take no time send one pending regular order each. */
  lemma {:induction false} Burst(s: State, k: nat, response: Response)
    requires BurstReady(s, k, response)
    ensures var t := Run(s, seq(k, _ => Instant(response)));
      && AllStamps(t.attempts) == AllStamps(s.attempts) + seq(k, _ => s.clock)
      && (response == Accepted ==> Starts(t.attempts) == Starts(s.attempts) + seq(k, _ => s.clock))
    decreases k
  {
    hide BurstReady, Step, AllStamps, Starts;
    if k > 0 {
      BurstPass(s, k, response);
      Burst(Step(s, Instant(response)), k - 1, response);
      assert seq(k, _ => Instant(response))[1..] == seq(k - 1, _ => Instant(response));
      assert seq(k, _ => s.clock) == [s.clock] + seq(k - 1, _ => s.clock);
    }
  }

  /** The "10 per second" of the code's own comment does not hold of posts: a
      slow first post lets 11 accepted posts start in the same instant. */
  lemma ElevenPostsInOneSecond()
    returns (rounds: seq<Round>, from: int)
    ensures CountIn(Starts(Run(EMPTY, rounds).attempts), from, from + SECOND) == 11
  {
    hide BurstReady, Step, Starts;
    var o := Order("placeorder", "");
    var first := Round(seq(11, _ => o), [], 0, SECOND + 1, 0, 0, Accepted);
    SlowFirstPost(o, first);
    Burst(Step(EMPTY, first), 10, Accepted);
    var burst := seq(10, _ => Instant(Accepted));
    rounds, from := [first] + burst, SECOND + 1;
    assert rounds[1..] == burst && rounds[0] == first;
    assert Run(EMPTY, rounds) == Run(Step(EMPTY, first), burst);
    CountTakesRecent(Starts(Run(EMPTY, rounds).attempts), 0, from, from + SECOND);
  }

  lemma SlowFirstPost(o: Order, first: Round)
    requires o.endpoint != SMART_ENDPOINT
    requires first == Round(seq(11, _ => o), [], 0, SECOND + 1, 0, 0, Accepted)
    ensures var s := Step(EMPTY, first);
      BurstReady(s, 10, Accepted) && s.clock == SECOND + 1 && Starts(s.attempts) == [SECOND + 1]
  {
    hide SmartOrders, RegularOrders, AllStamps;
    EnqueueRepeated(EMPTY, o, 11);
    var a := RegularPost(o, 0, SECOND + 1, SECOND + 1, Accepted, 0);
    Append([], a);
    assert [] + [a] == [a];
    assert Step(EMPTY, first).attempts == [a];
    assert CountIn([0], 1, SECOND + 1) == 0;
  }

  lemma {:induction false} EnqueueRepeated(s: State, o: Order, n: nat)
    decreases n
    requires o.endpoint != SMART_ENDPOINT
    ensures EnqueueAll(s, seq(n, _ => o))
         == s.(regular := s.regular + seq(n, _ => o), regularHistory := s.regularHistory + seq(n, _ => o))
  {
    if n > 0 {
      assert seq(n, _ => o)[1..] == seq(n - 1, _ => o);
      assert seq(n, _ => o) == [o] + seq(n - 1, _ => o);
      EnqueueRepeated(Enqueue(s, o), o, n - 1);
    }
  }

  /** Rejected posts are not limited at all: any number fits in one instant. */
  lemma RejectedPostsUnlimited(n: nat) returns (rounds: seq<Round>)
    ensures CountIn(AllStamps(Run(EMPTY, rounds).attempts), 0, SECOND) == n
  {
    var o := Order("placeorder", "");
    var queued := EnqueueAll(EMPTY, seq(n, _ => o));
    EnqueueRepeated(EMPTY, o, n);
    Burst(queued, n, Rejected);
    rounds := seq(n, _ => Instant(Rejected));
    if n > 0 {
      var first := Instant(Rejected).(before := seq(n, _ => o));
      assert Step(EMPTY, first) == Step(queued, Instant(Rejected));
      rounds := [first] + rounds[1..];
    }
    assert Run(EMPTY, rounds).attempts == Run(queued, seq(n, _ => Instant(Rejected))).attempts;
    CountTakesRecent(AllStamps(Run(EMPTY, rounds).attempts), 0, 0, SECOND);
  }

  // ---- Progress -----------------------------------------------------------

  /** How many more rate-limited sleeps can pass: the 10th stamp from the end
      is what the limiter waits for. */
  function Backoff(s: State): (n: nat)
    ensures n <= 11 || |Stamps(s.attempts)| >= RATE
  {
    var stamps := Stamps(s.attempts);
    if |stamps| < RATE then 0
    else
      var waited := (s.clock - stamps[|stamps| - RATE]) / TENTH;
      if waited <= 11 then 11 - waited else 0
  }

  function Measure(s: State): nat { |s.smart| + 12 * |s.regular| + Backoff(s) }

  lemma BackoffBounded(s: State)
    requires Inv(s)
    ensures Backoff(s) <= 11
  {
    var stamps, starts := Stamps(s.attempts), Starts(s.attempts);
    if |stamps| >= RATE {
      assert stamps[|stamps| - RATE] <= starts[|stamps| - RATE] <= s.clock;
    }
  }

  /** A refused pass means the 10th stamp from the end is at most 1 s old. */
  lemma RefusedMeansRecent(stamps: seq<int>, now: int)
    requires Sorted(stamps) && !Admits(stamps, now, RATE, SECOND)
    ensures |stamps| >= RATE && now - stamps[|stamps| - RATE] <= SECOND
  {
    if |stamps| >= RATE && now - stamps[|stamps| - RATE] > SECOND {
      CountSkipsOld(stamps, |stamps| - RATE + 1, now - SECOND, now);
    }
  }

  /** A sleep of at least 0.1 s uses up one unit of back-off. */
  lemma SleepShortensBackoff(s: State, r: Round)
    requires Inv(s) && !Admits(Stamps(s.attempts), s.clock + r.lag, RATE, SECOND)
    ensures Backoff(IdlePass(s, r)) < Backoff(s)
  {
    hide Fifo, Timeline, SmartFirst, Stamps, Starts, Admits;
    LimiterFacts(s);
    var stamps := Stamps(s.attempts);
    RefusedMeansRecent(stamps, s.clock + r.lag);
    var oldest := stamps[|stamps| - RATE];
    assert s.clock - oldest <= SECOND && IdlePass(s, r).clock - oldest >= s.clock - oldest + TENTH;
    assert (s.clock - oldest) / TENTH <= 10;
    assert (IdlePass(s, r).clock - oldest) / TENTH >= (s.clock - oldest) / TENTH + 1;
  }

  /** The clock alone never lengthens the back-off. */
  lemma SmartPassBackoff(s: State, r: Round)
    requires Inv(s) && s.smart != []
    ensures Backoff(SmartPass(s, r)) <= Backoff(s)
  {
    hide Fifo, Timeline, SmartFirst, Stamps, Starts, Inv;
    var t := SmartPass(s, r);
    LimiterFacts(s);
    var a := SmartPost(s.smart[0], s.clock + r.send, s.clock + r.send + r.reply, r.response);
    assert t.attempts == s.attempts + [a];
    Append(s.attempts, a);
    assert Stamps(t.attempts) == Stamps(s.attempts);
  }

  lemma QuietStepProgress(s: State, r: Round)
    requires Inv(s) && r.Quiet()
    ensures s.smart == [] && s.regular == [] ==> Step(s, r).smart == [] && Step(s, r).regular == []
    ensures s.smart != [] || s.regular != [] ==> Measure(Step(s, r)) < Measure(s)
  {
    hide Inv, Backoff, Stamps, Admits;
    if s.smart != [] {
      SmartPassBackoff(s, r);
      assert Step(s, r) == SmartPass(s, r);
    } else if MaySend(s, r) {
      StepKeeps(s, r);
      BackoffBounded(Step(s, r));
    } else if s.regular != [] {
      SleepShortensBackoff(s, r);
    }
  }

  /** Once nothing new is queued, both queues are empty after a number of
      passes linear in what was pending. */
  lemma {:induction false} Drains(s: State, rounds: seq<Round>)
    requires Inv(s) && forall i | 0 <= i < |rounds| :: rounds[i].Quiet()
    requires |rounds| >= |s.smart| + 12 * |s.regular| + 11 || |rounds| >= Measure(s)
    ensures Run(s, rounds).smart == [] && Run(s, rounds).regular == []
    decreases |rounds|
  {
    BackoffBounded(s);
    if rounds != [] {
      QuietStepProgress(s, rounds[0]);
      StepKeeps(s, rounds[0]);
      if s.smart == [] && s.regular == [] {
        DrainedStays(Step(s, rounds[0]), rounds[1..]);
      } else {
        Drains(Step(s, rounds[0]), rounds[1..]);
      }
    }
  }

  lemma {:induction false} DrainedStays(s: State, rounds: seq<Round>)
    requires Inv(s) && s.smart == [] && s.regular == []
    requires forall i | 0 <= i < |rounds| :: rounds[i].Quiet()
    ensures Run(s, rounds).smart == [] && Run(s, rounds).regular == []
    decreases |rounds|
  {
    if rounds != [] {
      QuietStepProgress(s, rounds[0]);
      StepKeeps(s, rounds[0]);
      DrainedStays(Step(s, rounds[0]), rounds[1..]);
    }
  }

  lemma LimiterFacts(s: State)
    requires Inv(s)
    ensures Limited(Stamps(s.attempts))
    ensures forall i | 0 <= i < |Stamps(s.attempts)| :: Stamps(s.attempts)[i] <= s.clock
    ensures s.smart == [] ==> |s.smartHistory| == |SmartOrders(s.attempts)|
  {
    var stamps, starts := Stamps(s.attempts), Starts(s.attempts);
    forall i | 0 <= i < |stamps| ensures stamps[i] <= s.clock {
      assert stamps[i] <= starts[i];
    }
  }

  lemma EmptyInv()
    ensures Inv(EMPTY)
  {}

  /** The deque keeps covering the history across a regular post. */
  lemma RegularPassCovers(s: State, r: Round, seen: nat, recent: seq<int>)
    requires s.regular != [] && Covers(recent, Stamps(s.attempts), s.clock + r.lag - SECOND)
    ensures var t := RegularPass(s, r, seen);
      Covers(if r.response == Accepted then recent + [s.clock + r.lag] else recent,
             Stamps(t.attempts), t.clock - SECOND)
  {
    hide Stamps, Starts, AllStamps, SmartOrders, RegularOrders, Covers;
    var t := RegularPass(s, r, seen);
    var now := s.clock + r.lag;
    var a := RegularPost(s.regular[0], now, now + r.send, now + r.send + r.reply, r.response, seen);
    assert t.attempts == s.attempts + [a];
    Append(s.attempts, a);
    CoversLater(recent, Stamps(s.attempts), s.clock + r.lag - SECOND, t.clock - SECOND);
    CoversAppend(recent, Stamps(s.attempts), t.clock - SECOND, s.clock + r.lag);
  }

  // ---- The code's own form ------------------------------------------------

  /** The module globals of blueprints/chartink.py.  `attempts`, `clock` and the
      two histories are the log the properties above speak of. */
  class Processor {
    var smartQueue: seq<Order>
    var regularQueue: seq<Order>
    var lastRegularOrders: seq<int>
    var running: bool
    var threadsStarted: nat
    var clock: int
    var attempts: seq<Attempt>
    var smartHistory: seq<Order>
    var regularHistory: seq<Order>

    constructor ()
      ensures Valid() && View() == EMPTY && !running
    {
      smartQueue, regularQueue, lastRegularOrders := [], [], [];
      running, threadsStarted, clock := false, 0, 0;
      attempts, smartHistory, regularHistory := [], [], [];
      new;
      hide Inv;
      EmptyInv();
    }

    ghost function View(): State
      reads this
    {
      State(smartQueue, regularQueue, clock, attempts, smartHistory, regularHistory)
    }

    /** The deque is the history without stamps too old to matter, it never
        overflows, and at most one processor thread was ever started. */
    ghost predicate Valid()
      reads this
    {
      ValidAt(clock)
    }

    ghost predicate ValidAt(reading: int)
      reads this
    {
      && Inv(View())
      && Covers(lastRegularOrders, Stamps(attempts), reading - SECOND)
      && |lastRegularOrders| <= RATE
      && threadsStarted == if running then 1 else 0
    }

    method EnsureOrderProcessor()
      requires Valid()
      modifies this`running, this`threadsStarted
      ensures Valid() && running && threadsStarted == 1
    {
      hide Inv, Stamps;
      if !running {
        running, threadsStarted := true, threadsStarted + 1;
      }
    }

    method QueueOrder(order: Order)
      requires Valid()
      modifies this
      ensures Valid() && running && View() == Enqueue(old(View()), order)
      ensures if order.endpoint == "placesmartorder"
        then smartQueue == old(smartQueue) + [order] && regularQueue == old(regularQueue)
        else regularQueue == old(regularQueue) + [order] && smartQueue == old(smartQueue)
    {
      hide Inv, Stamps;
      EnqueueAllInv(View(), [order]);
      EnsureOrderProcessor();
      if order.endpoint == SMART_ENDPOINT {
        smartQueue, smartHistory := smartQueue + [order], smartHistory + [order];
      } else {
        regularQueue, regularHistory := regularQueue + [order], regularHistory + [order];
      }
    }

    /** Other threads queueing orders between two steps of the processor. */
    method Interleave(orders: seq<Order>)
      requires Valid()
      modifies this
      ensures Valid() && View() == EnqueueAll(old(View()), orders)
    {
      hide Inv, Stamps;
      var i := 0;
      assert orders[0..] == orders;
      while i < |orders|
        invariant i <= |orders| && Valid()
        invariant EnqueueAll(View(), orders[i..]) == EnqueueAll(old(View()), orders)
      {
        QueueOrder(orders[i]);
        assert orders[i..][1..] == orders[i + 1..];
        i := i + 1;
      }
    }

    /** One pass of the loop in process_orders. */
    method Pass(r: Round)
      requires Valid()
      modifies this
      ensures Valid() && View() == Step(old(View()), r)
    {
      hide Inv, Stamps, SmartPass, RegularPass, IdlePass, MaySend;
      EnqueueAllInv(View(), r.before);
      Interleave(r.before);
      LimiterFacts(View());
      if smartQueue != [] {
        PostSmart(r);
        Interleave(r.between);
      } else {
        var seen := |smartHistory|;
        var now := clock + r.lag;
        EnqueueAllInv(View(), r.between);
        Interleave(r.between);
        PostRegular(r, now, seen);
      }
    }

    method PostSmart(r: Round)
      requires Valid() && smartQueue != []
      modifies this
      ensures Valid() && View() == SmartPass(old(View()), r)
    {
      hide Inv, Stamps, Starts, SmartOrders, RegularOrders, AllStamps;
      SmartPassKeeps(View(), r);
      var order := smartQueue[0];
      smartQueue := smartQueue[1..];
      var start := clock + r.send;
      var post := SmartPost(order, start, start + r.reply, r.response);
      Append(attempts, post);
      attempts := attempts + [post];
      clock := post.finish + SECOND + r.overshoot;
      assert View() == SmartPass(old(View()), r);
    }

    /** Drop the stamps that left the window; what stays is the number of stamps
        the whole history has inside it. */
    method PruneStamps(now: int)
      requires Valid() && now >= clock
      modifies this`lastRegularOrders
      ensures ValidAt(now)
      ensures |lastRegularOrders| == CountIn(Stamps(attempts), now - SECOND, now)
    {
      hide Inv, Stamps;
      LimiterFacts(View());
      ghost var stamps := Stamps(attempts);
      var recent := Prune(lastRegularOrders, now - SECOND);
      CoversCompose(recent, lastRegularOrders, stamps, clock - SECOND, now - SECOND);
      PrunedLengthIsCount(recent, stamps, now, SECOND);
      lastRegularOrders := recent;
    }

    method PostRegular(r: Round, now: int, seen: nat)
      requires Valid() && now == clock + r.lag && seen == |SmartOrders(attempts)|
      modifies this
      ensures Valid()
      ensures View() == if MaySend(old(View()), r) then RegularPass(old(View()), r, seen) else IdlePass(old(View()), r)
    {
      hide Inv, Stamps, CountIn, SmartOrders;
      PruneStamps(now);
      if |lastRegularOrders| < RATE && regularQueue != [] {
        SendRegular(r, now, seen);
      } else {
        IdlePassKeeps(View(), r);
        clock := now + TENTH + r.overshoot;
        assert View() == IdlePass(old(View()), r);
      }
    }

    method SendRegular(r: Round, now: int, seen: nat)
      requires ValidAt(now) && now == clock + r.lag && seen == |SmartOrders(attempts)|
      requires MaySend(View(), r) && regularQueue != [] && |lastRegularOrders| < RATE
      modifies this
      ensures Valid() && View() == RegularPass(old(View()), r, seen)
    {
      hide Inv, Stamps, CountIn, SmartOrders, RegularOrders, Starts, Covers, MaySend;
      RegularPassKeeps(View(), r, seen);
      RegularPassCovers(View(), r, seen, lastRegularOrders);
      var order := regularQueue[0];
      regularQueue := regularQueue[1..];
      var start := now + r.send;
      var post := RegularPost(order, now, start, start + r.reply, r.response, seen);
      if r.response == Accepted {
        lastRegularOrders := BoundedAppend(lastRegularOrders, now);
      }
      attempts := attempts + [post];
      clock := post.finish;
      assert View() == RegularPass(old(View()), r, seen);
    }

    method ProcessOrders(rounds: seq<Round>)
      requires Valid()
      modifies this
      ensures Valid() && View() == Run(old(View()), rounds)
    {
      hide Inv, Step;
      var i := 0;
      assert rounds[0..] == rounds;
      while i < |rounds|
        invariant i <= |rounds| && Valid()
        invariant Run(View(), rounds[i..]) == Run(old(View()), rounds)
      {
        Pass(rounds[i]);
        assert rounds[i..][1..] == rounds[i + 1..];
        i := i + 1;
      }
    }
  }

  /** deque(maxlen=10): appending to a full deque drops the oldest stamp. */
  function BoundedAppend(deque: seq<int>, stamp: int): seq<int> {
    if |deque| >= RATE then deque[1..] + [stamp] else deque + [stamp]
  }
}
