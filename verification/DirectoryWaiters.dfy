/** The directory-waiter protocol of a cache controller, as interleaved atomic steps (cache_cntlr.cc). */
module DirectoryWaiters {

  /** A request waiting for the directory: `id` stands for the waiting controller and its thread. */
  datatype Waiter = Waiter(id: nat, exclusive: bool)

  /** Where a network thread handling a reply stands between two lock acquisitions. */
  datatype Phase =
    | Delivered            // the reply has arrived, the requester is about to be read from the queue
    | Inserting            // the requester is known, the line is being inserted
    | Serving(w: Waiter)   // the front request is in hand, the lock is released
    | Waking(w: Waiter)    // its thread has been woken, the request is not yet dequeued

  /**
   One cache line. `pending` holds the threads that found themselves first and have not sent yet, `requests`
   counts messages the directory owes a reply to. `arrived` and `woken` are histories; `fault` records a read
   of the front of an empty queue, or a dequeue of a request other than the one in hand.
   */
  datatype Line = Line(
    queue: seq<Waiter>, pending: multiset<Waiter>, requests: nat, handlers: multiset<Phase>,
    arrived: seq<Waiter>, woken: seq<Waiter>, fault: bool)

  const IDLE := Line([], multiset{}, 0, multiset{}, [], [], false)

  datatype Step =
    | Arrive(w: Waiter)
    | Send(w: Waiter)
    | Deliver
    | TakeRequester
    | EnterLoop
    | Decide(w: Waiter, shared: bool)
    | Retire(w: Waiter)

  predicate Enabled(l: Line, s: Step) {
    match s
    case Arrive(_) => true
    case Send(w) => w in l.pending
    case Deliver => l.requests > 0
    case TakeRequester => Delivered in l.handlers
    case EnterLoop => Inserting in l.handlers
    case Decide(w, _) => Serving(w) in l.handlers
    case Retire(w) => Waking(w) in l.handlers
  }

  /** A handler moves on, or leaves the loop and returns. */
  function Move(l: Line, from: Phase, to: multiset<Phase>): Line {
    l.(handlers := l.handlers - multiset{from} + to)
  }

  /** The loop test under the lock: take the front request, or leave. */
  function LoopTest(l: Line, from: Phase): Line {
    if l.queue == [] then Move(l, from, multiset{}) else Move(l, from, multiset{Serving(l.queue[0])})
  }

  function Next(l: Line, s: Step): Line
    requires Enabled(l, s)
  {
    match s
    case Arrive(w) =>
      var q := l.queue + [w];
      l.(queue := q, arrived := l.arrived + [w], pending := if |q| == 1 then l.pending + multiset{w} else l.pending)
    case Send(w) =>
      l.(pending := l.pending - multiset{w}, requests := l.requests + 1)
    case Deliver =>
      l.(requests := l.requests - 1, handlers := l.handlers + multiset{Delivered})
    case TakeRequester =>
      Move(l.(fault := l.fault || l.queue == []), Delivered, multiset{Inserting})
    case EnterLoop =>
      LoopTest(l, Inserting)
    case Decide(w, shared) =>
      if w.exclusive && shared then Move(l.(requests := l.requests + 1), Serving(w), multiset{})
      else Move(l.(woken := l.woken + [w]), Serving(w), multiset{Waking(w)})
    case Retire(w) =>
      if l.queue == [] then Move(l.(fault := true), Waking(w), multiset{})
      else LoopTest(l.(queue := l.queue[1..], fault := l.fault || l.queue[0] != w), Waking(w))
  }

  /** How many parties currently act for the line. */
  function Tokens(l: Line): nat { |l.pending| + l.requests + |l.handlers| }

  ghost predicate InHand(l: Line, p: Phase) {
    match p
    case Serving(w) => l.queue != [] && l.queue[0] == w
    case Waking(w) => l.queue != [] && l.queue[0] == w
    case _ => true
  }

  /** The waiters woken so far are those dequeued, plus the one being woken. */
  ghost predicate Fifo(l: Line) {
    if exists w :: Waking(w) in l.handlers
    then l.queue != [] && l.arrived == l.woken + l.queue[1..]
         && 0 < |l.woken| && l.woken[|l.woken| - 1] == l.queue[0]
    else l.arrived == l.woken + l.queue
  }

  /** A waiting line has exactly one party acting for it, an idle one none. */
  ghost predicate LineInv(l: Line) {
    && !l.fault
    && Tokens(l) == (if l.queue == [] then 0 else 1)
    && (forall p | p in l.handlers :: InHand(l, p))
    && Fifo(l)
  }

  // ----- Multisets of at most one element -----

  lemma Only<T>(m: multiset<T>, x: T)
    requires x in m && |m| <= 1
    ensures m == multiset{x}
  {
    assert m == m - multiset{x} + multiset{x};
    assert |m| == |m - multiset{x}| + 1;
  }

  lemma NonEmpty<T>(m: multiset<T>) returns (x: T)
    requires |m| > 0
    ensures x in m
  {
    x :| x in m;
  }

  /** The shape of a line whose only party is a handler in phase `p`. */
  lemma SoleHandler(l: Line, p: Phase)
    requires LineInv(l) && p in l.handlers
    ensures l.handlers == multiset{p} && l.pending == multiset{} && l.requests == 0 && l.queue != []
  {
    assert l.handlers == l.handlers - multiset{p} + multiset{p};
    Only(l.handlers, p);
  }

  lemma StepKeepsInv(l: Line, s: Step)
    requires LineInv(l) && Enabled(l, s)
    ensures LineInv(Next(l, s))
  {
    hide LineInv, Next;
    match s
    case Arrive(w) => ArriveKeeps(l, w);
    case Send(w) => SendKeeps(l, w);
    case Deliver => DeliverKeeps(l);
    case TakeRequester => TakeKeeps(l);
    case EnterLoop => EnterKeeps(l);
    case Decide(w, shared) => DecideKeeps(l, w, shared);
    case Retire(w) => RetireKeeps(l, w);
  }

  lemma SendKeeps(l: Line, w: Waiter)
    requires LineInv(l) && w in l.pending
    ensures LineInv(Next(l, Send(w)))
  {
    assert l.pending == l.pending - multiset{w} + multiset{w};
  }

  lemma DeliverKeeps(l: Line)
    requires LineInv(l) && l.requests > 0
    ensures LineInv(Next(l, Deliver))
  {
    assert |l.handlers| == 0;
    assert Next(l, Deliver).handlers == multiset{Delivered};
  }

  lemma TakeKeeps(l: Line)
    requires LineInv(l) && Delivered in l.handlers
    ensures LineInv(Next(l, TakeRequester))
  {
    SoleHandler(l, Delivered);
    assert Next(l, TakeRequester).handlers == multiset{Inserting};
  }

  lemma EnterKeeps(l: Line)
    requires LineInv(l) && Inserting in l.handlers
    ensures LineInv(Next(l, EnterLoop))
  {
    SoleHandler(l, Inserting);
    assert Next(l, EnterLoop).handlers == multiset{Serving(l.queue[0])};
  }

  lemma ArriveKeeps(l: Line, w: Waiter)
    requires LineInv(l)
    ensures LineInv(Next(l, Arrive(w)))
  {
    var r := Next(l, Arrive(w));
    if l.queue == [] {
      assert |l.handlers| == 0 && |l.pending| == 0;
    } else {
      assert r.queue[0] == l.queue[0];
      assert r.queue[1..] == l.queue[1..] + [w];
    }
  }

  lemma DecideKeeps(l: Line, w: Waiter, shared: bool)
    requires LineInv(l) && Serving(w) in l.handlers
    ensures LineInv(Next(l, Decide(w, shared)))
  {
    SoleHandler(l, Serving(w));
    var r := Next(l, Decide(w, shared));
    assert InHand(l, Serving(w));
    if w.exclusive && shared {
      assert r.handlers == multiset{};
    } else {
      assert r.handlers == multiset{Waking(w)};
      assert Waking(w) in r.handlers;
      assert l.queue == [w] + l.queue[1..];
    }
  }

  lemma RetireKeeps(l: Line, w: Waiter)
    requires LineInv(l) && Waking(w) in l.handlers
    ensures LineInv(Next(l, Retire(w)))
  {
    SoleHandler(l, Waking(w));
    assert InHand(l, Waking(w));
    var r := Next(l, Retire(w));
    assert r.queue == l.queue[1..];
    if r.queue != [] {
      assert r.handlers == multiset{Serving(r.queue[0])};
    } else {
      assert r.handlers == multiset{};
    }
  }

  // ----- Runs over all addresses -----

  /** Lines by address; an address never used is idle. */
  type Lines = map<nat, Line>

  function At(ls: Lines, a: nat): Line { if a in ls then ls[a] else IDLE }

  datatype Event = Event(address: nat, step: Step)

  /** Every event is enabled when its turn comes. */
  ghost predicate Possible(ls: Lines, es: seq<Event>)
    decreases |es|, 0
  {
    es == [] || (
      var front, e := es[..|es| - 1], es[|es| - 1];
      Possible(ls, front) && Enabled(At(Run(ls, front), e.address), e.step))
  }

  ghost function Run(ls: Lines, es: seq<Event>): Lines
    requires Possible(ls, es)
    decreases |es|, 1
  {
    if es == [] then ls
    else
      var r, e := Run(ls, es[..|es| - 1]), es[|es| - 1];
      r[e.address := Next(At(r, e.address), e.step)]
  }

  /** In every interleaving, from idle lines, the protocol invariant holds at every address. */
  lemma {:induction false} RunKeepsInv(es: seq<Event>, a: nat)
    requires Possible(map[], es)
    ensures LineInv(At(Run(map[], es), a))
    decreases |es|
  {
    if es == [] {
      assert IDLE.arrived == IDLE.woken + IDLE.queue;
    } else {
      var front, e := es[..|es| - 1], es[|es| - 1];
      RunKeepsInv(front, a);
      if e.address == a {
        StepKeepsInv(At(Run(map[], front), a), e.step);
      }
    }
  }

  /** Reading the front at reply time is always safe, and wake-ups follow arrivals, in order, each once. */
  lemma ServedInOrder(es: seq<Event>, a: nat)
    requires Possible(map[], es)
    ensures var l := At(Run(map[], es), a);
      && !l.fault
      && (Delivered in l.handlers ==> l.queue != [])
      && l.woken <= l.arrived
      && (l.queue == [] ==> l.woken == l.arrived && Tokens(l) == 0)
      && (l.queue != [] ==> Tokens(l) == 1)
  {
    RunKeepsInv(es, a);
    var l := At(Run(map[], es), a);
    if Delivered in l.handlers { SoleHandler(l, Delivered); }
    if w :| Waking(w) in l.handlers { SoleHandler(l, Waking(w)); }
  }

  // ----- The state told from the events -----

  predicate IsUpgrade(s: Step) { s.Decide? && s.w.exclusive && s.shared }

  predicate IsWake(s: Step) { s.Decide? && !(s.w.exclusive && s.shared) }

  /** How many events at `a` satisfy `p`. */
  ghost function Tally(es: seq<Event>, a: nat, p: Step -> bool): nat {
    if es == [] then 0
    else
      var e := es[|es| - 1];
      Tally(es[..|es| - 1], a, p) + if e.address == a && p(e.step) then 1 else 0
  }

  /** The waiters of the events at `a` that satisfy `p`, in order. */
  ghost function Waiters(es: seq<Event>, a: nat, p: Step -> bool): seq<Waiter>
    requires forall s | p(s) :: !s.Deliver? && !s.TakeRequester? && !s.EnterLoop?
  {
    if es == [] then []
    else
      var e := es[|es| - 1];
      Waiters(es[..|es| - 1], a, p) + if e.address == a && p(e.step) then [e.step.w] else []
  }

  /** What one step adds to the histories and to the counts. */
  lemma StepHistory(l: Line, s: Step)
    requires LineInv(l) && Enabled(l, s)
    ensures var r := Next(l, s);
      && r.arrived == l.arrived + (if s.Arrive? then [s.w] else [])
      && r.woken == l.woken + (if IsWake(s) then [s.w] else [])
      && r.queue == (if s.Arrive? then l.queue + [s.w]
                     else if s.Retire? && l.queue != [] then l.queue[1..] else l.queue)
      && r.requests + (if s.Deliver? then 1 else 0) ==
           l.requests + (if s.Send? then 1 else 0) + (if IsUpgrade(s) then 1 else 0)
  {
  }

  /** The steps by which a handler enters and leaves a phase. */
  predicate Enters(s: Step, p: Phase)
    requires !p.Serving?
  {
    match p
    case Delivered => s.Deliver?
    case Inserting => s.TakeRequester?
    case Waking(w) => IsWake(s) && s.w == w
  }

  predicate Leaves(s: Step, p: Phase) {
    match p
    case Delivered => s.TakeRequester?
    case Inserting => s.EnterLoop?
    case Serving(w) => s.Decide? && s.w == w
    case Waking(w) => s == Retire(w)
  }

  lemma MoveCounts(l: Line, from: Phase, to: multiset<Phase>, p: Phase)
    requires from in l.handlers
    ensures Move(l, from, to).handlers[p] + (if p == from then 1 else 0) == l.handlers[p] + to[p]
  {
  }

  lemma StepPhase(l: Line, s: Step, p: Phase)
    requires Enabled(l, s) && !p.Serving?
    ensures Next(l, s).handlers[p] + (if Leaves(s, p) then 1 else 0) == l.handlers[p] + (if Enters(s, p) then 1 else 0)
  {
    hide Move;
    match s
    case Arrive(w) =>
    case Send(w) =>
    case Deliver =>
    case TakeRequester => MoveCounts(l.(fault := l.fault || l.queue == []), Delivered, multiset{Inserting}, p);
    case EnterLoop => LoopCounts(l, Inserting, p);
    case Decide(w, shared) =>
      if w.exclusive && shared {
        MoveCounts(l.(requests := l.requests + 1), Serving(w), multiset{}, p);
      } else {
        MoveCounts(l.(woken := l.woken + [w]), Serving(w), multiset{Waking(w)}, p);
      }
    case Retire(w) =>
      if l.queue == [] {
        MoveCounts(l.(fault := true), Waking(w), multiset{}, p);
      } else {
        LoopCounts(l.(queue := l.queue[1..], fault := l.fault || l.queue[0] != w), Waking(w), p);
      }
  }

  lemma LoopCounts(l: Line, from: Phase, p: Phase)
    requires from in l.handlers && !p.Serving?
    ensures LoopTest(l, from).handlers[p] + (if p == from then 1 else 0) == l.handlers[p]
  {
    hide Move;
    MoveCounts(l, from, multiset{}, p);
    if l.queue != [] { MoveCounts(l, from, multiset{Serving(l.queue[0])}, p); }
  }

  /**
   From the list of events alone: who has arrived and who was woken, in order, and that the requests sent are the
   first requests plus the upgrades.
   */
  lemma {:induction false} HistoryLaw(es: seq<Event>, a: nat)
    requires Possible(map[], es)
    ensures var l := At(Run(map[], es), a);
      && l.arrived == Waiters(es, a, (s: Step) => s.Arrive?)
      && l.woken == Waiters(es, a, (s: Step) => IsWake(s))
      && l.requests + Tally(es, a, (s: Step) => s.Deliver?) ==
           Tally(es, a, (s: Step) => s.Send?) + Tally(es, a, (s: Step) => IsUpgrade(s))
    decreases |es|
  {
    hide LineInv, Next;
    if es != [] {
      var front, e := es[..|es| - 1], es[|es| - 1];
      HistoryLaw(front, a);
      if e.address == a {
        RunKeepsInv(front, a);
        StepHistory(At(Run(map[], front), a), e.step);
      }
    }
  }

  /** How many handlers are in a phase: those that entered it and have not left. */
  lemma {:induction false} PhaseLaw(es: seq<Event>, a: nat, p: Phase)
    requires Possible(map[], es) && !p.Serving?
    ensures At(Run(map[], es), a).handlers[p] + Tally(es, a, (s: Step) => Leaves(s, p))
         == Tally(es, a, (s: Step) => Enters(s, p))
    decreases |es|
  {
    hide Next, Leaves, Enters;
    if es != [] {
      var front, e := es[..|es| - 1], es[|es| - 1];
      PhaseLaw(front, a, p);
      if e.address == a { StepPhase(At(Run(map[], front), a), e.step, p); }
    }
  }

  /** An exclusive waiter is woken only by a decision that did not find the line SHARED. */
  lemma ExclusiveWokenUnshared(es: seq<Event>, a: nat, i: nat)
    requires Possible(map[], es) && i < |At(Run(map[], es), a).woken| && At(Run(map[], es), a).woken[i].exclusive
    ensures Event(a, Decide(At(Run(map[], es), a).woken[i], false)) in es
  {
    HistoryLaw(es, a);
    WakeEvent(es, a, i);
  }

  lemma {:induction false} WakeEvent(es: seq<Event>, a: nat, i: nat)
    requires i < |Waiters(es, a, (s: Step) => IsWake(s))|
    ensures var w := Waiters(es, a, (s: Step) => IsWake(s))[i];
            Event(a, Decide(w, false)) in es || (!w.exclusive && Event(a, Decide(w, true)) in es)
    decreases |es|
  {
    var front := es[..|es| - 1];
    if i < |Waiters(front, a, (s: Step) => IsWake(s))| { WakeEvent(front, a, i); }
  }

  /** A decision that finds the line SHARED leaves an exclusive waiter asleep at the front, with a request under way. */
  lemma UpgradeKeepsWaiting(es: seq<Event>, a: nat, w: Waiter)
    requires Possible(map[], es) && Enabled(At(Run(map[], es), a), Decide(w, true)) && w.exclusive
    ensures var l, r := At(Run(map[], es), a), Next(At(Run(map[], es), a), Decide(w, true));
      && r.woken == l.woken && r.queue == l.queue && r.queue != [] && r.queue[0] == w
      && r.requests == 1 && r.handlers == multiset{} && r.pending == multiset{}
  {
    RunKeepsInv(es, a);
    var l := At(Run(map[], es), a);
    SoleHandler(l, Serving(w));
    assert InHand(l, Serving(w));
    assert Next(l, Decide(w, true)).handlers == multiset{};
  }

  // ----- Nobody is stranded -----

  /** Some party can act whenever somebody waits. */
  lemma Progress(l: Line)
    requires LineInv(l) && l.queue != []
    ensures exists s: Step :: !s.Arrive? && Enabled(l, s)
  {
    if l.requests > 0 {
      assert Enabled(l, Deliver);
    } else if |l.pending| > 0 {
      var w := NonEmpty(l.pending);
      assert Enabled(l, Send(w));
    } else {
      var p := NonEmpty(l.handlers);
      match p
      case Delivered => assert Enabled(l, TakeRequester);
      case Inserting => assert Enabled(l, EnterLoop);
      case Serving(w) => assert Enabled(l, Decide(w, false));
      case Waking(w) => assert Enabled(l, Retire(w));
    }
  }

  function PhaseRank(p: Phase): nat {
    match p
    case Delivered => 3
    case Inserting => 2
    case Serving(_) => 1
    case Waking(_) => 0
  }

  /** A bound on the steps left before the queue is empty, if nobody arrives and no upgrade is sent. */
  ghost function Rank(l: Line): nat {
    6 * |l.queue| +
    if |l.pending| > 0 then 5
    else if l.requests > 0 then 4
    else if |l.handlers| > 0 then var p :| p in l.handlers; PhaseRank(p)
    else 0
  }

  lemma HandlerRank(l: Line, p: Phase)
    requires l.handlers == multiset{p} && l.pending == multiset{} && l.requests == 0
    ensures Rank(l) == 6 * |l.queue| + PhaseRank(p)
  {
    assert forall q | q in l.handlers :: q == p;
  }

  lemma StepLowersRank(l: Line, s: Step)
    requires LineInv(l) && Enabled(l, s) && !s.Arrive?
    ensures Rank(Next(l, s)) + 1 <= Rank(l) + if IsUpgrade(s) then 4 else 0
  {
    hide LineInv, Next, Rank;
    match s
    case Arrive(w) =>
    case Send(w) => SendLowersRank(l, w);
    case Deliver => DeliverLowersRank(l);
    case TakeRequester => TakeLowersRank(l);
    case EnterLoop => EnterLowersRank(l);
    case Decide(w, shared) => DecideLowersRank(l, w, shared);
    case Retire(w) => RetireLowersRank(l, w);
  }

  lemma SendLowersRank(l: Line, w: Waiter)
    requires LineInv(l) && w in l.pending
    ensures Rank(Next(l, Send(w))) + 1 <= Rank(l)
  {
    assert l.pending == l.pending - multiset{w} + multiset{w};
  }

  lemma DeliverLowersRank(l: Line)
    requires LineInv(l) && l.requests > 0
    ensures Rank(Next(l, Deliver)) + 1 <= Rank(l)
  {
    assert |l.handlers| == 0 && |l.pending| == 0;
    HandlerRank(Next(l, Deliver), Delivered);
  }

  lemma TakeLowersRank(l: Line)
    requires LineInv(l) && Delivered in l.handlers
    ensures Rank(Next(l, TakeRequester)) + 1 <= Rank(l)
  {
    HandlerLowersRank(l, TakeRequester, Delivered, Inserting);
  }

  lemma EnterLowersRank(l: Line)
    requires LineInv(l) && Inserting in l.handlers
    ensures Rank(Next(l, EnterLoop)) + 1 <= Rank(l)
  {
    SoleHandler(l, Inserting);
    HandlerLowersRank(l, EnterLoop, Inserting, Serving(l.queue[0]));
  }

  lemma DecideLowersRank(l: Line, w: Waiter, shared: bool)
    requires LineInv(l) && Serving(w) in l.handlers
    ensures Rank(Next(l, Decide(w, shared))) + 1 <= Rank(l) + if IsUpgrade(Decide(w, shared)) then 4 else 0
  {
    SoleHandler(l, Serving(w));
    if w.exclusive && shared {
      HandlerRank(l, Serving(w));
      assert Next(l, Decide(w, shared)).handlers == multiset{};
    } else {
      HandlerLowersRank(l, Decide(w, shared), Serving(w), Waking(w));
    }
  }

  lemma RetireLowersRank(l: Line, w: Waiter)
    requires LineInv(l) && Waking(w) in l.handlers
    ensures Rank(Next(l, Retire(w))) + 1 <= Rank(l)
  {
    SoleHandler(l, Waking(w));
    HandlerRank(l, Waking(w));
    var r := Next(l, Retire(w));
    if |l.queue| > 1 {
      assert r.handlers == multiset{Serving(l.queue[1])};
      HandlerRank(r, Serving(l.queue[1]));
    } else {
      assert r.handlers == multiset{};
    }
  }

  /** A handler that moves to a later phase without touching the queue. */
  lemma HandlerLowersRank(l: Line, s: Step, p: Phase, q: Phase)
    requires LineInv(l) && Enabled(l, s) && p in l.handlers && PhaseRank(q) < PhaseRank(p)
    requires var r := Next(l, s);
      r.queue == l.queue && r.pending == l.pending && r.requests == l.requests
      && r.handlers == l.handlers - multiset{p} + multiset{q}
    ensures Rank(Next(l, s)) < Rank(l)
  {
    SoleHandler(l, p);
    HandlerRank(l, p);
    HandlerRank(Next(l, s), q);
  }

  function Upgrades(ss: seq<Step>): nat {
    if ss == [] then 0 else (if IsUpgrade(ss[0]) then 1 else 0) + Upgrades(ss[1..])
  }

  /** The steps of one line, one after the other, without arrivals. */
  ghost predicate Drains(l: Line, ss: seq<Step>)
    decreases |ss|
  {
    ss == [] || (!ss[0].Arrive? && Enabled(l, ss[0]) && Drains(Next(l, ss[0]), ss[1..]))
  }

  ghost function DrainedTo(l: Line, ss: seq<Step>): Line
    requires Drains(l, ss)
    decreases |ss|
  {
    if ss == [] then l else DrainedTo(Next(l, ss[0]), ss[1..])
  }

  /** Every arrival-free schedule is finite: its length is bounded by the rank and the upgrades sent. */
  lemma {:induction false} DrainBounded(l: Line, ss: seq<Step>)
    requires LineInv(l) && Drains(l, ss)
    ensures LineInv(DrainedTo(l, ss)) && |ss| + Rank(DrainedTo(l, ss)) <= Rank(l) + 4 * Upgrades(ss)
    decreases |ss|
  {
    hide Rank, LineInv, Next;
    if ss != [] {
      StepKeepsInv(l, ss[0]);
      StepLowersRank(l, ss[0]);
      DrainBounded(Next(l, ss[0]), ss[1..]);
    }
  }

  /** A schedule that cannot be extended has woken every waiter that ever arrived. */
  lemma DrainComplete(l: Line, ss: seq<Step>)
    requires LineInv(l) && Drains(l, ss)
    requires forall s: Step | Enabled(DrainedTo(l, ss), s) :: s.Arrive?
    ensures DrainedTo(l, ss).queue == [] && DrainedTo(l, ss).woken == DrainedTo(l, ss).arrived
  {
    hide DrainedTo, Drains;
    DrainBounded(l, ss);
    var r := DrainedTo(l, ss);
    if r.queue != [] {
      Progress(r);
    }
    if w :| Waking(w) in r.handlers { SoleHandler(r, Waking(w)); }
  }
}
