/** Row-buffer command sequencing (performance_model/dram_bank.cc, performance_model/dram_vault.cc). */
module RowBuffer {
  import opened Options

  datatype Command = ACT | PRE | PREA | RD | WR | RDA | WRA | REF | REFSB | PDE | PDX | SRE | SRX

  // Clock counts of the speed table.
  const nBL := 2
  const nRCDR := 7
  const nRCDW := 6
  const nRP := 7
  const nCWL := 4
  const nRAS := 17
  const nRC := 24
  const nRTP := 7
  const nWR := 8
  const nRFC := 0
  const FREQ := 500

  datatype Timing = Timing(cmd: Command, clocks: nat)

  /** init_timing: the commands that may follow `p`, in the order they are entered. */
  function Table(p: Command): seq<Timing> {
    match p
    case ACT => [
      Timing(RD, nRCDR), Timing(RDA, nRCDR), Timing(WR, nRCDW), Timing(WRA, nRCDW),
      Timing(ACT, nRC), Timing(PRE, nRAS)]
    case RD => [Timing(PRE, nRTP)]
    case WR => [Timing(PRE, nCWL + nBL + nWR)]
    case RDA => [Timing(ACT, nRTP + nRP)]
    case WRA => [Timing(ACT, nCWL + nBL + nWR + nRP)]
    case PRE => [Timing(ACT, nRP), Timing(REFSB, nRP)]
    case REFSB => [Timing(REFSB, nRFC), Timing(ACT, nRFC)]
    case _ => []
  }

  /** The first entry for `a`, or |t|. */
  function Search(t: seq<Timing>, a: Command): (i: nat)
    ensures i <= |t| && (i < |t| ==> t[i].cmd == a) && forall j | 0 <= j < i :: t[j].cmd != a
  {
    if t == [] || t[0].cmd == a then 0 else 1 + Search(t[1..], a)
  }

  predicate Legal(p: Command, a: Command) { Search(Table(p), a) < |Table(p)| }

  /** Nanoseconds from `p` to `a`; 0 for an illegal transition. */
  function Latency(p: Command, a: Command): nat {
    var i := Search(Table(p), a);
    if i < |Table(p)| then Table(p)[i].clocks * 1000 / FREQ else 0
  }

  /** `open` marks the open rows, `current` is cur_open_row, `illegal` counts the error messages. */
  datatype Bank = Bank(
    open: seq<bool>, current: Option<nat>, cmd: Command, hits: nat, rdCount: nat, wrCount: nat,
    tAct: nat, tPre: nat, tRd: nat, tWr: nat, illegal: nat)

  function Fresh(n: nat): Bank {
    Bank(seq(n, _ => false), None, PRE, 0, 0, 0, 0, 0, 0, 0, 0)
  }

  /** The bank after a command, and the command's latency. */
  datatype Done = Done(bank: Bank, ns: nat)

  predicate IsHit(b: Bank, cmd: Command, row: nat) {
    (cmd == WR || cmd == RD) && b.current == Some(row)
  }

  /** processCommand. */
  function Process(b: Bank, cmd: Command, row: nat): (d: Done)
    requires row < |b.open|
    ensures |d.bank.open| == |b.open|
  {
    var hit := IsHit(b, cmd, row);
    var ns := if hit then Latency(ACT, cmd) else Latency(b.cmd, cmd);
    var legal := if hit then Legal(ACT, cmd) else Legal(b.cmd, cmd);
    var b1 := b.(hits := if hit && b.cmd != ACT then b.hits + 1 else b.hits,
                 illegal := if legal then b.illegal else b.illegal + 1, cmd := cmd);
    Done(
      match cmd
      case ACT => b1.(tAct := b.tAct + ns, open := b.open[row := true], current := Some(row))
      case PRE => b1.(tPre := b.tPre + ns, open := b.open[row := false], current := None)
      case RD => b1.(tRd := b.tRd + ns, rdCount := b.rdCount + 1)
      case WR => b1.(tWr := b.tWr + ns, wrCount := b.wrCount + 1)
      case _ => b1,
      ns)
  }

  /** getOpennedRow: the first open row. */
  function OpenRow(open: seq<bool>): (r: Option<nat>)
    ensures r.Some? ==> r.value < |open| && open[r.value] && forall j | 0 <= j < r.value :: !open[j]
    ensures r.None? ==> forall j | 0 <= j < |open| :: !open[j]
  {
    OpenFrom(open, 0)
  }

  function OpenFrom(open: seq<bool>, i: nat): (r: Option<nat>)
    requires i <= |open|
    ensures r.Some? ==> i <= r.value < |open| && open[r.value] && forall j | i <= j < r.value :: !open[j]
    ensures r.None? ==> forall j | i <= j < |open| :: !open[j]
    decreases |open| - i
  {
    if i == |open| then None else if open[i] then Some(i) else OpenFrom(open, i + 1)
  }

  datatype Request = Request(write: bool, row: nat)

  /** Bring the requested row into the row buffer; also the row the source remembers as open. */
  function Prepare(b: Bank, autoRef: bool, row: nat): (Done, Option<nat>)
    requires row < |b.open|
  {
    var o := OpenRow(b.open);
    if o == None then
      var d := Process(b, ACT, row);
      (d, OpenRow(d.bank.open))
    else if o == Some(row) then (Done(b, 0), o)
    else
      var p := if autoRef then Done(b, 0) else Process(b, PRE, o.value);
      var d := Process(p.bank, ACT, row);
      (Done(d.bank, p.ns + d.ns), o)
  }

  /** processRequest of a vault, on one bank. */
  function Serve(b: Bank, autoRef: bool, q: Request): Done
    requires q.row < |b.open|
  {
    var (p, o) := Prepare(b, autoRef, q.row);
    var a := Process(p.bank, if q.write then WR else RD, q.row);
    if autoRef && o.Some? then
      var z := Process(a.bank, PRE, o.value);
      Done(z.bank, p.ns + a.ns + z.ns)
    else Done(a.bank, p.ns + a.ns)
  }

  // ----- The state between requests -----

  /** What the row buffer holds, told from the last request alone. */
  ghost predicate Holds(b: Bank, n: nat, autoRef: bool, last: Option<Request>) {
    && |b.open| == n && b.illegal == 0
    && if last == None || autoRef
       then b.current == None && b.cmd == PRE && forall i | 0 <= i < n :: !b.open[i]
       else
         && last.value.row < n && b.current == Some(last.value.row)
         && b.cmd == (if last.value.write then WR else RD)
         && forall i | 0 <= i < n :: b.open[i] <==> i == last.value.row
  }

  /** Whether a request finds its row open. */
  predicate FindsOpen(autoRef: bool, last: Option<Request>, q: Request) {
    !autoRef && last.Some? && last.value.row == q.row
  }

  function AccessNs(write: bool): nat { if write then 12 else 14 }
  function CloseNs(write: bool): nat { if write then 28 else 14 }

  /** The latency of a request, told from the previous one: 14 to open a row, 12 or 14 to access, 28 or 14 to close. */
  function Cost(autoRef: bool, last: Option<Request>, q: Request): nat {
    if autoRef then 14 + AccessNs(q.write) + CloseNs(q.write)
    else if last == None then 14 + AccessNs(q.write)
    else if last.value.row == q.row then AccessNs(q.write)
    else CloseNs(last.value.write) + 14 + AccessNs(q.write)
  }

  /** The time a request spends closing a row: its own with auto_ref, else the previous one's if that is another. */
  function Closing(autoRef: bool, last: Option<Request>, q: Request): nat {
    if autoRef then CloseNs(q.write)
    else if last == None || last.value.row == q.row then 0
    else CloseNs(last.value.write)
  }

  function Busy(b: Bank): nat { b.tAct + b.tPre + b.tRd + b.tWr }

  lemma LegalPairs()
    ensures Legal(PRE, ACT) && Legal(RD, PRE) && Legal(WR, PRE) && Legal(ACT, RD) && Legal(ACT, WR)
    ensures Latency(PRE, ACT) == 14 && Latency(RD, PRE) == 14 && Latency(WR, PRE) == 28
    ensures Latency(ACT, RD) == 14 && Latency(ACT, WR) == 12
  {
    assert Table(PRE)[0].cmd == ACT;
    assert Table(RD)[0].cmd == PRE;
    assert Table(WR)[0].cmd == PRE;
    assert Table(ACT)[0].cmd == RD;
    assert Table(ACT)[2].cmd == WR && Table(ACT)[1].cmd == RDA;
  }

  lemma OpenRowUnique(open: seq<bool>, r: nat)
    requires r < |open| && forall i | 0 <= i < |open| :: open[i] <==> i == r
    ensures OpenRow(open) == Some(r)
  {
    assert open[r];
  }

  lemma OpenRowNone(open: seq<bool>)
    requires forall i | 0 <= i < |open| :: !open[i]
    ensures OpenRow(open) == None
  {
  }

  /** After the preparation only the requested row is open, and no illegal pair was issued. */
  lemma PrepareLaw(b: Bank, n: nat, autoRef: bool, last: Option<Request>, q: Request)
    requires Holds(b, n, autoRef, last) && q.row < n
    ensures var (d, o) := Prepare(b, autoRef, q.row);
      && |d.bank.open| == n && d.bank.illegal == 0 && d.bank.current == Some(q.row)
      && (forall i | 0 <= i < n :: d.bank.open[i] <==> i == q.row)
      && d.bank.hits == b.hits && d.bank.rdCount == b.rdCount && d.bank.wrCount == b.wrCount
      && (d.bank.cmd == ACT <==> !FindsOpen(autoRef, last, q))
      && d.ns == (if FindsOpen(autoRef, last, q) then 0
                  else if last == None || autoRef then 14 else CloseNs(last.value.write) + 14)
      && d.bank.tAct == b.tAct + (if FindsOpen(autoRef, last, q) then 0 else 14)
      && d.bank.tPre == b.tPre + (if FindsOpen(autoRef, last, q) || last == None || autoRef then 0
                                  else CloseNs(last.value.write))
      && d.bank.tRd == b.tRd && d.bank.tWr == b.tWr
      && o.Some? && (autoRef ==> o == Some(q.row))
  {
    LegalPairs();
    if last == None || autoRef {
      OpenRowNone(b.open);
      OpenRowUnique(b.open[q.row := true], q.row);
    } else {
      OpenRowUnique(b.open, last.value.row);
    }
  }

  /** One request: the row buffer, the counters, the latency and the legality of every command pair. */
  lemma ServeLaw(b: Bank, n: nat, autoRef: bool, last: Option<Request>, q: Request)
    requires Holds(b, n, autoRef, last) && q.row < n
    ensures var d := Serve(b, autoRef, q);
      && Holds(d.bank, n, autoRef, Some(q))
      && d.bank.hits == b.hits + (if FindsOpen(autoRef, last, q) then 1 else 0)
      && d.bank.rdCount == b.rdCount + (if q.write then 0 else 1)
      && d.bank.wrCount == b.wrCount + (if q.write then 1 else 0)
      && d.bank.tAct == b.tAct + (if FindsOpen(autoRef, last, q) then 0 else 14)
      && d.bank.tPre == b.tPre + Closing(autoRef, last, q)
      && d.bank.tRd == b.tRd + (if q.write then 0 else 14) && d.bank.tWr == b.tWr + (if q.write then 12 else 0)
      && d.ns == Cost(autoRef, last, q) && Busy(d.bank) == Busy(b) + d.ns
  {
    hide Latency, Legal, Table, Prepare;
    LegalPairs();
    PrepareLaw(b, n, autoRef, last, q);
  }

  // ----- Runs -----

  function Last(qs: seq<Request>): Option<Request> { if qs == [] then None else Some(qs[|qs| - 1]) }

  ghost predicate InRows(qs: seq<Request>, n: nat) { forall i | 0 <= i < |qs| :: qs[i].row < n }

  /** The bank after a list of requests, and their total latency. */
  function Run(n: nat, autoRef: bool, qs: seq<Request>): (d: Done)
    requires InRows(qs, n)
    ensures Holds(d.bank, n, autoRef, Last(qs))
  {
    if qs == [] then Done(Fresh(n), 0)
    else
      var d := Run(n, autoRef, qs[..|qs| - 1]);
      ServeLaw(d.bank, n, autoRef, Last(qs[..|qs| - 1]), qs[|qs| - 1]);
      var e := Serve(d.bank, autoRef, qs[|qs| - 1]);
      Done(e.bank, d.ns + e.ns)
  }

  /** Requests that repeat the row of the request before them. */
  function Repeats(qs: seq<Request>): nat {
    if |qs| < 2 then 0
    else Repeats(qs[..|qs| - 1]) + if qs[|qs| - 1].row == qs[|qs| - 2].row then 1 else 0
  }

  function Writes(qs: seq<Request>): nat {
    if qs == [] then 0 else Writes(qs[..|qs| - 1]) + if qs[|qs| - 1].write then 1 else 0
  }

  function TotalCost(autoRef: bool, qs: seq<Request>): nat {
    if qs == [] then 0
    else TotalCost(autoRef, qs[..|qs| - 1]) + Cost(autoRef, Last(qs[..|qs| - 1]), qs[|qs| - 1])
  }

  function TotalClosing(autoRef: bool, qs: seq<Request>): nat {
    if qs == [] then 0
    else TotalClosing(autoRef, qs[..|qs| - 1]) + Closing(autoRef, Last(qs[..|qs| - 1]), qs[|qs| - 1])
  }

  /** The four busy times from the requests alone: 14 per row opened, 14 per read, 12 per write, and the closings. */
  ghost predicate Clocked(b: Bank, autoRef: bool, qs: seq<Request>) {
    && b.tAct == 14 * (|qs| - b.hits) && b.tPre == TotalClosing(autoRef, qs)
    && b.tRd == 14 * (|qs| - Writes(qs)) && b.tWr == 12 * Writes(qs)
  }

  /**
   For every request sequence: no illegal command pair, at most one open row, cur_open_row agrees with the scan,
   row_hits counts exactly the requests that repeat the previous row, and the latency is told by the requests alone.
   */
  lemma {:induction false} RunLaw(n: nat, autoRef: bool, qs: seq<Request>)
    requires InRows(qs, n)
    ensures var d := Run(n, autoRef, qs);
      && d.bank.illegal == 0
      && OpenRow(d.bank.open) == d.bank.current
      && (forall i, j | 0 <= i < n && 0 <= j < n && d.bank.open[i] && d.bank.open[j] :: i == j)
      && d.bank.current == (if autoRef || qs == [] then None else Some(qs[|qs| - 1].row))
      && d.bank.hits == (if autoRef then 0 else Repeats(qs))
      && d.bank.wrCount == Writes(qs) && d.bank.rdCount + d.bank.wrCount == |qs|
      && d.ns == TotalCost(autoRef, qs) && d.ns == Busy(d.bank)
      && Clocked(d.bank, autoRef, qs)
  {
    var b := Run(n, autoRef, qs).bank;
    if qs == [] || autoRef {
      OpenRowNone(b.open);
    } else {
      OpenRowUnique(b.open, qs[|qs| - 1].row);
    }
    RunCounts(n, autoRef, qs);
  }

  lemma {:induction false} RunCounts(n: nat, autoRef: bool, qs: seq<Request>)
    requires InRows(qs, n)
    ensures var d := Run(n, autoRef, qs);
      && d.bank.hits == (if autoRef then 0 else Repeats(qs))
      && d.bank.wrCount == Writes(qs) && d.bank.rdCount + d.bank.wrCount == |qs|
      && d.ns == TotalCost(autoRef, qs) && d.ns == Busy(d.bank)
      && Clocked(d.bank, autoRef, qs)
  {
    hide Serve, Holds;
    if qs != [] {
      var front := qs[..|qs| - 1];
      RunCounts(n, autoRef, front);
      ServeLaw(Run(n, autoRef, front).bank, n, autoRef, Last(front), qs[|qs| - 1]);
    }
  }

  // ----- A vault of independent banks -----

  datatype Routed = Routed(bank: nat, request: Request)

  /** The requests of a run that go to bank `k`. */
  function For(qs: seq<Routed>, k: nat): seq<Request> {
    if qs == [] then []
    else For(qs[..|qs| - 1], k) + if qs[|qs| - 1].bank == k then [qs[|qs| - 1].request] else []
  }

  ghost predicate Routable(qs: seq<Routed>, banks: nat, n: nat) {
    forall i | 0 <= i < |qs| :: qs[i].bank < banks && qs[i].request.row < n
  }

  lemma {:induction false} ForInRows(qs: seq<Routed>, banks: nat, n: nat, k: nat)
    requires Routable(qs, banks, n)
    ensures InRows(For(qs, k), n)
  {
    if qs != [] { ForInRows(qs[..|qs| - 1], banks, n, k); }
  }

  // ----- The objects -----

  class BankPerfModel {
    var bank: Bank

    constructor (n: nat)
      ensures bank == Fresh(n)
    {
      bank := Fresh(n);
    }

    /** getTransitionLatency: the scan of the timing vector. */
    method TransitionLatency(p: Command, a: Command) returns (ns: nat)
      modifies this
      ensures ns == Latency(p, a)
      ensures bank == old(bank).(illegal := if Legal(p, a) then old(bank).illegal else old(bank).illegal + 1)
    {
      hide Table, Search;
      var t := Table(p);
      var i := ScanTable(t, a);
      if i == |t| {
        bank := bank.(illegal := bank.illegal + 1);
        return 0;
      }
      ns := t[i].clocks * 1000 / FREQ;
    }

    method ScanTable(t: seq<Timing>, a: Command) returns (i: nat)
      ensures i == Search(t, a)
    {
      i := 0;
      while i < |t| && t[i].cmd != a
        invariant i <= |t| && forall j | 0 <= j < i :: t[j].cmd != a
      {
        i := i + 1;
      }
      SearchIs(t, a, i);
    }

    method ProcessCommand(cmd: Command, row: nat) returns (ns: nat)
      requires row < |bank.open|
      modifies this
      ensures Done(bank, ns) == Process(old(bank), cmd, row)
    {
      hide Latency, Legal;
      var rowHit := false;
      ns := 0;
      if (cmd == WR || cmd == RD) && bank.current == Some(row) {
        if bank.cmd != ACT {
          bank := bank.(hits := bank.hits + 1);
        }
        rowHit := true;
        ns := TransitionLatency(ACT, cmd);
      }
      if !rowHit {
        ns := TransitionLatency(bank.cmd, cmd);
      }
      match cmd {
        case ACT => bank := bank.(tAct := bank.tAct + ns, open := bank.open[row := true], current := Some(row));
        case PRE => bank := bank.(tPre := bank.tPre + ns, open := bank.open[row := false], current := None);
        case RD => bank := bank.(tRd := bank.tRd + ns, rdCount := bank.rdCount + 1);
        case WR => bank := bank.(tWr := bank.tWr + ns, wrCount := bank.wrCount + 1);
        case _ =>
      }
      bank := bank.(cmd := cmd);
    }

    /** getOpennedRow: the scan of the row states. */
    method OpennedRow() returns (r: Option<nat>)
      ensures r == OpenRow(bank.open)
    {
      for i := 0 to |bank.open|
        invariant OpenRow(bank.open) == OpenFrom(bank.open, i)
      {
        if bank.open[i] {
          return Some(i);
        }
      }
      return None;
    }
  }

  class VaultPerfModel {
    const autoRef: bool
    const rows: nat
    const banks: seq<BankPerfModel>

    constructor (b: seq<BankPerfModel>, n: nat, a: bool)
      requires forall i, j | 0 <= i < j < |b| :: b[i] != b[j]
      requires forall i | 0 <= i < |b| :: b[i].bank == Fresh(n)
      ensures banks == b && autoRef == a && rows == n && Serves([])
    {
      autoRef, rows, banks := a, n, b;
    }

    /** Every bank is in the state its own requests of the run `qs` have brought it to. */
    ghost predicate Serves(qs: seq<Routed>)
      reads banks
    {
      && (forall i, j | 0 <= i < j < |banks| :: banks[i] != banks[j])
      && Routable(qs, |banks|, rows)
      && forall k: nat | k < |banks| :: Reached(qs, k)
    }

    ghost predicate Reached(qs: seq<Routed>, k: nat)
      requires k < |banks| && Routable(qs, |banks|, rows)
      reads banks
    {
      ForInRows(qs, |banks|, rows, k);
      banks[k].bank == Run(rows, autoRef, For(qs, k)).bank
    }

    /** processRequest: a request changes its own bank only, and takes the time its bank's history says. */
    method ProcessRequest(q: Routed, ghost qs: seq<Routed>) returns (ns: nat)
      requires Serves(qs) && q.bank < |banks| && q.request.row < rows
      modifies banks[q.bank]
      ensures Serves(qs + [q]) && ns == Cost(autoRef, Last(For(qs, q.bank)), q.request)
    {
      hide Run, Process, OpenRow;
      var b, row := banks[q.bank], q.request.row;
      assert Reached(qs, q.bank);
      ForInRows(qs, |banks|, rows, q.bank);
      ghost var start := b.bank;
      ServeLaw(start, rows, autoRef, Last(For(qs, q.bank)), q.request);
      ns := ServeOn(b, q.request);
      forall k: nat | k < |banks| ensures Reached(qs + [q], k) {
        assert old(Reached(qs, k));
        ForSnoc(qs, q, k);
        ForInRows(qs, |banks|, rows, k);
        if k == q.bank {
          RunSnoc(rows, autoRef, For(qs, k), q.request);
        } else {
          assert For(qs + [q], k) == For(qs, k);
          assert banks[k].bank == old(banks[k].bank);
        }
      }
    }

    method ServeOn(b: BankPerfModel, q: Request) returns (ns: nat)
      requires q.row < |b.bank.open|
      modifies b
      ensures Done(b.bank, ns) == Serve(old(b.bank), autoRef, q)
    {
      hide Process;
      var was := b.OpennedRow();
      ns := 0;
      if was == None {
        ns := b.ProcessCommand(ACT, q.row);
        was := b.OpennedRow();
      } else if was == Some(q.row) {
      } else {
        if !autoRef {
          ns := b.ProcessCommand(PRE, was.value);
        }
        var t := b.ProcessCommand(ACT, q.row);
        ns := ns + t;
      }
      var t := b.ProcessCommand(if q.write then WR else RD, q.row);
      ns := ns + t;
      if autoRef && was.Some? {
        t := b.ProcessCommand(PRE, was.value);
        ns := ns + t;
      }
    }
  }

  lemma SearchIs(t: seq<Timing>, a: Command, i: nat)
    requires i <= |t| && (forall j | 0 <= j < i :: t[j].cmd != a) && (i < |t| ==> t[i].cmd == a)
    ensures Search(t, a) == i
  {
    var k := Search(t, a);
    assert i < |t| ==> k <= i;
  }

  lemma ForSnoc(qs: seq<Routed>, q: Routed, k: nat)
    ensures For(qs + [q], k) == For(qs, k) + if q.bank == k then [q.request] else []
  {
    assert (qs + [q])[..|qs|] == qs;
  }

  lemma RunSnoc(n: nat, autoRef: bool, qs: seq<Request>, q: Request)
    requires InRows(qs, n) && q.row < n
    ensures InRows(qs + [q], n)
    ensures q.row < |Run(n, autoRef, qs).bank.open|
    ensures Run(n, autoRef, qs + [q]).bank == Serve(Run(n, autoRef, qs).bank, autoRef, q).bank
  {
    hide Serve;
    assert (qs + [q])[..|qs|] == qs;
  }
}
