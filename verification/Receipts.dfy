/** The append-only receipt log of one process.  A call checks the request id under the lock,
    releases it, builds its receipt, and checks again under the lock before appending; threads may
    interleave between the two sections, reads may fail and an append may fail or tear. */
module Receipts {
  import opened Prelude

  datatype Request = Request(id: Key, manifest: string, reviewKey: Key, activeMs: nat, payload: string)

  /** One call: the request, its actor, and the occurrence position its receipt will carry. */
  datatype Call = Call(request: Request, actor: string, index: nat, count: nat)

  datatype Receipt = Receipt(request: Request, actor: string, index: nat, count: nat)

  /** How the file ends: after a newline, after a complete receipt whose newline is missing, or
      with a line that no later read accepts. */
  datatype Tail = Clean | Unterminated | Torn

  /** The receipts are those whose line is intact; a read returns them unless the log is torn. */
  datatype Log = Log(receipts: seq<Receipt>, tail: Tail)

  datatype Result = Receipted(receipt: Receipt, replayed: bool) | Refused

  datatype Extent = Part | AllButNewline | All

  /** An append fails without storing anything, or stores at least one byte.  In the second case
      the count of stored bytes that the write returns is not looked at, and the append may still
      raise while flushing or changing the mode. */
  datatype Write = Fails | Writes(extent: Extent, raises: bool)

  function ReceiptOf(c: Call): Receipt { Receipt(c.request, c.actor, c.index, c.count) }

  predicate Answers(r: Receipt, c: Call) { r.request == c.request && r.actor == c.actor }

  /** The first receipt with the call's request id decides: replayed, or refused as a conflict. */
  function Scan(receipts: seq<Receipt>, c: Call): Option<Result> {
    if receipts == [] then None
    else if receipts[0].request.id != c.request.id then Scan(receipts[1..], c)
    else if Answers(receipts[0], c) then Some(Receipted(receipts[0], true))
    else Some(Refused)
  }

  /** The log after a write.  Text that follows a missing newline joins the line before it, and
      neither receipt is read again. */
  function Append(log: Log, w: Write, r: Receipt): Log {
    if w.Fails? then log
    else if log.tail.Unterminated? then Log(AllButLast(log.receipts), Torn)
    else if w.extent.Part? then log.(tail := Torn)
    else Log(log.receipts + [r], if w.extent.All? then Clean else Unterminated)
  }

  function AllButLast(receipts: seq<Receipt>): seq<Receipt> {
    if receipts == [] then [] else receipts[..|receipts| - 1]
  }

  predicate Raises(w: Write) { w.Fails? || w.raises }

  /** The first locked section. */
  function CheckFirst(log: Log, readable: bool, c: Call): Option<Result> {
    if !readable || log.tail.Torn? then Some(Refused) else Scan(log.receipts, c)
  }

  /** The second locked section: check again, then append. */
  function CheckAndAppend(log: Log, readable: bool, write: Write, c: Call): (Log, Result) {
    if !readable || log.tail.Torn? then (log, Refused)
    else
      var found := Scan(log.receipts, c);
      if found.Some? then (log, found.value)
      else (Append(log, write, ReceiptOf(c)), if Raises(write) then Refused else Receipted(ReceiptOf(c), false))
  }

  class ReceiptLog {
    var receipts: seq<Receipt>
    var tail: Tail

    ghost function State(): Log
      reads this
    {
      Log(receipts, tail)
    }

    constructor ()
      ensures State() == Log([], Clean)
    {
      receipts, tail := [], Clean;
    }

    /** Scans the log for the request id. */
    method Find(c: Call) returns (r: Option<Result>)
      ensures r == Scan(receipts, c)
    {
      var i := 0;
      while i < |receipts|
        invariant i <= |receipts| && Scan(receipts, c) == Scan(receipts[i..], c)
      {
        if receipts[i].request.id == c.request.id {
          return Some(if Answers(receipts[i], c) then Receipted(receipts[i], true) else Refused);
        }
        i := i + 1;
      }
      r := None;
    }

    method FirstSection(readable: bool, c: Call) returns (r: Option<Result>)
      ensures r == CheckFirst(State(), readable, c)
    {
      if !readable || tail.Torn? { return Some(Refused); }
      r := Find(c);
    }

    method SecondSection(readable: bool, write: Write, c: Call) returns (r: Result)
      modifies this
      ensures (State(), r) == old(CheckAndAppend(State(), readable, write, c))
    {
      if !readable || tail.Torn? { return Refused; }
      var found := Find(c);
      if found.Some? { return found.value; }
      if write.Fails? { return Refused; }
      if tail.Unterminated? {
        receipts, tail := AllButLast(receipts), Torn;
      } else if write.extent.Part? {
        tail := Torn;
      } else {
        receipts := receipts + [ReceiptOf(c)];
        tail := if write.extent.All? then Clean else Unterminated;
      }
      r := if write.raises then Refused else Receipted(ReceiptOf(c), false);
    }
  }

  // ---------------------------------------------------------------- interleavings

  datatype Phase = Ready(call: Call) | Between(call: Call) | Done(call: Call, result: Result)

  datatype System = System(log: Log, threads: seq<Phase>)

  /** One locked section of one thread. */
  datatype Move = Move(thread: nat, readable: bool, write: Write)

  function Advance(s: System, m: Move): System {
    if m.thread >= |s.threads| then s
    else
      match s.threads[m.thread]
      case Ready(c) =>
        var found := CheckFirst(s.log, m.readable, c);
        s.(threads := s.threads[m.thread := if found.Some? then Done(c, found.value) else Between(c)])
      case Between(c) =>
        var (log, result) := CheckAndAppend(s.log, m.readable, m.write, c);
        System(log, s.threads[m.thread := Done(c, result)])
      case Done(_, _) => s
  }

  function Execute(s: System, moves: seq<Move>): System {
    if moves == [] then s else Advance(Execute(s, moves[..|moves| - 1]), moves[|moves| - 1])
  }

  ghost predicate UniqueRequests(receipts: seq<Receipt>) {
    forall i, j :: 0 <= i < j < |receipts| ==> receipts[i].request.id != receipts[j].request.id
  }

  ghost predicate WellFormed(log: Log) {
    UniqueRequests(log.receipts) && (log.tail.Unterminated? ==> log.receipts != [])
  }

  ghost predicate Fresh(s: System) {
    WellFormed(s.log) && forall t :: 0 <= t < |s.threads| ==> s.threads[t].Ready?
  }

  predicate Succeeded(p: Phase) { p.Done? && p.result.Receipted? }

  predicate Appended(p: Phase) { Succeeded(p) && !p.result.replayed }

  /** Ids are unique; every success answers its call and is in the log, unless that is torn; and
      calls that succeeded under one id have one receipt, which at most one of them appended. */
  ghost predicate Consistent(s: System) {
    && WellFormed(s.log)
    && (forall t :: 0 <= t < |s.threads| && Succeeded(s.threads[t]) ==>
          && s.threads[t].result.receipt.request == s.threads[t].call.request && s.threads[t].result.receipt.actor == s.threads[t].call.actor
          && (Appended(s.threads[t]) ==> s.threads[t].result.receipt == Receipt(s.threads[t].call.request, s.threads[t].call.actor,
                                                                              s.threads[t].call.index, s.threads[t].call.count))
          && (s.threads[t].result.receipt in s.log.receipts || s.log.tail.Torn?))
    && (forall t, v :: 0 <= t < v < |s.threads| && Succeeded(s.threads[t]) && Succeeded(s.threads[v])
                       && s.threads[t].call.request.id == s.threads[v].call.request.id ==>
          s.threads[t].result.receipt == s.threads[v].result.receipt && !(Appended(s.threads[t]) && Appended(s.threads[v])))
  }

  lemma {:induction false} ScanFinds(receipts: seq<Receipt>, c: Call)
    ensures Scan(receipts, c).None? <==> forall i :: 0 <= i < |receipts| ==> receipts[i].request.id != c.request.id
    ensures Scan(receipts, c).Some? && Scan(receipts, c).value.Receipted? ==>
              Scan(receipts, c).value.replayed && Scan(receipts, c).value.receipt in receipts && Answers(Scan(receipts, c).value.receipt, c)
    ensures Scan(receipts, c) == Some(Refused) ==> exists i :: 0 <= i < |receipts| && receipts[i].request.id == c.request.id && !Answers(receipts[i], c)
  {
    if receipts != [] {
      var rest := receipts[1..];
      ScanFinds(rest, c);
      assert forall i :: 0 <= i < |rest| ==> rest[i] == receipts[i + 1];
      assert forall i :: 1 <= i < |receipts| ==> receipts[i] == rest[i - 1];
      if Scan(rest, c) == Some(Refused) {
        var i :| 0 <= i < |rest| && rest[i].request.id == c.request.id && !Answers(rest[i], c);
        assert receipts[i + 1] == rest[i];
      }
    }
  }

  /** One id, one receipt. */
  lemma IdsIdentify(receipts: seq<Receipt>, a: Receipt, b: Receipt)
    requires UniqueRequests(receipts) && a in receipts && b in receipts && a.request.id == b.request.id
    ensures a == b
  {
  }

  lemma AppendStaysWellFormed(log: Log, w: Write, c: Call)
    requires WellFormed(log) && Scan(log.receipts, c).None?
    ensures WellFormed(Append(log, w, ReceiptOf(c)))
    ensures !Raises(w) ==> ReceiptOf(c) in Append(log, w, ReceiptOf(c)).receipts || Append(log, w, ReceiptOf(c)).tail.Torn?
    ensures var after := Append(log, w, ReceiptOf(c)); log.receipts <= after.receipts || after == Log(AllButLast(log.receipts), Torn)
  {
    ScanFinds(log.receipts, c);
  }

  lemma AdvanceIsConsistent(s: System, m: Move)
    requires Consistent(s)
    ensures Consistent(Advance(s, m)) && |Advance(s, m).threads| == |s.threads|
  {
    hide Append, Scan;
    if m.thread < |s.threads| && !s.threads[m.thread].Done? {
      var t, c, s' := m.thread, s.threads[m.thread].call, Advance(s, m);
      ScanFinds(s.log.receipts, c);
      if Scan(s.log.receipts, c).None? { AppendStaysWellFormed(s.log, m.write, c); }
      forall v | 0 <= v < |s.threads| && v != t && Succeeded(s.threads[v]) && Succeeded(s'.threads[t]) && s.threads[v].call.request.id == c.request.id
        ensures s.threads[v].result.receipt == s'.threads[t].result.receipt && s'.threads[t].result.replayed
      {
        var r := s.threads[v].result.receipt;
        var i :| 0 <= i < |s.log.receipts| && s.log.receipts[i] == r;
        if s'.threads[t].result.replayed { IdsIdentify(s.log.receipts, r, s'.threads[t].result.receipt); }
      }
    }
  }

  /** Under any interleaving and any writes, from any log with unique ids: no two receipts share a
      request id; every success carries the caller's exact request and actor and is in the log,
      unless the log is torn; all successes under one id return one receipt, and at most one of
      them is not a replay. */
  lemma {:induction false} ExecutionIsConsistent(s: System, moves: seq<Move>)
    requires Fresh(s)
    ensures Consistent(Execute(s, moves)) && |Execute(s, moves).threads| == |s.threads|
  {
    hide Consistent, Advance;
    if moves == [] {
      FreshIsConsistent(s);
    } else {
      var n := |moves| - 1;
      ExecutionIsConsistent(s, moves[..n]);
      AdvanceIsConsistent(Execute(s, moves[..n]), moves[n]);
    }
  }

  lemma FreshIsConsistent(s: System)
    requires Fresh(s)
    ensures Consistent(s)
  {
  }

  /** The log grows by appending until it is torn; then it stays as it is, and what it lost of the
      earlier log is at most the last receipt. */
  lemma {:induction false} LogGrows(s: System, moves: seq<Move>)
    requires Fresh(s)
    ensures var log := Execute(s, moves).log;
            if log.tail.Torn? then AllButLast(s.log.receipts) <= log.receipts else s.log.receipts <= log.receipts
    ensures s.log.tail.Torn? ==> Execute(s, moves).log == s.log
  {
    hide Scan;
    if moves != [] { LogGrows(s, moves[..|moves| - 1]); }
  }

  /** The one move that tears the log: an append that comes up short of the receipt, or any write
      after a missing newline. */
  ghost predicate Tears(before: System, m: Move, c: Call) {
    && !before.log.tail.Torn? && m.thread < |before.threads| && before.threads[m.thread] == Between(c)
    && m.write.Writes? && (before.log.tail.Unterminated? || m.write.extent.Part?)
  }

  /** The receipts that a tearing move loses: the one it was to append, and the one before it when
      that had no newline. */
  ghost predicate Lost(before: System, c: Call, r: Receipt) {
    || r == ReceiptOf(c)
    || (before.log.tail.Unterminated? && before.log.receipts != [] && r == before.log.receipts[|before.log.receipts| - 1])
  }

  /** Exactly which successes are not in the log, over any execution that starts from an untorn
      log.  Either the log was never torn and all of them are in it; or one move tore it, and a
      success is in the log if and only if its receipt is not one of the (at most two) that this
      move lost. */
  lemma {:induction false} LostReceipts(s: System, moves: seq<Move>) returns (k: nat, c: Call)
    requires Fresh(s) && !s.log.tail.Torn? && |s.threads| > 0
    ensures var e := Execute(s, moves);
            if !e.log.tail.Torn? then
              forall t :: 0 <= t < |e.threads| && Succeeded(e.threads[t]) ==> e.threads[t].result.receipt in e.log.receipts
            else
              && k < |moves| && Tears(Execute(s, moves[..k]), moves[k], c)
              && forall t :: 0 <= t < |e.threads| && Succeeded(e.threads[t]) ==>
                   (e.threads[t].result.receipt in e.log.receipts <==> !Lost(Execute(s, moves[..k]), c, e.threads[t].result.receipt))
  {
    hide Scan, Advance;
    k, c := 0, s.threads[0].call;
    ExecutionIsConsistent(s, moves);
    if moves != [] && Execute(s, moves).log.tail.Torn? {
      var n := |moves| - 1;
      var before := Execute(s, moves[..n]);
      ExecutionIsConsistent(s, moves[..n]);
      if before.log.tail.Torn? {
        k, c := LostReceipts(s, moves[..n]);
        assert moves[..n][..k] == moves[..k];
        TornIsFinal(before, moves[n]);
      } else {
        k := n;
        c := TornBy(before, moves[n]);
      }
    }
  }

  /** On a torn log nothing succeeds any more and nothing is written. */
  lemma TornIsFinal(s: System, m: Move)
    requires s.log.tail.Torn?
    ensures Advance(s, m).log == s.log && |Advance(s, m).threads| == |s.threads|
    ensures forall t :: 0 <= t < |s.threads| && Succeeded(Advance(s, m).threads[t]) ==> Advance(s, m).threads[t] == s.threads[t]
  {
  }

  lemma TornBy(s: System, m: Move) returns (c: Call)
    requires Consistent(s) && !s.log.tail.Torn? && Advance(s, m).log.tail.Torn?
    ensures Tears(s, m, c) && |Advance(s, m).threads| == |s.threads|
    ensures var e := Advance(s, m);
            forall t :: 0 <= t < |e.threads| && Succeeded(e.threads[t]) ==>
              (e.threads[t].result.receipt in e.log.receipts <==> !Lost(s, c, e.threads[t].result.receipt))
  {
    c := s.threads[m.thread].call;
    var e := Advance(s, m);
    ScanFinds(s.log.receipts, c);
    forall t | 0 <= t < |e.threads| && Succeeded(e.threads[t])
      ensures e.threads[t].result.receipt in e.log.receipts <==> !Lost(s, c, e.threads[t].result.receipt)
    {
      TornLoses(s.log, m.write, c, e.threads[t].result.receipt);
    }
  }

  lemma TornLoses(log: Log, w: Write, c: Call, r: Receipt)
    requires WellFormed(log) && !log.tail.Torn? && Scan(log.receipts, c).None? && Append(log, w, ReceiptOf(c)).tail.Torn?
    requires r in log.receipts || r == ReceiptOf(c)
    ensures r in Append(log, w, ReceiptOf(c)).receipts
            <==> r != ReceiptOf(c) && (log.tail.Unterminated? ==> r != log.receipts[|log.receipts| - 1])
  {
    ScanFinds(log.receipts, c);
    var n := |log.receipts| - 1;
    if r in log.receipts {
      var i :| 0 <= i < |log.receipts| && log.receipts[i] == r;
      if i < n { assert AllButLast(log.receipts)[i] == r; }
    }
  }

  /** The write put the whole line into the file, or nothing. */
  predicate IsWhole(w: Write) { w.Fails? || w.extent.All? }

  /** When every write is whole the log is never torn: it only grows, and every success is in it. */
  lemma {:induction false} WholeWritesAreAccounted(s: System, moves: seq<Move>)
    requires Fresh(s) && s.log.tail.Clean? && forall m :: m in moves ==> IsWhole(m.write)
    ensures var e := Execute(s, moves);
            && e.log.tail.Clean? && s.log.receipts <= e.log.receipts
            && forall t :: 0 <= t < |e.threads| && Succeeded(e.threads[t]) ==> e.threads[t].result.receipt in e.log.receipts
  {
    hide Scan;
    ExecutionIsConsistent(s, moves);
    if moves != [] { WholeWritesAreAccounted(s, moves[..|moves| - 1]); }
  }

  /** A short write loses its receipt: the call succeeds, no read returns the receipt, and every
      later call is refused. */
  lemma ShortWriteLosesReceipt(c: Call, d: Call) returns (moves: seq<Move>)
    ensures Execute(System(Log([], Clean), [Ready(c), Ready(d)]), moves)
            == System(Log([], Torn), [Done(c, Receipted(ReceiptOf(c), false)), Done(d, Refused)])
  {
    var s0, short := System(Log([], Clean), [Ready(c), Ready(d)]), Writes(Part, false);
    moves := [Move(0, true, short), Move(0, true, short), Move(1, true, short)];
    assert moves[..3] == moves && moves[..3][..2] == moves[..2] && moves[..2][..1] == moves[..1] && moves[..1][..0] == [];
    assert Execute(s0, moves[..1]) == System(s0.log, [Between(c), Ready(d)]);
    assert Execute(s0, moves[..2]) == System(Log([], Torn), [Done(c, Receipted(ReceiptOf(c), false)), Ready(d)]);
  }

  /** A missing newline loses two receipts: the first call and its retry succeed while the receipt
      is there to be read, the next call's line joins it, and then neither is. */
  lemma MissingNewlineSpoilsReceipts(a: Call, b: Call) returns (moves: seq<Move>)
    requires a.request.id != b.request.id
    ensures Execute(System(Log([], Clean), [Ready(a), Ready(a), Ready(b)]), moves)
            == System(Log([], Torn), [Done(a, Receipted(ReceiptOf(a), false)), Done(a, Receipted(ReceiptOf(a), true)),
                                      Done(b, Receipted(ReceiptOf(b), false))])
  {
    hide Execute;
    var s0 := System(Log([], Clean), [Ready(a), Ready(a), Ready(b)]);
    var short, whole := Writes(AllButNewline, false), Writes(All, false);
    moves := [Move(0, true, short), Move(0, true, short), Move(1, true, whole), Move(2, true, whole), Move(2, true, whole)];
    assert moves[..5] == moves;
    var log, first, second := Log([ReceiptOf(a)], Unterminated), Done(a, Receipted(ReceiptOf(a), false)), Done(a, Receipted(ReceiptOf(a), true));
    ExecuteOne(s0, moves, 0);
    ExecuteOne(s0, moves, 1);
    assert Execute(s0, moves[..2]) == System(log, [first, Ready(a), Ready(b)]);
    ExecuteOne(s0, moves, 2);
    assert Execute(s0, moves[..3]) == System(log, [first, second, Ready(b)]);
    assert Scan([ReceiptOf(a)], b).None? by { assert [ReceiptOf(a)][1..] == []; }
    ExecuteOne(s0, moves, 3);
    assert Execute(s0, moves[..4]) == System(log, [first, second, Between(b)]);
    ExecuteOne(s0, moves, 4);
  }

  lemma ExecuteOne(s: System, moves: seq<Move>, i: nat)
    requires i < |moves|
    ensures Execute(s, moves[..i + 1]) == Advance(Execute(s, moves[..i]), moves[i])
    ensures i == 0 ==> Execute(s, moves[..i]) == s
  {
    assert moves[..i + 1][..i] == moves[..i];
  }

  /** All successful calls with one request id return the same receipt, whatever the writes did, so
      calls with different data under one id never both succeed. */
  lemma OneReceiptPerRequest(s: System, moves: seq<Move>, t: nat, v: nat)
    requires Fresh(s) && t < |s.threads| && v < |s.threads|
    requires var e := Execute(s, moves);
             && |e.threads| == |s.threads| && Succeeded(e.threads[t]) && Succeeded(e.threads[v])
             && e.threads[t].call.request.id == e.threads[v].call.request.id
    ensures var e := Execute(s, moves);
            && |e.threads| == |s.threads| && Succeeded(e.threads[t]) && Succeeded(e.threads[v])
            && e.threads[t].result.receipt == e.threads[v].result.receipt
            && e.threads[t].call.request == e.threads[v].call.request && e.threads[t].call.actor == e.threads[v].call.actor
  {
    hide Execute;
    ExecutionIsConsistent(s, moves);
  }

  /** A readable log answers a call exactly by what it holds under the request id: a second
      section appends if and only if no receipt has the id, replays if and only if the receipt
      that has it answers the call, and refuses a different one. */
  lemma SecondSectionAnswers(log: Log, c: Call)
    requires log.tail.Clean? && UniqueRequests(log.receipts)
    ensures var (after, result) := CheckAndAppend(log, true, Writes(All, false), c);
            && (result == Receipted(ReceiptOf(c), false) && after.receipts == log.receipts + [ReceiptOf(c)]
                <==> forall r :: r in log.receipts ==> r.request.id != c.request.id)
            && (result.Receipted? && result.replayed <==> exists r :: r in log.receipts && Answers(r, c))
            && (result.Refused? <==> exists r :: r in log.receipts && r.request.id == c.request.id && !Answers(r, c))
  {
    ScanFinds(log.receipts, c);
  }

  /** The first section looks only: it goes on exactly when no receipt has the id, replays the one
      that answers the call, and refuses a different one. */
  lemma FirstSectionAnswers(log: Log, c: Call)
    requires !log.tail.Torn? && UniqueRequests(log.receipts)
    ensures CheckFirst(log, true, c).None? <==> forall r :: r in log.receipts ==> r.request.id != c.request.id
    ensures forall r :: r in log.receipts && r.request.id == c.request.id ==>
              CheckFirst(log, true, c) == Some(if r.request == c.request && r.actor == c.actor then Receipted(r, true) else Refused)
  {
    ScanFinds(log.receipts, c);
    forall r | r in log.receipts && r.request.id == c.request.id
      ensures Scan(log.receipts, c) == Some(if r.request == c.request && r.actor == c.actor then Receipted(r, true) else Refused)
    {
      if Scan(log.receipts, c) == Some(Refused) {
        var i :| 0 <= i < |log.receipts| && log.receipts[i].request.id == c.request.id && !Answers(log.receipts[i], c);
        IdsIdentify(log.receipts, r, log.receipts[i]);
      } else {
        IdsIdentify(log.receipts, r, Scan(log.receipts, c).value.receipt);
      }
    }
  }

  /** A call whose read fails, or that finds the log torn, is refused and writes nothing. */
  lemma UnreadableIsRefused(s: System, m: Move)
    requires m.thread < |s.threads| && !s.threads[m.thread].Done? && (!m.readable || s.log.tail.Torn?)
    ensures Advance(s, m) == System(s.log, s.threads[m.thread := Done(s.threads[m.thread].call, Refused)])
  {
  }

  // ---------------------------------------------------------------- occurrence positions

  predicate Positioned(index: nat, count: nat) { 1 <= index <= count }

  /** Every receipt and every call of the system carries a position between 1 and its count. */
  ghost predicate AllPositioned(s: System) {
    && (forall r :: r in s.log.receipts ==> Positioned(r.index, r.count))
    && (forall t :: 0 <= t < |s.threads| ==> Positioned(s.threads[t].call.index, s.threads[t].call.count))
  }

  /** Whatever the threads do, the log holds positions from 1 to the count. */
  lemma {:induction false} PositionsAreKept(s: System, moves: seq<Move>)
    requires AllPositioned(s)
    ensures AllPositioned(Execute(s, moves))
  {
    hide Scan;
    if moves != [] { PositionsAreKept(s, moves[..|moves| - 1]); }
  }
}
