/** The `beginTransaction` / `commit` / `rollBack` primitives of
    helpers/mysql_utils as a store whose transaction handle moves through
    Idle -> Open -> Committed | RolledBack, and the "try { writes; commit }
    catch { rollBack; rethrow }" region the handlers wrap their writes in. */
module Transactions {
  import opened Models

  datatype TxState = Idle | Open | Committed | RolledBack

  /** What the store records: each primitive, and each opaque write with
      whether it was handed the transaction handle `db`. */
  datatype Event = Begin | Write(call: Call, onHandle: bool) | Commit | RollBack

  /** One awaited write of a protected region, and the exception (if any) it throws. */
  datatype Step = Step(call: Call, onHandle: bool, fault: Option<nat>)

  /** The exceptions thrown by the two writes of a protected region and by `commit`. */
  datatype Faults = Faults(first: Option<nat>, second: Option<nat>, commit: Option<nat>)

  /** The events of a protected region and the exception it rethrows, if any. */
  datatype RegionResult = RegionResult(events: seq<Event>, error: Option<nat>)

  /** A whole request: its outcome, the events it left in the store, and the
      state of its transaction handle at the end. */
  datatype Run = Run(outcome: Outcome, events: seq<Event>, tx: TxState)

  class Store {
    var tx: TxState
    var log: seq<Event>

    constructor ()
      ensures tx == Idle && log == []
    {
      tx := Idle;
      log := [];
    }

    method BeginTransaction()
      requires tx == Idle
      modifies this
      ensures tx == Open && log == old(log) + [Begin]
    {
      tx := Open;
      log := log + [Begin];
    }

    /** Issues an opaque write, on the handle or not; `fault` is what it throws. */
    method Issue(call: Call, onHandle: bool, fault: Option<nat>) returns (error: Option<nat>)
      requires onHandle ==> tx == Open
      modifies this
      ensures error == fault && tx == old(tx)
      ensures log == old(log) + [Write(call, onHandle)]
    {
      log := log + [Write(call, onHandle)];
      error := fault;
    }

    /** Attempts to commit; a failed commit leaves the handle Open. */
    method CommitTransaction(fault: Option<nat>) returns (error: Option<nat>)
      requires tx == Open
      modifies this
      ensures error == fault && log == old(log) + [Commit]
      ensures tx == (if fault.None? then Committed else Open)
    {
      log := log + [Commit];
      if fault.None? {
        tx := Committed;
      }
      error := fault;
    }

    method RollBackTransaction()
      requires tx == Open
      modifies this
      ensures tx == RolledBack && log == old(log) + [RollBack]
    {
      tx := RolledBack;
      log := log + [RollBack];
    }
  }

  /** The write events a sequence of steps issues when none of them fails. */
  function Writes(steps: seq<Step>): (ws: seq<Event>)
    ensures |ws| == |steps|
  {
    if steps == [] then [] else [Write(steps[0].call, steps[0].onHandle)] + Writes(steps[1..])
  }

  /** Each write event is that of the step at the same position. */
  lemma {:induction false} WritesElements(steps: seq<Step>)
    ensures forall i :: 0 <= i < |steps| ==> Writes(steps)[i] == Write(steps[i].call, steps[i].onHandle)
    decreases |steps|
  {
    if steps != [] {
      WritesElements(steps[1..]);
      assert forall i :: 1 <= i < |steps| ==> Writes(steps)[i] == Writes(steps[1..])[i - 1];
    }
  }

  predicate NoFault(steps: seq<Step>)
  {
    forall i :: 0 <= i < |steps| ==> steps[i].fault.None?
  }

  /** The position of the first step that throws, or the number of steps
      when none does. */
  function FaultIndex(steps: seq<Step>): (k: nat)
    ensures k <= |steps|
    ensures NoFault(steps[..k])
    ensures k < |steps| ==> steps[k].fault.Some?
    ensures k == |steps| <==> NoFault(steps)
    decreases |steps|
  {
    if steps == [] then 0
    else if steps[0].fault.Some? then 0
    else
      var k := 1 + FaultIndex(steps[1..]);
      assert forall j :: 1 <= j < k ==> steps[..k][j] == steps[1..][..k - 1][j - 1];
      k
  }

  /** A step that throws after only steps that do not is the one `FaultIndex` finds. */
  lemma FaultIndexIsFirst(steps: seq<Step>, i: nat)
    requires i < |steps| && steps[i].fault.Some? && NoFault(steps[..i])
    ensures FaultIndex(steps) == i
  {
  }

  /** The exception a protected region rethrows: that of its first failing
      write, or else that of `commit`. */
  function FirstFault(steps: seq<Step>, commitFault: Option<nat>): (e: Option<nat>)
    ensures e.None? <==> NoFault(steps) && commitFault.None?
    ensures NoFault(steps) ==> e == commitFault
    ensures FaultIndex(steps) < |steps| ==> e == steps[FaultIndex(steps)].fault
    ensures forall i :: 0 <= i < |steps| && steps[i].fault.Some? && NoFault(steps[..i]) ==> e == steps[i].fault
    decreases |steps|
  {
    if steps == [] then commitFault
    else if steps[0].fault.Some? then steps[0].fault
    else
      var e := FirstFault(steps[1..], commitFault);
      assert forall i :: 0 <= i < |steps| && steps[i].fault.Some? && NoFault(steps[..i]) ==> e == steps[i].fault by {
        forall i | 0 <= i < |steps| && steps[i].fault.Some? && NoFault(steps[..i])
          ensures e == steps[i].fault
        {
          FaultIndexIsFirst(steps, i);
        }
      }
      e
  }

  /** The protected region: the writes in order, stopping at the first that
      throws, then `commit`; any exception leads to `rollBack` and is rethrown. */
  function Region(steps: seq<Step>, commitFault: Option<nat>): (r: RegionResult)
    ensures r.error == FirstFault(steps, commitFault)
    ensures r.error.None? ==> r.events == Writes(steps) + [Commit]
    ensures r.error.Some? ==> r.events != [] && r.events[|r.events| - 1] == RollBack
    ensures RollBack in r.events <==> r.error.Some?
    ensures Commit in r.events ==> NoFault(steps)
    decreases |steps|
  {
    if steps == [] then
      if commitFault.None? then RegionResult([Commit], None)
      else RegionResult([Commit, RollBack], commitFault)
    else
      var head := Write(steps[0].call, steps[0].onHandle);
      if steps[0].fault.Some? then RegionResult([head, RollBack], steps[0].fault)
      else
        var rest := Region(steps[1..], commitFault);
        RegionResult([head] + rest.events, rest.error)
  }

  /** The writes of a non-empty prefix: the first step's, then those of the rest's prefix. */
  lemma WritesOfPrefix(steps: seq<Step>, n: nat)
    requires 0 < n <= |steps|
    ensures Writes(steps[..n]) == [Write(steps[0].call, steps[0].onHandle)] + Writes(steps[1..][..n - 1])
  {
    assert steps[..n][0] == steps[0];
    assert steps[..n][1..] == steps[1..][..n - 1];
  }

  lemma AppendAssociates(a: seq<Event>, b: seq<Event>, c: seq<Event>)
    ensures a + (b + c) == (a + b) + c
  {
  }

  /** A region whose first write succeeds: that write, then the region of the rest. */
  lemma RegionAfterSuccess(steps: seq<Step>, commitFault: Option<nat>)
    requires steps != [] && steps[0].fault.None?
    ensures Region(steps, commitFault).events ==
              [Write(steps[0].call, steps[0].onHandle)] + Region(steps[1..], commitFault).events
  {
  }

  /** Steps that do not throw before position i, seen from the second step. */
  lemma NoFaultTail(steps: seq<Step>, i: nat)
    requires 0 < i <= |steps| && NoFault(steps[..i])
    ensures steps[0].fault.None? && NoFault(steps[1..][..i - 1])
  {
    assert steps[..i][0] == steps[0];
    var tail := steps[1..][..i - 1];
    forall j | 0 <= j < |tail|
      ensures tail[j].fault.None?
    {
      assert tail[j] == steps[..i][j + 1];
    }
  }

  /** A protected region skips every write after the first one that throws,
      and `commit` with them; only `rollBack` follows. */
  lemma {:induction false} RegionStopsAtFirstFault(steps: seq<Step>, commitFault: Option<nat>, i: nat)
    requires i < |steps| && steps[i].fault.Some? && NoFault(steps[..i])
    ensures Region(steps, commitFault).events == Writes(steps[..i + 1]) + [RollBack]
    decreases i
  {
    var head := Write(steps[0].call, steps[0].onHandle);
    WritesOfPrefix(steps, i + 1);
    if i > 0 {
      NoFaultTail(steps, i);
      RegionAfterSuccess(steps, commitFault);
      RegionStopsAtFirstFault(steps[1..], commitFault, i - 1);
      AppendAssociates([head], Writes(steps[1..][..i]), [RollBack]);
    }
  }

  /** When every write succeeds and `commit` throws, `rollBack` follows the commit. */
  lemma {:induction false} RegionCommitFault(steps: seq<Step>, commitFault: Option<nat>)
    requires NoFault(steps) && commitFault.Some?
    ensures Region(steps, commitFault).events == Writes(steps) + [Commit, RollBack]
    decreases |steps|
  {
    if steps != [] {
      var head := Write(steps[0].call, steps[0].onHandle);
      assert NoFault(steps[1..]);
      RegionCommitFault(steps[1..], commitFault);
      assert Region(steps, commitFault).events == [head] + Region(steps[1..], commitFault).events;
    }
  }

  /** A protected region issues no write other than those of its own steps. */
  lemma {:induction false} RegionWritesOnlySteps(steps: seq<Step>, commitFault: Option<nat>)
    ensures forall e :: e in Region(steps, commitFault).events && e.Write? ==> e in Writes(steps)
    decreases |steps|
  {
    if steps != [] && steps[0].fault.None? {
      RegionWritesOnlySteps(steps[1..], commitFault);
      assert Writes(steps) == [Write(steps[0].call, steps[0].onHandle)] + Writes(steps[1..]);
    }
  }

  /** The protected region of a single write, spelled out. */
  lemma OneStepRegion(s: Step, commitFault: Option<nat>)
    ensures var w := Write(s.call, s.onHandle);
      Region([s], commitFault) ==
        if s.fault.Some? then RegionResult([w, RollBack], s.fault)
        else if commitFault.Some? then RegionResult([w, Commit, RollBack], commitFault)
        else RegionResult([w, Commit], None)
  {
    assert [s][1..] == [];
  }

  /** The protected region of two writes, spelled out. */
  lemma TwoStepRegion(s1: Step, s2: Step, commitFault: Option<nat>)
    ensures var w1, w2 := Write(s1.call, s1.onHandle), Write(s2.call, s2.onHandle);
      Region([s1, s2], commitFault) ==
        if s1.fault.Some? then RegionResult([w1, RollBack], s1.fault)
        else if s2.fault.Some? then RegionResult([w1, w2, RollBack], s2.fault)
        else if commitFault.Some? then RegionResult([w1, w2, Commit, RollBack], commitFault)
        else RegionResult([w1, w2, Commit], None)
  {
    assert [s1, s2][1..] == [s2];
    OneStepRegion(s2, commitFault);
  }

  /** `beginTransaction` followed by the protected region; `reply` is what the
      handler answers with once the region has committed. */
  function Transact(steps: seq<Step>, commitFault: Option<nat>, reply: Reply): (r: Run)
    ensures r.events != [] && r.events[0] == Begin
    ensures r.tx == Committed <==> NoFault(steps) && commitFault.None?
    ensures r.tx == Committed <==> r.outcome == Ok(reply)
    ensures r.tx == Committed ==> r.events == [Begin] + Writes(steps) + [Commit]
    ensures r.tx != Committed ==>
              r.tx == RolledBack && r.events[|r.events| - 1] == RollBack &&
              r.outcome == Failed(Thrown(FirstFault(steps, commitFault).value))
    ensures Commit in r.events ==> NoFault(steps)
  {
    var region := Region(steps, commitFault);
    var rr := if region.error.None? then Ok(reply) else Failed(Thrown(region.error.value));
    Run(rr, [Begin] + region.events, if region.error.None? then Committed else RolledBack)
  }
}
