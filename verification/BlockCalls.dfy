/** The calls of one block parameter: a stack of running block calls of which only the
    outermost is a real trace, and the list of recorded traces. */
module BlockCalls {
  import opened Traces

  /** Events of the trace point targeted at the block. It also fires for blocks defined
      inside the block, wherever they are called. */
  datatype Event = BlockCall(id: nat) | BlockReturn(value: int)

  datatype Recorded = Recorded(id: nat, value: int)

  /** `None` on the stack is the null placeholder of an inner block call. */
  datatype State = State(stack: seq<Option<nat>>, traces: seq<Recorded>)

  function OnEvent(s: State, e: Event): State {
    if s.traces != [] then s else
    match e
    case BlockCall(id) => s.(stack := s.stack + [if s.stack == [] then Some(id) else None])
    case BlockReturn(value) =>
      if s.stack == [] then s else
      var top, rest := s.stack[|s.stack| - 1], s.stack[..|s.stack| - 1];
      match top
      case None => s.(stack := rest)
      case Some(id) => State(rest, [Recorded(id, value)])
  }

  function Traced(run: seq<Event>): State {
    if run == [] then State([], []) else OnEvent(Traced(run[..|run| - 1]), run[|run| - 1])
  }

  class BlockParameter {
    var blockTraces: seq<Recorded>
    var currentBlockCallStack: seq<Option<nat>>

    ghost function AsState(): State
      reads this
    {
      State(currentBlockCallStack, blockTraces)
    }

    constructor ()
      ensures AsState() == State([], [])
    {
      blockTraces, currentBlockCallStack := [], [];
    }

    method ProcessBlockCallEvent(id: nat)
      modifies this
      ensures AsState() == OnEvent(old(AsState()), BlockCall(id))
    {
      if |blockTraces| > 0 {
        return;
      }
      var trace: Option<nat> := None;
      if currentBlockCallStack == [] {
        trace := Some(id);
      }
      currentBlockCallStack := currentBlockCallStack + [trace];
    }

    method ProcessBlockReturnEvent(value: int)
      modifies this
      ensures AsState() == OnEvent(old(AsState()), BlockReturn(value))
    {
      if |blockTraces| > 0 {
        return;
      }
      if currentBlockCallStack == [] {
        return;
      }
      var last := currentBlockCallStack[|currentBlockCallStack| - 1];
      currentBlockCallStack := currentBlockCallStack[..|currentBlockCallStack| - 1];
      if last.None? {
        return;
      }
      blockTraces := blockTraces + [Recorded(last.value, value)];
    }
  }

  // ---------------------------------------------------------------------------
  // What the events say

  /** Calls minus returns. */
  function Balance(run: seq<Event>): int {
    if run == [] then 0
    else Balance(run[..|run| - 1]) + (if run[|run| - 1].BlockCall? then 1 else -1)
  }

  ghost predicate FirstCall(run: seq<Event>, c: nat) {
    c < |run| && run[c].BlockCall? && forall i :: 0 <= i < c ==> !run[i].BlockCall?
  }

  /** The first return after the call at `c` that leaves nothing of it open. */
  ghost predicate Matches(run: seq<Event>, c: nat, r: nat) {
    c < r < |run| && Balance(run[c..r + 1]) == 0
    && forall i :: c < i <= r ==> Balance(run[c..i]) != 0
  }

  /** One real trace with placeholders above it. */
  ghost predicate OneTraceBelow(stack: seq<Option<nat>>, id: nat) {
    stack != [] && stack[0] == Some(id) && forall i :: 0 < i < |stack| ==> stack[i] == None
  }

  lemma NothingBalances()
    ensures Balance([]) == 0
  {
  }

  lemma BalanceSnoc(run: seq<Event>, e: Event)
    ensures Balance(run + [e]) == Balance(run) + (if e.BlockCall? then 1 else -1)
  {
    assert (run + [e])[..|run|] == run;
  }

  /** Before the first call nothing happens. */
  lemma {:induction false} NothingWithoutCalls(run: seq<Event>)
    requires forall i :: 0 <= i < |run| ==> !run[i].BlockCall?
    ensures Traced(run) == State([], [])
  {
    if run != [] {
      NothingWithoutCalls(run[..|run| - 1]);
    }
  }

  /** While the first call has no matching return, nothing is recorded and the stack is the
      call's trace under one placeholder for every other open call. */
  lemma {:induction false} OpenCall(run: seq<Event>, c: nat)
    requires FirstCall(run, c) && forall r :: !Matches(run, c, r)
    ensures Traced(run).traces == [] && OneTraceBelow(Traced(run).stack, run[c].id)
    ensures |Traced(run).stack| == Balance(run[c..])
  {
    hide Balance;
    var before := run[..|run| - 1];
    if c == |run| - 1 {
      NothingWithoutCalls(before);
      assert run[c..] == [] + [run[c]];
      BalanceSnoc([], run[c]);
      NothingBalances();
    } else {
      assert run[c..] == before[c..] + [run[|run| - 1]];
      BalanceSnoc(before[c..], run[|run| - 1]);
      forall r: nat
        ensures !Matches(before, c, r)
      {
        NoMatchBefore(run, c, r);
      }
      OpenCall(before, c);
      NoneEarlier(run, c);
      assert run[c..|run|] == run[c..];
      StaysOpen(Traced(before), run[|run| - 1], run[c].id);
    }
  }

  /** An event that does not end the outermost call adds or removes a placeholder. */
  lemma StaysOpen(s: State, e: Event, id: nat)
    requires s.traces == [] && OneTraceBelow(s.stack, id)
    requires |s.stack| + (if e.BlockCall? then 1 else -1) != 0
    ensures OnEvent(s, e).traces == [] && OneTraceBelow(OnEvent(s, e).stack, id)
    ensures |OnEvent(s, e).stack| == |s.stack| + (if e.BlockCall? then 1 else -1)
  {
  }

  lemma NoMatchBefore(run: seq<Event>, c: nat, r: nat)
    requires run != [] && !Matches(run, c, r)
    ensures !Matches(run[..|run| - 1], c, r)
  {
    var before := run[..|run| - 1];
    if c < r < |before| {
      assert run[c..r + 1] == before[c..r + 1];
      assert forall i :: c < i <= r ==> run[c..i] == before[c..i];
    }
  }

  /** With no match so far, no prefix from the call is balanced. */
  lemma NoneEarlier(run: seq<Event>, c: nat)
    requires FirstCall(run, c) && forall r :: !Matches(run, c, r)
    ensures forall i :: c < i <= |run| ==> Balance(run[c..i]) != 0
  {
    var i := c + 1;
    while i <= |run|
      invariant c < i <= |run| + 1
      invariant forall j :: c < j < i ==> Balance(run[c..j]) != 0
    {
      if i == c + 1 {
        assert run[c..i] == [] + [run[c]];
        BalanceSnoc([], run[c]);
      } else {
        assert !Matches(run, c, i - 1);
      }
      i := i + 1;
    }
  }

  /** Once something is recorded, nothing changes any more. */
  lemma {:induction false} RecordedStays(run: seq<Event>, n: nat)
    requires n <= |run| && Traced(run[..n]).traces != []
    ensures Traced(run) == Traced(run[..n])
    decreases |run|
  {
    if n == |run| {
      assert run[..n] == run;
    } else {
      assert run[..|run| - 1][..n] == run[..n];
      RecordedStays(run[..|run| - 1], n);
    }
  }

  /** For every sequence of events: a first call with a matching return is what is recorded,
      once, with the value of that return, and the stack is empty from then on. */
  lemma {:induction false} MatchedCall(run: seq<Event>, c: nat, r: nat)
    requires FirstCall(run, c) && Matches(run, c, r)
    ensures run[r].BlockReturn?
    ensures Traced(run) == State([], [Recorded(run[c].id, run[r].value)])
  {
    hide Balance;
    var before := run[..r];
    assert FirstCall(before, c);
    forall s: nat
      ensures !Matches(before, c, s)
    {
      if c < s < r {
        assert before[c..s + 1] == run[c..s + 1];
        assert Balance(run[c..s + 1]) != 0;
      }
    }
    OpenCall(before, c);
    assert run[c..r + 1] == before[c..] + [run[r]];
    BalanceSnoc(before[c..], run[r]);
    assert run[..r + 1][..r] == before && run[..r + 1][r] == run[r];
    assert Traced(run[..r + 1]) == OnEvent(Traced(before), run[r]);
    assert run[c] == before[c];
    RecordedStays(run, r + 1);
  }

  /** In every run at most one trace is recorded, and a recorded trace means an empty stack. */
  lemma {:induction false} AtMostOneRecorded(run: seq<Event>)
    ensures |Traced(run).traces| <= 1
    ensures Traced(run).traces != [] ==> Traced(run).stack == []
    ensures Traced(run).stack == [] || exists id :: OneTraceBelow(Traced(run).stack, id)
  {
    if run != [] {
      AtMostOneRecorded(run[..|run| - 1]);
      var stack := Traced(run[..|run| - 1]).stack;
      if stack != [] {
        var id :| OneTraceBelow(stack, id);
        assert Traced(run).stack == [] || OneTraceBelow(Traced(run).stack, id);
      } else if run[|run| - 1].BlockCall? {
        assert Traced(run).stack == [] || OneTraceBelow(Traced(run).stack, run[|run| - 1].id);
      }
    }
  }
}
