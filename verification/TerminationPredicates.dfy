/** The chain of predicates that decides when a run ends, and the factory that links it. */
module TerminationPredicates {
  import opened Wrappers

  datatype Status = PROCEED | TERMINATE | FAIL

  datatype Rule =
    | Duration(start: int, duration: int)
    | Counter(name: string, limit: nat, onExceeded: Status)

  // What the predicates look at: the clock and the worker's counters (absent means zero).
  datatype World = World(now: int, counters: map<string, nat>)

  function CounterValue(w: World, name: string): nat {
    if name in w.counters then w.counters[name] else 0
  }

  function Evaluate(r: Rule, w: World): Status {
    match r
    case Duration(start, duration) => if w.now - start > duration then TERMINATE else PROCEED
    case Counter(name, limit, onExceeded) => if CounterValue(w, name) > limit then onExceeded else PROCEED
  }

  // The child speaks first; a predicate is only consulted when everything below it says PROCEED.
  function EvaluateRules(rules: seq<Rule>, w: World): Status {
    if rules == [] then PROCEED
    else
      var below := EvaluateRules(rules[1..], w);
      if below == PROCEED then Evaluate(rules[0], w) else below
  }

  // ---------- The linked predicates ----------

  class TerminationPredicate {
    const rule: Rule
    var linkedChild: TerminationPredicate?

    constructor (rule: Rule)
      ensures this.rule == rule && linkedChild == null
    {
      this.rule := rule;
      linkedChild := null;
    }

    method Link(child: TerminationPredicate) returns (linked: TerminationPredicate)
      requires linkedChild == null
      modifies this
      ensures linkedChild == child == linked
    {
      linkedChild := child;
      linked := child;
    }

    /** Appending at the head of a chain is list append, wherever the tail is. */
    method AppendToChain(child: TerminationPredicate, ghost nodes: seq<TerminationPredicate>, ghost tail: seq<TerminationPredicate>)
      returns (linked: TerminationPredicate)
      requires IsChain(nodes) && nodes[0] == this
      requires IsChain(tail) && tail[0] == child
      requires forall n | n in nodes :: n !in tail
      modifies nodes
      ensures IsChain(nodes + tail) && linked == child
      decreases |nodes|
    {
      assert nodes == [this] + nodes[1..] && this in nodes && this !in nodes[1..];
      if linkedChild != null {
        linked := linkedChild.AppendToChain(child, nodes[1..], tail);
        ConsIsChain(this, nodes[1..] + tail);
        assert nodes + tail == [this] + (nodes[1..] + tail);
      } else {
        linked := Link(child);
        ConsIsChain(this, tail);
        assert nodes == [this];
      }
    }

    method EvaluateChain(w: World, ghost nodes: seq<TerminationPredicate>) returns (status: Status)
      requires IsChain(nodes) && nodes[0] == this
      ensures status == EvaluateRules(Rules(nodes), w)
      decreases |nodes|
    {
      status := PROCEED;
      assert Rules(nodes)[1..] == Rules(nodes[1..]);
      if linkedChild != null {
        status := linkedChild.EvaluateChain(w, nodes[1..]);
      }
      if status == PROCEED {
        status := Evaluate(rule, w);
      }
    }
  }

  ghost predicate IsChain(nodes: seq<TerminationPredicate>)
    reads nodes
  {
    && nodes != []
    && (forall i, j :: 0 <= i < j < |nodes| ==> nodes[i] != nodes[j])
    && (forall i {:trigger nodes[i].linkedChild} :: 0 <= i < |nodes| - 1 ==> nodes[i].linkedChild == nodes[i + 1])
    && nodes[|nodes| - 1].linkedChild == null
  }

  lemma ConsIsChain(head: TerminationPredicate, rest: seq<TerminationPredicate>)
    requires IsChain(rest) && head !in rest && head.linkedChild == rest[0]
    ensures IsChain([head] + rest)
  {
    var all := [head] + rest;
    assert forall i :: 0 < i < |all| ==> all[i] == rest[i - 1];
  }

  ghost function Rules(nodes: seq<TerminationPredicate>): seq<Rule> {
    seq(|nodes|, i requires 0 <= i < |nodes| => nodes[i].rule)
  }

  // ---------- The factory ----------

  type Thresholds = seq<(string, nat)>

  datatype StopOptions = StopOptions(duration: Option<int>, failures: Thresholds, terminations: Thresholds)

  function CounterRules(ts: Thresholds, status: Status): (r: seq<Rule>) {
    seq(|ts|, i requires 0 <= i < |ts| => Counter(ts[i].0, ts[i].1, status))
  }

  const GRACEFUL_STOP := "graceful_stop_requested"

  function FactoryRules(o: StopOptions, scheduledStart: int): seq<Rule> {
    [Counter(GRACEFUL_STOP, 0, TERMINATE)]
    + (if o.duration.Some? then [Duration(scheduledStart, o.duration.value)] else [])
    + CounterRules(o.failures, FAIL)
    + CounterRules(o.terminations, TERMINATE)
  }

  method LinkConfiguredPredicates(last: TerminationPredicate, predicates: Thresholds, status: Status,
                                  ghost nodes: seq<TerminationPredicate>)
    returns (current: TerminationPredicate, ghost nodes': seq<TerminationPredicate>)
    requires IsChain(nodes) && nodes[|nodes| - 1] == last
    modifies last
    ensures IsChain(nodes') && nodes'[|nodes'| - 1] == current
    ensures nodes <= nodes' && forall n | n in nodes' && n !in nodes :: fresh(n)
    ensures Rules(nodes') == Rules(nodes) + CounterRules(predicates, status)
  {
    current, nodes' := last, nodes;
    for i := 0 to |predicates|
      invariant IsChain(nodes') && nodes'[|nodes'| - 1] == current
      invariant nodes <= nodes' && forall n | n in nodes' && n !in nodes :: fresh(n)
      invariant current == last || fresh(current)
      invariant Rules(nodes') == Rules(nodes) + CounterRules(predicates, status)[..i]
    {
      var next := new TerminationPredicate(Counter(predicates[i].0, predicates[i].1, status));
      current := current.Link(next);
      assert Rules(nodes' + [next]) == Rules(nodes') + [next.rule];
      nodes' := nodes' + [next];
    }
  }

  method CreateChain(o: StopOptions, scheduledStart: int) returns (root: TerminationPredicate, ghost nodes: seq<TerminationPredicate>)
    ensures IsChain(nodes) && nodes[0] == root && forall n | n in nodes :: fresh(n)
    ensures Rules(nodes) == FactoryRules(o, scheduledStart)
  {
    root := new TerminationPredicate(Counter(GRACEFUL_STOP, 0, TERMINATE));
    nodes := [root];
    var current := root;
    if o.duration.Some? {
      var timer := new TerminationPredicate(Duration(scheduledStart, o.duration.value));
      current := current.Link(timer);
      nodes := [root, timer];
    }
    current, nodes := LinkConfiguredPredicates(current, o.failures, FAIL, nodes);
    assert current in nodes;
    current, nodes := LinkConfiguredPredicates(current, o.terminations, TERMINATE, nodes);
  }

  // ---------- What the chain amounts to ----------

  predicate Exceeded(ts: Thresholds, w: World) {
    exists i :: 0 <= i < |ts| && CounterValue(w, ts[i].0) > ts[i].1
  }

  // The same decision without a chain.
  function FlatRule(o: StopOptions, scheduledStart: int, w: World): Status {
    if Exceeded(o.terminations, w) then TERMINATE
    else if Exceeded(o.failures, w) then FAIL
    else if o.duration.Some? && w.now - scheduledStart > o.duration.value then TERMINATE
    else if CounterValue(w, "graceful_stop_requested") > 0 then TERMINATE
    else PROCEED
  }

  /** Appending puts the new predicates first in line. */
  lemma {:induction false} AppendedRulesDecideFirst(above: seq<Rule>, below: seq<Rule>, w: World)
    ensures EvaluateRules(above + below, w) ==
            if EvaluateRules(below, w) != PROCEED then EvaluateRules(below, w) else EvaluateRules(above, w)
  {
    if above == [] {
      assert above + below == below;
    } else {
      assert (above + below)[1..] == above[1..] + below;
      AppendedRulesDecideFirst(above[1..], below, w);
    }
  }

  lemma ExceededFirstOrLater(ts: Thresholds, w: World)
    requires ts != []
    ensures Exceeded(ts, w) <==> CounterValue(w, ts[0].0) > ts[0].1 || Exceeded(ts[1..], w)
  {
    if Exceeded(ts[1..], w) {
      var i :| 0 <= i < |ts[1..]| && CounterValue(w, ts[1..][i].0) > ts[1..][i].1;
      assert CounterValue(w, ts[i + 1].0) > ts[i + 1].1;
    }
    if Exceeded(ts, w) {
      var i :| 0 <= i < |ts| && CounterValue(w, ts[i].0) > ts[i].1;
      if i > 0 { assert ts[i] == ts[1..][i - 1]; }
    }
  }

  lemma {:induction false} CounterRulesDecide(ts: Thresholds, status: Status, w: World)
    requires status != PROCEED
    ensures EvaluateRules(CounterRules(ts, status), w) == if Exceeded(ts, w) then status else PROCEED
  {
    if ts != [] {
      assert CounterRules(ts, status)[1..] == CounterRules(ts[1..], status);
      CounterRulesDecide(ts[1..], status, w);
      ExceededFirstOrLater(ts, w);
    }
  }

  /** For every configuration and every world the linked chain, asked child first, decides as the
      flat rule: termination thresholds win over failure thresholds, both over time and stop requests. */
  lemma FactoryChainIsFlatRule(o: StopOptions, scheduledStart: int, w: World)
    ensures EvaluateRules(FactoryRules(o, scheduledStart), w) == FlatRule(o, scheduledStart, w)
  {
    var stop := [Counter(GRACEFUL_STOP, 0, TERMINATE)];
    var time := if o.duration.Some? then [Duration(scheduledStart, o.duration.value)] else [];
    var fail, term := CounterRules(o.failures, FAIL), CounterRules(o.terminations, TERMINATE);
    AppendedRulesDecideFirst(stop + time + fail, term, w);
    AppendedRulesDecideFirst(stop + time, fail, w);
    AppendedRulesDecideFirst(stop, time, w);
    CounterRulesDecide(o.failures, FAIL, w);
    CounterRulesDecide(o.terminations, TERMINATE, w);
    assert time != [] ==> time[1..] == [];
    assert stop[1..] == [];
  }
}
