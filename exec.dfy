/**
 * The wave executor of internal/exec/exec.go. v2/internal/exec/exec.go declares the same
 * node type, readiness rule and loop over its own resource type, so the node class and
 * `Execute` are generic in the resource type `R` and the driver error type `E`.
 */
module Exec {
  import opened Wrappers

  /** The error recorded on a node: a failed parent, or the apply callback's own error. */
  datatype ExecError<E> =
    | DependencyFailed(parent: string)   // dependency '<parent>' failed
    | ApplyFailed(cause: E)              // the error execFunc returned, unchanged

  /** One resource's execution state; `parents` are direct node references. */
  class ExecNode<R, E> {
    var isExecFinished: bool
    var isExecStarted: bool
    var execError: Option<ExecError<E>>
    var parents: seq<ExecNode?<R, E>>
    const resource: R

    /** `&ExecNode{resource: resource}`: not started, not finished, no error, no parents. */
    constructor (resource: R)
      ensures this.resource == resource && parents == []
      ensures !isExecFinished && !isExecStarted && execError == None
    {
      this.resource := resource;
      isExecFinished, isExecStarted, execError, parents := false, false, None, [];
    }

    function IsFinished(): bool reads this`isExecFinished { isExecFinished }
    function IsStarted(): bool reads this`isExecStarted { isExecStarted }
    function ExecErrorOf(): Option<ExecError<E>> reads this`execError { execError }

    method SetStarted()
      modifies this`isExecStarted
      ensures isExecStarted
    {
      isExecStarted := true;
    }

    /** Sets the finished flag and leaves the recorded error as it was. */
    method SetFinished()
      modifies this`isExecFinished
      ensures isExecFinished
    {
      isExecFinished := true;
    }

    /** Sets the finished flag and records `err`. */
    method SetFinishedWithError(err: ExecError<E>)
      modifies this`isExecFinished, this`execError
      ensures isExecFinished && execError == Some(err)
    {
      isExecFinished := true;
      execError := Some(err);
    }

    /** Not started, not finished, and every parent finished. */
    ghost predicate Ready()
      reads this`isExecStarted, this`isExecFinished, this`parents, Objects(parents)`isExecFinished
      requires NonNil(parents)
    {
      !isExecStarted && !isExecFinished && AllFinished(parents)
    }

    /**
     * `ShouldStart`: false once started or finished; otherwise true exactly when every
     * parent has finished (so a node without parents is ready at once).
     */
    method ShouldStart() returns (r: bool)
      requires NonNil(parents)
      ensures r <==> Ready()
    {
      if IsStarted() || IsFinished() {
        return false;
      }
      var parentsFinished := true;
      for k := 0 to |parents|
        invariant parentsFinished <==> forall j :: 0 <= j < k ==> parents[j].isExecFinished
      {
        parentsFinished := parentsFinished && parents[k].IsFinished();
      }
      return parentsFinished;
    }
  }

  /** The objects a list of parent pointers refers to. */
  ghost function Objects<R, E>(ps: seq<ExecNode?<R, E>>): set<ExecNode?<R, E>>
  {
    set k | 0 <= k < |ps| :: ps[k]
  }

  /** No parent pointer is nil (`resourceMap[dep]` found every dependency). */
  ghost predicate NonNil<R, E>(ps: seq<ExecNode?<R, E>>)
  {
    forall k :: 0 <= k < |ps| ==> ps[k] != null
  }

  /** Every parent has finished. */
  ghost predicate AllFinished<R, E>(ps: seq<ExecNode?<R, E>>)
    reads Objects(ps)`isExecFinished
    requires NonNil(ps)
  {
    forall k :: 0 <= k < |ps| ==> ps[k].isExecFinished
  }

  /** The first parent, in `ps` order, that has an error recorded. */
  ghost function FirstFailed<R, E>(ps: seq<ExecNode?<R, E>>): (r: Option<ExecNode<R, E>>)
    reads Objects(ps)`execError
    requires NonNil(ps)
    ensures r.Some? ==> r.value in ps && r.value.execError.Some?
    ensures r.None? <==> forall k :: 0 <= k < |ps| ==> ps[k].execError.None?
  {
    if ps == [] then None
    else if ps[0].execError.Some? then Some(ps[0])
    else FirstFailed(ps[1..])
  }

  /**
   * The error a node with this resource and these parents must finish with:
   * `dependency '<p>' failed` for the first parent `p` (in `parents` order) that has an
   * error, otherwise whatever `execFunc` returns for the resource.
   */
  ghost function Outcome<R, E>(resource: R, parents: seq<ExecNode?<R, E>>, execFunc: R -> Option<E>, describe: R -> string)
    : Option<ExecError<E>>
    reads Objects(parents)`execError
    requires NonNil(parents)
  {
    match FirstFailed(parents)
    case Some(p) => Some(DependencyFailed(describe(p.resource)))
    case None => if execFunc(resource).Some? then Some(ApplyFailed(execFunc(resource).value)) else None
  }

  /** The first failed parent is the first position whose error is set. */
  lemma {:induction false} FirstFailedAt<R, E>(ps: seq<ExecNode?<R, E>>, k: nat)
    requires NonNil(ps)
    requires k < |ps| && ps[k].execError.Some?
    requires forall j :: 0 <= j < k ==> ps[j].execError.None?
    ensures FirstFailed(ps) == Some(ps[k])
  {
    if k > 0 {
      FirstFailedAt(ps[1..], k - 1);
    }
  }

  /**
   * The goroutine body of `Execute` for one ready node: mark it started; if a parent has
   * an error, finish with `dependency '<parent>' failed` without calling `execFunc`;
   * otherwise call `execFunc` once and finish with its error, or cleanly.
   */
  method Launch<R, E>(n: ExecNode<R, E>, execFunc: R -> Option<E>, describe: R -> string)
    returns (ghost applied: bool)
    requires NonNil(n.parents) && n !in Objects(n.parents) && n.execError == None
    modifies n`isExecStarted, n`isExecFinished, n`execError
    ensures n.isExecStarted && n.isExecFinished
    ensures n.execError == Outcome(n.resource, n.parents, execFunc, describe)
    ensures applied <==> FirstFailed(n.parents).None?
  {
    n.SetStarted();
    for k := 0 to |n.parents|
      invariant n.isExecStarted && n.execError == None && n.isExecFinished == old(n.isExecFinished)
      invariant forall j :: 0 <= j < k ==> n.parents[j].execError.None?
    {
      var parent := n.parents[k];
      if parent.ExecErrorOf().Some? {
        FirstFailedAt(n.parents, k);
        n.SetFinishedWithError(DependencyFailed(describe(parent.resource)));
        return false;
      }
    }
    var err := execFunc(n.resource);
    if err.Some? {
      n.SetFinishedWithError(ApplyFailed(err.value));
      return true;
    }
    n.SetFinished();
    return true;
  }

  /** Distinct nodes whose parents are all non-nil members of `nodes`. */
  ghost predicate Closed<R, E>(nodes: seq<ExecNode<R, E>>)
    reads (set n | n in nodes)`parents
  {
    Distinct(nodes) &&
    forall n, k :: n in nodes && 0 <= k < |n.parents| ==> n.parents[k] != null && n.parents[k] in nodes
  }

  /**
   * The shape `Execute` needs of its input: a closed node list in which every parent is
   * ranked strictly below its child. The rank witnesses that the parent relation has no
   * cycle (the validator's topological order gives one); without it the Go loop never ends.
   */
  ghost predicate Wired<R, E>(nodes: seq<ExecNode<R, E>>, rank: ExecNode<R, E> -> nat)
    reads (set n | n in nodes)`parents
  {
    Closed(nodes) &&
    forall n, k :: n in nodes && 0 <= k < |n.parents| && n.parents[k] != null ==> rank(n.parents[k]) < rank(n)
  }

  /** `areAllNodesFinished`: true exactly when every node has finished. */
  method AreAllNodesFinished<R, E>(nodes: seq<ExecNode<R, E>>) returns (r: bool)
    ensures r <==> forall n :: n in nodes ==> n.isExecFinished
  {
    var areFinished := true;
    for i := 0 to |nodes|
      invariant areFinished <==> forall j :: 0 <= j < i ==> nodes[j].isExecFinished
    {
      areFinished := areFinished && nodes[i].IsFinished();
    }
    return areFinished;
  }

  /** The first half of one round of `Execute`: the nodes whose `ShouldStart` holds. */
  method ScanReady<R, E>(nodes: seq<ExecNode<R, E>>) returns (ready: seq<ExecNode<R, E>>)
    requires Distinct(nodes)
    requires forall n :: n in nodes ==> NonNil(n.parents)
    ensures forall n :: n in ready <==> n in nodes && n.Ready()
    ensures Distinct(ready)
  {
    ready := [];
    for i := 0 to |nodes|
      invariant forall n :: n in ready <==> n in nodes[..i] && n.Ready()
      invariant Distinct(ready)
    {
      var node := nodes[i];
      var start := node.ShouldStart();
      if start {
        assert node !in ready;
        ready := ready + [node];
      }
      assert nodes[..i + 1] == nodes[..i] + [node];
    }
    assert nodes[..|nodes|] == nodes;
  }

  /**
   * The second half of one round: launch every ready node. No ready node is a parent of
   * another, so running them one after another gives the outcome of running them in
   * parallel.
   */
  method LaunchWave<R, E>(ready: seq<ExecNode<R, E>>, execFunc: R -> Option<E>, describe: R -> string,
                          ghost errOf: map<ExecNode<R, E>, Option<ExecError<E>>>)
    returns (ghost applied: seq<ExecNode<R, E>>)
    requires Distinct(ready)
    requires forall r :: r in ready ==>
      NonNil(r.parents) && !r.isExecStarted && !r.isExecFinished && r.execError == None &&
      (forall k :: 0 <= k < |r.parents| ==> r.parents[k] !in ready) &&
      AllIn(r.parents, errOf) &&
      Outcome(r.resource, r.parents, execFunc, describe) == OutcomeIn(r.resource, r.parents, errOf, execFunc, describe) &&
      FirstFailed(r.parents) == FirstFailedIn(r.parents, errOf)
    modifies (set r | r in ready)`isExecStarted, (set r | r in ready)`isExecFinished, (set r | r in ready)`execError
    ensures forall r :: r in ready ==>
      r.isExecStarted && r.isExecFinished && r.execError == OutcomeIn(r.resource, r.parents, errOf, execFunc, describe)
    ensures forall n :: n in applied <==> n in ready && FirstFailedIn(n.parents, errOf).None?
    ensures Distinct(applied)
  {
    applied := [];
    for j := 0 to |ready|
      invariant forall k :: 0 <= k < j ==>
        ready[k].isExecStarted && ready[k].isExecFinished &&
        ready[k].execError == OutcomeIn(ready[k].resource, ready[k].parents, errOf, execFunc, describe)
      invariant forall k :: j <= k < |ready| ==>
        !ready[k].isExecStarted && !ready[k].isExecFinished && ready[k].execError == None
      invariant forall n :: n in applied <==> n in ready[..j] && FirstFailedIn(n.parents, errOf).None?
      invariant Distinct(applied)
    {
      var node := ready[j];
      assert node in ready;
      assert node !in Objects(node.parents);
      assert old(Outcome(node.resource, node.parents, execFunc, describe)) == Outcome(node.resource, node.parents, execFunc, describe);
      assert old(FirstFailed(node.parents)) == FirstFailed(node.parents);
      ghost var called := Launch(node, execFunc, describe);
      if called {
        applied := applied + [node];
      }
      assert ready[..j + 1] == ready[..j] + [node];
    }
    assert ready[..|ready|] == ready;
  }

  /** Every parent is non-nil and has an entry in `m`. */
  ghost predicate AllIn<R, E, V>(ps: seq<ExecNode?<R, E>>, m: map<ExecNode<R, E>, V>)
  {
    forall k :: 0 <= k < |ps| ==> ps[k] != null && ps[k] in m
  }

  /** The round right after the latest of these parents' rounds; 0 when there are none. */
  ghost function RoundAfter<R, E>(ps: seq<ExecNode?<R, E>>, waveOf: map<ExecNode<R, E>, nat>): nat
    requires AllIn(ps, waveOf)
  {
    if ps == [] then 0
    else
      var here := waveOf[ps[0]] + 1;
      var rest := RoundAfter(ps[1..], waveOf);
      if here < rest then rest else here
  }

  /** Every parent's round lies before `RoundAfter`. */
  lemma {:induction false} RoundAfterAbove<R, E>(ps: seq<ExecNode?<R, E>>, waveOf: map<ExecNode<R, E>, nat>, k: nat)
    requires AllIn(ps, waveOf) && k < |ps|
    ensures waveOf[ps[k]] < RoundAfter(ps, waveOf)
  {
    if k > 0 {
      RoundAfterAbove(ps[1..], waveOf, k - 1);
    }
  }

  /** `RoundAfter` is the least bound: if every parent's round is below `b`, it is at most `b`. */
  lemma {:induction false} RoundAfterLeast<R, E>(ps: seq<ExecNode?<R, E>>, waveOf: map<ExecNode<R, E>, nat>, b: nat)
    requires AllIn(ps, waveOf)
    requires forall k :: 0 <= k < |ps| ==> waveOf[ps[k]] < b
    ensures RoundAfter(ps, waveOf) <= b
  {
    if ps != [] {
      RoundAfterLeast(ps[1..], waveOf, b);
    }
  }

  /** A node after round 0 has a parent in the round just before. */
  lemma {:induction false} RoundAfterAttained<R, E>(ps: seq<ExecNode?<R, E>>, waveOf: map<ExecNode<R, E>, nat>)
    requires AllIn(ps, waveOf) && RoundAfter(ps, waveOf) > 0
    ensures exists k :: 0 <= k < |ps| && waveOf[ps[k]] + 1 == RoundAfter(ps, waveOf)
  {
    if waveOf[ps[0]] + 1 < RoundAfter(ps[1..], waveOf) {
      RoundAfterAttained(ps[1..], waveOf);
      var k :| 0 <= k < |ps[1..]| && waveOf[ps[1..][k]] + 1 == RoundAfter(ps[1..], waveOf);
      assert ps[k + 1] == ps[1..][k];
    }
  }

  /** `RoundAfter` only looks at the parents' rounds. */
  lemma {:induction false} RoundAfterAgree<R, E>(ps: seq<ExecNode?<R, E>>, waveOf: map<ExecNode<R, E>, nat>,
                                                 waveOf': map<ExecNode<R, E>, nat>)
    requires AllIn(ps, waveOf) && AllIn(ps, waveOf')
    requires forall k :: 0 <= k < |ps| ==> waveOf[ps[k]] == waveOf'[ps[k]]
    ensures RoundAfter(ps, waveOf) == RoundAfter(ps, waveOf')
  {
    if ps != [] {
      RoundAfterAgree(ps[1..], waveOf, waveOf');
    }
  }

  /** `FirstFailed` over recorded outcomes instead of the nodes' fields. */
  ghost function FirstFailedIn<R, E>(ps: seq<ExecNode?<R, E>>, errOf: map<ExecNode<R, E>, Option<ExecError<E>>>)
    : Option<ExecNode<R, E>>
    requires AllIn(ps, errOf)
  {
    if ps == [] then None
    else if errOf[ps[0]].Some? then Some(ps[0])
    else FirstFailedIn(ps[1..], errOf)
  }

  /** `Outcome` over recorded outcomes instead of the nodes' fields. */
  ghost function OutcomeIn<R, E>(resource: R, ps: seq<ExecNode?<R, E>>, errOf: map<ExecNode<R, E>, Option<ExecError<E>>>,
                                 execFunc: R -> Option<E>, describe: R -> string): Option<ExecError<E>>
    requires AllIn(ps, errOf)
  {
    match FirstFailedIn(ps, errOf)
    case Some(p) => Some(DependencyFailed(describe(p.resource)))
    case None => if execFunc(resource).Some? then Some(ApplyFailed(execFunc(resource).value)) else None
  }

  /** Where the record agrees with the parents' fields, both versions of `FirstFailed` agree. */
  lemma {:induction false} FailedAgree<R, E>(ps: seq<ExecNode?<R, E>>, errOf: map<ExecNode<R, E>, Option<ExecError<E>>>)
    requires NonNil(ps) && AllIn(ps, errOf)
    requires forall k :: 0 <= k < |ps| ==> ps[k].execError == errOf[ps[k]]
    ensures FirstFailed(ps) == FirstFailedIn(ps, errOf)
  {
    if ps != [] {
      FailedAgree(ps[1..], errOf);
    }
  }

  /** `FirstFailedIn` only looks at the parents' entries. */
  lemma {:induction false} FailedInAgree<R, E>(ps: seq<ExecNode?<R, E>>, errOf: map<ExecNode<R, E>, Option<ExecError<E>>>,
                                               errOf': map<ExecNode<R, E>, Option<ExecError<E>>>)
    requires AllIn(ps, errOf) && AllIn(ps, errOf')
    requires forall k :: 0 <= k < |ps| ==> errOf[ps[k]] == errOf'[ps[k]]
    ensures FirstFailedIn(ps, errOf) == FirstFailedIn(ps, errOf')
  {
    if ps != [] {
      FailedInAgree(ps[1..], errOf, errOf');
    }
  }

  /**
   * The nodes' flags agree with the rounds recorded so far; a node not yet run holds no
   * error, and a node that ran holds its recorded error.
   */
  ghost predicate Tracked<R, E>(nodes: seq<ExecNode<R, E>>, waveOf: map<ExecNode<R, E>, nat>,
                                errOf: map<ExecNode<R, E>, Option<ExecError<E>>>)
    reads (set n | n in nodes)`isExecStarted, (set n | n in nodes)`isExecFinished, (set n | n in nodes)`execError
  {
    (forall n :: n in waveOf ==> n in nodes && n in errOf) &&
    (forall n :: n in nodes ==> (n.isExecStarted <==> n in waveOf) && (n.isExecFinished <==> n in waveOf)) &&
    (forall n :: n in nodes && n !in waveOf ==> n.execError == None) &&
    (forall n :: n in nodes && n in waveOf ==> n.execError == errOf[n])
  }

  /**
   * Rounds are layered: all before `wave`; every node that ran did so in the round right
   * after its latest parent's; and a node not yet run whose parents have all run must wait
   * for a round not yet reached.
   */
  ghost predicate Layered<R, E>(nodes: seq<ExecNode<R, E>>, waveOf: map<ExecNode<R, E>, nat>, wave: nat)
    reads (set n | n in nodes)`parents
  {
    (forall n :: n in waveOf ==> waveOf[n] < wave) &&
    (forall n :: n in nodes && n in waveOf ==> AllIn(n.parents, waveOf) && waveOf[n] == RoundAfter(n.parents, waveOf)) &&
    (forall n :: n in nodes && n !in waveOf && AllIn(n.parents, waveOf) ==> RoundAfter(n.parents, waveOf) >= wave)
  }

  /** Every recorded error is the one the node's parents and `execFunc` determine. */
  ghost predicate Settled<R, E>(nodes: seq<ExecNode<R, E>>, waveOf: map<ExecNode<R, E>, nat>,
                                errOf: map<ExecNode<R, E>, Option<ExecError<E>>>,
                                execFunc: R -> Option<E>, describe: R -> string)
    reads (set n | n in nodes)`parents
  {
    forall n :: n in nodes && n in waveOf && n in errOf && AllIn(n.parents, errOf) ==>
      errOf[n] == OutcomeIn(n.resource, n.parents, errOf, execFunc, describe)
  }

  /** `execFunc` was called once for each node that ran with no failed parent, in round order. */
  ghost predicate Recorded<R, E>(nodes: seq<ExecNode<R, E>>, waveOf: map<ExecNode<R, E>, nat>,
                                 errOf: map<ExecNode<R, E>, Option<ExecError<E>>>, calls: seq<ExecNode<R, E>>)
    reads (set n | n in nodes)`parents
  {
    Distinct(calls) &&
    (forall n :: n in calls ==>
      n in nodes && n in waveOf && AllIn(n.parents, errOf) && FirstFailedIn(n.parents, errOf).None?) &&
    (forall n :: n in nodes && n in waveOf && AllIn(n.parents, errOf) && FirstFailedIn(n.parents, errOf).None? ==>
      n in calls) &&
    (forall i, j :: 0 <= i < j < |calls| ==>
      calls[i] in waveOf && calls[j] in waveOf && waveOf[calls[i]] <= waveOf[calls[j]])
  }

  /** The invariant `Execute` keeps from round to round. */
  ghost predicate RoundInv<R, E>(nodes: seq<ExecNode<R, E>>, execFunc: R -> Option<E>, describe: R -> string,
                                 rank: ExecNode<R, E> -> nat, waveOf: map<ExecNode<R, E>, nat>,
                                 errOf: map<ExecNode<R, E>, Option<ExecError<E>>>,
                                 calls: seq<ExecNode<R, E>>, wave: nat)
    reads set n | n in nodes
  {
    Wired(nodes, rank) && Tracked(nodes, waveOf, errOf) && Layered(nodes, waveOf, wave) &&
    Settled(nodes, waveOf, errOf, execFunc, describe) && Recorded(nodes, waveOf, errOf, calls)
  }

  /** Before the first round nothing has run, so the invariant holds with nothing recorded. */
  lemma Initial<R, E>(nodes: seq<ExecNode<R, E>>, execFunc: R -> Option<E>, describe: R -> string,
                      rank: ExecNode<R, E> -> nat)
    requires Wired(nodes, rank)
    requires forall n :: n in nodes ==> !n.isExecStarted && !n.isExecFinished && n.execError == None
    ensures RoundInv(nodes, execFunc, describe, rank, map[], map[], [], 0)
  {
  }

  /** From any unfinished node, a descent by rank reaches an unfinished node whose parents all finished. */
  lemma {:induction false} Progress<R, E>(nodes: seq<ExecNode<R, E>>, rank: ExecNode<R, E> -> nat, n: ExecNode<R, E>)
    requires Wired(nodes, rank) && n in nodes && !n.isExecFinished
    ensures exists m :: m in nodes && !m.isExecFinished && NonNil(m.parents) && AllFinished(m.parents)
    decreases rank(n)
  {
    if !AllFinished(n.parents) {
      var k :| 0 <= k < |n.parents| && !n.parents[k].isExecFinished;
      Progress(nodes, rank, n.parents[k]);
    }
  }

  /**
   * At the start of a round, under the invariant, the ready nodes are exactly the nodes not
   * run yet whose parents have all run, and the outcome each must finish with is the one
   * computed from the record.
   */
  lemma ReadyExactly<R, E>(nodes: seq<ExecNode<R, E>>, execFunc: R -> Option<E>, describe: R -> string,
                           rank: ExecNode<R, E> -> nat, waveOf: map<ExecNode<R, E>, nat>,
                           errOf: map<ExecNode<R, E>, Option<ExecError<E>>>,
                           calls: seq<ExecNode<R, E>>, wave: nat, ready: seq<ExecNode<R, E>>)
    requires RoundInv(nodes, execFunc, describe, rank, waveOf, errOf, calls, wave)
    requires forall n :: n in ready <==> n in nodes && NonNil(n.parents) && n.Ready()
    ensures forall n :: n in nodes ==> (n in ready <==> n !in waveOf && AllIn(n.parents, waveOf))
    ensures forall r :: r in ready ==>
      AllIn(r.parents, errOf) &&
      Outcome(r.resource, r.parents, execFunc, describe) == OutcomeIn(r.resource, r.parents, errOf, execFunc, describe) &&
      FirstFailed(r.parents) == FirstFailedIn(r.parents, errOf)
  {
    forall n | n in nodes
      ensures n in ready <==> n !in waveOf && AllIn(n.parents, waveOf)
    {
      assert forall k :: 0 <= k < |n.parents| ==> n.parents[k] in nodes;
    }
    forall r | r in ready
      ensures AllIn(r.parents, errOf)
      ensures FirstFailed(r.parents) == FirstFailedIn(r.parents, errOf)
    {
      FailedAgree(r.parents, errOf);
    }
  }

  /** Recording the ready nodes in round `wave` keeps the rounds layered. */
  lemma LayeredStep<R, E>(nodes: seq<ExecNode<R, E>>, waveOf: map<ExecNode<R, E>, nat>, wave: nat,
                          ready: set<ExecNode<R, E>>, waveOf': map<ExecNode<R, E>, nat>)
    requires Closed(nodes) && Layered(nodes, waveOf, wave)
    requires forall n :: n in nodes ==> (n in ready <==> n !in waveOf && AllIn(n.parents, waveOf))
    requires forall n :: n in waveOf' ==> n in waveOf || n in ready
    requires forall n :: n in waveOf ==> n in waveOf' && waveOf'[n] == waveOf[n]
    requires forall n :: n in ready ==> n in waveOf' && waveOf'[n] == wave
    ensures Layered(nodes, waveOf', wave + 1)
  {
    forall n | n in nodes && n in waveOf'
      ensures AllIn(n.parents, waveOf') && waveOf'[n] == RoundAfter(n.parents, waveOf')
    {
      RoundAfterAgree(n.parents, waveOf, waveOf');
      if n !in waveOf {
        RoundAfterLeast(n.parents, waveOf, wave);
      }
    }
    forall n | n in nodes && n !in waveOf' && AllIn(n.parents, waveOf')
      ensures RoundAfter(n.parents, waveOf') >= wave + 1
    {
      var k :| 0 <= k < |n.parents| && n.parents[k] !in waveOf;
      RoundAfterAbove(n.parents, waveOf', k);
    }
  }

  /** Recording the ready nodes' outcomes keeps every recorded outcome determined by its parents. */
  lemma SettledStep<R, E>(nodes: seq<ExecNode<R, E>>, waveOf: map<ExecNode<R, E>, nat>,
                          errOf: map<ExecNode<R, E>, Option<ExecError<E>>>, execFunc: R -> Option<E>, describe: R -> string,
                          ready: set<ExecNode<R, E>>, waveOf': map<ExecNode<R, E>, nat>,
                          errOf': map<ExecNode<R, E>, Option<ExecError<E>>>)
    requires Settled(nodes, waveOf, errOf, execFunc, describe)
    requires forall n :: n in waveOf ==> n in errOf
    requires forall n :: n in nodes && n in waveOf ==> AllIn(n.parents, waveOf)
    requires forall n :: n in ready ==> n in nodes && n !in waveOf && AllIn(n.parents, waveOf) && AllIn(n.parents, errOf)
    requires forall n :: n in waveOf' ==> n in waveOf || n in ready
    requires forall n :: n in waveOf ==> n in waveOf' && n in errOf' && errOf'[n] == errOf[n]
    requires forall r :: r in ready ==>
      r in waveOf' && r in errOf' && errOf'[r] == OutcomeIn(r.resource, r.parents, errOf, execFunc, describe)
    ensures Settled(nodes, waveOf', errOf', execFunc, describe)
  {
    forall n | n in nodes && n in waveOf' && n in errOf' && AllIn(n.parents, errOf')
      ensures errOf'[n] == OutcomeIn(n.resource, n.parents, errOf', execFunc, describe)
    {
      FailedInAgree(n.parents, errOf, errOf');
    }
  }

  /** Appending the ready nodes that had no failed parent keeps the call record. */
  lemma RecordedStep<R, E>(nodes: seq<ExecNode<R, E>>, waveOf: map<ExecNode<R, E>, nat>,
                           errOf: map<ExecNode<R, E>, Option<ExecError<E>>>, calls: seq<ExecNode<R, E>>, wave: nat,
                           ready: set<ExecNode<R, E>>, applied: seq<ExecNode<R, E>>, waveOf': map<ExecNode<R, E>, nat>,
                           errOf': map<ExecNode<R, E>, Option<ExecError<E>>>)
    requires Recorded(nodes, waveOf, errOf, calls)
    requires forall n :: n in waveOf ==> n in errOf && waveOf[n] < wave
    requires forall n :: n in nodes && n in waveOf ==> AllIn(n.parents, waveOf)
    requires forall n :: n in ready ==> n in nodes && n !in waveOf && AllIn(n.parents, waveOf) && AllIn(n.parents, errOf)
    requires forall n :: n in waveOf' ==> n in waveOf || n in ready
    requires forall n :: n in waveOf ==> n in waveOf' && waveOf'[n] == waveOf[n] && n in errOf' && errOf'[n] == errOf[n]
    requires forall r :: r in ready ==> r in waveOf' && waveOf'[r] == wave
    requires Distinct(applied)
    requires forall n :: n in applied <==> n in ready && FirstFailedIn(n.parents, errOf).None?
    ensures Recorded(nodes, waveOf', errOf', calls + applied)
  {
    forall n | n in nodes && n in waveOf' && AllIn(n.parents, errOf')
      ensures FirstFailedIn(n.parents, errOf') == FirstFailedIn(n.parents, errOf)
    {
      FailedInAgree(n.parents, errOf, errOf');
    }
    DistinctAppend(calls, applied);
    OrderedAppend(calls, applied, waveOf, waveOf', wave);
  }

  /** Appending nodes of round `wave` to calls of earlier rounds keeps the calls in round order. */
  lemma OrderedAppend<R, E>(calls: seq<ExecNode<R, E>>, applied: seq<ExecNode<R, E>>,
                            waveOf: map<ExecNode<R, E>, nat>, waveOf': map<ExecNode<R, E>, nat>, wave: nat)
    requires forall i, j :: 0 <= i < j < |calls| ==>
      calls[i] in waveOf && calls[j] in waveOf && waveOf[calls[i]] <= waveOf[calls[j]]
    requires forall n :: n in calls ==> n in waveOf && n in waveOf' && waveOf'[n] == waveOf[n] && waveOf[n] < wave
    requires forall n :: n in applied ==> n in waveOf' && waveOf'[n] == wave
    ensures forall i, j :: 0 <= i < j < |calls + applied| ==>
      (calls + applied)[i] in waveOf' && (calls + applied)[j] in waveOf' &&
      waveOf'[(calls + applied)[i]] <= waveOf'[(calls + applied)[j]]
  {
    var s := calls + applied;
    forall i, j | 0 <= i < j < |s|
      ensures s[i] in waveOf' && s[j] in waveOf' && waveOf'[s[i]] <= waveOf'[s[j]]
    {
      if j < |calls| {
        assert s[i] == calls[i] && s[j] == calls[j];
      } else if i < |calls| {
        assert s[i] == calls[i] && s[j] == applied[j - |calls|];
      } else {
        assert s[i] == applied[i - |calls|] && s[j] == applied[j - |calls|];
      }
    }
  }

  /** Outcomes of the ready nodes, computed from the record. */
  ghost function WaveOutcomes<R, E>(ready: set<ExecNode<R, E>>, errOf: map<ExecNode<R, E>, Option<ExecError<E>>>,
                                    execFunc: R -> Option<E>, describe: R -> string)
    : map<ExecNode<R, E>, Option<ExecError<E>>>
    reads set r | r in ready
    requires forall r :: r in ready ==> AllIn(r.parents, errOf)
  {
    map r | r in ready :: OutcomeIn(r.resource, r.parents, errOf, execFunc, describe)
  }

  /**
   * Launch the ready nodes and bring the flags and the call record up to date with the
   * rounds and outcomes recorded for them.
   */
  method LaunchRecorded<R, E>(nodes: seq<ExecNode<R, E>>, ready: seq<ExecNode<R, E>>, execFunc: R -> Option<E>,
                              describe: R -> string, ghost waveOf: map<ExecNode<R, E>, nat>,
                              ghost errOf: map<ExecNode<R, E>, Option<ExecError<E>>>,
                              ghost calls: seq<ExecNode<R, E>>, ghost wave: nat,
                              ghost waveOf': map<ExecNode<R, E>, nat>, ghost errOf': map<ExecNode<R, E>, Option<ExecError<E>>>)
    returns (ghost calls': seq<ExecNode<R, E>>)
    requires Closed(nodes) && Distinct(ready)
    requires Tracked(nodes, waveOf, errOf) && Recorded(nodes, waveOf, errOf, calls)
    requires forall n :: n in waveOf ==> waveOf[n] < wave
    requires forall n :: n in nodes && n in waveOf ==> AllIn(n.parents, waveOf)
    requires forall r :: r in ready ==>
      r in nodes && r !in waveOf && AllIn(r.parents, waveOf) && AllIn(r.parents, errOf) &&
      Outcome(r.resource, r.parents, execFunc, describe) == OutcomeIn(r.resource, r.parents, errOf, execFunc, describe) &&
      FirstFailed(r.parents) == FirstFailedIn(r.parents, errOf)
    requires forall n :: n in waveOf' ==> n in waveOf || n in ready
    requires forall n :: n in waveOf ==> n in waveOf' && waveOf'[n] == waveOf[n] && n in errOf' && errOf'[n] == errOf[n]
    requires forall r :: r in ready ==>
      r in waveOf' && waveOf'[r] == wave && r in errOf' &&
      errOf'[r] == OutcomeIn(r.resource, r.parents, errOf, execFunc, describe)
    modifies (set n | n in nodes)`isExecStarted, (set n | n in nodes)`isExecFinished, (set n | n in nodes)`execError
    ensures Tracked(nodes, waveOf', errOf') && Recorded(nodes, waveOf', errOf', calls')
  {
    assert forall r :: r in ready ==> forall k :: 0 <= k < |r.parents| ==> r.parents[k] !in ready;
    ghost var applied := LaunchWave(ready, execFunc, describe, errOf);
    forall n | n in nodes
      ensures (n.isExecStarted <==> n in waveOf') && (n.isExecFinished <==> n in waveOf')
      ensures n !in waveOf' ==> n.execError == None
      ensures n in waveOf' ==> n.execError == errOf'[n]
    {
      if n !in ready {
        assert n.isExecStarted == old(n.isExecStarted) && n.isExecFinished == old(n.isExecFinished);
        assert n.execError == old(n.execError);
      }
    }
    calls' := calls + applied;
    RecordedStep(nodes, waveOf, errOf, calls, wave, (set r | r in ready), applied, waveOf', errOf');
  }

  /** Record the ready nodes as run in round `wave`, with the outcomes their parents determine. */
  ghost method Advance<R, E>(nodes: seq<ExecNode<R, E>>, execFunc: R -> Option<E>, describe: R -> string,
                             waveOf: map<ExecNode<R, E>, nat>, errOf: map<ExecNode<R, E>, Option<ExecError<E>>>,
                             wave: nat, ready: seq<ExecNode<R, E>>)
    returns (waveOf': map<ExecNode<R, E>, nat>, errOf': map<ExecNode<R, E>, Option<ExecError<E>>>)
    requires Closed(nodes) && Layered(nodes, waveOf, wave) && Settled(nodes, waveOf, errOf, execFunc, describe)
    requires forall n :: n in waveOf ==> n in errOf
    requires forall n :: n in nodes ==> (n in ready <==> n !in waveOf && AllIn(n.parents, waveOf))
    requires forall r :: r in ready ==> r in nodes && AllIn(r.parents, errOf)
    ensures forall n :: n in waveOf' ==> n in waveOf || n in ready
    ensures forall n :: n in waveOf ==> n in waveOf' && waveOf'[n] == waveOf[n] && n in errOf' && errOf'[n] == errOf[n]
    ensures forall r :: r in ready ==>
      r in waveOf' && waveOf'[r] == wave && r in errOf' &&
      errOf'[r] == OutcomeIn(r.resource, r.parents, errOf, execFunc, describe)
    ensures Layered(nodes, waveOf', wave + 1) && Settled(nodes, waveOf', errOf', execFunc, describe)
  {
    var S := set r | r in ready;
    waveOf' := waveOf + map r | r in S :: wave;
    errOf' := errOf + WaveOutcomes(S, errOf, execFunc, describe);
    LayeredStep(nodes, waveOf, wave, S, waveOf');
    SettledStep(nodes, waveOf, errOf, execFunc, describe, S, waveOf', errOf');
  }

  /**
   * The scan at the start of a round: under the invariant it finds exactly the nodes not run
   * yet whose parents have all run, and at least one while some node has not run.
   */
  method FindReady<R, E>(nodes: seq<ExecNode<R, E>>, execFunc: R -> Option<E>, describe: R -> string,
                         ghost rank: ExecNode<R, E> -> nat, ghost waveOf: map<ExecNode<R, E>, nat>,
                         ghost errOf: map<ExecNode<R, E>, Option<ExecError<E>>>,
                         ghost calls: seq<ExecNode<R, E>>, ghost wave: nat)
    returns (ready: seq<ExecNode<R, E>>)
    requires RoundInv(nodes, execFunc, describe, rank, waveOf, errOf, calls, wave)
    ensures Distinct(ready)
    ensures forall n :: n in nodes ==> (n in ready <==> n !in waveOf && AllIn(n.parents, waveOf))
    ensures forall r :: r in ready ==>
      r in nodes && NonNil(r.parents) && !r.isExecStarted && !r.isExecFinished && r.execError == None &&
      AllIn(r.parents, errOf) &&
      Outcome(r.resource, r.parents, execFunc, describe) == OutcomeIn(r.resource, r.parents, errOf, execFunc, describe) &&
      FirstFailed(r.parents) == FirstFailedIn(r.parents, errOf)
    ensures (exists n :: n in nodes && n !in waveOf) ==> exists r :: r in ready
  {
    ready := ScanReady(nodes);
    ReadyExactly(nodes, execFunc, describe, rank, waveOf, errOf, calls, wave, ready);
    if n :| n in nodes && n !in waveOf {
      Progress(nodes, rank, n);
      ghost var m :| m in nodes && !m.isExecFinished && NonNil(m.parents) && AllFinished(m.parents);
      assert m in ready;
    }
  }

  /**
   * The second half of a round, after the scan: record the ready nodes as run in round
   * `wave`, then launch them and wait.
   */
  method Commit<R, E>(nodes: seq<ExecNode<R, E>>, execFunc: R -> Option<E>, describe: R -> string,
                      ghost rank: ExecNode<R, E> -> nat, ghost waveOf: map<ExecNode<R, E>, nat>,
                      ghost errOf: map<ExecNode<R, E>, Option<ExecError<E>>>,
                      ghost calls: seq<ExecNode<R, E>>, ghost wave: nat, ready: seq<ExecNode<R, E>>)
    returns (ghost waveOf': map<ExecNode<R, E>, nat>, ghost errOf': map<ExecNode<R, E>, Option<ExecError<E>>>,
             ghost calls': seq<ExecNode<R, E>>)
    requires RoundInv(nodes, execFunc, describe, rank, waveOf, errOf, calls, wave)
    requires Distinct(ready)
    requires forall n :: n in nodes ==> (n in ready <==> n !in waveOf && AllIn(n.parents, waveOf))
    requires forall r :: r in ready ==>
      r in nodes && NonNil(r.parents) && !r.isExecStarted && !r.isExecFinished && r.execError == None &&
      AllIn(r.parents, errOf) &&
      Outcome(r.resource, r.parents, execFunc, describe) == OutcomeIn(r.resource, r.parents, errOf, execFunc, describe) &&
      FirstFailed(r.parents) == FirstFailedIn(r.parents, errOf)
    modifies (set n | n in nodes)`isExecStarted, (set n | n in nodes)`isExecFinished, (set n | n in nodes)`execError
    ensures RoundInv(nodes, execFunc, describe, rank, waveOf', errOf', calls', wave + 1)
    ensures waveOf.Keys <= waveOf'.Keys
    ensures forall r :: r in ready ==> r in waveOf'
  {
    waveOf', errOf' := Advance(nodes, execFunc, describe, waveOf, errOf, wave, ready);
    ghost var shaped := Wired(nodes, rank) && Layered(nodes, waveOf', wave + 1) &&
                        Settled(nodes, waveOf', errOf', execFunc, describe);
    assert shaped;
    calls' := LaunchRecorded(nodes, ready, execFunc, describe, waveOf, errOf, calls, wave, waveOf', errOf');
    assert shaped == (Wired(nodes, rank) && Layered(nodes, waveOf', wave + 1) &&
                      Settled(nodes, waveOf', errOf', execFunc, describe));
  }

  /** One round of `Execute`: scan for ready nodes, then launch them and wait. */
  method Round<R, E>(nodes: seq<ExecNode<R, E>>, execFunc: R -> Option<E>, describe: R -> string,
                     ghost rank: ExecNode<R, E> -> nat, ghost waveOf: map<ExecNode<R, E>, nat>,
                     ghost errOf: map<ExecNode<R, E>, Option<ExecError<E>>>,
                     ghost calls: seq<ExecNode<R, E>>, ghost wave: nat)
    returns (ghost waveOf': map<ExecNode<R, E>, nat>, ghost errOf': map<ExecNode<R, E>, Option<ExecError<E>>>,
             ghost calls': seq<ExecNode<R, E>>)
    requires RoundInv(nodes, execFunc, describe, rank, waveOf, errOf, calls, wave)
    modifies (set n | n in nodes)`isExecStarted, (set n | n in nodes)`isExecFinished, (set n | n in nodes)`execError
    ensures RoundInv(nodes, execFunc, describe, rank, waveOf', errOf', calls', wave + 1)
    ensures waveOf.Keys <= waveOf'.Keys
    ensures (exists n :: n in nodes && n !in waveOf) ==> exists n :: n in nodes && n !in waveOf && n in waveOf'
  {
    var ready := FindReady(nodes, execFunc, describe, rank, waveOf, errOf, calls, wave);
    waveOf', errOf', calls' := Commit(nodes, execFunc, describe, rank, waveOf, errOf, calls, wave, ready);
    if exists n :: n in nodes && n !in waveOf {
      ghost var r :| r in ready;
      assert r in nodes && r !in waveOf && r in waveOf';
    }
  }

  /** Once the record covers a node's parents and agrees with their fields, the node's outcome is the recorded one. */
  lemma OutcomeAgree<R, E>(resource: R, ps: seq<ExecNode?<R, E>>, errOf: map<ExecNode<R, E>, Option<ExecError<E>>>,
                           execFunc: R -> Option<E>, describe: R -> string)
    requires NonNil(ps) && AllIn(ps, errOf)
    requires forall k :: 0 <= k < |ps| ==> ps[k].execError == errOf[ps[k]]
    ensures Outcome(resource, ps, execFunc, describe) == OutcomeIn(resource, ps, errOf, execFunc, describe)
    ensures FirstFailed(ps) == FirstFailedIn(ps, errOf)
  {
    FailedAgree(ps, errOf);
  }

  /** Every node has finished with the error its parents and `execFunc` determine. */
  ghost predicate AllSettled<R, E>(nodes: seq<ExecNode<R, E>>, execFunc: R -> Option<E>, describe: R -> string)
    reads set n | n in nodes
    requires Closed(nodes)
  {
    forall n :: n in nodes ==>
      n.isExecStarted && n.isExecFinished && n.execError == Outcome(n.resource, n.parents, execFunc, describe)
  }

  /**
   * Every node ran, in the round right after its latest parent's round (round 0 for a node
   * without parents).
   */
  ghost predicate Scheduled<R, E>(nodes: seq<ExecNode<R, E>>, waveOf: map<ExecNode<R, E>, nat>)
    reads (set n | n in nodes)`parents
  {
    (forall n :: n in waveOf ==> n in nodes) &&
    (forall n :: n in nodes ==> n in waveOf && AllIn(n.parents, waveOf) && waveOf[n] == RoundAfter(n.parents, waveOf))
  }

  /** `execFunc` ran exactly for the nodes none of whose parents failed, once each, in round order. */
  ghost predicate Called<R, E>(nodes: seq<ExecNode<R, E>>, waveOf: map<ExecNode<R, E>, nat>, calls: seq<ExecNode<R, E>>)
    reads set n | n in nodes
    requires Closed(nodes)
  {
    Distinct(calls) &&
    (forall n :: n in calls ==> n in nodes && FirstFailed(n.parents).None?) &&
    (forall n :: n in nodes && FirstFailed(n.parents).None? ==> n in calls) &&
    (forall i, j :: 0 <= i < j < |calls| ==>
      calls[i] in waveOf && calls[j] in waveOf && waveOf[calls[i]] <= waveOf[calls[j]])
  }

  /** The results `Execute` promises, stated on the final state. */
  ghost predicate Done<R, E>(nodes: seq<ExecNode<R, E>>, execFunc: R -> Option<E>, describe: R -> string,
                             waveOf: map<ExecNode<R, E>, nat>, calls: seq<ExecNode<R, E>>)
    reads set n | n in nodes
  {
    Closed(nodes) && AllSettled(nodes, execFunc, describe) && Scheduled(nodes, waveOf) && Called(nodes, waveOf, calls)
  }

  /** Once every node has finished, the round invariant gives the results `Execute` promises. */
  lemma Finished<R, E>(nodes: seq<ExecNode<R, E>>, execFunc: R -> Option<E>, describe: R -> string,
                       rank: ExecNode<R, E> -> nat, waveOf: map<ExecNode<R, E>, nat>,
                       errOf: map<ExecNode<R, E>, Option<ExecError<E>>>, calls: seq<ExecNode<R, E>>, wave: nat)
    requires RoundInv(nodes, execFunc, describe, rank, waveOf, errOf, calls, wave)
    requires forall n :: n in nodes ==> n.isExecFinished
    ensures Done(nodes, execFunc, describe, waveOf, calls)
  {
    forall n | n in nodes
      ensures AllIn(n.parents, errOf)
      ensures Outcome(n.resource, n.parents, execFunc, describe) == OutcomeIn(n.resource, n.parents, errOf, execFunc, describe)
      ensures FirstFailed(n.parents) == FirstFailedIn(n.parents, errOf)
    {
      assert forall k :: 0 <= k < |n.parents| ==> n.parents[k] in nodes && n.parents[k] in waveOf;
      OutcomeAgree(n.resource, n.parents, errOf, execFunc, describe);
    }
    assert forall n :: n in nodes ==> n in waveOf;
    assert Scheduled(nodes, waveOf);
    assert AllSettled(nodes, execFunc, describe);
  }

  /** The nodes not run yet. */
  ghost function Pending<R, E>(nodes: seq<ExecNode<R, E>>, waveOf: map<ExecNode<R, E>, nat>): set<ExecNode<R, E>>
  {
    set n | n in nodes && n !in waveOf
  }

  /** One pass of the loop in `Execute`: a round, then `areAllNodesFinished`. */
  method Step<R, E>(nodes: seq<ExecNode<R, E>>, execFunc: R -> Option<E>, describe: R -> string,
                    ghost rank: ExecNode<R, E> -> nat, ghost waveOf: map<ExecNode<R, E>, nat>,
                    ghost errOf: map<ExecNode<R, E>, Option<ExecError<E>>>,
                    ghost calls: seq<ExecNode<R, E>>, ghost wave: nat)
    returns (all: bool, ghost waveOf': map<ExecNode<R, E>, nat>, ghost errOf': map<ExecNode<R, E>, Option<ExecError<E>>>,
             ghost calls': seq<ExecNode<R, E>>)
    requires RoundInv(nodes, execFunc, describe, rank, waveOf, errOf, calls, wave)
    modifies (set n | n in nodes)`isExecStarted, (set n | n in nodes)`isExecFinished, (set n | n in nodes)`execError
    ensures RoundInv(nodes, execFunc, describe, rank, waveOf', errOf', calls', wave + 1)
    ensures all ==> Done(nodes, execFunc, describe, waveOf', calls')
    ensures !all ==> Pending(nodes, waveOf') < Pending(nodes, waveOf)
  {
    waveOf', errOf', calls' := Round(nodes, execFunc, describe, rank, waveOf, errOf, calls, wave);
    all := AreAllNodesFinished(nodes);
    if all {
      Finished(nodes, execFunc, describe, rank, waveOf', errOf', calls', wave + 1);
    } else {
      ghost var u :| u in nodes && !u.isExecFinished;
      assert u !in waveOf;
      ghost var w :| w in nodes && w !in waveOf && w in waveOf';
      assert w in Pending(nodes, waveOf);
    }
  }

  /**
   * `Execute`: repeat rounds until every node has finished; each round starts every node
   * whose `ShouldStart` holds at the start of the round and waits for all of them.
   *
   * The ghost results record the round in which each node ran (`waveOf`) and the nodes on
   * which `execFunc` was called (`calls`, in call order). On return (`Done`) every node has
   * finished with the error its parents and `execFunc` determine; every node ran in the
   * round right after its latest parent's (round 0 for a node without parents); and
   * `execFunc` was called exactly once for each node none of whose parents failed, never
   * for another, and in round order.
   */
  method Execute<R, E>(nodes: seq<ExecNode<R, E>>, execFunc: R -> Option<E>, describe: R -> string,
                       ghost rank: ExecNode<R, E> -> nat)
    returns (ghost waveOf: map<ExecNode<R, E>, nat>, ghost calls: seq<ExecNode<R, E>>)
    requires Wired(nodes, rank)
    requires forall n :: n in nodes ==> !n.isExecStarted && !n.isExecFinished && n.execError == None
    modifies (set n | n in nodes)`isExecStarted, (set n | n in nodes)`isExecFinished, (set n | n in nodes)`execError
    ensures Done(nodes, execFunc, describe, waveOf, calls)
  {
    waveOf, calls := map[], [];
    ghost var errOf: map<ExecNode<R, E>, Option<ExecError<E>>> := map[];
    ghost var wave: nat := 0;
    Initial(nodes, execFunc, describe, rank);
    while true
      invariant RoundInv(nodes, execFunc, describe, rank, waveOf, errOf, calls, wave)
      decreases Pending(nodes, waveOf)
    {
      var all;
      all, waveOf, errOf, calls := Step(nodes, execFunc, describe, rank, waveOf, errOf, calls, wave);
      wave := wave + 1;
      if all {
        break;
      }
    }
  }
}
