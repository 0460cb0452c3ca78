/**
 * The dependency scheduler of src/df_eval/engine.py (`_topological_sort`):
 * Kahn's algorithm over the intra-schema dependency graph, taking the
 * lexicographically smallest ready column at every step, and reporting the
 * columns it could not schedule as a cycle.
 */
module Schedule {
  import opened Wrappers
  import opened StringOrder
  import opened Expr

  /** `graph[c]`: the schema columns that column `c` needs computed first. */
  type Graph = map<string, set<string>>

  /** The names in a sequence. */
  function Elems(s: seq<string>): set<string>
  {
    set x | x in s
  }

  /** No name occurs twice. */
  predicate NoDup(s: seq<string>)
  {
    forall i, j :: 0 <= i < j < |s| ==> s[i] != s[j]
  }

  /** Every column of `order` is a node, and each of its prerequisites comes earlier. */
  ghost predicate Precedes(g: Graph, order: seq<string>)
  {
    forall i :: 0 <= i < |order| ==> order[i] in g && g[order[i]] <= Elems(order[..i])
  }

  /** `order` is a topological order of `g`: every node exactly once, prerequisites first. */
  ghost predicate IsTopologicalOrder(g: Graph, order: seq<string>)
  {
    NoDup(order) && Elems(order) == g.Keys && Precedes(g, order)
  }

  /**
   * The graph of a schema: each column's referenced names intersected with
   * the schema's columns; base columns, constants and functions are no edges.
   */
  function DependencyGraph(schema: map<string, Expression>): (g: Graph)
    ensures g.Keys == schema.Keys
    ensures forall c :: c in g ==> g[c] <= schema.Keys && g[c] <= schema[c].dependencies
    ensures forall c, d :: c in g && d in schema[c].dependencies && d in schema ==> d in g[c]
  {
    map c | c in schema :: schema[c].dependencies * schema.Keys
  }

  /** Column `n` is unscheduled and all its prerequisites are in `done`. */
  ghost predicate IsReady(g: Graph, done: set<string>, n: string)
  {
    n in g && n !in done && g[n] <= done
  }

  /** The ready columns once `done` have been scheduled. */
  ghost function Ready(g: Graph, done: set<string>): set<string>
  {
    set n | n in g.Keys && IsReady(g, done, n)
  }

  lemma ElemsAppend(s: seq<string>, x: string)
    ensures Elems(s + [x]) == Elems(s) + {x}
  {
    assert forall y :: y in s + [x] <==> y in s || y == x;
  }

  /**
   * The order Kahn's algorithm produces from the scheduled prefix `done`:
   * repeatedly append the smallest ready column until none is ready.
   */
  ghost function ScheduleFrom(g: Graph, done: seq<string>): seq<string>
    decreases |g.Keys - Elems(done)|
  {
    var ready := Ready(g, Elems(done));
    if ready == {} then
      done
    else
      var next := Smallest(ready);
      StepShrinks(g, done, next);
      ScheduleFrom(g, done + [next])
  }

  /** Scheduling a ready column leaves fewer columns to schedule. */
  lemma StepShrinks(g: Graph, done: seq<string>, next: string)
    requires IsReady(g, Elems(done), next)
    ensures |g.Keys - Elems(done + [next])| < |g.Keys - Elems(done)|
  {
    ElemsAppend(done, next);
    assert g.Keys - Elems(done + [next]) == (g.Keys - Elems(done)) - {next};
  }

  /** The full scheduling run, from nothing scheduled. */
  ghost function KahnOrder(g: Graph): seq<string>
  {
    ScheduleFrom(g, [])
  }

  /**
   * The outcome of `_topological_sort`: the order when it covers every
   * column, otherwise `CycleDetectedError` with the unscheduled columns.
   */
  ghost function TopoSpec(g: Graph): Result<seq<string>, set<string>>
  {
    var order := KahnOrder(g);
    if |order| == |g| then Ok(order) else Err(g.Keys - Elems(order))
  }

  lemma PrefixElems(s: seq<string>, i: nat)
    requires i <= |s|
    ensures Elems(s[..i]) <= Elems(s)
  {
    forall x | x in Elems(s[..i]) ensures x in Elems(s) {
      var k :| 0 <= k < i && s[..i][k] == x;
      assert s[k] == x;
    }
  }

  /** The columns of a valid prefix are nodes of the graph. */
  lemma PrecedesInGraph(g: Graph, s: seq<string>)
    requires Precedes(g, s)
    ensures Elems(s) <= g.Keys
  {
  }

  /** No scheduled column depends on a column that is not yet scheduled. */
  lemma PrecedesExcludes(g: Graph, s: seq<string>, node: string)
    requires Precedes(g, s) && node !in Elems(s)
    ensures forall n :: n in Elems(s) ==> n in g && node !in g[n]
  {
    forall n | n in Elems(s) ensures n in g && node !in g[n] {
      var i :| 0 <= i < |s| && s[i] == n;
      PrefixElems(s, i);
    }
  }

  /** Appending a ready column keeps a prefix duplicate-free and in dependency order. */
  lemma AppendReady(g: Graph, done: seq<string>, next: string)
    requires NoDup(done) && Precedes(g, done) && IsReady(g, Elems(done), next)
    ensures NoDup(done + [next]) && Precedes(g, done + [next])
  {
    var s := done + [next];
    forall i | 0 <= i < |s| ensures s[i] in g && g[s[i]] <= Elems(s[..i]) {
      if i < |done| {
        assert s[..i] == done[..i];
      } else {
        assert s[..i] == done;
      }
    }
  }

  lemma ScheduleFromStep(g: Graph, done: seq<string>)
    requires Ready(g, Elems(done)) != {}
    ensures ScheduleFrom(g, done) == ScheduleFrom(g, done + [Smallest(Ready(g, Elems(done)))])
  {
  }

  lemma ScheduleFromStop(g: Graph, done: seq<string>)
    requires Ready(g, Elems(done)) == {}
    ensures ScheduleFrom(g, done) == done
  {
  }

  /** Scheduling only appends to the prefix already scheduled. */
  lemma {:induction false} ScheduleFromExtends(g: Graph, done: seq<string>)
    ensures |done| <= |ScheduleFrom(g, done)| && ScheduleFrom(g, done)[..|done|] == done
    decreases |g.Keys - Elems(done)|
  {
    var ready := Ready(g, Elems(done));
    if ready == {} {
      ScheduleFromStop(g, done);
    } else {
      var next := Smallest(ready);
      var done' := done + [next];
      StepShrinks(g, done, next);
      ScheduleFromExtends(g, done');
      ScheduleFromStep(g, done);
      PrefixOfPrefix(ScheduleFrom(g, done'), done');
    }
  }

  lemma PrefixOfPrefix(order: seq<string>, done': seq<string>)
    requires |done'| > 0 && |done'| <= |order| && order[..|done'|] == done'
    ensures order[..|done'| - 1] == done'[..|done'| - 1]
  {
    assert forall k :: 0 <= k < |done'| - 1 ==> order[k] == order[..|done'|][k];
  }

  /**
   * Scheduling from a valid prefix ends in a valid prefix after which
   * nothing is ready.
   */
  lemma {:induction false} ScheduleFromSound(g: Graph, done: seq<string>)
    requires NoDup(done) && Precedes(g, done)
    ensures NoDup(ScheduleFrom(g, done)) && Precedes(g, ScheduleFrom(g, done))
    ensures Ready(g, Elems(ScheduleFrom(g, done))) == {}
    decreases |g.Keys - Elems(done)|
  {
    var ready := Ready(g, Elems(done));
    if ready == {} {
      ScheduleFromStop(g, done);
    } else {
      var next := Smallest(ready);
      var done' := done + [next];
      AppendReady(g, done, next);
      StepShrinks(g, done, next);
      ScheduleFromSound(g, done');
      ScheduleFromStep(g, done);
    }
  }

  /** Each column the run appends after `done` was the smallest ready column at its step. */
  lemma {:induction false} ScheduleFromGreedy(g: Graph, done: seq<string>)
    ensures forall i :: |done| <= i < |ScheduleFrom(g, done)| ==>
      IsSmallest(ScheduleFrom(g, done)[i], Ready(g, Elems(ScheduleFrom(g, done)[..i])))
    decreases |g.Keys - Elems(done)|
  {
    var ready := Ready(g, Elems(done));
    if ready == {} {
      ScheduleFromStop(g, done);
    } else {
      var next := Smallest(ready);
      var done' := done + [next];
      StepShrinks(g, done, next);
      ScheduleFromGreedy(g, done');
      ScheduleFromExtends(g, done');
      ScheduleFromStep(g, done);
      var order := ScheduleFrom(g, done');
      PrefixOfPrefix(order, done');
      assert done'[..|done|] == done;
      assert order[|done|] == order[..|done'|][|done|] == next;
    }
  }

  /** The full run is duplicate-free, in dependency order, stalled, and greedy at every step. */
  lemma KahnOrderSound(g: Graph)
    ensures NoDup(KahnOrder(g)) && Precedes(g, KahnOrder(g))
    ensures Ready(g, Elems(KahnOrder(g))) == {}
  {
    ScheduleFromSound(g, []);
  }

  /**
   * Deterministic tie-break: every column of the order is the
   * lexicographically smallest of the columns ready at its step.
   */
  lemma KahnOrderGreedy(g: Graph)
    ensures forall i :: 0 <= i < |KahnOrder(g)| ==> IsSmallest(KahnOrder(g)[i], Ready(g, Elems(KahnOrder(g)[..i])))
  {
    ScheduleFromGreedy(g, []);
  }

  lemma {:induction false} NoDupCard(s: seq<string>)
    requires NoDup(s)
    ensures |Elems(s)| == |s|
  {
    if |s| > 0 {
      var t := s[..|s| - 1];
      assert s == t + [s[|s| - 1]];
      assert NoDup(t);
      NoDupCard(t);
      ElemsAppend(t, s[|s| - 1]);
      assert s[|s| - 1] !in Elems(t);
    }
  }

  lemma SubsetCard(a: set<string>, b: set<string>)
    requires a <= b && |a| == |b|
    ensures a == b
  {
    assert b == a + (b - a);
    assert |b| == |a| + |b - a|;
  }

  /** A duplicate-free valid prefix covers the graph exactly when it is as long as the graph. */
  lemma FullIffCovering(g: Graph, order: seq<string>)
    requires NoDup(order) && Precedes(g, order)
    ensures Elems(order) <= g.Keys
    ensures |order| == |g| <==> Elems(order) == g.Keys
  {
    NoDupCard(order);
    PrecedesInGraph(g, order);
    assert |g.Keys| == |g|;
    if |order| == |g| {
      SubsetCard(Elems(order), g.Keys);
    }
  }

  /** On success the order is a topological order of the graph: each column once, prerequisites first. */
  lemma TopoSpecOk(g: Graph)
    requires TopoSpec(g).Ok?
    ensures IsTopologicalOrder(g, TopoSpec(g).value)
    ensures |TopoSpec(g).value| == |g|
  {
    KahnOrderSound(g);
    FullIffCovering(g, KahnOrder(g));
  }

  /**
   * On a cycle error the reported set is non-empty, disjoint from the
   * scheduled prefix, together with it makes up every column, and each
   * reported column still waits for another reported column.
   */
  lemma TopoSpecCycle(g: Graph)
    requires forall c :: c in g ==> g[c] <= g.Keys
    requires TopoSpec(g).Err?
    ensures TopoSpec(g).error != {}
    ensures TopoSpec(g).error !! Elems(KahnOrder(g)) && TopoSpec(g).error + Elems(KahnOrder(g)) == g.Keys
    ensures forall n :: n in TopoSpec(g).error ==> exists d :: d in g[n] && d in TopoSpec(g).error
  {
    var order := KahnOrder(g);
    var remaining := g.Keys - Elems(order);
    KahnOrderSound(g);
    FullIffCovering(g, order);
    forall n | n in remaining ensures exists d :: d in g[n] && d in remaining {
      assert !IsReady(g, Elems(order), n);
      var d :| d in g[n] && d !in Elems(order);
    }
  }

  /** When nothing is ready after `done`, every prefix of a valid order lies in `done`. */
  lemma {:induction false} StalledCoversPrefix(g: Graph, sigma: seq<string>, done: set<string>, i: nat)
    requires Precedes(g, sigma) && i <= |sigma| && Ready(g, done) == {}
    ensures Elems(sigma[..i]) <= done
  {
    if i > 0 {
      StalledCoversPrefix(g, sigma, done, i - 1);
      assert sigma[..i] == sigma[..i - 1] + [sigma[i - 1]];
      ElemsAppend(sigma[..i - 1], sigma[i - 1]);
      assert g[sigma[i - 1]] <= done;
      assert sigma[i - 1] !in Ready(g, done);
    }
  }

  /**
   * Completeness: the scheduler succeeds exactly when the schema admits a
   * topological order at all, so a cycle error is raised only for schemas
   * that have none.
   */
  lemma TopoSpecOkIffOrderable(g: Graph)
    ensures TopoSpec(g).Ok? <==> exists order :: IsTopologicalOrder(g, order)
  {
    var order := KahnOrder(g);
    KahnOrderSound(g);
    FullIffCovering(g, order);
    if TopoSpec(g).Ok? {
      TopoSpecOk(g);
    }
    forall sigma | IsTopologicalOrder(g, sigma) ensures TopoSpec(g).Ok? {
      StalledCoversPrefix(g, sigma, Elems(order), |sigma|);
      assert sigma[..|sigma|] == sigma;
    }
  }

  /**
   * Two columns that depend on each other (or one that depends on itself)
   * are never scheduled, and the run ends in a cycle error reporting both.
   */
  lemma MutualDependencyNeverScheduled(g: Graph, a: string, b: string)
    requires a in g && b in g && a in g[b] && b in g[a]
    ensures a !in Elems(KahnOrder(g)) && b !in Elems(KahnOrder(g))
    ensures TopoSpec(g).Err? && a in TopoSpec(g).error && b in TopoSpec(g).error
  {
    var order := KahnOrder(g);
    KahnOrderSound(g);
    FullIffCovering(g, order);
    NeitherBefore(g, order, a, b, |order|);
    assert order[..|order|] == order;
  }

  /** Neither column of a mutually dependent pair occurs in a prefix of a valid order. */
  lemma {:induction false} NeitherBefore(g: Graph, order: seq<string>, a: string, b: string, i: nat)
    requires a in g && b in g && a in g[b] && b in g[a]
    requires Precedes(g, order) && i <= |order|
    ensures a !in Elems(order[..i]) && b !in Elems(order[..i])
  {
    if i > 0 {
      NeitherBefore(g, order, a, b, i - 1);
      assert order[..i] == order[..i - 1] + [order[i - 1]];
      ElemsAppend(order[..i - 1], order[i - 1]);
      assert g[order[i - 1]] <= Elems(order[..i - 1]);
    }
  }

  /** A run step whose smallest ready column is known. */
  lemma ScheduleFromNext(g: Graph, done: seq<string>, next: string)
    requires IsSmallest(next, Ready(g, Elems(done)))
    ensures ScheduleFrom(g, done) == ScheduleFrom(g, done + [next])
  {
    SmallestUnique(next, Smallest(Ready(g, Elems(done))), Ready(g, Elems(done)));
    ScheduleFromStep(g, done);
  }

  /**
   * The chained schema `b = a * 2`, `c = b + 10`, `d = c * a` over a base
   * column `a`: the base column is no node, and the columns come out as
   * b, c, d.
   */
  lemma ChainScenario()
    ensures TopoSpec(DependencyGraph(map["b" := Expression("a * 2", {"a"}),
                                         "c" := Expression("b + 10", {"b"}),
                                         "d" := Expression("c * a", {"c", "a"})])) == Ok(["b", "c", "d"])
  {
    var schema := map["b" := Expression("a * 2", {"a"}),
                      "c" := Expression("b + 10", {"b"}),
                      "d" := Expression("c * a", {"c", "a"})];
    assert schema.Keys == {"b", "c", "d"};
    var g := DependencyGraph(schema);
    assert g["b"] == {} && g["c"] == {"b"} && g["d"] == {"c"};
    ChainRun(g);
    assert |g| == |g.Keys| == 3;
  }

  /** The run on the chained schema's graph: each step has exactly one ready column. */
  lemma ChainRun(g: Graph)
    requires g == map["b" := {}, "c" := {"b"}, "d" := {"c"}]
    ensures KahnOrder(g) == ["b", "c", "d"]
  {
    var e: seq<string> := [];
    assert Elems(e) == {};
    assert Ready(g, {}) == {"b"};
    BelowReflexive("b");
    ScheduleFromNext(g, e, "b");
    assert e + ["b"] == ["b"];
    ElemsAppend(e, "b");
    assert Ready(g, {"b"}) == {"c"};
    BelowReflexive("c");
    ScheduleFromNext(g, ["b"], "c");
    ElemsAppend(["b"], "c");
    assert ["b"] + ["c"] == ["b", "c"];
    assert Ready(g, {"b", "c"}) == {"d"};
    BelowReflexive("d");
    ScheduleFromNext(g, ["b", "c"], "d");
    ElemsAppend(["b", "c"], "d");
    assert ["b", "c"] + ["d"] == ["b", "c", "d"];
    assert Ready(g, {"b", "c", "d"}) == {};
    ScheduleFromStop(g, ["b", "c", "d"]);
  }

  /** `b = c + 1`, `c = b + 1`: nothing is ever ready and both columns are reported. */
  lemma CycleScenario()
    ensures TopoSpec(DependencyGraph(map["b" := Expression("c + 1", {"c"}),
                                         "c" := Expression("b + 1", {"b"})])) == Err({"b", "c"})
  {
    var schema := map["b" := Expression("c + 1", {"c"}),
                      "c" := Expression("b + 1", {"b"})];
    assert schema.Keys == {"b", "c"};
    var g := DependencyGraph(schema);
    assert g["b"] == {"c"} && g["c"] == {"b"};
    assert g == map["b" := {"c"}, "c" := {"b"}];
    var e: seq<string> := [];
    assert Elems(e) == {};
    assert Ready(g, {}) == {};
    ScheduleFromStop(g, e);
    assert |g| == |g.Keys| == 2;
    assert KahnOrder(g) == e;
    assert g.Keys - Elems(e) == {"b", "c"};
  }

  /** Two independent columns `z` and `y` are scheduled alphabetically, `y` first. */
  lemma TieBreakScenario()
    ensures TopoSpec(DependencyGraph(map["z" := Expression("a + 1", {"a"}),
                                         "y" := Expression("a + 2", {"a"})])) == Ok(["y", "z"])
  {
    var schema := map["z" := Expression("a + 1", {"a"}),
                      "y" := Expression("a + 2", {"a"})];
    assert schema.Keys == {"y", "z"};
    var g := DependencyGraph(schema);
    assert g["y"] == {} && g["z"] == {};
    TieBreakRun(g);
    assert |g| == |g.Keys| == 2;
  }

  /** The run on two independent columns: the first step picks the smaller name. */
  lemma TieBreakRun(g: Graph)
    requires g == map["z" := {}, "y" := {}]
    ensures KahnOrder(g) == ["y", "z"]
  {
    var e: seq<string> := [];
    assert Elems(e) == {};
    assert Ready(g, {}) == {"y", "z"};
    BelowReflexive("y");
    assert Below("y", "z");
    ScheduleFromNext(g, e, "y");
    assert e + ["y"] == ["y"];
    ElemsAppend(e, "y");
    assert Ready(g, {"y"}) == {"z"};
    BelowReflexive("z");
    ScheduleFromNext(g, ["y"], "z");
    ElemsAppend(["y"], "z");
    assert ["y"] + ["z"] == ["y", "z"];
    assert Ready(g, {"y", "z"}) == {};
    ScheduleFromStop(g, ["y", "z"]);
  }

  /** `queue.sort(); node = queue.pop(0)`: take the smallest ready column out. */
  method PopSmallest(queue: set<string>) returns (node: string, rest: set<string>)
    requires queue != {}
    ensures IsSmallest(node, queue) && rest == queue - {node}
  {
    node :| node in queue;
    var unseen := queue - {node};
    BelowReflexive(node);
    while unseen != {}
      invariant node in queue && unseen <= queue
      invariant forall x :: x in queue - unseen ==> Below(node, x)
      decreases unseen
    {
      var x :| x in unseen;
      if !Below(node, x) {
        BelowTotal(node, x);
        BelowReflexive(x);
        forall y | y in queue - unseen ensures Below(x, y) {
          BelowTransitive(x, node, y);
        }
        node := x;
      }
      unseen := unseen - {x};
    }
    rest := queue - {node};
  }

  /** Column `n`'s count and queue membership before `node` is released. */
  ghost predicate Before(g: Graph, done: set<string>, node: string, inDegree: map<string, int>, queue: set<string>, n: string)
    requires n in g && n in inDegree
  {
    inDegree[n] == |g[n] - done| && (n in queue <==> IsReady(g, done, n) && n != node)
  }

  /** Column `n`'s count and queue membership once `node` is released. */
  ghost predicate After(g: Graph, done: set<string>, node: string, inDegree: map<string, int>, queue: set<string>, n: string)
    requires n in g && n in inDegree
  {
    inDegree[n] == |g[n] - (done + {node})| && (n in queue <==> IsReady(g, done + {node}, n))
  }

  /**
   * One step of the inner loop moves column `other` from its state before
   * `node` was scheduled to its state after: a column that depends on `node`
   * loses one unmet prerequisite and is queued when none is left.
   */
  lemma ReleaseOne(g: Graph, done: set<string>, node: string, inDegree: map<string, int>, queue: set<string>, other: string)
    requires IsReady(g, done, node) && other in g && other in inDegree
    requires node in g[other] ==> other !in done
    requires Before(g, done, node, inDegree, queue, other)
    ensures node in g[other] ==>
      var d := inDegree[other := inDegree[other] - 1];
      After(g, done, node, d, if d[other] == 0 then queue + {other} else queue, other)
    ensures node !in g[other] ==> After(g, done, node, inDegree, queue, other)
  {
    if node in g[other] {
      assert g[other] - (done + {node}) == (g[other] - done) - {node};
    } else {
      assert g[other] - (done + {node}) == g[other] - done;
    }
  }

  /**
   * The state of the inner loop: the columns already visited are in their
   * state after `node` is released, the `pending` ones still in their state
   * before.
   */
  ghost predicate Releasing(g: Graph, done: set<string>, node: string, inDegree: map<string, int>,
                            queue: set<string>, pending: set<string>)
  {
    && pending <= g.Keys && inDegree.Keys == g.Keys && queue <= g.Keys
    && (forall n :: n in g && n !in pending ==> After(g, done, node, inDegree, queue, n))
    && (forall n :: n in pending ==> Before(g, done, node, inDegree, queue, n))
  }

  /** Changing only `other`'s count and queue membership leaves every other column's state alone. */
  lemma ReleaseFrame(g: Graph, done: set<string>, node: string, inDegree: map<string, int>, queue: set<string>,
                     inDegree': map<string, int>, queue': set<string>, pending: set<string>, other: string)
    requires Releasing(g, done, node, inDegree, queue, pending) && other in pending
    requires inDegree'.Keys == g.Keys && queue' <= g.Keys
    requires After(g, done, node, inDegree', queue', other)
    requires forall n :: n in inDegree && n != other ==> inDegree'[n] == inDegree[n]
    requires forall n :: n != other ==> (n in queue' <==> n in queue)
    ensures Releasing(g, done, node, inDegree', queue', pending - {other})
  {
    forall n | n in g && n !in pending - {other}
      ensures After(g, done, node, inDegree', queue', n)
    {
      if n != other {
        assert After(g, done, node, inDegree, queue, n);
      }
    }
    forall n | n in pending - {other}
      ensures Before(g, done, node, inDegree', queue', n)
    {
      assert Before(g, done, node, inDegree, queue, n);
    }
  }

  /** Visiting `other` keeps `Releasing`, with `other` moved out of `pending`. */
  lemma ReleaseStep(g: Graph, done: set<string>, node: string, inDegree: map<string, int>,
                    queue: set<string>, pending: set<string>, other: string)
    requires forall n :: n in g && node in g[n] ==> n !in done
    requires IsReady(g, done, node) && other in pending
    requires Releasing(g, done, node, inDegree, queue, pending)
    ensures node in g[other] ==>
      var d := inDegree[other := inDegree[other] - 1];
      Releasing(g, done, node, d, if d[other] == 0 then queue + {other} else queue, pending - {other})
    ensures node !in g[other] ==> Releasing(g, done, node, inDegree, queue, pending - {other})
  {
    assert Before(g, done, node, inDegree, queue, other);
    ReleaseOne(g, done, node, inDegree, queue, other);
    if node in g[other] {
      var d := inDegree[other := inDegree[other] - 1];
      var q := if d[other] == 0 then queue + {other} else queue;
      ReleaseFrame(g, done, node, inDegree, queue, d, q, pending, other);
    } else {
      ReleaseFrame(g, done, node, inDegree, queue, inDegree, queue, pending, other);
    }
  }

  /**
   * The inner `for other_col in expressions` loop: after `node` is scheduled,
   * every column that depends on it has its unmet-prerequisite count
   * decremented, and joins the ready set when the count reaches zero.
   */
  method ReleaseDependents(graph: Graph, inDegree: map<string, int>, queue: set<string>,
                           ghost done: set<string>, node: string)
    returns (inDegree': map<string, int>, queue': set<string>)
    requires forall n :: n in graph && node in graph[n] ==> n !in done
    requires inDegree.Keys == graph.Keys && queue <= graph.Keys && IsReady(graph, done, node)
    requires forall n :: n in graph ==> Before(graph, done, node, inDegree, queue, n)
    ensures inDegree'.Keys == graph.Keys && queue' <= graph.Keys
    ensures forall n :: n in graph ==> After(graph, done, node, inDegree', queue', n)
  {
    inDegree', queue' := inDegree, queue;
    var pending := graph.Keys;
    while pending != {}
      invariant Releasing(graph, done, node, inDegree', queue', pending)
      decreases pending
    {
      var other :| other in pending;
      ReleaseStep(graph, done, node, inDegree', queue', pending, other);
      if node in graph[other] {
        inDegree' := inDegree'[other := inDegree'[other] - 1];
        if inDegree'[other] == 0 {
          queue' := queue' + {other};
        }
      }
      pending := pending - {other};
    }
  }

  /**
   * The state of the main loop after scheduling `result`: the counts are the
   * unmet prerequisites, the queue is exactly the ready set, and the run
   * still ends in the full scheduling order.
   */
  ghost predicate Scheduling(g: Graph, inDegree: map<string, int>, queue: set<string>, result: seq<string>)
  {
    && NoDup(result) && Precedes(g, result)
    && inDegree.Keys == g.Keys
    && (forall n :: n in g ==> inDegree[n] == |g[n] - Elems(result)|)
    && queue == Ready(g, Elems(result))
    && ScheduleFrom(g, result) == KahnOrder(g)
  }

  /** The columns with no prerequisites are the ones ready before anything is scheduled. */
  lemma StartQueue(g: Graph, inDegree: map<string, int>)
    requires inDegree.Keys == g.Keys
    requires forall n :: n in g ==> inDegree[n] == |g[n]|
    ensures (set c | c in inDegree && inDegree[c] == 0) == Ready(g, {})
  {
    var queue := set c | c in inDegree && inDegree[c] == 0;
    forall n ensures n in queue <==> n in Ready(g, {}) {
      if n in g {
        assert g[n] == {} <==> |g[n]| == 0;
        assert g[n] <= {} <==> g[n] == {};
      }
    }
  }

  /** Before the main loop: the counts are the full prerequisite counts and the queue is the ready set. */
  lemma SchedulingStart(g: Graph, inDegree: map<string, int>, queue: set<string>)
    requires inDegree.Keys == g.Keys
    requires forall n :: n in g ==> inDegree[n] == |g[n]|
    requires queue == Ready(g, {})
    ensures Scheduling(g, inDegree, queue, [])
  {
    var e: seq<string> := [];
    assert Elems(e) == {};
    assert ScheduleFrom(g, e) == KahnOrder(g);
    assert NoDup(e) && Precedes(g, e);
    forall n | n in g ensures inDegree[n] == |g[n] - Elems(e)| {
      assert g[n] - {} == g[n];
    }
    assert queue == Ready(g, Elems(e));
  }

  /** Popping the smallest ready column `node` extends the prefix validly without changing the run. */
  lemma SchedulingPop(g: Graph, inDegree: map<string, int>, queue: set<string>, result: seq<string>, node: string)
    requires Scheduling(g, inDegree, queue, result)
    requires IsSmallest(node, queue)
    ensures NoDup(result + [node]) && Precedes(g, result + [node])
    ensures ScheduleFrom(g, result + [node]) == KahnOrder(g)
    ensures Elems(result + [node]) == Elems(result) + {node}
    ensures |g.Keys - Elems(result + [node])| < |g.Keys - Elems(result)|
  {
    SmallestUnique(node, Smallest(queue), queue);
    ScheduleFromStep(g, result);
    AppendReady(g, result, node);
    ElemsAppend(result, node);
    StepShrinks(g, result, node);
  }

  /** Popping the smallest ready column `node` establishes what the inner loop needs. */
  lemma SchedulingRelease(g: Graph, inDegree: map<string, int>, queue: set<string>, result: seq<string>,
                          node: string, rest: set<string>)
    requires Precedes(g, result) && inDegree.Keys == g.Keys
    requires forall n :: n in g ==> inDegree[n] == |g[n] - Elems(result)|
    requires queue == Ready(g, Elems(result))
    requires node in queue && rest == queue - {node}
    ensures forall n :: n in g && node in g[n] ==> n !in Elems(result)
    ensures rest <= g.Keys && IsReady(g, Elems(result), node)
    ensures forall n :: n in g ==> Before(g, Elems(result), node, inDegree, rest, n)
  {
    PrecedesExcludes(g, result, node);
    forall n | n in g ensures Before(g, Elems(result), node, inDegree, rest, n) {
      assert n in rest <==> n in queue && n != node;
    }
  }

  /** After the inner loop the main loop's state holds for the longer prefix. */
  lemma SchedulingPush(g: Graph, inDegree: map<string, int>, queue: set<string>, result: seq<string>, node: string)
    requires NoDup(result + [node]) && Precedes(g, result + [node])
    requires ScheduleFrom(g, result + [node]) == KahnOrder(g)
    requires Elems(result + [node]) == Elems(result) + {node}
    requires inDegree.Keys == g.Keys && queue <= g.Keys
    requires forall n :: n in g ==> After(g, Elems(result), node, inDegree, queue, n)
    ensures Scheduling(g, inDegree, queue, result + [node])
  {
    forall n ensures n in queue <==> n in Ready(g, Elems(result + [node])) {
      if n in g {
        assert After(g, Elems(result), node, inDegree, queue, n);
      }
    }
  }

  /** Once the queue is empty, the prefix is the whole scheduling order. */
  lemma SchedulingDone(g: Graph, inDegree: map<string, int>, result: seq<string>)
    requires Scheduling(g, inDegree, {}, result)
    ensures result == KahnOrder(g)
  {
    ScheduleFromStop(g, result);
  }

  /**
   * The first half of `_topological_sort`: one node per schema column, with
   * its references to other schema columns as edges, and each column's
   * number of prerequisites.
   */
  method BuildGraph(expressions: map<string, Expression>) returns (graph: Graph, inDegree: map<string, int>)
    ensures graph == DependencyGraph(expressions)
    ensures inDegree.Keys == graph.Keys
    ensures forall n :: n in graph ==> inDegree[n] == |graph[n]|
  {
    graph, inDegree := map[], map[];
    var todo := expressions.Keys;
    while todo != {}
      invariant todo <= expressions.Keys
      invariant graph.Keys == inDegree.Keys == expressions.Keys - todo
      decreases todo
    {
      var c :| c in todo;
      inDegree := inDegree[c := 0];
      graph := graph[c := {}];
      todo := todo - {c};
    }
    todo := expressions.Keys;
    while todo != {}
      invariant todo <= expressions.Keys
      invariant graph.Keys == inDegree.Keys == expressions.Keys
      invariant forall c :: c in expressions && c !in todo ==> graph[c] == expressions[c].dependencies * expressions.Keys
      invariant forall c :: c in expressions && c !in todo ==> inDegree[c] == |graph[c]|
      decreases todo
    {
      var c :| c in todo;
      var deps := expressions[c].dependencies * expressions.Keys;
      graph := graph[c := deps];
      inDegree := inDegree[c := |deps|];
      todo := todo - {c};
    }
    GraphOfSchema(expressions, graph);
  }

  /** A graph with the schema's columns as nodes and their in-schema references as edges is the dependency graph. */
  lemma GraphOfSchema(expressions: map<string, Expression>, graph: Graph)
    requires graph.Keys == expressions.Keys
    requires forall c :: c in expressions ==> graph[c] == expressions[c].dependencies * expressions.Keys
    ensures graph == DependencyGraph(expressions)
  {
  }

  /**
   * `_topological_sort(expressions, existing_cols)`: builds the graph and
   * the unmet-prerequisite counts, then runs Kahn's algorithm.  The result is
   * the order `TopoSpec` describes, or its cycle error with the unscheduled
   * columns.
   */
  method TopologicalSort(expressions: map<string, Expression>) returns (r: Result<seq<string>, set<string>>)
    ensures r == TopoSpec(DependencyGraph(expressions))
  {
    var graph, inDegree := BuildGraph(expressions);
    var queue := set c | c in inDegree && inDegree[c] == 0;
    var result: seq<string> := [];
    StartQueue(graph, inDegree);
    SchedulingStart(graph, inDegree, queue);
    while queue != {}
      invariant Scheduling(graph, inDegree, queue, result)
      decreases |graph.Keys - Elems(result)|
    {
      var node, rest := PopSmallest(queue);
      SchedulingPop(graph, inDegree, queue, result, node);
      SchedulingRelease(graph, inDegree, queue, result, node, rest);
      inDegree, queue := ReleaseDependents(graph, inDegree, rest, Elems(result), node);
      SchedulingPush(graph, inDegree, queue, result, node);
      result := result + [node];
    }
    SchedulingDone(graph, inDegree, result);

    if |result| != |expressions| {
      var remaining := expressions.Keys - Elems(result);
      return Err(remaining);
    }
    return Ok(result);
  }
}
