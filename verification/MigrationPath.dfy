/** The registry of migration steps and the breadth-first search for the shortest chain of them. */
module MigrationPath {

  /** A registered step; its transform of a payload is not part of the search. */
  datatype Step = Step(fromVersion: string, toVersion: string, description: string)

  predicate SameVersions(s: Step, t: Step)
  {
    s.fromVersion == t.fromVersion && s.toVersion == t.toVersion
  }

  /** `path` leads from one version to another through registered steps. */
  ghost predicate Chain(steps: seq<Step>, from: string, to: string, path: seq<Step>)
    decreases |path|
  {
    if path == [] then from == to
    else path[0] in steps && path[0].fromVersion == from && Chain(steps, path[0].toVersion, to, path[1..])
  }

  lemma {:induction false} ChainExtend(steps: seq<Step>, from: string, path: seq<Step>, s: Step)
    requires s in steps && Chain(steps, from, s.fromVersion, path)
    ensures Chain(steps, from, s.toVersion, path + [s])
    decreases |path|
  {
    if path == [] {
      assert [s][1..] == [];
    } else {
      ChainExtend(steps, path[0].toVersion, path[1..], s);
      assert (path + [s])[1..] == path[1..] + [s];
    }
  }

  /** Every step out of a version with a distance below `bound` reaches a version at most one further, never `to`. */
  ghost predicate Closed(steps: seq<Step>, dist: map<string, nat>, bound: nat, to: string)
  {
    forall s :: s in steps && s.fromVersion in dist && dist[s.fromVersion] < bound ==>
      s.toVersion in dist && dist[s.toVersion] <= dist[s.fromVersion] + 1 && s.toVersion != to
  }

  /** Where everything nearer than `bound` has been expanded, a chain to the target is longer than `bound`. */
  lemma {:induction false} ChainsAreLong(steps: seq<Step>, dist: map<string, nat>, bound: nat, v: string, to: string,
                                         q: seq<Step>)
    requires Closed(steps, dist, bound, to) && v in dist && to !in dist && Chain(steps, v, to, q)
    ensures bound < dist[v] + |q|
    decreases |q|
  {
    if q != [] && dist[v] < bound {
      ChainsAreLong(steps, dist, bound, q[0].toVersion, to, q[1..]);
    }
  }

  /** Where everything reached has been expanded, no chain leads to the target. */
  lemma {:induction false} NoChain(steps: seq<Step>, visited: set<string>, v: string, to: string, q: seq<Step>)
    requires forall s :: s in steps && s.fromVersion in visited ==> s.toVersion in visited
    requires v in visited && to !in visited
    ensures !Chain(steps, v, to, q)
    decreases |q|
  {
    if q != [] && q[0] in steps && q[0].fromVersion == v {
      NoChain(steps, visited, q[0].toVersion, to, q[1..]);
    }
  }

  /** No pair of versions is registered twice. */
  ghost predicate Unambiguous(steps: seq<Step>)
  {
    forall i, j :: 0 <= i < j < |steps| ==> !SameVersions(steps[i], steps[j])
  }

  /** In an unambiguous registry the versions a chain passes through say which steps it applies. */
  lemma {:induction false} VersionsDecideChain(steps: seq<Step>, from: string, to: string, p: seq<Step>, q: seq<Step>)
    requires Unambiguous(steps) && Chain(steps, from, to, p) && Chain(steps, from, to, q) && |p| == |q|
    requires forall i :: 0 <= i < |p| ==> p[i].toVersion == q[i].toVersion
    ensures p == q
    decreases |p|
  {
    if p != [] {
      assert p[0].toVersion == q[0].toVersion && SameVersions(p[0], q[0]);
      assert forall i :: 0 <= i < |p[1..]| ==> p[1..][i] == p[i + 1] && q[1..][i] == q[i + 1];
      VersionsDecideChain(steps, p[0].toVersion, to, p[1..], q[1..]);
      assert p == [p[0]] + p[1..] && q == [q[0]] + q[1..];
    }
  }

  /** The steps that leave a version, in registration order. */
  function Outgoing(steps: seq<Step>, v: string): (r: seq<Step>)
    ensures forall s :: s in r <==> s in steps && s.fromVersion == v
  {
    if steps == [] then []
    else (if steps[0].fromVersion == v then [steps[0]] else []) + Outgoing(steps[1..], v)
  }

  datatype Visit = Visit(version: string, path: seq<Step>)

  class Registry {
    var steps: seq<Step>

    /** No pair of versions is registered twice. */
    ghost predicate Valid()
      reads this
    {
      Unambiguous(steps)
    }

    constructor ()
      ensures Valid() && steps == []
    {
      steps := [];
    }

    /** Registers a step, unless one between the same versions is registered (false, nothing changes). */
    method RegisterMigrationStep(step: Step) returns (ok: bool)
      requires Valid()
      modifies this
      ensures Valid()
      ensures ok <==> forall s :: s in old(steps) ==>
                        s.fromVersion != step.fromVersion || s.toVersion != step.toVersion
      ensures steps == if ok then old(steps) + [step] else old(steps)
    {
      for i := 0 to |steps|
        invariant steps == old(steps) && forall k :: 0 <= k < i ==> !SameVersions(steps[k], step)
      {
        if SameVersions(steps[i], step) {
          assert steps[i] in steps;
          return false;
        }
      }
      steps := steps + [step];
      return true;
    }

    /**
     * The breadth-first search. On any registry, cyclic or not: a result is a chain from source to target and no chain
     * is shorter; an empty result means the versions are equal or no chain exists.
     */
    method GetMigrationPath(from: string, to: string) returns (path: seq<Step>)
      ensures Chain(steps, from, to, path) || path == []
      ensures forall q :: Chain(steps, from, to, q) ==> |path| <= |q|
      ensures path == [] <==> from == to || !exists q :: Chain(steps, from, to, q)
    {
      hide Queued, Expanded, Known;
      path := [];
      if from == to {
        assert Chain(steps, from, to, []);
        return;
      }
      var visited := {from};
      var queue := [Visit(from, [])];
      ghost var dist: map<string, nat> := map[from := 0];
      ghost var universe := {from} + set s | s in steps :: s.toVersion;
      ghost var pending, floor := {from}, 0;
      SearchStarts(steps, from, to, universe);
      while queue != []
        invariant path == []
        invariant Known(steps, from, to, visited, dist, universe)
        invariant Queued(steps, from, queue, pending, dist, floor)
        invariant Expanded(steps, pending, dist, to)
        decreases universe - visited, |queue|
      {
        var current := queue[0];
        CurrentKnown(steps, from, to, queue, visited, pending, dist, floor, universe);
        QueuedPop(steps, from, queue, pending, dist, floor);
        floor := dist[current.version];
        pending := pending - {current.version};
        var found;
        found, path, queue, visited, dist, pending :=
          Follow(steps, from, to, current, queue[1..], visited, dist, pending, universe);
        if found { return; }
        path := [];
      }
      NothingLeft(steps, from, to, visited, pending, dist, universe, floor);
    }
  }

  lemma CurrentKnown(steps: seq<Step>, from: string, to: string, queue: seq<Visit>, visited: set<string>,
                     pending: set<string>,
                     dist: map<string, nat>, floor: nat, universe: set<string>)
    requires queue != [] && Queued(steps, from, queue, pending, dist, floor) && Expanded(steps, pending, dist, to)
    requires Known(steps, from, to, visited, dist, universe)
    ensures var c := queue[0];
            && c.version in dist && Chain(steps, from, c.version, c.path) && |c.path| == dist[c.version]
            && Expanded(steps, pending - {c.version} + {c.version}, dist, to)
    ensures visited <= universe
  {
    assert pending - {queue[0].version} + {queue[0].version} == pending;
  }

  lemma SearchStarts(steps: seq<Step>, from: string, to: string, universe: set<string>)
    requires from != to && universe == {from} + set s | s in steps :: s.toVersion
    ensures Known(steps, from, to, {from}, map[from := 0], universe)
    ensures Queued(steps, from, [Visit(from, [])], {from}, map[from := 0], 0)
    ensures Expanded(steps, {from}, map[from := 0], to)
  {
  }

  lemma NothingLeft(steps: seq<Step>, from: string, to: string, visited: set<string>, pending: set<string>,
                    dist: map<string, nat>, universe: set<string>, floor: nat)
    requires Known(steps, from, to, visited, dist, universe) && Expanded(steps, pending, dist, to)
    requires Queued(steps, from, [], pending, dist, floor)
    ensures forall q :: !Chain(steps, from, to, q)
  {
    forall q ensures !Chain(steps, from, to, q) {
      NoChain(steps, visited, from, to, q);
    }
  }

  /** What the search knows of the visited versions. */
  ghost predicate Known(steps: seq<Step>, from: string, to: string, visited: set<string>, dist: map<string, nat>,
                        universe: set<string>)
  {
    && dist.Keys == visited <= universe && from in visited && dist[from] == 0 && to !in visited
    && forall s :: s in steps ==> s.toVersion in universe
  }

  /** One round of the search: the steps out of `current`, which return the target or queue what is new. */
  method Follow(steps: seq<Step>, from: string, to: string, current: Visit, queue0: seq<Visit>, visited0: set<string>,
                ghost dist0: map<string, nat>, ghost pending0: set<string>, ghost universe: set<string>)
    returns (found: bool, path: seq<Step>, queue: seq<Visit>, visited: set<string>, ghost dist: map<string, nat>,
             ghost pending: set<string>)
    requires Known(steps, from, to, visited0, dist0, universe)
    requires current.version in dist0 && current.version !in pending0 && |current.path| == dist0[current.version]
    requires Chain(steps, from, current.version, current.path)
    requires Queued(steps, from, queue0, pending0, dist0, |current.path|)
    requires Expanded(steps, pending0 + {current.version}, dist0, to)
    ensures found ==>
              path != [] && Chain(steps, from, to, path) && forall q :: Chain(steps, from, to, q) ==> |path| <= |q|
    ensures !found ==> Known(steps, from, to, visited, dist, universe)
                       && Queued(steps, from, queue, pending, dist, |current.path|)
                       && Expanded(steps, pending, dist, to)
    ensures !found ==> visited0 <= visited <= universe && (visited == visited0 ==> queue == queue0)
  {
    hide Known, Queued, Expanded, Chain, Round;
    found, path, queue, visited, dist, pending := false, [], queue0, visited0, dist0, pending0;
    ghost var floor := |current.path|;
    KnownSays(steps, from, to, visited0, dist0, universe);
    RoundStarts(steps, from, to, queue0, visited0, pending0, dist0, universe, current);
    var outgoing := Outgoing(steps, current.version);
    assert outgoing[..0] == [];
    for i := 0 to |outgoing|
      invariant Round(steps, from, to, queue, visited, pending, dist, universe, current, outgoing[..i])
      invariant dist.Keys == visited && visited0 <= visited <= universe && (visited == visited0 ==> queue == queue0)
    {
      var step := outgoing[i];
      assert step in outgoing;
      assert outgoing[..i + 1] == outgoing[..i] + [step];
      var newPath := current.path + [step];
      ChainExtend(steps, from, current.path, step);
      if step.toVersion == to {
        RoundFinds(steps, from, to, queue, visited, pending, dist, universe, current, outgoing[..i]);
        return true, newPath, queue, visited, dist, pending;
      }
      if step.toVersion !in visited {
        RoundPushes(steps, from, to, queue, visited, pending, dist, universe, current, outgoing[..i], step);
        visited := visited + {step.toVersion};
        queue := queue + [Visit(step.toVersion, newPath)];
        dist := dist[step.toVersion := floor + 1];
        pending := pending + {step.toVersion};
      } else {
        RoundSkips(steps, from, to, queue, visited, pending, dist, universe, current, outgoing[..i], step);
      }
    }
    assert outgoing[..|outgoing|] == outgoing;
    RoundEnds(steps, from, to, queue, visited, pending, dist, universe, current);
  }

  /** Within a round, when the steps `done` out of the current version have been followed. */
  ghost predicate Round(steps: seq<Step>, from: string, to: string, queue: seq<Visit>, visited: set<string>,
                        pending: set<string>,
                        dist: map<string, nat>, universe: set<string>, current: Visit, done: seq<Step>)
  {
    && Known(steps, from, to, visited, dist, universe)
    && current.version in dist && dist[current.version] == |current.path| && current.version !in pending
    && Queued(steps, from, queue, pending, dist, |current.path|)
    && Expanded(steps, pending + {current.version}, dist, to)
    && AllReached(done, dist, to)
  }

  lemma RoundStarts(steps: seq<Step>, from: string, to: string, queue: seq<Visit>, visited: set<string>,
                    pending: set<string>,
                    dist: map<string, nat>, universe: set<string>, current: Visit)
    requires Known(steps, from, to, visited, dist, universe)
             && Queued(steps, from, queue, pending, dist, |current.path|)
    requires current.version in dist && dist[current.version] == |current.path| && current.version !in pending
    requires Expanded(steps, pending + {current.version}, dist, to)
    ensures Round(steps, from, to, queue, visited, pending, dist, universe, current, [])
  {
    hide Known, Queued, Expanded;
  }

  lemma RoundFinds(steps: seq<Step>, from: string, to: string, queue: seq<Visit>, visited: set<string>,
                   pending: set<string>,
                   dist: map<string, nat>, universe: set<string>, current: Visit, done: seq<Step>)
    requires Round(steps, from, to, queue, visited, pending, dist, universe, current, done)
    ensures forall q :: Chain(steps, from, to, q) ==> |current.path| < |q|
  {
    hide Queued, Expanded, Chain;
    NothingNearer(steps, from, to, queue, pending, dist, current.version, |current.path|);
  }

  lemma RoundPushes(steps: seq<Step>, from: string, to: string, queue: seq<Visit>, visited: set<string>,
                    pending: set<string>,
                    dist: map<string, nat>, universe: set<string>, current: Visit, done: seq<Step>, s: Step)
    requires Round(steps, from, to, queue, visited, pending, dist, universe, current, done)
    requires s in steps && s.fromVersion == current.version && s.toVersion !in visited && s.toVersion != to
    requires Chain(steps, from, s.toVersion, current.path + [s])
    ensures Round(steps, from, to, queue + [Visit(s.toVersion, current.path + [s])], visited + {s.toVersion},
                  pending + {s.toVersion},
                  dist[s.toVersion := |current.path| + 1], universe, current, done + [s])
    ensures dist[s.toVersion := |current.path| + 1].Keys == visited + {s.toVersion} <= universe
  {
    hide Queued, Expanded, Chain, Known, AllReached;
    var floor := |current.path|;
    KnownSays(steps, from, to, visited, dist, universe);
    KnownPush(steps, from, to, visited, dist, universe, s, floor + 1);
    QueuedPush(steps, from, queue, pending, dist, floor, Visit(s.toVersion, current.path + [s]));
    ExpandedPush(steps, pending + {current.version}, dist, to, s.toVersion, floor + 1);
    ReachedPush(done, dist, to, s.toVersion, floor + 1);
    assert pending + {s.toVersion} + {current.version} == pending + {current.version} + {s.toVersion};
    ReachedOneMore(done, dist[s.toVersion := floor + 1], to, s);
  }

  lemma RoundSkips(steps: seq<Step>, from: string, to: string, queue: seq<Visit>, visited: set<string>,
                   pending: set<string>,
                   dist: map<string, nat>, universe: set<string>, current: Visit, done: seq<Step>, s: Step)
    requires Round(steps, from, to, queue, visited, pending, dist, universe, current, done)
    requires s in steps && s.fromVersion == current.version && s.toVersion in visited && s.toVersion != to
    ensures Round(steps, from, to, queue, visited, pending, dist, universe, current, done + [s])
  {
    hide Queued, Expanded, Chain, Known, AllReached;
    KnownSays(steps, from, to, visited, dist, universe);
    VisitedReached(steps, from, queue, pending, dist, to, s, |current.path|);
    ReachedOneMore(done, dist, to, s);
  }

  lemma RoundEnds(steps: seq<Step>, from: string, to: string, queue: seq<Visit>, visited: set<string>,
                  pending: set<string>,
                  dist: map<string, nat>, universe: set<string>, current: Visit)
    requires Round(steps, from, to, queue, visited, pending, dist, universe, current, Outgoing(steps, current.version))
    ensures Known(steps, from, to, visited, dist, universe) && Queued(steps, from, queue, pending, dist, |current.path|)
    ensures Expanded(steps, pending, dist, to)
  {
    hide Queued, Expanded, Known, AllReached;
    ExpandedNow(steps, pending, dist, to, current.version);
  }

  lemma KnownSays(steps: seq<Step>, from: string, to: string, visited: set<string>, dist: map<string, nat>,
                  universe: set<string>)
    requires Known(steps, from, to, visited, dist, universe)
    ensures dist.Keys == visited <= universe
  {
  }

  lemma KnownPush(steps: seq<Step>, from: string, to: string, visited: set<string>, dist: map<string, nat>,
                  universe: set<string>, s: Step, d: nat)
    requires Known(steps, from, to, visited, dist, universe) && s in steps && s.toVersion !in visited
             && s.toVersion != to
    ensures Known(steps, from, to, visited + {s.toVersion}, dist[s.toVersion := d], universe)
    ensures dist[s.toVersion := d].Keys == visited + {s.toVersion} <= universe
  {
  }

  lemma ReachedOneMore(ss: seq<Step>, dist: map<string, nat>, to: string, s: Step)
    requires AllReached(ss, dist, to) && Reached(s, dist, to)
    ensures AllReached(ss + [s], dist, to)
  {
  }

  lemma VisitedReached(steps: seq<Step>, from: string, queue: seq<Visit>, pending: set<string>, dist: map<string, nat>,
                       to: string, s: Step, floor: nat)
    requires Queued(steps, from, queue, pending, dist, floor)
    requires s.fromVersion in dist && dist[s.fromVersion] == floor && s.toVersion in dist && s.toVersion != to
    ensures Reached(s, dist, to)
  {
  }

  /** Once every step out of a version has been followed, the version is expanded. */
  lemma ExpandedNow(steps: seq<Step>, pending: set<string>, dist: map<string, nat>, to: string, v: string)
    requires Expanded(steps, pending + {v}, dist, to) && AllReached(Outgoing(steps, v), dist, to)
    ensures Expanded(steps, pending, dist, to)
  {
    forall s | s in steps && s.fromVersion in dist && s.fromVersion !in pending ensures Reached(s, dist, to) {
      if s.fromVersion == v { assert s in Outgoing(steps, v); }
    }
  }

  ghost predicate AllReached(ss: seq<Step>, dist: map<string, nat>, to: string)
  {
    forall s :: s in ss ==> Reached(s, dist, to)
  }

  lemma ReachedPush(ss: seq<Step>, dist: map<string, nat>, to: string, v: string, d: nat)
    requires v !in dist && AllReached(ss, dist, to)
    ensures AllReached(ss, dist[v := d], to)
  {
  }

  lemma ExpandedPush(steps: seq<Step>, pending: set<string>, dist: map<string, nat>, to: string, v: string, d: nat)
    requires v !in dist && Expanded(steps, pending, dist, to)
    ensures Expanded(steps, pending + {v}, dist[v := d], to)
  {
  }

  /** A step leads to a version already given a distance at most one further, and not to the target. */
  ghost predicate Reached(s: Step, dist: map<string, nat>, to: string)
  {
    s.fromVersion in dist && s.toVersion in dist && s.toVersion != to && dist[s.toVersion] <= dist[s.fromVersion] + 1
  }

  /** Every step out of a visited version that is no longer pending has been followed. */
  ghost predicate Expanded(steps: seq<Step>, pending: set<string>, dist: map<string, nat>, to: string)
  {
    forall s :: s in steps && s.fromVersion in dist && s.fromVersion !in pending ==> Reached(s, dist, to)
  }

  /** The queue: one entry per pending version, each with a chain of its distance, nearest first, within one level. */
  ghost predicate Queued(steps: seq<Step>, from: string, queue: seq<Visit>, pending: set<string>,
                         dist: map<string, nat>, floor: nat)
  {
    && |queue| == |pending|
    && (forall i, j :: 0 <= i < j < |queue| ==> queue[i].version != queue[j].version)
    && (forall i :: 0 <= i < |queue| ==> queue[i].version in pending && queue[i].version in dist
                                         && Chain(steps, from, queue[i].version, queue[i].path)
                                         && |queue[i].path| == dist[queue[i].version] <= floor + 1)
    && (forall i, j :: 0 <= i < j < |queue| ==> |queue[i].path| <= |queue[j].path|)
    && (forall v :: v in pending ==> v in dist && floor <= dist[v])
    && (forall v :: v in dist ==> dist[v] <= floor + 1)
  }

  /** When the nearest pending version is expanded, no chain to the target is shorter than one step beyond it. */
  lemma NothingNearer(steps: seq<Step>, from: string, to: string, queue: seq<Visit>, pending: set<string>,
                      dist: map<string, nat>, current: string, floor: nat)
    requires current in dist && dist[current] == floor && from in dist && dist[from] == 0 && to !in dist
    requires Queued(steps, from, queue, pending, dist, floor)
    requires Expanded(steps, pending + {current}, dist, to)
    ensures forall q :: Chain(steps, from, to, q) ==> dist[current] < |q|
  {
    assert Closed(steps, dist, dist[current], to) by {
      forall s | s in steps && s.fromVersion in dist && dist[s.fromVersion] < dist[current]
        ensures s.toVersion in dist && dist[s.toVersion] <= dist[s.fromVersion] + 1 && s.toVersion != to
      {
        assert s.fromVersion !in pending + {current};
        assert Reached(s, dist, to);
      }
    }
    forall q | Chain(steps, from, to, q) ensures dist[current] < |q| {
      ChainsAreLong(steps, dist, dist[current], from, to, q);
    }
  }

  lemma QueuedPop(steps: seq<Step>, from: string, queue: seq<Visit>, pending: set<string>, dist: map<string, nat>,
                  floor: nat)
    requires queue != [] && Queued(steps, from, queue, pending, dist, floor)
    ensures Queued(steps, from, queue[1..], pending - {queue[0].version}, dist, dist[queue[0].version])
  {
    var rest := queue[1..];
    assert forall i :: 0 <= i < |rest| ==> rest[i] == queue[i + 1];
    forall v | v in pending ensures dist[queue[0].version] <= dist[v] {
      PendingQueued(queue, pending, v);
    }
  }

  /** As many distinct queued versions as pending ones: every pending version is queued. */
  lemma {:induction false} PendingQueued(queue: seq<Visit>, pending: set<string>, v: string)
    requires |queue| == |pending| && v in pending
    requires forall i, j :: 0 <= i < j < |queue| ==> queue[i].version != queue[j].version
    requires forall i :: 0 <= i < |queue| ==> queue[i].version in pending
    ensures exists i :: 0 <= i < |queue| && queue[i].version == v
  {
    if queue[0].version != v {
      var rest := queue[1..];
      assert forall i :: 0 <= i < |rest| ==> rest[i] == queue[i + 1];
      PendingQueued(rest, pending - {queue[0].version}, v);
      var i :| 0 <= i < |rest| && rest[i].version == v;
      assert queue[i + 1].version == v;
    }
  }

  lemma QueuedPush(steps: seq<Step>, from: string, queue: seq<Visit>, pending: set<string>, dist: map<string, nat>,
                   floor: nat, e: Visit)
    requires Queued(steps, from, queue, pending, dist, floor)
    requires e.version !in dist && Chain(steps, from, e.version, e.path) && |e.path| == floor + 1
    ensures Queued(steps, from, queue + [e], pending + {e.version}, dist[e.version := floor + 1], floor)
  {
  }
}
