/** The worklist search for the baseline among a revision's ancestors; graphs may merge or even cycle. */
module RevisionGraph {

  type Revision = string

  /** The parents of each revision; a revision without `down_revision` has none. */
  type Graph = map<Revision, seq<Revision>>

  predicate ParentClosed(g: Graph) {
    forall r :: r in g ==> forall p :: p in g[r] ==> p in g
  }

  /** A walk along parent links. */
  ghost predicate Walk(g: Graph, path: seq<Revision>) {
    && path != []
    && forall i :: 0 <= i < |path| - 1 ==> path[i] in g && path[i + 1] in g[path[i]]
  }

  /** `to` is an ancestor of `from`: reachable by at least one parent step. */
  ghost predicate Ancestor(g: Graph, from: Revision, to: Revision) {
    exists path :: Walk(g, path) && |path| >= 2 && path[0] == from && path[|path| - 1] == to
  }

  ghost predicate ReachedFrom(g: Graph, from: Revision, r: Revision) {
    r == from || Ancestor(g, from, r)
  }

  lemma ParentIsReached(g: Graph, from: Revision, r: Revision, p: Revision)
    requires ReachedFrom(g, from, r) && r in g && p in g[r]
    ensures Ancestor(g, from, p)
  {
    if r == from {
      assert Walk(g, [from, p]);
    } else {
      var path :| Walk(g, path) && |path| >= 2 && path[0] == from && path[|path| - 1] == r;
      assert Walk(g, path + [p]);
    }
  }

  /** A walk never leaves a set that contains all parents of its members. */
  lemma {:induction false} WalkStays(g: Graph, path: seq<Revision>, closed: set<Revision>, i: nat)
    requires Walk(g, path) && i < |path| && path[0] in closed
    requires forall r :: r in closed && r in g ==> forall p :: p in g[r] ==> p in closed
    ensures path[i] in closed
  {
    if i > 0 {
      WalkStays(g, path, closed, i - 1);
      assert path[i - 1 + 1] in g[path[i - 1]];
    }
  }

  /** What the search has seen: reached revisions whose parents are all seen or still pending. */
  ghost predicate Explored(g: Graph, from: Revision, baseline: Revision, pending: seq<Revision>,
                           visited: set<Revision>) {
    && (forall r :: r in pending ==> ReachedFrom(g, from, r))
    && (forall r :: r in visited ==> r in g && ReachedFrom(g, from, r))
    && (from in visited || from in pending)
    && (forall r :: r in visited ==> baseline !in g[r] && forall p :: p in g[r] ==> p in visited || p in pending)
  }

  lemma NothingPending(g: Graph, from: Revision, baseline: Revision, visited: set<Revision>)
    requires Explored(g, from, baseline, [], visited)
    ensures !Ancestor(g, from, baseline)
  {
    forall path | Walk(g, path) && |path| >= 2 && path[0] == from ensures path[|path| - 1] != baseline {
      WalkStays(g, path, visited, |path| - 2);
      assert path[|path| - 2 + 1] in g[path[|path| - 2]];
    }
  }

  lemma VisitOne(g: Graph, from: Revision, baseline: Revision, pending: seq<Revision>, visited: set<Revision>)
    requires pending != [] && Explored(g, from, baseline, pending, visited)
    ensures
      var current := pending[|pending| - 1];
      var rest := pending[..|pending| - 1];
      && ReachedFrom(g, from, current)
      && (current in visited ==> Explored(g, from, baseline, rest, visited))
      && (current in g && baseline !in g[current] ==>
          Explored(g, from, baseline, rest + g[current], visited + {current}))
      && (current in g && baseline in g[current] ==> Ancestor(g, from, baseline))
  {
    var current := pending[|pending| - 1];
    var rest := pending[..|pending| - 1];
    assert pending == rest + [current];
    assert current in pending;
    if current in g {
      forall p | p in g[current] ensures Ancestor(g, from, p) { ParentIsReached(g, from, current, p); }
    }
  }

  ghost predicate Acyclic(g: Graph) {
    forall r :: !Ancestor(g, r, r)
  }

  /** The baseline is a parent, or the parent that the search looks at first, the last one, is known. */
  predicate GoesOn(g: Graph, baseline: Revision, r: Revision)
    requires r in g
  {
    baseline in g[r] || (g[r] != [] && g[r][|g[r]| - 1] in g)
  }

  ghost predicate EachGoesOn(g: Graph, baseline: Revision) {
    forall r :: r in g && r != baseline ==> GoesOn(g, baseline, r)
  }

  /** On the way along last parents: the next revision is known, and every one seen so far descends from it. */
  ghost predicate OnTheWay(g: Graph, baseline: Revision, pending: seq<Revision>, visited: set<Revision>) {
    && pending != []
    && var next := pending[|pending| - 1];
       next in g && next != baseline && forall r :: r in visited ==> Ancestor(g, r, next)
  }

  lemma StepOnTheWay(g: Graph, baseline: Revision, pending: seq<Revision>, visited: set<Revision>)
    requires OnTheWay(g, baseline, pending, visited) && EachGoesOn(g, baseline) && Acyclic(g)
    ensures
      var current := pending[|pending| - 1];
      && current !in visited
      && (baseline !in g[current] ==>
            OnTheWay(g, baseline, pending[..|pending| - 1] + g[current], visited + {current}))
  {
    var current := pending[|pending| - 1];
    if baseline !in g[current] {
      assert GoesOn(g, baseline, current);
      var next := g[current][|g[current]| - 1];
      assert next in g[current];
      forall r | r in visited + {current} ensures Ancestor(g, r, next) {
        ParentIsReached(g, r, current, next);
      }
    }
  }

  /**
   * Answers true only for descendants of the baseline: for all of them when every parent is known, and on
   * acyclic graphs whenever the last parents lead on. It terminates on any graph, and follows the last
   * parent first.
   */
  method DescendsFromBaseline(id: Revision, revisions: Graph, baseline: Revision, allowSelf: bool) returns (found: bool)
    ensures found ==> Ancestor(revisions, id, baseline) || (allowSelf && id == baseline)
    ensures allowSelf && id == baseline ==> found
    ensures id in revisions && ParentClosed(revisions) ==>
              (found <==> Ancestor(revisions, id, baseline) || (allowSelf && id == baseline))
    ensures found && id in revisions && id != baseline ==> GoesOn(revisions, baseline, id)
    ensures id in revisions && id != baseline && Acyclic(revisions) && EachGoesOn(revisions, baseline) ==> found
  {
    if allowSelf && id == baseline {
      return true;
    }
    ghost var leads := id in revisions && id != baseline && Acyclic(revisions) && EachGoesOn(revisions, baseline);
    var pending := [id];
    var visited: set<Revision> := {};
    while pending != []
      invariant Explored(revisions, id, baseline, pending, visited)
      invariant id in revisions && ParentClosed(revisions) ==> forall r :: r in pending ==> r in revisions
      invariant leads ==> OnTheWay(revisions, baseline, pending, visited)
      invariant FirstSteps(revisions, baseline, id, pending, visited)
      decreases revisions.Keys - visited, |pending|
    {
      VisitOne(revisions, id, baseline, pending, visited);
      if leads { StepOnTheWay(revisions, baseline, pending, visited); }
      var current := pending[|pending| - 1];
      assert current in pending;
      pending := pending[..|pending| - 1];
      if current !in visited {
        if current !in revisions {
          return false;
        }
        visited := visited + {current};
        var parents := revisions[current];
        if baseline in parents {
          return true;
        }
        pending := pending + parents;
      }
    }
    NothingPending(revisions, id, baseline, visited);
    found := false;
  }

  /** The search starts with the revision, then looks at its last parent. */
  ghost predicate FirstSteps(g: Graph, baseline: Revision, id: Revision, pending: seq<Revision>,
                             visited: set<Revision>) {
    || (visited == {} && pending == [id])
    || (id in g && id in visited && ((visited == {id} && pending == g[id]) || GoesOn(g, baseline, id)))
  }

  /** What the check of a whole graph looks for when it has no cycles. */
  ghost predicate Lineage(g: Graph, baseline: Revision, head: Revision) {
    baseline in g && head in g && EachGoesOn(g, baseline)
  }

  /**
   * Accepts only graphs in which the head and every other revision descend from the baseline. On acyclic
   * graphs it accepts exactly those in which every other revision has the baseline among its parents or a
   * known last parent; when every parent is known, exactly those in which all descend from the baseline.
   */
  method LineageHolds(revisions: Graph, baseline: Revision, head: Revision) returns (ok: bool)
    ensures ok ==> baseline in revisions && head in revisions
    ensures ok ==> forall r :: r in revisions && r != baseline ==> Ancestor(revisions, r, baseline)
    ensures ParentClosed(revisions) && baseline in revisions && head in revisions ==>
              (ok <==> forall r :: r in revisions && r != baseline ==> Ancestor(revisions, r, baseline))
    ensures ok ==> Lineage(revisions, baseline, head)
    ensures Acyclic(revisions) ==> (ok <==> Lineage(revisions, baseline, head))
  {
    if baseline !in revisions {
      return false;
    }
    var rest := revisions.Keys;
    while rest != {}
      invariant rest <= revisions.Keys
      invariant forall r :: r in revisions && r !in rest && r != baseline ==>
                  Ancestor(revisions, r, baseline) && GoesOn(revisions, baseline, r)
      decreases rest
    {
      var r :| r in rest;
      rest := rest - {r};
      if r != baseline {
        var found := DescendsFromBaseline(r, revisions, baseline, false);
        if !found {
          return false;
        }
      }
    }
    ok := DescendsFromBaseline(head, revisions, baseline, true);
    if ok && head != baseline {
      ghost var path :| Walk(revisions, path) && |path| >= 2 && path[0] == head && path[|path| - 1] == baseline;
      assert path[0] in revisions;
    }
  }

  lemma OneStep(g: Graph, from: Revision, to: Revision)
    requires from in g && to in g[from]
    ensures Ancestor(g, from, to)
  {
    assert Walk(g, [from, to]);
  }

  /**
   * That the baseline can be reached through known parents is not enough: with an unknown last parent the
   * revision is refused, with the same unknown parent in front it is accepted.
   */
  lemma ParentOrderMatters(baseline: Revision, middle: Revision, merged: Revision, unknown: Revision)
    requires baseline != middle && baseline != merged && middle != merged
    requires unknown != baseline && unknown != middle && unknown != merged
    ensures
      var last := map[baseline := [], middle := [baseline], merged := [middle, unknown]];
      && (forall r :: r in last && r != baseline ==> Ancestor(last, r, baseline))
      && !Lineage(last, baseline, merged)
    ensures
      var first := map[baseline := [], middle := [baseline], merged := [unknown, middle]];
      (forall r :: r in first && r != baseline ==> Ancestor(first, r, baseline)) && Lineage(first, baseline, merged)
  {
    var last := map[baseline := [], middle := [baseline], merged := [middle, unknown]];
    var first := map[baseline := [], middle := [baseline], merged := [unknown, middle]];
    assert Walk(last, [merged, middle, baseline]) && Walk(first, [merged, middle, baseline]);
    OneStep(last, middle, baseline);
    OneStep(first, middle, baseline);
    assert !GoesOn(last, baseline, merged);
  }

  /**
   * A parent that is not in the graph is not by itself a reason to refuse: a merge of the baseline and an
   * unknown revision passes, and a revision whose only parent is unknown does not.
   */
  lemma UnknownParents(baseline: Revision, merged: Revision, unknown: Revision)
    requires baseline != merged && baseline != unknown && merged != unknown
    ensures
      var merge := map[baseline := [], merged := [unknown, baseline]];
      !ParentClosed(merge) && Ancestor(merge, merged, baseline)
    ensures
      var orphan := map[baseline := [], merged := [unknown]];
      !ParentClosed(orphan) && !Ancestor(orphan, merged, baseline)
  {
    var merge := map[baseline := [], merged := [unknown, baseline]];
    assert unknown in merge[merged] && baseline in merge[merged];
    assert Walk(merge, [merged, baseline]);
    var orphan := map[baseline := [], merged := [unknown]];
    assert unknown in orphan[merged];
    forall path | Walk(orphan, path) && |path| >= 2 && path[0] == merged ensures path[|path| - 1] != baseline {
      WalkStays(orphan, path, {merged, unknown}, |path| - 1);
    }
  }
}
