/**
 The queued tasks downstream of some roots: a task depends on at most one other, and a task belongs to
 the downstream when following dependencies from it passes only queued tasks until a root is met.
 Dependencies may be cyclic or dangling.
 */
module TaskGraph {

  type TaskId = nat

  /** `path` follows dependencies through queued tasks and ends at a root. */
  predicate ChainTo(deps: map<TaskId, TaskId>, queued: set<TaskId>, roots: set<TaskId>, path: seq<TaskId>) {
    path != [] && path[|path| - 1] in roots
    && forall i :: 0 <= i < |path| - 1 ==> path[i] in queued && path[i] in deps && deps[path[i]] == path[i + 1]
  }

  /** The task is a root, or a chain of queued dependencies leads from it to one. */
  ghost predicate Reaches(deps: map<TaskId, TaskId>, queued: set<TaskId>, roots: set<TaskId>, id: TaskId) {
    exists path :: ChainTo(deps, queued, roots, path) && path[0] == id
  }

  lemma RootReaches(deps: map<TaskId, TaskId>, queued: set<TaskId>, roots: set<TaskId>, id: TaskId)
    requires id in roots
    ensures Reaches(deps, queued, roots, id)
  {
    assert ChainTo(deps, queued, roots, [id]);
  }

  lemma StepReaches(deps: map<TaskId, TaskId>, queued: set<TaskId>, roots: set<TaskId>, id: TaskId)
    requires id in queued && id in deps && Reaches(deps, queued, roots, deps[id])
    ensures Reaches(deps, queued, roots, id)
  {
    var path :| ChainTo(deps, queued, roots, path) && path[0] == deps[id];
    var longer := [id] + path;
    assert forall i :: 0 < i < |longer| ==> longer[i] == path[i - 1];
    assert ChainTo(deps, queued, roots, longer) && longer[0] == id;
  }

  /** What is reached is a root or depends, being queued, on something reached. */
  lemma ReachesInverts(deps: map<TaskId, TaskId>, queued: set<TaskId>, roots: set<TaskId>, id: TaskId)
    requires Reaches(deps, queued, roots, id) && id !in roots
    ensures id in queued && id in deps && Reaches(deps, queued, roots, deps[id])
  {
    var path :| ChainTo(deps, queued, roots, path) && path[0] == id;
    var shorter := path[1..];
    assert ChainTo(deps, queued, roots, shorter) && shorter[0] == deps[id];
  }

  lemma {:induction false} ClosedHoldsChain(
    deps: map<TaskId, TaskId>, queued: set<TaskId>, roots: set<TaskId>, closed: set<TaskId>, path: seq<TaskId>)
    requires ChainTo(deps, queued, roots, path) && roots <= closed
    requires forall id :: id in queued && id in deps && deps[id] in closed ==> id in closed
    ensures path[0] in closed
  {
    if |path| > 1 {
      assert path[1..][|path| - 2] == path[|path| - 1];
      ClosedHoldsChain(deps, queued, roots, closed, path[1..]);
    }
  }

  /**
   The recursive query: start from the roots and keep joining in the queued tasks that depend on the rows
   found last, dropping rows found before, until a round finds nothing new.
   */
  method Downstream(deps: map<TaskId, TaskId>, queued: set<TaskId>, roots: set<TaskId>) returns (found: set<TaskId>)
    ensures forall id :: id in found <==> Reaches(deps, queued, roots, id)
  {
    found := roots;
    var latest := roots;
    forall id | id in roots ensures Reaches(deps, queued, roots, id) {
      RootReaches(deps, queued, roots, id);
    }
    while latest != {}
      invariant roots <= found <= roots + queued && latest <= found
      invariant forall id :: id in found ==> Reaches(deps, queued, roots, id)
      invariant forall id :: id in queued && id in deps && deps[id] in found - latest ==> id in found
      decreases roots + queued - found, latest != {}
    {
      var joined := (set id | id in queued && id in deps && deps[id] in latest) - found;
      forall id | id in joined ensures Reaches(deps, queued, roots, id) {
        StepReaches(deps, queued, roots, id);
      }
      ghost var before := roots + queued - found;
      found := found + joined;
      latest := joined;
      assert joined != {} ==> roots + queued - found < before by {
        if id :| id in joined {
          assert id in before && id !in roots + queued - found;
        }
      }
    }
    forall id | Reaches(deps, queued, roots, id) ensures id in found {
      var path :| ChainTo(deps, queued, roots, path) && path[0] == id;
      ClosedHoldsChain(deps, queued, roots, found, path);
    }
  }
}
