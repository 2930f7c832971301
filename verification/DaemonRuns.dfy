/** Induction over the daemon's paths. */
module DaemonRuns {
  import opened Config
  import opened Daemon

  /** A set of states that no allowed action leaves. */
  ghost predicate Closed(lib: Lib, allowed: Action -> bool, kept: State -> bool) {
    forall d, a :: kept(d) && allowed(a) && Enabled(d, a) ==> kept(Next(lib, d, a))
  }

  predicate AllAllowed(allowed: Action -> bool, actions: seq<Action>) {
    forall i | 0 <= i < |actions| :: allowed(actions[i])
  }

  lemma {:induction false} PathKept(
    lib: Lib, allowed: Action -> bool, kept: State -> bool, path: seq<State>, actions: seq<Action>, i: nat)
    requires Closed(lib, allowed, kept) && IsPath(lib, path, actions) && AllAllowed(allowed, actions)
    requires i < |path| && kept(path[0])
    ensures kept(path[i])
  {
    if i > 0 {
      PathKept(lib, allowed, kept, path, actions, i - 1);
      assert allowed(actions[i - 1]);
    }
  }

  lemma RunKept(lib: Lib, kept: State -> bool, run: seq<State>, actions: seq<Action>, i: nat)
    requires Closed(lib, _ => true, kept) && IsRun(lib, run, actions) && i < |run|
    requires forall d :: Daemon.Initial(lib, d) ==> kept(d)
    ensures kept(run[i])
  {
    PathKept(lib, _ => true, kept, run, actions, i);
  }

  lemma ReachableKept(lib: Lib, kept: State -> bool, d: State)
    requires Closed(lib, _ => true, kept) && Reachable(lib, d)
    requires forall s :: Daemon.Initial(lib, s) ==> kept(s)
    ensures kept(d)
  {
    var run, actions :| IsRun(lib, run, actions) && run[|run| - 1] == d;
    RunKept(lib, kept, run, actions, |run| - 1);
  }

  /** Reached from a state by allowed actions. */
  ghost predicate Reaches(lib: Lib, allowed: Action -> bool, d: State, n: State) {
    exists path, actions :: From(lib, allowed, d, path, actions) && path[|path| - 1] == n
  }

  ghost predicate From(lib: Lib, allowed: Action -> bool, d: State, path: seq<State>, actions: seq<Action>) {
    IsPath(lib, path, actions) && AllAllowed(allowed, actions) && path[0] == d
  }

  lemma ReachesItself(lib: Lib, allowed: Action -> bool, d: State)
    ensures Reaches(lib, allowed, d, d)
  {
    assert From(lib, allowed, d, [d], []);
  }

  lemma PathExtended(lib: Lib, path: seq<State>, actions: seq<Action>, a: Action, n: State)
    requires IsPath(lib, path, actions) && Enabled(path[|path| - 1], a) && n == Next(lib, path[|path| - 1], a)
    ensures IsPath(lib, path + [n], actions + [a])
  {
    var longer, all := path + [n], actions + [a];
    forall i | 0 <= i < |all| ensures Enabled(longer[i], all[i]) && longer[i + 1] == Next(lib, longer[i], all[i]) {
      assert longer[i] == path[i];
      if i < |actions| {
        assert all[i] == actions[i] && longer[i + 1] == path[i + 1];
      }
    }
  }

  lemma RunTo(lib: Lib, d: State) returns (run: seq<State>, actions: seq<Action>)
    requires Reachable(lib, d)
    ensures IsRun(lib, run, actions) && run[|run| - 1] == d
  {
    run, actions :| IsRun(lib, run, actions) && run[|run| - 1] == d;
  }

  lemma RunReaches(lib: Lib, run: seq<State>, actions: seq<Action>, d: State)
    requires IsRun(lib, run, actions) && run[|run| - 1] == d
    ensures Reachable(lib, d)
  {
  }

  lemma ReachableNext(lib: Lib, d: State, a: Action, n: State)
    requires Reachable(lib, d) && Enabled(d, a) && n == Next(lib, d, a)
    ensures Reachable(lib, n)
  {
    var run, actions := RunTo(lib, d);
    PathExtended(lib, run, actions, a, n);
    assert (run + [n])[0] == run[0];
    RunReaches(lib, run + [n], actions + [a], n);
  }

  lemma ReachableReload(lib: Lib, d: State, a: Action, n: State)
    requires Reachable(lib, d) && ReloadEnabled(d, a) && n == ReloadNext(lib, d, a)
    ensures Reachable(lib, n)
  {
    ReachableNext(lib, d, a, n);
  }

  lemma PathTo(lib: Lib, allowed: Action -> bool, d: State, n: State) returns (path: seq<State>, actions: seq<Action>)
    requires Reaches(lib, allowed, d, n)
    ensures From(lib, allowed, d, path, actions) && path[|path| - 1] == n
  {
    path, actions :| From(lib, allowed, d, path, actions) && path[|path| - 1] == n;
  }

  lemma ReachesByPath(lib: Lib, allowed: Action -> bool, d: State, path: seq<State>, actions: seq<Action>)
    requires From(lib, allowed, d, path, actions)
    ensures Reaches(lib, allowed, d, path[|path| - 1])
  {
  }

  /** What is reached by allowed actions is closed under them. */
  lemma ReachesNext(lib: Lib, allowed: Action -> bool, d: State, s: State, a: Action, n: State)
    requires Reaches(lib, allowed, d, s) && allowed(a) && Enabled(s, a) && n == Next(lib, s, a)
    ensures Reaches(lib, allowed, d, n)
  {
    var path, actions := PathTo(lib, allowed, d, s);
    PathExtended(lib, path, actions, a, n);
    assert AllAllowed(allowed, actions + [a]);
    assert (path + [n])[0] == d;
    ReachesByPath(lib, allowed, d, path + [n], actions + [a]);
  }

  lemma ReachesKept(lib: Lib, allowed: Action -> bool, kept: State -> bool, d: State, n: State)
    requires Closed(lib, allowed, kept) && kept(d) && Reaches(lib, allowed, d, n)
    ensures kept(n)
  {
    var path, actions := PathTo(lib, allowed, d, n);
    PathKept(lib, allowed, kept, path, actions, |path| - 1);
  }

  ghost function Reached(lib: Lib, allowed: Action -> bool, d: State): State -> bool {
    n => Reaches(lib, allowed, d, n)
  }

  lemma ReachedClosed(lib: Lib, allowed: Action -> bool, d: State)
    ensures Closed(lib, allowed, Reached(lib, allowed, d))
  {
    forall s, a | Reaches(lib, allowed, d, s) && allowed(a) && Enabled(s, a) ensures Reaches(lib, allowed, d, Next(lib, s, a)) {
      ReachesNext(lib, allowed, d, s, a, Next(lib, s, a));
    }
  }
}
