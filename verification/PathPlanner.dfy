/** Planning as a whole: a plan is made, shortened, and spelled out, and can be driven without collision. */
module PathPlanner {
  import opened OmniWheel
  import opened Mobility
  import opened Roadmaps
  import opened Waypoints
  import opened RRTs
  import PRM

  /** start_ and goal_ joined directly, if nothing is in between. */
  method TryDirectConnection(pl: Planner, start: Configuration, goal: Configuration)
    returns (ok: bool, path: seq<Configuration>)
    requires pl.Valid() && pl.Has(start) && pl.Has(goal)
    ensures ok <==> Reachable(pl, start, goal)
    ensures ok ==> path == [start, goal]
    ensures !ok ==> path == []
  {
    hide Reachable;
    ok := IsReachable(pl, start, goal, true);
    path := if ok then [start, goal] else [];
  }

  /** From the waypoints of a plan to the samples to drive through. */
  method Finish(pl: Planner, waypoints: seq<Configuration>) returns (finalPath: seq<Configuration>)
    requires pl.Valid() && |waypoints| >= 2 && forall i | 0 <= i < |waypoints| :: pl.Has(waypoints[i])
    ensures Linked(pl, waypoints) ==> Drivable(pl, finalPath)
    ensures |finalPath| >= 2
    ensures finalPath[0] == waypoints[0] && finalPath[|finalPath| - 1] == waypoints[|waypoints| - 1]
  {
    hide Linked, Drivable;
    var optimized := Optimize(pl, waypoints);
    finalPath := GetFinalPath(pl, optimized);
  }

  /** A plan made by random trees: collision-free from the start to a goal. */
  method PlanByTrees(rrt: RRT, random: nat -> Configuration, isRunning: nat -> bool)
    returns (ok: bool, finalPath: seq<Configuration>)
    requires rrt.Ready() && forall i :: rrt.Ta.planner.Has(random(i))
    modifies rrt, rrt.Ta, rrt.Tb
    ensures ok ==> Drivable(rrt.Ta.planner, finalPath) && |finalPath| >= 2
                   && finalPath[0] == rrt.start && finalPath[|finalPath| - 1] in rrt.Goals()
    ensures !ok ==> finalPath == [] && !Reachable(rrt.Ta.planner, rrt.start, rrt.goal)
  {
    hide Linked, Drivable, Reachable;
    var pl := rrt.Ta.planner;
    var waypoints;
    ok, waypoints := TryDirectConnection(pl, rrt.start, rrt.goal);
    if ok {
      DirectIsLinked(pl, rrt.start, rrt.goal);
    } else {
      ghost var trials;
      ok, trials := rrt.CalcPath(random, isRunning);
      waypoints := rrt.path;
    }
    finalPath := [];
    if ok {
      HonestLinks(pl, waypoints);
      finalPath := Finish(pl, waypoints);
    }
  }

  lemma DirectIsLinked(pl: Planner, a: Configuration, b: Configuration)
    requires pl.Valid() && pl.Has(a) && pl.Has(b) && Reachable(pl, a, b)
    ensures Linked(pl, [a, b])
  {
    hide Reachable;
  }

  /** A plan made over a roadmap: from the start to the goal, and collision-free if the claim that motions
      are reversible is honest. */
  method PlanByRoadmap(roadmap: Roadmap, start: Configuration, goal: Configuration, maxPoints: nat, maxDist: real,
                       samples: seq<Configuration>, isRunning: nat -> bool)
    returns (ok: bool, finalPath: seq<Configuration>)
    requires roadmap.Sound() && forall k | 0 <= k < |samples| :: roadmap.planner.Has(samples[k])
    requires roadmap.planner.Has(start) && roadmap.planner.Has(goal)
    modifies roadmap, roadmap.nodes
    ensures roadmap.Sound()
    ensures ok ==> |finalPath| >= 2 && finalPath[0] == start && finalPath[|finalPath| - 1] == goal
    ensures ok && Honest(roadmap.planner) ==> Drivable(roadmap.planner, finalPath)
    ensures !ok ==> finalPath == []
  {
    hide Linked, Drivable, Reachable;
    var pl := roadmap.planner;
    var waypoints;
    ok, waypoints := TryDirectConnection(pl, start, goal);
    if ok {
      DirectIsLinked(pl, start, goal);
    } else {
      ghost var a, b;
      ok, waypoints, a, b := PRM.CalcPath(roadmap, start, goal, maxPoints, maxDist, samples, isRunning);
    }
    finalPath := [];
    if ok {
      finalPath := Finish(pl, waypoints);
    }
  }
}
