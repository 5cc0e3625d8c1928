/** Continuations: what can follow a state. */
module Paths {
  import opened Protocol
  import opened Invariant
  import opened Safety

  ghost predicate IsPath(cfg: Config, path: seq<System>, steps: seq<Step>)
  {
    && |path| == |steps| + 1
    && forall i :: 0 <= i < |steps| ==> Next(cfg, path[i], steps[i], path[i + 1])
  }

  ghost predicate LeadsTo(cfg: Config, y: System, z: System)
  {
    exists path, steps :: IsPath(cfg, path, steps) && path[0] == y && path[|path| - 1] == z
  }

  lemma Stay(cfg: Config, y: System)
    ensures LeadsTo(cfg, y, y)
  {
    var path, steps: seq<Step> := [y], [];
    assert IsPath(cfg, path, steps);
  }

  lemma Go(cfg: Config, x: System, y: System, step: Step, z: System)
    requires LeadsTo(cfg, x, y) && Next(cfg, y, step, z)
    ensures LeadsTo(cfg, x, z)
  {
    hide Next;
    var path, steps :| IsPath(cfg, path, steps) && path[0] == x && path[|path| - 1] == y;
    var path', steps' := path + [z], steps + [step];
    assert IsPath(cfg, path', steps') && path'[0] == x && path'[|path'| - 1] == z;
  }

  lemma Join(cfg: Config, x: System, y: System, z: System)
    requires LeadsTo(cfg, x, y) && LeadsTo(cfg, y, z)
    ensures LeadsTo(cfg, x, z)
  {
    hide Next;
    var path, steps :| IsPath(cfg, path, steps) && path[0] == y && path[|path| - 1] == z;
    JoinPath(cfg, x, path, steps, |steps|);
  }

  lemma {:induction false} JoinPath(cfg: Config, x: System, path: seq<System>, steps: seq<Step>, n: nat)
    requires IsPath(cfg, path, steps) && n <= |steps| && LeadsTo(cfg, x, path[0])
    ensures LeadsTo(cfg, x, path[n])
  {
    hide Next, LeadsTo;
    if n > 0 {
      JoinPath(cfg, x, path, steps, n - 1);
      Go(cfg, x, path[n - 1], steps[n - 1], path[n]);
    }
  }

  lemma {:induction false} PathInv(cfg: Config, path: seq<System>, steps: seq<Step>, n: nat)
    requires ValidConfig(cfg) && IsPath(cfg, path, steps) && n <= |steps| && Inv(cfg, path[0])
    ensures Inv(cfg, path[n])
  {
    hide Next, Inv, ValidConfig;
    if n > 0 {
      PathInv(cfg, path, steps, n - 1);
      StepInv(cfg, path[n - 1], steps[n - 1], path[n]);
    }
  }

  lemma LeadsToInv(cfg: Config, y: System, z: System)
    requires ValidConfig(cfg) && Inv(cfg, y) && LeadsTo(cfg, y, z)
    ensures Inv(cfg, z)
  {
    hide Next, Inv, ValidConfig;
    var path, steps :| IsPath(cfg, path, steps) && path[0] == y && path[|path| - 1] == z;
    PathInv(cfg, path, steps, |steps|);
  }

  lemma ReachableOn(cfg: Config, y: System, z: System)
    requires Reachable(cfg, y) && LeadsTo(cfg, y, z)
    ensures Reachable(cfg, z)
  {
    hide Next, Init;
    var run, steps :| IsRun(cfg, run, steps) && y == run[|run| - 1];
    var path, more :| IsPath(cfg, path, more) && path[0] == y && path[|path| - 1] == z;
    var run', steps' := run + path[1..], steps + more;
    assert IsRun(cfg, run', steps') && z == run'[|run'| - 1];
  }
}
