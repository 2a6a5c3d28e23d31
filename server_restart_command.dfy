/**
 * `react:server:restart`: `stop` and then `start` on the same options, in
 * the same process, returning the sum of their codes.
 */
module ServerRestartCommand {
  import opened PhpStrings
  import opened ServerAbstract

  /**
   * The restart on values: `start` runs on whatever `stop` left, whatever
   * `stop` returned. The code is never negative, and it is 0 exactly when
   * both parts returned 0.
   */
  function RestartRun(s: State, os: Os, opts: Options, fork: nat -> int): (r: Run)
    ensures r.code >= 0
    ensures r.code == 0 <==> StopRun(s, os, opts).code == 0 && StartRun(StopRun(s, os, opts).state, os, opts, fork).code == 0
  {
    var stopped := StopRun(s, os, opts);
    var started := StartRun(stopped.state, os, opts, fork);
    StopRunOutcome(s, os, opts);
    StartRunOutcome(stopped.state, os, opts, fork);
    Run(stopped.code + started.code, started.state)
  }

  /** `execute`: stop first, then start on the state the stop left, adding up the codes. */
  method Execute(m: Machine, os: Os, opts: Options, fork: nat -> int) returns (code: int)
    modifies m
    ensures code == StopRun(old(m.Snapshot()), os, opts).code
                  + StartRun(StopRun(old(m.Snapshot()), os, opts).state, os, opts, fork).code
    ensures m.Snapshot() == StartRun(StopRun(old(m.Snapshot()), os, opts).state, os, opts, fork).state
  {
    code := 0;
    var stopped := m.Stop(os, opts);
    code := code + stopped;
    var started := m.Start(os, opts, fork);
    code := code + started;
  }

  /**
   * Restarting workers that are all running, on different ports, with every
   * fork successful: the code is 0, every old pid gets SIGTERM in port order,
   * and afterwards each port has exactly its new worker's pid in its lock
   * file; no other lock file appears, disappears or changes.
   */
  lemma RestartRunningPorts(s: State, os: Os, opts: Options, fork: nat -> int)
    requires os.pcntlLoaded && NamesResolve(os, opts.user, opts.group)
    requires var ports := PortList(opts.port);
      && Distinct(ports)
      && (forall i :: 0 <= i < |ports| ==> LockPath(os.tmpDir, opts.host, ports[i]) in s.locks)
      && (forall i :: 0 <= i < |ports| ==> fork(i) > 0)
    ensures var ports := PortList(opts.port);
      var r := RestartRun(s, os, opts, fork);
      && r.code == 0
      && r.state.signals == s.signals + Terminations(s.locks, os.tmpDir, opts.host, ports)
      && r.state.locks.Keys == s.locks.Keys
      && r.state.locks - Paths(os.tmpDir, opts.host, ports) == s.locks - Paths(os.tmpDir, opts.host, ports)
      && forall i :: 0 <= i < |ports| ==> r.state.locks[LockPath(os.tmpDir, opts.host, ports[i])] == Decimal(fork(i))
  {
    var ports := PortList(opts.port);
    var paths := Paths(os.tmpDir, opts.host, ports);
    var stopped := StopRun(s, os, opts);
    var left := s.locks - paths;
    assert stopped.code == 0 && stopped.state.locks == left
        && stopped.state.signals == s.signals + Terminations(s.locks, os.tmpDir, opts.host, ports)
    by {
      StopRunAllRunning(s, os, opts);
    }
    var written := ForkLoop(left, os.tmpDir, opts.host, ports, fork).1;
    var r := RestartRun(s, os, opts, fork);
    assert r.code == 0 && r.state.locks == written && r.state.signals == stopped.state.signals by {
      StartRunForks(stopped.state, os, opts, fork);
      ForkLoopAllSpawned(left, os.tmpDir, opts.host, ports, fork);
    }
    ForkLoopAllSpawned(left, os.tmpDir, opts.host, ports, fork);
    assert written.Keys == s.locks.Keys by {
      PathsPresent(s.locks, os.tmpDir, opts.host, ports);
      MapMinusRestore(s.locks, paths);
    }
    assert written - paths == s.locks - paths by {
      MapMinusWithin(s.locks, paths, paths);
    }
  }
}
