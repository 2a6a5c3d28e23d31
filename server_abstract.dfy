/**
 * The bookkeeping of the background server commands: the privilege drop, the
 * parent's side of `start` (one fork per requested port, a lock file per
 * spawned worker) and `stop` (SIGTERM to the recorded pid, lock file removed).
 *
 * The temporary directory is modelled as a map from lock-file path to file
 * content. Everything the commands ask of the operating system (is pcntl
 * loaded, user and group lookups, whether setuid/setgid succeed, what each
 * fork returns) is an input.
 */
module ServerAbstract {
  import opened Wrappers
  import opened PhpStrings

  /** The signal number of SIGTERM. */
  const SIGTERM := 15

  datatype Identity = Identity(uid: int, gid: int)

  /**
   * What the operating system answers: whether the pcntl extension is loaded,
   * the temporary directory, the users and groups known by name (name to
   * numeric id), and whether setuid and setgid calls succeed.
   */
  datatype Os = Os(
    pcntlLoaded: bool,
    tmpDir: string,
    users: map<string, int>,
    groups: map<string, int>,
    setuidSucceeds: bool,
    setgidSucceeds: bool)

  /** The command-line options the commands read; `port` is the comma-separated port list. */
  datatype Options = Options(user: Option<string>, group: Option<string>, host: string, port: string)

  /** A `posix_kill(pid, signo)` call, with the pid as read from the lock file. */
  datatype Signal = Signal(pid: string, signo: int)

  /** Lock files by path, signals sent so far, and the identity of the running process. */
  datatype State = State(locks: map<string, string>, signals: seq<Signal>, identity: Identity)

  /** What a command returns (its exit code) and the state it leaves. */
  datatype Run = Run(code: int, state: State)

  /** What the loop of `stop` produces: its code, the lock files left and the signals it sent. */
  datatype Stopped = Stopped(code: int, locks: map<string, string>, kills: seq<Signal>)

  /** The lock file of the worker listening on `host:port`. */
  function LockPath(tmpDir: string, host: string, port: string): string
  {
    tmpDir + "/react-" + host + "-" + port + ".pid"
  }

  /** For one temporary directory and host, different ports have different lock files. */
  lemma LockPathInjective(tmpDir: string, host: string, p: string, q: string)
    ensures LockPath(tmpDir, host, p) == LockPath(tmpDir, host, q) ==> p == q
  {
    var prefix := tmpDir + "/react-" + host + "-";
    assert LockPath(tmpDir, host, p) == prefix + p + ".pid";
    assert LockPath(tmpDir, host, q) == prefix + q + ".pid";
    if LockPath(tmpDir, host, p) == LockPath(tmpDir, host, q) {
      assert |p| == |q|;
      assert p == LockPath(tmpDir, host, p)[|prefix|..|prefix| + |p|];
      assert q == LockPath(tmpDir, host, q)[|prefix|..|prefix| + |q|];
    }
  }

  /**
   * The requested ports: the port option cut at every comma. There is at
   * least one, none contains a comma, and together they spell the option.
   */
  function PortList(option: string): (ports: seq<string>)
    ensures |ports| >= 1
    ensures Implode(",", ports) == option
    ensures forall i :: 0 <= i < |ports| ==> ',' !in ports[i]
  {
    ExplodeNoSeparator(",", option);
    Explode(",", option)
  }

  /** The lock files of all requested ports. */
  ghost function Paths(tmpDir: string, host: string, ports: seq<string>): set<string>
  {
    set p | p in ports :: LockPath(tmpDir, host, p)
  }

  ghost predicate Distinct(ports: seq<string>)
  {
    forall i, j :: 0 <= i < j < |ports| ==> ports[i] != ports[j]
  }

  /** Every user and group name given on the command line is known to the system. */
  predicate NamesResolve(os: Os, user: Option<string>, group: Option<string>)
  {
    (user.Some? ==> user.value in os.users) && (group.Some? ==> group.value in os.groups)
  }

  /**
   * `_setUidGid`: the user is looked up and switched to first, then the group.
   * An unknown name gives 2 (an unknown user stops before the group is
   * looked at, an unknown group after the user was already switched); a
   * failed setuid or setgid is only reported, and the code stays 0.
   */
  function SwitchIdentity(os: Os, user: Option<string>, group: Option<string>, id: Identity): (r: (int, Identity))
    ensures r.0 == (if NamesResolve(os, user, group) then 0 else 2)
    ensures user.None? && group.None? ==> r == (0, id)
    ensures user.Some? && user.value !in os.users ==> r == (2, id)
    ensures r.1.uid == (if user.Some? && user.value in os.users && os.setuidSucceeds then os.users[user.value] else id.uid)
    ensures r.1.gid == (if NamesResolve(os, user, group) && group.Some? && os.setgidSucceeds then os.groups[group.value] else id.gid)
  {
    if user.Some? && user.value !in os.users then (2, id)
    else
      var afterUser := if user.Some? && os.setuidSucceeds then id.(uid := os.users[user.value]) else id;
      if group.Some? && group.value !in os.groups then (2, afterUser)
      else if group.Some? && os.setgidSucceeds then (0, afterUser.(gid := os.groups[group.value]))
      else (0, afterUser)
  }

  /**
   * The fork loop of `start`, over the ports in list order: the i-th fork
   * returns `fork(i)`. A positive pid is written to the port's lock file
   * (replacing any earlier content), a negative result sets the code to 10,
   * and 0 (the child's side of the fork) changes nothing here.
   */
  function ForkLoop(locks: map<string, string>, tmpDir: string, host: string, ports: seq<string>, fork: nat -> int)
    : (int, map<string, string>)
    decreases |ports|
  {
    if ports == [] then (0, locks)
    else
      var n := |ports| - 1;
      var (code, written) := ForkLoop(locks, tmpDir, host, ports[..n], fork);
      if fork(n) > 0 then (code, written[LockPath(tmpDir, host, ports[n]) := Decimal(fork(n))])
      else if fork(n) < 0 then (10, written)
      else (code, written)
  }

  /** The lock files written by successful forks. */
  ghost function Spawned(tmpDir: string, host: string, ports: seq<string>, fork: nat -> int): set<string>
  {
    set i | 0 <= i < |ports| && fork(i) > 0 :: LockPath(tmpDir, host, ports[i])
  }

  /**
   * `start`: 1 without pcntl, before anything else; the code of the identity
   * switch when it fails; otherwise the fork loop decides the code and the
   * lock files.
   */
  function StartRun(s: State, os: Os, opts: Options, fork: nat -> int): Run
  {
    if !os.pcntlLoaded then Run(1, s)
    else
      var (switched, id) := SwitchIdentity(os, opts.user, opts.group, s.identity);
      if switched > 0 then Run(switched, s.(identity := id))
      else
        var (code, locks) := ForkLoop(s.locks, os.tmpDir, opts.host, PortList(opts.port), fork);
        Run(code, s.(locks := locks, identity := id))
  }

  /**
   * The codes of `start`: 1 and nothing changed without pcntl; 2 and no
   * lock file touched for an unknown name; otherwise 10 exactly when some
   * fork failed, else 0. `start` never sends a signal.
   */
  lemma StartRunOutcome(s: State, os: Os, opts: Options, fork: nat -> int)
    ensures var r := StartRun(s, os, opts, fork);
      && r.code in {0, 1, 2, 10}
      && (!os.pcntlLoaded ==> r == Run(1, s))
      && (os.pcntlLoaded && !NamesResolve(os, opts.user, opts.group) ==> r.code == 2 && r.state.locks == s.locks)
      && (os.pcntlLoaded && NamesResolve(os, opts.user, opts.group) ==>
            (r.code == 10 <==> exists i :: 0 <= i < |PortList(opts.port)| && fork(i) < 0))
      && r.state.signals == s.signals
  {
    ForkLoopCode(s.locks, os.tmpDir, opts.host, PortList(opts.port), fork);
  }

  /**
   * The loop of `stop`, over the ports in list order: a port whose lock file
   * exists gets SIGTERM sent to the recorded pid and its lock file removed;
   * the first port without a lock file ends the loop with code 1, leaving
   * the ports after it untouched.
   */
  function StopLoop(locks: map<string, string>, tmpDir: string, host: string, ports: seq<string>): Stopped
    decreases |ports|
  {
    if ports == [] then Stopped(0, locks, [])
    else
      var path := LockPath(tmpDir, host, ports[0]);
      if path !in locks then Stopped(1, locks, [])
      else
        var rest := StopLoop(locks - {path}, tmpDir, host, ports[1..]);
        Stopped(rest.code, rest.locks, [Signal(locks[path], SIGTERM)] + rest.kills)
  }

  /** One step of the stop loop, taken at index i of the port list. */
  lemma StopLoopAt(locks: map<string, string>, tmpDir: string, host: string, ports: seq<string>, i: nat)
    requires i < |ports|
    ensures var path := LockPath(tmpDir, host, ports[i]);
      StopLoop(locks, tmpDir, host, ports[i..])
        == if path !in locks then Stopped(1, locks, [])
           else
             var rest := StopLoop(locks - {path}, tmpDir, host, ports[i + 1..]);
             Stopped(rest.code, rest.locks, [Signal(locks[path], SIGTERM)] + rest.kills)
  {
    assert ports[i..][0] == ports[i] && ports[i..][1..] == ports[i + 1..];
  }

  /**
   * `stop`: the code of the identity switch when it fails; otherwise the stop
   * loop's result. `SIGTERM` is a constant of the pcntl extension: without
   * it, `posix_kill` is handed the bare name, rejects it and sends nothing,
   * while the lock files are still removed.
   */
  function StopRun(s: State, os: Os, opts: Options): Run
  {
    var (switched, id) := SwitchIdentity(os, opts.user, opts.group, s.identity);
    if switched > 0 then Run(switched, s.(identity := id))
    else
      var stopped := StopLoop(s.locks, os.tmpDir, opts.host, PortList(opts.port));
      Run(stopped.code, State(stopped.locks, s.signals + Sent(os, stopped.kills), id))
  }

  /** The signals that actually go out: all of them with pcntl, none without. */
  function Sent(os: Os, kills: seq<Signal>): seq<Signal>
  {
    if os.pcntlLoaded then kills else []
  }

  /**
   * The codes of `stop`: 2 for an unknown name, with no lock file touched and
   * no signal sent, though a known user may already have been switched to;
   * otherwise 0 exactly when the requested ports are all different and all
   * have lock files, else 1. Signals are only ever added, and none without
   * pcntl.
   */
  lemma StopRunOutcome(s: State, os: Os, opts: Options)
    ensures var r := StopRun(s, os, opts);
      && r.code in {0, 1, 2}
      && (!NamesResolve(os, opts.user, opts.group) ==>
            && r.code == 2 && r.state.locks == s.locks && r.state.signals == s.signals
            && r.state.identity == SwitchIdentity(os, opts.user, opts.group, s.identity).1)
      && (NamesResolve(os, opts.user, opts.group) ==>
            (r.code == 0 <==> var ports := PortList(opts.port);
               Distinct(ports) && forall i :: 0 <= i < |ports| ==> LockPath(os.tmpDir, opts.host, ports[i]) in s.locks))
      && s.signals <= r.state.signals
      && (!os.pcntlLoaded ==> r.state.signals == s.signals)
  {
    StopLoopCode(s.locks, os.tmpDir, opts.host, PortList(opts.port));
  }

  // ---------------------------------------------------------------------
  // What the fork loop of `start` does

  /** The code is 10 exactly when some fork failed, and 0 otherwise. */
  lemma {:induction false} ForkLoopCode(locks: map<string, string>, tmpDir: string, host: string, ports: seq<string>, fork: nat -> int)
    ensures ForkLoop(locks, tmpDir, host, ports, fork).0 == (if exists i :: 0 <= i < |ports| && fork(i) < 0 then 10 else 0)
    decreases |ports|
  {
    if ports != [] {
      var n := |ports| - 1;
      ForkLoopCode(locks, tmpDir, host, ports[..n], fork);
      if exists i :: 0 <= i < n && fork(i) < 0 {
        var i :| 0 <= i < n && fork(i) < 0;
        assert 0 <= i < |ports|;
      }
    }
  }

  /** The lock files of successful forks grow by one port at a time. */
  lemma SpawnedStep(tmpDir: string, host: string, ports: seq<string>, fork: nat -> int)
    requires ports != []
    ensures var n := |ports| - 1;
      Spawned(tmpDir, host, ports, fork)
        == Spawned(tmpDir, host, ports[..n], fork) + (if fork(n) > 0 then {LockPath(tmpDir, host, ports[n])} else {})
  {
    var n := |ports| - 1;
    forall i | 0 <= i < n ensures ports[..n][i] == ports[i] { }
  }

  /**
   * Exactly the lock files of successful forks are added, and every other
   * lock file keeps its content.
   */
  lemma {:induction false} ForkLoopWrites(locks: map<string, string>, tmpDir: string, host: string, ports: seq<string>, fork: nat -> int)
    ensures ForkLoop(locks, tmpDir, host, ports, fork).1.Keys == locks.Keys + Spawned(tmpDir, host, ports, fork)
    ensures ForkLoop(locks, tmpDir, host, ports, fork).1 - Spawned(tmpDir, host, ports, fork) == locks - Spawned(tmpDir, host, ports, fork)
    decreases |ports|
  {
    if ports != [] {
      var n := |ports| - 1;
      ForkLoopWrites(locks, tmpDir, host, ports[..n], fork);
      SpawnedStep(tmpDir, host, ports, fork);
      var before := Spawned(tmpDir, host, ports[..n], fork);
      var after := Spawned(tmpDir, host, ports, fork);
      var written := ForkLoop(locks, tmpDir, host, ports[..n], fork).1;
      if fork(n) > 0 {
        var path := LockPath(tmpDir, host, ports[n]);
        assert after == before + {path};
        assert ForkLoop(locks, tmpDir, host, ports, fork).1 == written[path := Decimal(fork(n))];
        MapUpdateMinus(written, before, path, Decimal(fork(n)));
        MapMinusMinus(locks, before, path);
        assert written - before == locks - before;
      } else {
        assert after == before;
        assert ForkLoop(locks, tmpDir, host, ports, fork).1 == written;
      }
    }
  }

  lemma MapUpdateMinus(m: map<string, string>, drop: set<string>, k: string, v: string)
    ensures m[k := v] - (drop + {k}) == (m - drop) - {k}
  {
  }

  lemma MapMinusMinus(m: map<string, string>, drop: set<string>, k: string)
    ensures m - (drop + {k}) == (m - drop) - {k}
  {
  }

  lemma MapMinusWithin(m: map<string, string>, inner: set<string>, outer: set<string>)
    requires inner <= outer
    ensures (m - inner) - outer == m - outer
  {
  }

  lemma MapMinusRestore(m: map<string, string>, drop: set<string>)
    requires drop <= m.Keys
    ensures (m - drop).Keys + drop == m.Keys
  {
  }

  /** The pid of the last successful fork for a port is what its lock file holds afterwards. */
  lemma {:induction false} ForkLoopLastWins(locks: map<string, string>, tmpDir: string, host: string, ports: seq<string>, fork: nat -> int, i: nat)
    requires i < |ports| && fork(i) > 0
    requires forall j :: i < j < |ports| && ports[j] == ports[i] ==> fork(j) <= 0
    ensures LockPath(tmpDir, host, ports[i]) in ForkLoop(locks, tmpDir, host, ports, fork).1
    ensures ForkLoop(locks, tmpDir, host, ports, fork).1[LockPath(tmpDir, host, ports[i])] == Decimal(fork(i))
    decreases |ports|
  {
    var n := |ports| - 1;
    if i < n {
      ForkLoopLastWins(locks, tmpDir, host, ports[..n], fork, i);
      if fork(n) > 0 {
        assert ports[n] != ports[i];
        LockPathInjective(tmpDir, host, ports[n], ports[i]);
      }
    }
  }

  /** Lock files of ports that were not requested are left exactly as they were. */
  lemma StartLeavesOtherLocks(s: State, os: Os, opts: Options, fork: nat -> int)
    ensures var paths := Paths(os.tmpDir, opts.host, PortList(opts.port));
      StartRun(s, os, opts, fork).state.locks - paths == s.locks - paths
  {
    var ports := PortList(opts.port);
    var paths := Paths(os.tmpDir, opts.host, ports);
    var spawned := Spawned(os.tmpDir, opts.host, ports, fork);
    ForkLoopWrites(s.locks, os.tmpDir, opts.host, ports, fork);
    assert spawned <= paths;
    var r := StartRun(s, os, opts, fork).state.locks;
    if os.pcntlLoaded && NamesResolve(os, opts.user, opts.group) {
      assert r == ForkLoop(s.locks, os.tmpDir, opts.host, ports, fork).1;
      MapMinusWithin(r, spawned, paths);
      MapMinusWithin(s.locks, spawned, paths);
    }
  }

  // ---------------------------------------------------------------------
  // What the loop of `stop` does

  /** The loop only removes lock files of requested ports; nothing else changes. */
  lemma {:induction false} StopLoopFrame(locks: map<string, string>, tmpDir: string, host: string, ports: seq<string>)
    ensures var r := StopLoop(locks, tmpDir, host, ports);
      && r.locks.Keys <= locks.Keys
      && (forall path :: path in r.locks ==> r.locks[path] == locks[path])
      && r.locks - Paths(tmpDir, host, ports) == locks - Paths(tmpDir, host, ports)
    decreases |ports|
  {
    if ports != [] {
      var path := LockPath(tmpDir, host, ports[0]);
      if path in locks {
        StopLoopFrame(locks - {path}, tmpDir, host, ports[1..]);
        var paths := Paths(tmpDir, host, ports);
        var restPaths := Paths(tmpDir, host, ports[1..]);
        assert paths == restPaths + {path} by {
          assert forall p :: p in ports <==> p == ports[0] || p in ports[1..];
        }
        var r := StopLoop(locks, tmpDir, host, ports).locks;
        assert r - paths == (r - restPaths) - {path};
        assert locks - paths == (locks - {path}) - restPaths;
      }
    }
  }

  /** The code is 0 exactly when the ports are all different and each has a lock file; otherwise 1. */
  lemma {:induction false} StopLoopCode(locks: map<string, string>, tmpDir: string, host: string, ports: seq<string>)
    ensures var r := StopLoop(locks, tmpDir, host, ports);
      && (r.code == 0 || r.code == 1)
      && (r.code == 0 <==> Distinct(ports) && forall i :: 0 <= i < |ports| ==> LockPath(tmpDir, host, ports[i]) in locks)
    decreases |ports|
  {
    if ports != [] {
      var path := LockPath(tmpDir, host, ports[0]);
      if path in locks {
        var rest := ports[1..];
        StopLoopCode(locks - {path}, tmpDir, host, rest);
        var allHere := Distinct(ports) && forall i :: 0 <= i < |ports| ==> LockPath(tmpDir, host, ports[i]) in locks;
        var restHere := Distinct(rest) && forall i :: 0 <= i < |rest| ==> LockPath(tmpDir, host, rest[i]) in locks - {path};
        if allHere {
          forall i | 0 <= i < |rest| ensures LockPath(tmpDir, host, rest[i]) in locks - {path} {
            assert rest[i] == ports[i + 1] && ports[0] != ports[i + 1];
            LockPathInjective(tmpDir, host, ports[0], rest[i]);
          }
          assert restHere;
        }
        if restHere {
          forall i, j | 0 <= i < j < |ports| ensures ports[i] != ports[j] {
            if i == 0 {
              assert ports[j] == rest[j - 1];
              assert LockPath(tmpDir, host, rest[j - 1]) != path;
            } else {
              assert ports[i] == rest[i - 1] && ports[j] == rest[j - 1];
            }
          }
          forall i | 0 <= i < |ports| ensures LockPath(tmpDir, host, ports[i]) in locks {
            if i > 0 { assert ports[i] == rest[i - 1]; }
          }
        }
      }
    }
  }

  /** The pids recorded for the given ports, each as a SIGTERM. */
  function Terminations(locks: map<string, string>, tmpDir: string, host: string, ports: seq<string>): seq<Signal>
    requires forall i :: 0 <= i < |ports| ==> LockPath(tmpDir, host, ports[i]) in locks
  {
    seq(|ports|, i requires 0 <= i < |ports| => Signal(locks[LockPath(tmpDir, host, ports[i])], SIGTERM))
  }

  /**
   * When the ports are different and all have lock files, every recorded pid
   * gets SIGTERM in list order and every one of their lock files is removed.
   */
  lemma {:induction false} StopLoopAllRunning(locks: map<string, string>, tmpDir: string, host: string, ports: seq<string>)
    requires Distinct(ports)
    requires forall i :: 0 <= i < |ports| ==> LockPath(tmpDir, host, ports[i]) in locks
    ensures StopLoop(locks, tmpDir, host, ports)
         == Stopped(0, locks - Paths(tmpDir, host, ports), Terminations(locks, tmpDir, host, ports))
  {
    StopLoopSplit(locks, tmpDir, host, ports, |ports|);
    assert ports[..|ports|] == ports;
    assert ports[|ports|..] == [];
    assert Terminations(locks, tmpDir, host, ports) + [] == Terminations(locks, tmpDir, host, ports);
  }

  /**
   * The loop stops at the first port without a lock file (or one already
   * stopped earlier in the list): the ports before it are stopped, the code
   * is 1, and the lock files of the ports after it are untouched.
   */
  lemma StopLoopStopsAtMissing(locks: map<string, string>, tmpDir: string, host: string, ports: seq<string>, k: nat)
    requires k < |ports|
    requires Distinct(ports[..k])
    requires forall i :: 0 <= i < k ==> LockPath(tmpDir, host, ports[i]) in locks
    requires LockPath(tmpDir, host, ports[k]) !in locks || ports[k] in ports[..k]
    ensures StopLoop(locks, tmpDir, host, ports)
         == Stopped(1, locks - Paths(tmpDir, host, ports[..k]), Terminations(locks, tmpDir, host, ports[..k]))
  {
    StopLoopSplit(locks, tmpDir, host, ports, k);
    var remaining := locks - Paths(tmpDir, host, ports[..k]);
    var path := LockPath(tmpDir, host, ports[k]);
    if ports[k] in ports[..k] {
      assert path in Paths(tmpDir, host, ports[..k]);
    }
    assert ports[k..][0] == ports[k];
    assert path !in remaining;
  }

  /** After k different running ports the loop continues with the rest of the list on what is left. */
  lemma {:induction false} StopLoopSplit(locks: map<string, string>, tmpDir: string, host: string, ports: seq<string>, k: nat)
    requires k <= |ports|
    requires Distinct(ports[..k])
    requires forall i :: 0 <= i < k ==> LockPath(tmpDir, host, ports[i]) in locks
    ensures var rest := StopLoop(locks - Paths(tmpDir, host, ports[..k]), tmpDir, host, ports[k..]);
      StopLoop(locks, tmpDir, host, ports)
        == Stopped(rest.code, rest.locks, Terminations(locks, tmpDir, host, ports[..k]) + rest.kills)
    decreases k
  {
    if k == 0 {
      assert ports[..0] == [] && ports[0..] == ports;
      assert Paths(tmpDir, host, []) == {};
      assert locks - {} == locks;
    } else {
      var done := ports[..k];
      var path := LockPath(tmpDir, host, ports[0]);
      var smaller := locks - {path};
      var tail := ports[1..];
      var tailDone := tail[..k - 1];
      assert done[0] == ports[0] && done[1..] == tailDone && tail[k - 1..] == ports[k..];
      DistinctTail(tmpDir, host, done);
      TerminationsCons(locks, tmpDir, host, done);
      StopLoopSplit(smaller, tmpDir, host, tail, k - 1);
      RemoveFirstThenRest(locks, tmpDir, host, done);
      var after := StopLoop(locks - Paths(tmpDir, host, done), tmpDir, host, ports[k..]);
      var rest := StopLoop(smaller, tmpDir, host, tail);
      assert rest == Stopped(after.code, after.locks, Terminations(smaller, tmpDir, host, tailDone) + after.kills);
      var first := Signal(locks[path], SIGTERM);
      assert StopLoop(locks, tmpDir, host, ports) == Stopped(rest.code, rest.locks, [first] + rest.kills);
      assert [first] + rest.kills == ([first] + Terminations(smaller, tmpDir, host, tailDone)) + after.kills;
    }
  }

  /** Removing the first port's lock file and then the others' is removing them all. */
  lemma RemoveFirstThenRest(locks: map<string, string>, tmpDir: string, host: string, ports: seq<string>)
    requires ports != []
    ensures (locks - {LockPath(tmpDir, host, ports[0])}) - Paths(tmpDir, host, ports[1..]) == locks - Paths(tmpDir, host, ports)
  {
    PathsCons(tmpDir, host, ports);
  }

  /** In a list of different ports, the tail is different too and no later port shares the first one's lock file. */
  lemma DistinctTail(tmpDir: string, host: string, ports: seq<string>)
    requires ports != [] && Distinct(ports)
    ensures Distinct(ports[1..])
    ensures forall i :: 1 <= i < |ports| ==> LockPath(tmpDir, host, ports[i]) != LockPath(tmpDir, host, ports[0])
  {
    forall i | 1 <= i < |ports| ensures LockPath(tmpDir, host, ports[i]) != LockPath(tmpDir, host, ports[0]) {
      LockPathInjective(tmpDir, host, ports[i], ports[0]);
    }
    var tail := ports[1..];
    forall i, j | 0 <= i < j < |tail| ensures tail[i] != tail[j] {
      assert tail[i] == ports[i + 1] && tail[j] == ports[j + 1];
    }
  }

  lemma PathsCons(tmpDir: string, host: string, ports: seq<string>)
    requires ports != []
    ensures Paths(tmpDir, host, ports) == Paths(tmpDir, host, ports[1..]) + {LockPath(tmpDir, host, ports[0])}
  {
    assert forall p :: p in ports <==> p == ports[0] || p in ports[1..];
  }

  /** The first termination is the first port's; the rest are read after its lock file is gone. */
  lemma TerminationsCons(locks: map<string, string>, tmpDir: string, host: string, ports: seq<string>)
    requires ports != []
    requires forall i :: 0 <= i < |ports| ==> LockPath(tmpDir, host, ports[i]) in locks
    requires forall i :: 1 <= i < |ports| ==> LockPath(tmpDir, host, ports[i]) != LockPath(tmpDir, host, ports[0])
    ensures var path := LockPath(tmpDir, host, ports[0]);
      && (forall i :: 0 <= i < |ports| - 1 ==> LockPath(tmpDir, host, ports[1..][i]) in locks - {path})
      && Terminations(locks, tmpDir, host, ports)
         == [Signal(locks[path], SIGTERM)] + Terminations(locks - {path}, tmpDir, host, ports[1..])
  {
    var path := LockPath(tmpDir, host, ports[0]);
    var tail := ports[1..];
    forall i | 0 <= i < |tail| ensures LockPath(tmpDir, host, tail[i]) in locks - {path} {
      assert tail[i] == ports[i + 1];
    }
    var kills := Terminations(locks, tmpDir, host, ports);
    var tailKills := Terminations(locks - {path}, tmpDir, host, tail);
    forall i | 0 <= i < |tail| ensures kills[i + 1] == tailKills[i] {
      assert tail[i] == ports[i + 1];
    }
    assert kills == [Signal(locks[path], SIGTERM)] + tailKills;
  }

  /** Lock files of ports that were not requested are left exactly as they were. */
  lemma StopLeavesOtherLocks(s: State, os: Os, opts: Options)
    ensures var paths := Paths(os.tmpDir, opts.host, PortList(opts.port));
      StopRun(s, os, opts).state.locks - paths == s.locks - paths
  {
    StopLoopFrame(s.locks, os.tmpDir, opts.host, PortList(opts.port));
  }

  // ---------------------------------------------------------------------
  // The commands one after the other

  /** The fork loop over different ports whose forks all succeed writes every lock file with its worker's pid. */
  lemma ForkLoopAllSpawned(locks: map<string, string>, tmpDir: string, host: string, ports: seq<string>, fork: nat -> int)
    requires Distinct(ports)
    requires forall i :: 0 <= i < |ports| ==> fork(i) > 0
    ensures var (code, written) := ForkLoop(locks, tmpDir, host, ports, fork);
      && code == 0
      && written.Keys == locks.Keys + Paths(tmpDir, host, ports)
      && written - Paths(tmpDir, host, ports) == locks - Paths(tmpDir, host, ports)
      && forall i :: 0 <= i < |ports| ==>
           (LockPath(tmpDir, host, ports[i]) in written && written[LockPath(tmpDir, host, ports[i])] == Decimal(fork(i)))
  {
    ForkLoopCode(locks, tmpDir, host, ports, fork);
    ForkLoopWrites(locks, tmpDir, host, ports, fork);
    assert Spawned(tmpDir, host, ports, fork) == Paths(tmpDir, host, ports) by {
      forall path | path in Paths(tmpDir, host, ports) ensures path in Spawned(tmpDir, host, ports, fork) {
        var p :| p in ports && path == LockPath(tmpDir, host, p);
        var i :| 0 <= i < |ports| && ports[i] == p;
      }
    }
    forall i | 0 <= i < |ports|
      ensures LockPath(tmpDir, host, ports[i]) in ForkLoop(locks, tmpDir, host, ports, fork).1
      ensures ForkLoop(locks, tmpDir, host, ports, fork).1[LockPath(tmpDir, host, ports[i])] == Decimal(fork(i))
    {
      ForkLoopLastWins(locks, tmpDir, host, ports, fork, i);
    }
  }

  /**
   * Starting workers on different free ports and then stopping them, with
   * every fork successful, returns 0 twice, sends SIGTERM to each new worker
   * in port order, and leaves the lock files as they were before the start.
   */
  lemma StartThenStop(s: State, os: Os, opts: Options, fork: nat -> int)
    requires os.pcntlLoaded && NamesResolve(os, opts.user, opts.group)
    requires var ports := PortList(opts.port);
      && Distinct(ports)
      && (forall i :: 0 <= i < |ports| ==> fork(i) > 0)
      && (forall i :: 0 <= i < |ports| ==> LockPath(os.tmpDir, opts.host, ports[i]) !in s.locks)
    ensures var started := StartRun(s, os, opts, fork);
      var stopped := StopRun(started.state, os, opts);
      && started.code == 0
      && stopped.code == 0
      && stopped.state.locks == s.locks
      && stopped.state.signals
         == s.signals + ForkTerminations(fork, |PortList(opts.port)|)
  {
    var ports := PortList(opts.port);
    var paths := Paths(os.tmpDir, opts.host, ports);
    var written := ForkLoop(s.locks, os.tmpDir, opts.host, ports, fork).1;
    var id1 := SwitchIdentity(os, opts.user, opts.group, s.identity).1;
    var started := StartRun(s, os, opts, fork);
    assert started == Run(0, State(written, s.signals, id1))
        && (forall i :: 0 <= i < |ports| ==>
              (fork(i) > 0 && LockPath(os.tmpDir, opts.host, ports[i]) in written
               && written[LockPath(os.tmpDir, opts.host, ports[i])] == Decimal(fork(i))))
        && written - paths == s.locks
    by {
      ForkLoopAllSpawned(s.locks, os.tmpDir, opts.host, ports, fork);
      StartRunForks(s, os, opts, fork);
      PathsAbsent(s.locks, os.tmpDir, opts.host, ports);
    }
    var kills := Terminations(written, os.tmpDir, opts.host, ports);
    var stopped := StopRun(started.state, os, opts);
    assert stopped == Run(0, State(s.locks, s.signals + kills, SwitchIdentity(os, opts.user, opts.group, id1).1)) by {
      StopRunAllRunning(started.state, os, opts);
    }
    TerminationsOfForks(written, os.tmpDir, opts.host, ports, fork);
  }

  /** SIGTERM for each of the first n forked pids, in fork order. */
  function ForkTerminations(fork: nat -> int, n: nat): (r: seq<Signal>)
    requires forall i :: 0 <= i < n ==> fork(i) > 0
    ensures |r| == n
    ensures forall i :: 0 <= i < n ==> r[i] == Signal(Decimal(fork(i)), SIGTERM)
  {
    seq(n, i requires 0 <= i < n => Signal(Decimal(fork(i)), SIGTERM))
  }

  /** Lock files that hold the forked pids give SIGTERMs to exactly those pids. */
  lemma TerminationsOfForks(locks: map<string, string>, tmpDir: string, host: string, ports: seq<string>, fork: nat -> int)
    requires forall i :: 0 <= i < |ports| ==>
      (fork(i) > 0 && LockPath(tmpDir, host, ports[i]) in locks && locks[LockPath(tmpDir, host, ports[i])] == Decimal(fork(i)))
    ensures Terminations(locks, tmpDir, host, ports) == ForkTerminations(fork, |ports|)
  {
  }

  /** When no requested port has a lock file, removing their lock files changes nothing. */
  lemma PathsAbsent(locks: map<string, string>, tmpDir: string, host: string, ports: seq<string>)
    requires forall i :: 0 <= i < |ports| ==> LockPath(tmpDir, host, ports[i]) !in locks
    ensures locks - Paths(tmpDir, host, ports) == locks
  {
    forall path | path in Paths(tmpDir, host, ports) ensures path !in locks {
      var p :| p in ports && path == LockPath(tmpDir, host, p);
      var i :| 0 <= i < |ports| && ports[i] == p;
    }
  }

  /** When every requested port has a lock file, their lock files are all among the existing ones. */
  lemma PathsPresent(locks: map<string, string>, tmpDir: string, host: string, ports: seq<string>)
    requires forall i :: 0 <= i < |ports| ==> LockPath(tmpDir, host, ports[i]) in locks
    ensures Paths(tmpDir, host, ports) <= locks.Keys
  {
    forall path | path in Paths(tmpDir, host, ports) ensures path in locks {
      var p :| p in ports && path == LockPath(tmpDir, host, p);
      var i :| 0 <= i < |ports| && ports[i] == p;
    }
  }

  /** With pcntl loaded and every name known, `start` is its fork loop. */
  lemma StartRunForks(s: State, os: Os, opts: Options, fork: nat -> int)
    requires os.pcntlLoaded && NamesResolve(os, opts.user, opts.group)
    ensures var (code, written) := ForkLoop(s.locks, os.tmpDir, opts.host, PortList(opts.port), fork);
      StartRun(s, os, opts, fork)
        == Run(code, State(written, s.signals, SwitchIdentity(os, opts.user, opts.group, s.identity).1))
  {
  }

  /**
   * `stop` on different ports that all have lock files returns 0, signals
   * every recorded pid (when pcntl defines SIGTERM) and removes their lock files.
   */
  lemma StopRunAllRunning(s: State, os: Os, opts: Options)
    requires NamesResolve(os, opts.user, opts.group)
    requires var ports := PortList(opts.port);
      && Distinct(ports)
      && forall i :: 0 <= i < |ports| ==> LockPath(os.tmpDir, opts.host, ports[i]) in s.locks
    ensures var ports := PortList(opts.port);
      StopRun(s, os, opts)
        == Run(0, State(s.locks - Paths(os.tmpDir, opts.host, ports),
                        s.signals + Sent(os, Terminations(s.locks, os.tmpDir, opts.host, ports)),
                        SwitchIdentity(os, opts.user, opts.group, s.identity).1))
  {
    StopLoopAllRunning(s.locks, os.tmpDir, opts.host, PortList(opts.port));
  }

  // ---------------------------------------------------------------------
  // The commands on the machine's state

  /**
   * The state the commands see and change: the lock files in the temporary
   * directory, the signals sent so far, and the process identity.
   */
  class Machine {
    var locks: map<string, string>
    var signals: seq<Signal>
    var identity: Identity

    function Snapshot(): State
      reads this
    {
      State(locks, signals, identity)
    }

    constructor (locks: map<string, string>, identity: Identity)
      ensures Snapshot() == State(locks, [], identity)
    {
      this.locks := locks;
      this.signals := [];
      this.identity := identity;
    }

    /** `_setUidGid`: user first, then group, each with an early return on an unknown name. */
    method SetUidGid(os: Os, user: Option<string>, group: Option<string>) returns (code: int)
      modifies this`identity
      ensures (code, identity) == SwitchIdentity(os, user, group, old(identity))
    {
      if user.Some? {
        if user.value !in os.users {
          return 2;
        } else if os.setuidSucceeds {
          identity := identity.(uid := os.users[user.value]);
        }
      }
      if group.Some? {
        if group.value !in os.groups {
          return 2;
        }
        if os.setgidSucceeds {
          identity := identity.(gid := os.groups[group.value]);
        }
      }
      return 0;
    }

    /** `start`, the parent's side: the i-th fork of the loop returns `fork(i)`. */
    method Start(os: Os, opts: Options, fork: nat -> int) returns (code: int)
      modifies this`locks, this`identity
      ensures Run(code, Snapshot()) == StartRun(old(Snapshot()), os, opts, fork)
    {
      if !os.pcntlLoaded {
        return 1;
      }
      var host := opts.host;
      var ports := PortList(opts.port);
      code := SetUidGid(os, opts.user, opts.group);
      if code > 0 {
        return;
      }
      ghost var start, switched := locks, identity;
      var i := 0;
      while i < |ports|
        invariant 0 <= i <= |ports|
        invariant (code, locks) == ForkLoop(start, os.tmpDir, host, ports[..i], fork)
        invariant signals == old(signals)
        invariant identity == switched
      {
        assert ports[..i + 1][..i] == ports[..i];
        var pid := fork(i);
        if pid > 0 {
          locks := locks[LockPath(os.tmpDir, host, ports[i]) := Decimal(pid)];
        } else if pid < 0 {
          code := 10;
        }
        i := i + 1;
      }
      assert ports[..i] == ports;
      assert StartRun(old(Snapshot()), os, opts, fork)
          == Run(code, old(Snapshot()).(locks := locks, identity := identity));
    }

    /** `stop`: returns 1 at the first port without a lock file, 0 when every port was stopped. */
    method Stop(os: Os, opts: Options) returns (code: int)
      modifies this`locks, this`signals, this`identity
      ensures Run(code, Snapshot()) == StopRun(old(Snapshot()), os, opts)
    {
      var host := opts.host;
      var ports := PortList(opts.port);
      code := SetUidGid(os, opts.user, opts.group);
      if code > 0 {
        return;
      }
      ghost var total, switched := StopLoop(locks, os.tmpDir, host, ports), identity;
      var i := 0;
      while i < |ports|
        invariant 0 <= i <= |ports|
        invariant StopLoop(locks, os.tmpDir, host, ports[i..]).code == total.code
        invariant StopLoop(locks, os.tmpDir, host, ports[i..]).locks == total.locks
        invariant signals + Sent(os, StopLoop(locks, os.tmpDir, host, ports[i..]).kills) == old(signals) + Sent(os, total.kills)
        invariant identity == switched
      {
        var lockFile := LockPath(os.tmpDir, host, ports[i]);
        StopLoopAt(locks, os.tmpDir, host, ports, i);
        if lockFile !in locks {
          assert signals + [] == signals;
          return 1;
        }
        var pid := locks[lockFile];
        ghost var rest := StopLoop(locks - {lockFile}, os.tmpDir, host, ports[i + 1..]);
        assert os.pcntlLoaded ==> signals + [Signal(pid, SIGTERM)] + rest.kills == signals + ([Signal(pid, SIGTERM)] + rest.kills);
        if os.pcntlLoaded {
          signals := signals + [Signal(pid, SIGTERM)];
        }
        locks := locks - {lockFile};
        i := i + 1;
      }
      assert signals + [] == signals;
      return 0;
    }
  }
}
