# react-bundle: server commands and request bridge, modelled in Dafny

The bundle runs a Symfony kernel inside a ReactPHP server. This project models the three parts of it that make decisions:

- **`ServerAbstract`** (`server_abstract.dfy`). The `start` and `stop` commands run the server in the background.
  - `start` checks that the pcntl extension is loaded. It then switches user and group (`_setUidGid`) and forks one worker per port of the comma-separated port option. For every worker the parent writes the child's pid into the lock file `<tmp>/react-<host>-<port>.pid`.
    - `LockPath` builds that file name (Command/ServerAbstract.php:89 and :132).
    - `ForkLoop` is the fork loop over the ports (Command/ServerAbstract.php:86-111).
  - `stop` sends SIGTERM to the pid stored in each port's lock file and removes that file. `StopLoop` is its loop (Command/ServerAbstract.php:131-146).
    - `stop` returns 1 at the first port without a lock file and does not look at the ports after it.
    - `SIGTERM` is a constant of the pcntl extension. Without pcntl, `posix_kill` gets the bare name and sends nothing, but the lock file is still removed (`Sent`, Command/ServerAbstract.php:140).
  - `_setUidGid` switches the user before the group.
  - The state these commands change is a `class Machine`. Its fields are the lock files (a map from path to content), the signals sent so far, and the process identity.
    - `Start` and `Stop` are methods with loops. They are proved equal to the value-level functions `StartRun` (Command/ServerAbstract.php:66-114) and `StopRun` (Command/ServerAbstract.php:121-147).
    - `SetUidGid` is a method of early returns, proved equal to `SwitchIdentity`.
- **`ServerRestartCommand`** (`server_restart_command.dfy`). `restart` runs `stop` and then `start` and returns the sum of their codes.
- **`ReactKernel`** (`react_kernel.dfy`). This is the HTTP bridge:
  - the `Cookie` header codec, both the serialiser and the parser. `MergeSegments` assigns the header's segments into the cookie array in order (Reactor/ReactKernel.php:118-123);
  - `SERVER_NAME` taken from the `Host` header;
  - the decision to answer with a `Set-Cookie: PHPSESSID=…` header. `SessionCookies` is the cookie array built for that decision (Reactor/ReactKernel.php:89-93).

Two support modules model the PHP built-ins the core uses:

- `PhpStrings` (`php_strings.dfy`): `explode`, `implode` (`Implode`, as at Reactor/ReactKernel.php:108), `rtrim` with a character list, and the decimal text of an integer.
- `PhpArrays` (`php_arrays.dfy`): an ordered PHP array with string keys.

The operating system is an input, the `Os` datatype:

- whether pcntl is loaded;
- the temporary directory;
- user and group names with their ids;
- whether `posix_setuid` and `posix_setgid` succeed.

The i-th `pcntl_fork()` of a run returns `fork(i)`.

## Model

| member | source | states |
|---|---|---|
| PhpStrings.Explode | Command/ServerAbstract.php:76 | `explode` with a non-empty separator gives at least one piece, and joining the pieces with the separator gives the input back |
| PhpStrings.ExplodeNoSeparator | Command/ServerAbstract.php:124 | with a one-character separator (`,` or `=`), no piece contains that character |
| PhpStrings.ExplodeUncut | Reactor/ReactKernel.php:119 | a text without the separator's first character is one piece |
| PhpStrings.ExplodeLeading | Reactor/ReactKernel.php:117 | a separator-free piece, then the separator, is cut exactly after that piece |
| PhpStrings.ExplodeImplode | Reactor/ReactKernel.php:108 | exploding an implosion of separator-free parts gives the parts back |
| PhpStrings.ImplodeStartsWith | Reactor/ReactKernel.php:108 | an implosion starts with its first part |
| PhpStrings.RTrim | Reactor/ReactKernel.php:76 | `rtrim(s, chars)` is a prefix of `s` that does not end in `chars`, and every character it removed is in `chars` |
| PhpStrings.RTrimUnique | Reactor/ReactKernel.php:76 | those three properties determine the result of `rtrim` |
| PhpStrings.DigitCharsAreDigits | Reactor/ReactKernel.php:76 | the digit part of the `':0..9'` character list is exactly the decimal digits |
| PhpStrings.DigitChar | Command/ServerAbstract.php:90 | a digit value below 10 becomes a digit character |
| PhpStrings.Decimal | Command/ServerAbstract.php:90 | the pid text written to a lock file is non-empty and made of digits |
| PhpStrings.DecimalRoundTrip | Command/ServerAbstract.php:90 | reading the decimal text back gives the pid that was written |
| PhpStrings.DecimalInjective | Command/ServerAbstract.php:90 | different pids give different lock-file contents |
| PhpArrays.Get | Reactor/ReactKernel.php:91 | `a[k]` is present exactly when `array_key_exists(k, a)` holds, and it is the value of an entry with key k |
| PhpArrays.Assign | Reactor/ReactKernel.php:121 | `a[k] = v` appends `(k, v)` when k is new; otherwise it keeps the length and the order of the keys |
| PhpArrays.AssignGet | Reactor/ReactKernel.php:121 | after `a[k] = v`, reading k gives v and every other key reads as before |
| PhpArrays.GetKeyed | Reactor/ReactKernel.php:121 | in an array without repeated keys, each entry's key reads back its value |
| PhpArrays.AssignKeyed | Reactor/ReactKernel.php:121 | assignment never creates a repeated key |
| ServerAbstract.LockPathInjective | Command/ServerAbstract.php:89 | for one directory and host, different ports have different lock files |
| ServerAbstract.PortList | Command/ServerAbstract.php:76 | the port option gives at least one port; no port contains a comma; joined with commas, the ports spell the option |
| ServerAbstract.SwitchIdentity | Command/ServerAbstract.php:155-184 | the code is 0 exactly when the user and group names resolve, else 2. An unknown user returns 2 before the group is read. The uid changes only for a known user whose setuid succeeds; the gid changes only when both names resolve and setgid succeeds |
| ServerAbstract.Machine.SetUidGid | Command/ServerAbstract.php:155-184 | the method's code and new identity are those of `SwitchIdentity` |
| ServerAbstract.StartRunOutcome | Command/ServerAbstract.php:66-114 | `start` returns 0, 1, 2 or 10. Without pcntl it returns 1 and changes nothing. An unknown name gives 2 with no lock file touched. Otherwise the code is 10 exactly when some fork failed. No signal is sent |
| ServerAbstract.Machine.Start | Command/ServerAbstract.php:66-114 | the loop over the ports leaves the code, lock files and identity that `StartRun` gives; signals are unchanged |
| ServerAbstract.ForkLoopCode | Command/ServerAbstract.php:86-111 | the fork loop's code is 10 exactly when some fork returned a negative value, else 0 |
| ServerAbstract.ForkLoopWrites | Command/ServerAbstract.php:88-90 | the lock files added are exactly those of successful forks; every other lock file keeps its content |
| ServerAbstract.ForkLoopLastWins | Command/ServerAbstract.php:88-90 | a port's lock file holds the pid of the last successful fork for that port |
| ServerAbstract.ForkLoopAllSpawned | Command/ServerAbstract.php:86-111 | on different ports with every fork successful, code 0; the lock files of all ports are added, each holding its worker's pid, and nothing else changes |
| ServerAbstract.StartLeavesOtherLocks | Command/ServerAbstract.php:86-111 | `start` never touches the lock file of a port it was not asked for |
| ServerAbstract.StopRunOutcome | Command/ServerAbstract.php:121-147 | `stop` returns 0, 1 or 2. An unknown name gives 2 with no lock file touched and no signal sent; the identity is what `SwitchIdentity` left, so a known user may already have been switched to. Otherwise the code is 0 exactly when the ports are all different and each has a lock file. Signals are only appended, and none is sent without pcntl |
| ServerAbstract.Machine.Stop | Command/ServerAbstract.php:121-147 | the loop leaves the code, lock files, signals and identity that `StopRun` gives |
| ServerAbstract.StopLoopFrame | Command/ServerAbstract.php:131-144 | the stop loop only removes lock files of requested ports and changes no content |
| ServerAbstract.StopLoopCode | Command/ServerAbstract.php:131-146 | the stop loop returns 0 exactly when the ports are different and all have lock files, else 1 |
| ServerAbstract.StopLoopSplit | Command/ServerAbstract.php:131-144 | after k different running ports, the loop continues on the rest of the list. The pids of those k ports have been sent SIGTERM in order, and their lock files are gone |
| ServerAbstract.StopLoopAllRunning | Command/ServerAbstract.php:131-146 | on different ports that all have lock files: code 0, SIGTERM to each recorded pid in port order, all their lock files removed |
| ServerAbstract.StopLoopStopsAtMissing | Command/ServerAbstract.php:134-137 | at the first port without a lock file the loop returns 1. The earlier ports are stopped; later ports are untouched |
| ServerAbstract.StopRunAllRunning | Command/ServerAbstract.php:121-147 | the same for the whole `stop` command with resolvable names; the SIGTERMs go out only with pcntl loaded |
| ServerAbstract.StopLeavesOtherLocks | Command/ServerAbstract.php:131-144 | `stop` never touches the lock file of a port it was not asked for |
| ServerAbstract.StartRunForks | Command/ServerAbstract.php:80-111 | with pcntl and resolvable names, `start` is its fork loop after the identity switch |
| ServerAbstract.StartThenStop | Command/ServerAbstract.php:86-144 | `start` and then `stop` on different, free ports, with every fork successful: both return 0; each new worker's pid gets SIGTERM in port order; the lock files end as they began |
| ServerAbstract.TerminationsOfForks | Command/ServerAbstract.php:139-140 | lock files written by the forks send SIGTERM to exactly the forked pids |
| ServerAbstract.PathsAbsent | Command/ServerAbstract.php:134 | when no requested port has a lock file, removing their lock files changes nothing |
| ServerAbstract.PathsPresent | Command/ServerAbstract.php:134 | when every requested port has a lock file, all of those files are among the existing ones |
| ServerRestartCommand.RestartRun | Command/ServerRestartCommand.php:41-49 | the restart code is never negative, and it is 0 exactly when both `stop` and `start` return 0 |
| ServerRestartCommand.Execute | Command/ServerRestartCommand.php:41-49 | the code is the stop code plus the code of the start run on the state the stop left; the machine ends in that start's state |
| ServerRestartCommand.RestartRunningPorts | Command/ServerRestartCommand.php:45-46 | restarting workers that all run on different ports, with every fork successful, gives 0. Every old pid gets SIGTERM in port order. Each port's lock file then holds its new pid, and no other lock file changes |
| ReactKernel.CookieSegments | Reactor/ReactKernel.php:104-106 | one `key=value` text per array entry |
| ReactKernel.CookieHeader | Reactor/ReactKernel.php:102-109 | the serialised header is empty exactly for the empty array |
| ReactKernel.SerializeCookiesHeader | Reactor/ReactKernel.php:102-109 | the loop and implode give `CookieHeader` |
| ReactKernel.CookieOf | Reactor/ReactKernel.php:119-121 | a segment sets a cookie only when it has exactly one `=`; key, `=` and value then spell the segment, and neither key nor value contains `=` |
| ReactKernel.CookiesFromHeader | Reactor/ReactKernel.php:115-125 | an empty header leaves the cookie array unchanged |
| ReactKernel.DeserializeCookiesHeader | Reactor/ReactKernel.php:115-125 | the loop assigns the cookie of every segment in order, giving `CookiesFromHeader` |
| ReactKernel.ApplySegmentGet | Reactor/ReactKernel.php:119-122 | one segment changes only the key it sets, and that key takes the segment's value |
| ReactKernel.MergeKeepsUnmentioned | Reactor/ReactKernel.php:118-124 | a cookie that no segment sets keeps its value, or stays absent |
| ReactKernel.MergeLastWins | Reactor/ReactKernel.php:118-124 | the last segment that sets a key decides its value |
| ReactKernel.MergeKeyed | Reactor/ReactKernel.php:118-124 | parsing never creates a repeated key |
| ReactKernel.CookieOfPair | Reactor/ReactKernel.php:119-121 | `key=value` without `=` in either part parses back to `(key, value)` |
| ReactKernel.MergeAppends | Reactor/ReactKernel.php:118-124 | the segments of new plain cookies are appended in order |
| ReactKernel.CookieRoundTrip | Reactor/ReactKernel.php:102-125 | for an array without repeated keys and without `=` or `;` in its keys and values, parsing the serialised header into an empty array gives the array back |
| ReactKernel.ServerName | Reactor/ReactKernel.php:76 | `SERVER_NAME` is a prefix of the Host header that ends in neither a colon nor a digit; everything removed is a colon or a digit |
| ReactKernel.ServerNameCutsAddress | Reactor/ReactKernel.php:76 | `SERVER_NAME` for "127.0.0.1:8080" is "127.0.0." |
| ReactKernel.HostWithoutPort | Reactor/ReactKernel.php:76 | the corrected name is a prefix of the host; it is the host itself, or what it removed is `:` followed by digits |
| ReactKernel.HostWithoutPortStripsPort | Reactor/ReactKernel.php:76 | for any name, `name:digits` gives back exactly `name` |
| ReactKernel.HostWithoutPortKeepsBareHost | Reactor/ReactKernel.php:76 | a host without a colon is left as it is |
| ReactKernel.ResponseHeaders | Reactor/ReactKernel.php:86-100 | `Set-Cookie` becomes `PHPSESSID=<session id>` exactly when the session is active and the cookie array has no PHPSESSID. Otherwise the headers are unchanged. No other header changes |

## Left out

- The child's side of the fork: `posix_setsid`, building and running the server (Command/ServerAbstract.php:94-110). A fork result of 0 changes nothing in the model. The real child would run the server and, if `run()` ever returned, continue the port loop itself. That is not modelled.
- Console output (`$output->writeln`) and command configuration (option declarations) are left out, because they do not affect codes or state.
- `ServerStartCommand`, `ServerStopCommand` and `ServerRunCommand` only delegate or run the server in the foreground. They are not part of this model.
- Signal delivery is not modelled; a `Signal` records the pid and the signal number of a `posix_kill` call. The pid is the lock file's text, as the code reads it; PHP's conversion of that text to an integer is not modelled.
- File I/O: the temporary directory is a map from path to content, and `sys_get_temp_dir()` is `Os.tmpDir`. Errors while reading or writing files are not modelled.
- The operating system's answers are fixed for one run: user and group lookups, and the success of `posix_setuid`/`posix_setgid`. A real process that already switched user might see different answers in the same run.
- ServerAbstract.StopRun: without pcntl, the model follows PHP 5 and 7. There, the undefined `SIGTERM` reaches `posix_kill` as a string, no signal is sent, and the lock file is removed. PHP 8 instead throws an error before the file is removed; that is not modelled.
- PhpArrays: PHP turns numeric string keys such as "1" into integers. This is not modelled, because every key is a string.
- ReactKernel: the handling of the kernel request and response objects is left out. That covers `buildSfRequest` apart from the cookie and `SERVER_NAME` lines, the `array_map('current', …)` reduction of response headers, `handle`, `terminate`, `writeHead` and `end`. The response headers are an input array.
- ReactKernel.DeserializeCookiesHeader: `$_COOKIE` is a process-wide global that keeps earlier requests' cookies in a long-running server. Here it is an explicit argument and result.
- ReactKernel: a missing `Host` header (`null` passed to `rtrim`) is not modelled; the host is always a string.
- `session_status()` and `session_id()` are inputs (`SessionStatus`, `sessionId`).

## Findings

| source | as written | input that shows it | evidently intended | confidence | as-written member | corrected member |
|---|---|---|---|---|---|---|
| Reactor/ReactKernel.php:76 | `SERVER_NAME` is `rtrim(Host, ':0..9')`, which removes every trailing colon and digit | Host "127.0.0.1:8080" gives "127.0.0."; any host name ending in a digit loses it | remove only a trailing `:port`: "127.0.0.1:8080" gives "127.0.0.1" | not executed | ReactKernel.ServerNameCutsAddress | ReactKernel.HostWithoutPortStripsPort |
