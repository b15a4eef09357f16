# zendev `test` command: a Dafny model

`zendev test` runs the Zenoss test suites in containers and in the serviced
checkout, then turns their exit codes into one process exit status. This
project models that orchestration and proves properties of it. It covers:

- image resolution (`check_devimg`): prefer the environment's
  `zendev/devimg:<env>` image, fall back to `zendev/devimg:latest`, and exit
  with status 1 when neither exists;
- the three runners:
  - `zen_image_tests`: decide whether to build, compose the mounts, and build
    the `docker run` command;
  - `zep_tests`;
  - `serviced_tests`;
- the `test` entry point:
  - the first-match product chain;
  - the ZEP and serviced runners, each independent of the others;
  - the aggregation of the collected codes into the exit decision.

Module layout, one file per module:

- `Types`: the data model. It holds the parsed arguments, the environment
  values a runner reads, the answers of the outside world (`Oracle`), the
  external calls as argv plus cwd, and the results (`Step`, `Outcome`).
- `Images`: `check_devimg` as a loop over the two tags.
- `Mounts`: mount maps. A dict literal, and item assignments after it, are
  modelled as "last entry wins" (`LastWins`).
- `Commands`: `docker run` argument vectors. The dict iteration order is left
  open (`AppendVolumes` picks any remaining key). `IsDockerRun` says a
  command is the flags, then one `-v host:container` pair per key in *some*
  order, then the image, then the tail.
- `Runners`: the three runners as methods. Each returns its `Step` and the
  `make` and `docker run` processes it started; the `docker images` queries
  and the zendev_test image check are not recorded as calls. Each one's
  result is tied to a step function (`ZenImageStep`, `ZepStep`,
  `ServicedStep`).
- `Plans`: the decisions of `test`, with the runners' behaviour as a
  parameter `st`:
  - which runners the flags select, and in which order (`Plan`);
  - a reference semantics: run the plan in order and stop at the first
    runner that stops the process (`RunFrom`, `Drive`);
  - closed forms of that semantics and the verdict lemmas.
- `Orchestrator`: `test` itself as a method, proved equal to `Drive` taken
  with the real runners.

External processes are not executed. What they answer is a parameter: the
`Oracle` holds the output of `docker images -q`, the result of
`check_zendev_test`, the exit code of `make devimg`, and the exit code of
each runner's test process. A call to `sys.exit`, and the `IndexError` from
`repos(...)[0]`, are both modelled as `Outcome.Exited`, with process status 1.

Two branches of the code do less than they appear to; the model follows
the code as written:

- `if not rcs:` (test.py:149-150) can never fire. Line 135 appends `rc` to
  `rcs` unconditionally, so `rcs` is never empty. With no flags,
  `rcs == [None]`, `any(rcs)` is false, and `test` returns normally.
  `Plans.NoFlagsCompletes` proves this, and `Plans.DriveVerdict` proves the
  "No tests were specified." exit can never happen.
- The `make devimg` code is tested with `return_code > 0` (test.py:58). Only
  a positive code is returned without running the container; a negative
  code goes on to run it. `Runners.ZenImageStep` and `Runners.ZenImageTests`
  keep the `> 0` test.

## Model

| member | source | states |
|---|---|---|
| Types.ExitStatus | zendev/cmd/test.py:149-153 | the process exit status is 0 exactly when `test` returns normally; every `sys.exit` with a message, or with 1, gives a non-zero status |
| Types.Drop1 | zendev/cmd/test.py:73 | `arguments[1:]`: empty for an empty list, otherwise the list without its first element, element by element |
| Types.FirstIndex | zendev/cmd/test.py:86 | the position of the first element satisfying the predicate: it satisfies it, every earlier one does not, and it is the length of s when none does |
| Images.CheckDevimg | zendev/cmd/test.py:9-21 | the loop over (env name, `latest`) returns the env image when it exists (even when `latest` exists too), `latest` when only it exists, and the exit (None) exactly when neither exists; equals `ResolveDevimg` |
| Mounts.LastWinsKeys | zendev/cmd/test.py:36-41 | the keys of a dict built entry by entry are exactly the hosts named by the entries |
| Mounts.LastWinsValue | zendev/cmd/test.py:36-41 | a host keeps the container path of its last entry |
| Mounts.LastWinsSize | zendev/cmd/test.py:36-41 | a dict never has more keys than entries, and has exactly as many when no host repeats |
| Mounts.PathJoin | zendev/cmd/test.py:99 | `os.path.join(a, b)` for a relative b: the result starts with a and ends with b; a non-empty a is followed by a `/` before b, and one is added exactly when a does not already end in one; joining a non-empty b never gives back a, so HOME/.m2 never collides with the HOME key |
| Mounts.ZenImageMountsLiteral | zendev/cmd/test.py:36-49 | the mounts of zen_image_tests are the four-entry dict literal, with ZENHOME stored on top for devimg only |
| Mounts.ZenImageMountsKeys | zendev/cmd/test.py:36-49 | the mounted hosts are SRCROOT, the build root, HOME and the runtime-state directory, plus ZENHOME exactly for devimg; at most one key per entry |
| Mounts.DevimgMountsExtend | zendev/cmd/test.py:47-49 | the devimg mounts are those of any other product with ZENHOME mapped to /opt/zenoss on top |
| Mounts.ZepMountsLiteral | zendev/cmd/test.py:97-100 | the mounts of zep_tests are the two-entry literal, then HOME/.m2, then ZENHOME |
| Mounts.ZepMountsShape | zendev/cmd/test.py:97-100 | zep_tests mounts SRCROOT, the build root, HOME/.m2 and ZENHOME; ZENHOME always maps to /opt/zenoss because it is written last; at most four mounts |
| Commands.VolumeArgsAt | zendev/cmd/test.py:64-65 | the volume options of n keys take 2n tokens, and the j-th pair is `-v` followed by the j-th key and its container path |
| Commands.VolumeArgsLength | zendev/cmd/test.py:64-65 | the volume options take two tokens per key |
| Commands.EnumerationSize | zendev/cmd/test.py:64-65 | an iteration order of a dict visits exactly as many keys as the dict has |
| Commands.AppendVolumes | zendev/cmd/test.py:64-65 | the loop visits every key exactly once, in an order nothing constrains, and appends one `-v host:container` pair per visit after the existing command |
| Commands.DockerRunLayout | zendev/cmd/test.py:61-73 | a built docker command is the flags, then two tokens of volume pairs per mount, then the image, then the tail |
| Commands.DockerRunVolumes | zendev/cmd/test.py:61-73 | between the flags and the image, every mount has a `-v host:container` pair, and every pair belongs to a mount |
| Commands.RemoveFirst | zendev/cmd/test.py:62-63 | `list.remove(x)` when x is present (line 63's list always holds `-t`): only the first occurrence of x is taken out and everything else stays in order |
| Runners.RemoveTtyFlag | zendev/cmd/test.py:61-63 | taking `-t` out of `docker run -i -t --rm` gives `docker run -i --rm` |
| Runners.ZenImageCommand | zendev/cmd/test.py:61-73 | the command is the zen flags (without `-t` under --no-tty), one volume pair per mount, the image, then `bash` when interactive, else `run_tests.sh`, then `zenpack` under -zp, then `arguments[1:]` |
| Runners.ZepCommand | zendev/cmd/test.py:102-115 | the command is `docker run -t -i --rm` (--no-tty is ignored), the volume pairs, the image, then `bash` when interactive, else `run_tests.sh zep`, then `integration`, then `unit`, each when its flag is set, then `arguments[1:]` |
| Runners.ZenImageTests | zendev/cmd/test.py:30-79 | a devimg with no image halts with no call; `make devimg` runs in the build root exactly when the product is not devimg and no existing zendev_test image may be reused; a positive build code is returned with no container run; otherwise the last call is the docker command in the caller's directory, and the container's code is returned |
| Runners.ZepTests | zendev/cmd/test.py:93-116 | with no devimg it halts with no call; otherwise it makes exactly one call, the zep docker command with the resolved image and the zep mounts, and returns its code |
| Runners.ServicedTests | zendev/cmd/test.py:82-90 | it halts exactly when no repository name ends with control-center/serviced; otherwise it runs `make test` or `make smoketest` plus `arguments[1:]` in the first such repository and returns its code |
| Plans.SelectedCases | zendev/cmd/test.py:125-134 | the first set flag of the chain devimg, resmgr, ucspm, nfvimon, core-or-zp picks the product, as the if/elif cascade does; no product when none is set |
| Plans.PlanMembers | zendev/cmd/test.py:125-147 | the plan holds the selected product's runner, zep exactly when a zep flag is set, and each serviced suite exactly when its flag is set |
| Plans.PlanOrdered | zendev/cmd/test.py:125-147 | the runners run in the order product, zep, serviced unit, serviced smoke, and none runs twice |
| Plans.RcsOfCons | zendev/cmd/test.py:135-147 | a runner in front adds its code in front of the collected codes |
| Plans.RunFromPart | zendev/cmd/test.py:137-147 | an unset flag skips its runner; a set flag runs it, and either the process stops with its reason or its code is appended before the rest continues |
| Plans.RunFromStops | zendev/cmd/test.py:135-147 | when runner k is the first to stop the process, the runners up to and including it have run, the codes before it have been collected, and its reason ends the process |
| Plans.RunFromCompletes | zendev/cmd/test.py:135-153 | when no runner stops the process, all of them run, every code is collected in order, and the codes decide the outcome |
| Plans.DriveIsRunFrom | zendev/cmd/test.py:120-147 | `test` runs the whole plan in order, starting from rcs `[None]` when no product is selected (the unconditional append) and from `[]` otherwise |
| Plans.DriveStops | zendev/cmd/test.py:120-147 | when the k-th runner of the plan is the first to stop the process, `test` runs exactly the plan's first k+1 runners and ends with that runner's reason |
| Plans.DriveCompletes | zendev/cmd/test.py:120-153 | when no runner of the plan stops the process, `test` runs the whole plan, and its rcs are the initial slot followed by every runner's code |
| Plans.SomeFailedRcsOf | zendev/cmd/test.py:152-153 | the collected codes contain a truthy entry exactly when some runner returned a non-zero code |
| Plans.CollectedFailure | zendev/cmd/test.py:135-153 | `any(rcs)` holds exactly when some runner of the plan returned a non-zero code; the None slot of a missing product never counts |
| Plans.DriveVerdict | zendev/cmd/test.py:120-153 | when runners stop the process only for a missing image or repository, `test` never exits with "No tests were specified."; it stops for a runner exactly when some planned runner does; it exits with "Some tests failed." exactly when every planned runner returns and one returns non-zero; it returns normally exactly when every planned runner returns 0 |
| Plans.NoFlagsCompletes | zendev/cmd/test.py:122-153 | with no flag set nothing runs, rcs is `[None]`, and `test` returns normally |
| Orchestrator.RunnerHalts | zendev/cmd/test.py:9-86 | a runner stops the process only through check_devimg's exit (lines 19-21) or the IndexError of a missing serviced repository (line 86) |
| Orchestrator.TestVerdict | zendev/cmd/test.py:120-153 | DriveVerdict for the real runners: never "No tests were specified."; a runner's halt exactly when a planned runner halts; "Some tests failed." exactly when all planned runners return and one is non-zero; exit status 0 exactly when every planned runner returns 0 |
| Orchestrator.Invoke | zendev/cmd/test.py:126-146 | dispatching a runner gives back that runner's step, and a halting runner has made no call |
| Orchestrator.ProductPhase | zendev/cmd/test.py:122-135 | the if/elif cascade runs at most the selected product's runner; either the process stops as `test` does, or the later runners from rcs `[rc]` do what `test` does |
| Orchestrator.OptionalStep | zendev/cmd/test.py:137-147 | one `if flag: rcs.append(runner(...))` keeps the reference semantics of the remaining runners |
| Orchestrator.Test | zendev/cmd/test.py:120-153 | the outcome, the collected rcs and the runners invoked are exactly those of the reference semantics over the plan; no call is made when no runner runs |

## Left out

- zendev/cmd/environment.py is not part of this model. The environment is
  one value holding the name, build root, runtime-state directory, SRCROOT,
  HOME, ZENHOME and the repositories in order.
- The per-runner `env()` factory call is not modelled. Every runner sees the
  same environment value.
- `add_commands` and argument parsing are left out. The parsed flags and the
  REMAINDER list are the `Args` datatype.
- A failing `docker images -q` is left out. `check_output` raises
  `CalledProcessError` on a non-zero exit (test.py:17); the `Oracle` only
  answers whether an image exists.
- Executing subprocesses is left out. `docker images -q`,
  `check_zendev_test`, `make devimg`, the containers and `make test` are
  answers in the `Oracle`.
- The shell-quoting detail of `check_zendev_test` is left out. Only its
  boolean result is kept.
- `get_packs` and the `ZENPACKS` value are left out. They are foreign code.
- The environment variables are left out: `VAR_ZENOSS` in `os.environ`, the
  `envvars` overlay, and the `DEVIMG_SYMLINK`/`devimg_*` build variables. A
  call records only its argv and its working directory.
- Restoring the working directory after `as_cwd` is not modelled. The
  directory a call runs in is recorded (`Call.cwd`); the return to the
  caller's directory is not.
- The printed messages are left out ("Using ... image.", the command echo,
  the stderr diagnostic and the exit messages). A halt is identified by its
  `Halt` value alone.
- A `KeyError` from a missing SRCROOT, HOME or ZENHOME is left out. The
  environment always holds these three values.
- `os.path.join` is not modelled for an absolute second argument, because
  the source only joins ".m2". `os.path.join(x)` with one argument is x
  itself.
- Commands.RemoveFirst: gives the list back unchanged when x is absent,
  where Python's `list.remove` raises ValueError. The only call (test.py:63)
  removes `-t` from a list that always holds it (`Runners.RemoveTtyFlag`).
- Mount iteration order is left open rather than fixed: Python 2 dict order
  is modelled by any order of the keys.
- Orchestrator.Test: the calls `test` makes are stated only through each
  runner's own contract and through "no runner, no call". `Test` does not
  restate the concatenation.
- When the product runner stops the process, the reference semantics
  reports rcs as `[]`. After a stop, rcs has no effect.
