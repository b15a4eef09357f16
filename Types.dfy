/** Values shared by every part of the test orchestrator: the parsed command
    line, the environment it reads, the answers of the external processes it
    consults, and the results it produces. */
module Types {

  datatype Option<+T> = None | Some(value: T)

  /** The options structure `test` receives: one flag per test family, the
      modifiers, and the trailing REMAINDER argument list. */
  datatype Args = Args(
    devimg: bool,
    resmgr: bool,
    ucspm: bool,
    nfvimon: bool,
    core: bool,
    zp: bool,
    zepUnit: bool,
    zepIntegration: bool,
    servicedUnit: bool,
    servicedSmoke: bool,
    useExisting: bool,
    interactive: bool,
    noTty: bool,
    arguments: seq<string>)

  /** A managed repository: its name and its checkout path. */
  datatype Repo = Repo(name: string, path: string)

  /** What a runner reads from the environment object: its name, its build
      root, its runtime-state directory, the values of SRCROOT, HOME and
      ZENHOME in the merged variables, and its repositories in the order the
      environment lists them. */
  datatype Environment = Environment(
    name: string,
    buildRoot: string,
    varZenoss: string,
    srcRoot: string,
    home: string,
    zenHome: string,
    repos: seq<Repo>)

  /** One target runner invocation of the orchestrator. */
  datatype Runner = ZenImage(product: string) | Zep | Serviced(smoke: bool)

  /** The answers of the external world:
      - imagesQuery(ref): what `docker images -q ref` prints;
      - zendevTestExists: whether `test -n "$(docker images -q zendev_test)"` succeeds;
      - buildRc: the exit code of `make devimg`;
      - runRc(r): the exit code of the test process runner r starts. */
  datatype Oracle = Oracle(
    imagesQuery: string -> string,
    zendevTestExists: bool,
    buildRc: int,
    runRc: Runner -> int)

  /** An external process the orchestrator executes: its argument vector and
      the directory it runs in (None: the caller's working directory). */
  datatype Call = Call(argv: seq<string>, cwd: Option<string>)

  /** Why the whole process stops early. */
  datatype Halt =
    | MissingDevimg    // check_devimg found no image and called sys.exit(1)
    | NoServicedRepo   // repos(...)[0] on an empty list raised IndexError
    | NoTests          // sys.exit("No tests were specified.")
    | TestsFailed      // sys.exit("Some tests failed.")

  /** What a runner gives back: an exit code, or a stop of the whole process. */
  datatype Step = Returned(rc: int) | Halted(why: Halt)

  /** How `test` ends: it returns normally, or the process exits. */
  datatype Outcome = Completed | Exited(why: Halt)

  /** The process exit status that an outcome produces. */
  function ExitStatus(o: Outcome): (status: int)
    ensures status == 0 <==> o == Completed
  {
    match o
    case Completed => 0
    case Exited(_) => 1
  }

  /** The halts that a runner itself can cause (as opposed to `test`'s own). */
  predicate IsRunnerHalt(h: Halt)
  {
    h == MissingDevimg || h == NoServicedRepo
  }

  /** Python's `arguments[1:]`: everything after the first element; empty
      when there are fewer than two. */
  function Drop1(s: seq<string>): (r: seq<string>)
    ensures |s| == 0 ==> r == []
    ensures |s| > 0 ==> |r| == |s| - 1 && forall i | 0 <= i < |r| :: r[i] == s[i + 1]
  {
    if |s| == 0 then [] else s[1..]
  }

  /** Python's `s.endswith(suffix)`. */
  predicate EndsWith(s: string, suffix: string)
  {
    |suffix| <= |s| && s[|s| - |suffix|..] == suffix
  }

  /** Whether an element equals x. */
  function Is<T(==)>(x: T): T -> bool
  {
    y => y == x
  }

  /** The position of the first element of s that satisfies p; |s| when none
      does. */
  function FirstIndex<T>(s: seq<T>, p: T -> bool): (k: nat)
    ensures k <= |s|
    ensures k < |s| ==> p(s[k])
    ensures forall j | 0 <= j < k :: !p(s[j])
  {
    if |s| == 0 then 0
    else if p(s[0]) then 0
    else 1 + FirstIndex(s[1..], p)
  }
}
