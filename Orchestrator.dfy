/** The `test` entry point: the product chain (first set flag wins), then the
    ZEP, serviced unit and serviced smoke runners, each when its flag is set,
    and the decision on the exit of the whole process. */
module Orchestrator {
  import opened Types
  import opened Runners
  import opened Plans

  /** What a runner gives back. */
  function StepOf(r: Runner, a: Args, env: Environment, o: Oracle): Step
  {
    match r
    case ZenImage(p) => ZenImageStep(a, env, p, o)
    case Zep => ZepStep(env, o)
    case Serviced(smoke) => ServicedStep(env, smoke, o)
  }

  /** The behaviour of every runner for these arguments, environment and
      external answers. */
  function Steps(a: Args, env: Environment, o: Oracle): Runner -> Step
  {
    r => StepOf(r, a, env, o)
  }

  /** What `test` does for these arguments, environment and external answers. */
  function Expected(a: Args, env: Environment, o: Oracle): Report
  {
    Drive(a, Steps(a, env, o))
  }

  /** A runner stops the process only because of a missing image or a missing
      serviced repository. */
  lemma {:induction false} RunnerHalts(a: Args, env: Environment, o: Oracle)
    ensures forall r | Steps(a, env, o)(r).Halted? :: IsRunnerHalt(Steps(a, env, o)(r).why)
  {
    forall r | Steps(a, env, o)(r).Halted? ensures IsRunnerHalt(Steps(a, env, o)(r).why) {
      match r
      case ZenImage(p) => assert ZenImageStep(a, env, p, o).why == MissingDevimg;
      case Zep => assert ZepStep(env, o).why == MissingDevimg;
      case Serviced(smoke) => assert ServicedStep(env, smoke, o).why == NoServicedRepo;
    }
  }

  /** How `test` ends for the real runners: never with "No tests were
      specified."; because a runner stopped it exactly when some runner of the
      plan does; with "Some tests failed." exactly when every runner of the
      plan returns and one returns a non-zero code; normally, with exit status
      0, exactly when every runner of the plan returns 0. */
  lemma TestVerdict(a: Args, env: Environment, o: Oracle)
    ensures Expected(a, env, o).outcome != Exited(NoTests)
    ensures (Expected(a, env, o).outcome.Exited? && IsRunnerHalt(Expected(a, env, o).outcome.why)) <==>
              exists j | 0 <= j < |Plan(a)| :: StepOf(Plan(a)[j], a, env, o).Halted?
    ensures Expected(a, env, o).outcome == Exited(TestsFailed) <==>
              && (forall j | 0 <= j < |Plan(a)| :: StepOf(Plan(a)[j], a, env, o).Returned?)
              && exists j | 0 <= j < |Plan(a)| ::
                   StepOf(Plan(a)[j], a, env, o).Returned? && StepOf(Plan(a)[j], a, env, o).rc != 0
    ensures ExitStatus(Expected(a, env, o).outcome) == 0 <==>
              forall j | 0 <= j < |Plan(a)| :: StepOf(Plan(a)[j], a, env, o) == Returned(0)
  {
    RunnerHalts(a, env, o);
    DriveVerdict(a, Steps(a, env, o));
  }

  /** Runs one runner; what `test` needs to know of it is its Step. */
  method Invoke(r: Runner, a: Args, env: Environment, o: Oracle) returns (step: Step, calls: seq<Call>)
    ensures step == StepOf(r, a, env, o)
    ensures step.Halted? ==> calls == []
  {
    match r
    case ZenImage(p) => step, calls := ZenImageTests(a, env, p, o);
    case Zep => step, calls := ZepTests(a, env, o);
    case Serviced(smoke) => step, calls := ServicedTests(a, env, smoke, o);
  }

  /** The product half of `test`: the if/elif cascade picks at most one
      product and runs zen_image_tests for it. When it does not stop the
      process, rc is the product's slot in rcs (None when no product flag is
      set) and running the later runners from there does what `test` does. */
  method ProductPhase(a: Args, env: Environment, o: Oracle)
    returns (halt: Option<Halt>, rc: Option<int>, ran: seq<Runner>, calls: seq<Call>)
    ensures halt.Some? ==> Report(Exited(halt.value), [], ran) == Expected(a, env, o)
    ensures halt.None? ==> RunFrom(LaterPlan(a), Steps(a, env, o), [rc], ran) == Expected(a, env, o)
    ensures ran == [] ==> calls == []
  {
    halt, rc, ran, calls := None, None, [], [];
    var product: Option<string> := None;
    if a.devimg {
      product := Some("devimg");
    } else if a.resmgr {
      product := Some("resmgr");
    } else if a.ucspm {
      product := Some("ucspm");
    } else if a.nfvimon {
      product := Some("nfvimon");
    } else if a.core || a.zp {
      product := Some("");
    }
    SelectedCases(a);
    if product.Some? {
      var step, c := Invoke(ZenImage(product.value), a, env, o);
      ran, calls := [ZenImage(product.value)], c;
      if step.Halted? {
        halt := Some(step.why);
      } else {
        rc := Some(step.rc);
      }
    }
  }

  /** One `if flag: rcs.append(runner(...))` of `test`, run in front of the
      remaining runners rest: `goal` is what running Part(flag, r) + rest from
      the current state gives, and the step keeps that goal. */
  method OptionalStep(flag: bool, r: Runner, ghost rest: seq<Runner>, a: Args, env: Environment, o: Oracle,
                      rcs: seq<Option<int>>, ran: seq<Runner>, calls: seq<Call>, ghost goal: Report)
    returns (halt: Option<Halt>, rcs': seq<Option<int>>, ran': seq<Runner>, calls': seq<Call>)
    requires goal == RunFrom(Part(flag, r) + rest, Steps(a, env, o), rcs, ran)
    ensures halt.Some? ==> Report(Exited(halt.value), rcs', ran') == goal
    ensures halt.None? ==> RunFrom(rest, Steps(a, env, o), rcs', ran') == goal
    ensures |ran'| >= |ran| && (ran' == ran ==> calls' == calls)
  {
    RunFromPart(flag, r, rest, Steps(a, env, o), rcs, ran);
    halt, rcs', ran', calls' := None, rcs, ran, calls;
    if flag {
      var step, c := Invoke(r, a, env, o);
      ran', calls' := ran + [r], calls + c;
      if step.Halted? {
        halt := Some(step.why);
      } else {
        rcs' := rcs + [Some(step.rc)];
      }
    }
  }

  /** test: run the selected runners in order, collect their codes, and decide
      how the process ends. `calls` lists the `make` and `docker run`
      processes the runners started. */
  method Test(a: Args, env: Environment, o: Oracle)
    returns (outcome: Outcome, rcs: seq<Option<int>>, ran: seq<Runner>, calls: seq<Call>)
    ensures Report(outcome, rcs, ran) == Expected(a, env, o)
    ensures ran == [] ==> calls == []
  {
    var halt, rc;
    halt, rc, ran, calls := ProductPhase(a, env, o);
    rcs := [];
    if halt.Some? {
      return Exited(halt.value), rcs, ran, calls;
    }
    rcs := rcs + [rc];
    assert rcs == [rc];

    ghost var goal := Expected(a, env, o);
    ghost var smoke := Part(a.servicedSmoke, Serviced(true));
    assert LaterPlan(a) == Part(a.zepUnit || a.zepIntegration, Zep) + (Part(a.servicedUnit, Serviced(false)) + smoke);
    halt, rcs, ran, calls := OptionalStep(a.zepUnit || a.zepIntegration, Zep,
                                          Part(a.servicedUnit, Serviced(false)) + smoke,
                                          a, env, o, rcs, ran, calls, goal);
    if halt.Some? {
      return Exited(halt.value), rcs, ran, calls;
    }
    halt, rcs, ran, calls := OptionalStep(a.servicedUnit, Serviced(false), smoke, a, env, o, rcs, ran, calls, goal);
    if halt.Some? {
      return Exited(halt.value), rcs, ran, calls;
    }
    assert smoke + [] == smoke;
    halt, rcs, ran, calls := OptionalStep(a.servicedSmoke, Serviced(true), [], a, env, o, rcs, ran, calls, goal);
    if halt.Some? {
      return Exited(halt.value), rcs, ran, calls;
    }

    if |rcs| == 0 {
      outcome := Exited(NoTests);
    } else if SomeFailed(rcs) {
      outcome := Exited(TestsFailed);
    } else {
      outcome := Completed;
    }
  }
}
