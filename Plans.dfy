/** What `test` decides before and after its runners: which runners the flags
    select and in which order, and how the process ends given what each runner
    gives back. The runners' own behaviour is a parameter `st` here, so every
    property below holds whatever the runners do. */
module Plans {
  import opened Types

  /** The product flags in priority order, each with the product it selects
      (the empty product is the plain core image). */
  function ProductChain(a: Args): seq<(bool, string)>
  {
    [(a.devimg, "devimg"), (a.resmgr, "resmgr"), (a.ucspm, "ucspm"),
     (a.nfvimon, "nfvimon"), (a.core || a.zp, "")]
  }

  predicate IsSet(entry: (bool, string))
  {
    entry.0
  }

  /** The product of the first set flag of the chain, if any. */
  function Selected(a: Args): Option<string>
  {
    var chain := ProductChain(a);
    var k := FirstIndex(chain, IsSet);
    if k < |chain| then Some(chain[k].1) else None
  }

  /** The ordered chain selects what the source's if/elif cascade selects. */
  lemma SelectedCases(a: Args)
    ensures Selected(a) ==
              if a.devimg then Some("devimg")
              else if a.resmgr then Some("resmgr")
              else if a.ucspm then Some("ucspm")
              else if a.nfvimon then Some("nfvimon")
              else if a.core || a.zp then Some("")
              else None
  {
    var chain := ProductChain(a);
    var k := FirstIndex(chain, IsSet);
    if a.devimg {
      assert IsSet(chain[0]);
    } else if a.resmgr {
      assert !IsSet(chain[0]) && IsSet(chain[1]);
    } else if a.ucspm {
      assert !IsSet(chain[0]) && !IsSet(chain[1]) && IsSet(chain[2]);
    } else if a.nfvimon {
      assert !IsSet(chain[0]) && !IsSet(chain[1]) && !IsSet(chain[2]) && IsSet(chain[3]);
    } else {
      assert !IsSet(chain[0]) && !IsSet(chain[1]) && !IsSet(chain[2]) && !IsSet(chain[3]);
      assert IsSet(chain[4]) == (a.core || a.zp);
    }
  }

  /** [r] when its flag is set, [] otherwise. */
  function Part(flag: bool, r: Runner): seq<Runner>
  {
    if flag then [r] else []
  }

  /** The runners after the product one, each when its flags are set. */
  function LaterPlan(a: Args): seq<Runner>
  {
    Part(a.zepUnit || a.zepIntegration, Zep) + Part(a.servicedUnit, Serviced(false))
    + Part(a.servicedSmoke, Serviced(true))
  }

  /** The product runner, when a product flag is set. */
  function ProductPlan(a: Args): seq<Runner>
  {
    match Selected(a)
    case Some(p) => [ZenImage(p)]
    case None => []
  }

  /** Every runner `test` invokes when none of them stops the process, in order. */
  function Plan(a: Args): seq<Runner>
  {
    ProductPlan(a) + LaterPlan(a)
  }

  /** Where a runner sits in the order `test` invokes them. */
  function Rank(r: Runner): nat
  {
    match r
    case ZenImage(_) => 0
    case Zep => 1
    case Serviced(smoke) => if smoke then 3 else 2
  }

  /** The plan holds the selected product, zep when either zep flag is set,
      and each serviced suite whose flag is set, and nothing else. */
  lemma PlanMembers(a: Args, p: string)
    ensures ZenImage(p) in Plan(a) <==> Selected(a) == Some(p)
    ensures Zep in Plan(a) <==> a.zepUnit || a.zepIntegration
    ensures Serviced(false) in Plan(a) <==> a.servicedUnit
    ensures Serviced(true) in Plan(a) <==> a.servicedSmoke
  {
    var later := LaterPlan(a);
    assert ZenImage(p) !in later;
    assert forall r | r in ProductPlan(a) :: r.ZenImage?;
  }

  /** The runners of the plan come in the order product, zep, serviced unit,
      serviced smoke, so none appears twice. */
  lemma PlanOrdered(a: Args)
    ensures forall i, j | 0 <= i < j < |Plan(a)| :: Rank(Plan(a)[i]) < Rank(Plan(a)[j])
  {
    var first, later := ProductPlan(a), LaterPlan(a);
    var plan := first + later;
    assert |first| <= 1 && forall r | r in first :: Rank(r) == 0;
    assert forall r | r in later :: Rank(r) > 0;
    assert forall i, j | 0 <= i < j < |later| :: Rank(later[i]) < Rank(later[j]);
    forall i, j | 0 <= i < j < |plan| ensures Rank(plan[i]) < Rank(plan[j]) {
      assert plan[j] == later[j - |first|];
      if i >= |first| {
        assert plan[i] == later[i - |first|];
      }
    }
  }

  /** Whether a runner stops the whole process. */
  function Halting(st: Runner -> Step): Runner -> bool
  {
    r => st(r).Halted?
  }

  /** The entry a runner's Step contributes to rcs. */
  function RcOf(s: Step): Option<int>
  {
    if s.Returned? then Some(s.rc) else None
  }

  /** The entries a sequence of runners contributes to rcs. */
  function RcsOf(rs: seq<Runner>, st: Runner -> Step): (r: seq<Option<int>>)
    ensures |r| == |rs|
  {
    seq(|rs|, i requires 0 <= i < |rs| => RcOf(st(rs[i])))
  }

  /** Python's `any(rcs)`: some entry is neither None nor 0. */
  predicate SomeFailed(rcs: seq<Option<int>>)
  {
    exists i | 0 <= i < |rcs| :: rcs[i].Some? && rcs[i].value != 0
  }

  /** The end of `test` once every runner has returned. */
  function Aggregate(rcs: seq<Option<int>>): Outcome
  {
    if |rcs| == 0 then Exited(NoTests)
    else if SomeFailed(rcs) then Exited(TestsFailed)
    else Completed
  }

  /** How `test` ends, the rcs it collected and the runners it invoked. */
  datatype Report = Report(outcome: Outcome, rcs: seq<Option<int>>, ran: seq<Runner>)

  /** Reference semantics: invoke the runners rs in order after the ones in
      ran, appending each exit code to rcs; the first runner that stops the
      process ends everything. */
  function RunFrom(rs: seq<Runner>, st: Runner -> Step, rcs: seq<Option<int>>, ran: seq<Runner>): Report
    decreases |rs|
  {
    if |rs| == 0 then Report(Aggregate(rcs), rcs, ran)
    else
      var s := st(rs[0]);
      if s.Halted? then Report(Exited(s.why), rcs, ran + [rs[0]])
      else RunFrom(rs[1..], st, rcs + [Some(s.rc)], ran + [rs[0]])
  }

  /** What `test` does when runner r gives back st(r): the product runner first
      (its slot in rcs is None when no product flag is set), then the later
      runners. */
  function Drive(a: Args, st: Runner -> Step): Report
  {
    match Selected(a)
    case Some(p) =>
      var s := st(ZenImage(p));
      if s.Halted? then Report(Exited(s.why), [], [ZenImage(p)])
      else RunFrom(LaterPlan(a), st, [Some(s.rc)], [ZenImage(p)])
    case None => RunFrom(LaterPlan(a), st, [None], [])
  }

  /** What rcs holds before the first runner returns: the None slot of a
      missing product, or nothing when the product runner will fill the slot. */
  function InitialRcs(a: Args): seq<Option<int>>
  {
    if Selected(a).None? then [None] else []
  }

  /** A runner in front contributes its entry in front. */
  lemma RcsOfCons(r: Runner, rs: seq<Runner>, st: Runner -> Step)
    ensures RcsOf([r] + rs, st) == [RcOf(st(r))] + RcsOf(rs, st)
  {
    var lhs, rhs := RcsOf([r] + rs, st), [RcOf(st(r))] + RcsOf(rs, st);
    forall i | 0 <= i < |lhs| ensures lhs[i] == rhs[i] {
      if i > 0 {
        assert ([r] + rs)[i] == rs[i - 1];
      }
    }
  }

  /** Running an optional runner first. */
  lemma RunFromPart(flag: bool, r: Runner, rest: seq<Runner>, st: Runner -> Step,
                    rcs: seq<Option<int>>, ran: seq<Runner>)
    ensures RunFrom(Part(flag, r) + rest, st, rcs, ran) ==
              if !flag then RunFrom(rest, st, rcs, ran)
              else if st(r).Halted? then Report(Exited(st(r).why), rcs, ran + [r])
              else RunFrom(rest, st, rcs + [Some(st(r).rc)], ran + [r])
  {
    if flag {
      assert (Part(flag, r) + rest)[0] == r;
      assert (Part(flag, r) + rest)[1..] == rest;
    } else {
      assert Part(flag, r) + rest == rest;
    }
  }

  /** The first runner contributes the first entry. */
  lemma RcsOfUncons(rs: seq<Runner>, st: Runner -> Step)
    requires |rs| > 0
    ensures RcsOf(rs, st) == [RcOf(st(rs[0]))] + RcsOf(rs[1..], st)
  {
    assert [rs[0]] + rs[1..] == rs;
    RcsOfCons(rs[0], rs[1..], st);
  }

  /** Reference semantics, first case: when k is the first runner of rs that
      stops the process, the runners up to and including it are invoked, the
      codes before it are collected, and it decides the outcome. */
  lemma {:induction false} RunFromStops(rs: seq<Runner>, st: Runner -> Step,
                                        rcs: seq<Option<int>>, ran: seq<Runner>, k: nat)
    requires k < |rs| && st(rs[k]).Halted?
    requires forall j | 0 <= j < k :: st(rs[j]).Returned?
    ensures RunFrom(rs, st, rcs, ran) ==
              Report(Exited(st(rs[k]).why), rcs + RcsOf(rs[..k], st), ran + rs[..k + 1])
    decreases |rs|
  {
    var s := st(rs[0]);
    if k == 0 {
      assert rs[..1] == [rs[0]];
      assert rcs + RcsOf(rs[..0], st) == rcs;
    } else {
      assert s.Returned?;
      var tail := rs[1..];
      var rcs1, ran1 := rcs + [Some(s.rc)], ran + [rs[0]];
      forall j | 0 <= j < k - 1 ensures st(tail[j]).Returned? {
        assert tail[j] == rs[j + 1];
      }
      assert tail[k - 1] == rs[k];
      RunFromStops(tail, st, rcs1, ran1, k - 1);
      assert rcs1 + RcsOf(tail[..k - 1], st) == rcs + RcsOf(rs[..k], st) by {
        RcsOfUncons(rs[..k], st);
        assert rs[..k][1..] == tail[..k - 1];
      }
      assert ran1 + tail[..k] == ran + rs[..k + 1] by {
        assert rs[..k + 1] == [rs[0]] + tail[..k];
      }
    }
  }

  /** Reference semantics, second case: when no runner of rs stops the
      process, all of them are invoked, each code is collected, and the codes
      decide the outcome. */
  lemma {:induction false} RunFromCompletes(rs: seq<Runner>, st: Runner -> Step,
                                            rcs: seq<Option<int>>, ran: seq<Runner>)
    requires forall j | 0 <= j < |rs| :: st(rs[j]).Returned?
    ensures RunFrom(rs, st, rcs, ran) ==
              Report(Aggregate(rcs + RcsOf(rs, st)), rcs + RcsOf(rs, st), ran + rs)
    decreases |rs|
  {
    if |rs| == 0 {
      assert rcs + RcsOf(rs, st) == rcs;
      assert ran + rs == ran;
    } else {
      var s := st(rs[0]);
      assert s.Returned?;
      var tail := rs[1..];
      var rcs1, ran1 := rcs + [Some(s.rc)], ran + [rs[0]];
      forall j | 0 <= j < |tail| ensures st(tail[j]).Returned? {
        assert tail[j] == rs[j + 1];
      }
      RunFromCompletes(tail, st, rcs1, ran1);
      assert rcs1 + RcsOf(tail, st) == rcs + RcsOf(rs, st) by {
        RcsOfUncons(rs, st);
      }
      assert ran1 + tail == ran + rs by {
        assert [rs[0]] + tail == rs;
      }
    }
  }

  /** `test` is the reference semantics run over the whole plan. */
  lemma DriveIsRunFrom(a: Args, st: Runner -> Step)
    ensures Drive(a, st) == RunFrom(Plan(a), st, InitialRcs(a), [])
  {
    var plan, later := Plan(a), LaterPlan(a);
    match Selected(a)
    case None =>
      assert plan == later;
    case Some(p) =>
      assert plan == [ZenImage(p)] + later;
      assert plan[1..] == later;
      assert [] + [plan[0]] == [ZenImage(p)];
      var s := st(ZenImage(p));
      if s.Returned? {
        assert [] + [Some(s.rc)] == [Some(s.rc)];
      }
  }

  /** When the k-th runner of the plan is the first that stops the process,
      `test` has invoked exactly the runners up to it, and that runner's
      reason ends the process. */
  lemma DriveStops(a: Args, st: Runner -> Step, k: nat)
    requires k < |Plan(a)| && st(Plan(a)[k]).Halted?
    requires forall j | 0 <= j < k :: st(Plan(a)[j]).Returned?
    ensures Drive(a, st).ran == Plan(a)[..k + 1]
    ensures Drive(a, st).outcome == Exited(st(Plan(a)[k]).why)
  {
    DriveIsRunFrom(a, st);
    RunFromStops(Plan(a), st, InitialRcs(a), [], k);
    assert [] + Plan(a)[..k + 1] == Plan(a)[..k + 1];
  }

  /** When no runner of the plan stops the process, `test` invokes all of
      them, collects their codes after the initial rcs, and lets those codes
      decide the outcome. */
  lemma DriveCompletes(a: Args, st: Runner -> Step)
    requires forall j | 0 <= j < |Plan(a)| :: st(Plan(a)[j]).Returned?
    ensures Drive(a, st).ran == Plan(a)
    ensures Drive(a, st).rcs == InitialRcs(a) + RcsOf(Plan(a), st)
    ensures Drive(a, st).outcome == Aggregate(Drive(a, st).rcs)
  {
    DriveIsRunFrom(a, st);
    RunFromCompletes(Plan(a), st, InitialRcs(a), []);
    assert [] + Plan(a) == Plan(a);
  }

  /** The codes of a sequence of runners contain a failure exactly when one of
      the runners returned a non-zero code. */
  lemma SomeFailedRcsOf(rs: seq<Runner>, st: Runner -> Step)
    ensures SomeFailed(RcsOf(rs, st)) <==>
              exists j | 0 <= j < |rs| :: st(rs[j]).Returned? && st(rs[j]).rc != 0
  {
    var rcs := RcsOf(rs, st);
    if SomeFailed(rcs) {
      var i :| 0 <= i < |rcs| && rcs[i].Some? && rcs[i].value != 0;
      assert st(rs[i]).Returned?;
    }
    if exists j | 0 <= j < |rs| :: st(rs[j]).Returned? && st(rs[j]).rc != 0 {
      var j :| 0 <= j < |rs| && st(rs[j]).Returned? && st(rs[j]).rc != 0;
      assert rcs[j].Some? && rcs[j].value != 0;
    }
  }

  /** The collected codes contain a failure exactly when some runner of the
      plan returned a non-zero code; the None slot of a missing product never
      counts as one. */
  lemma CollectedFailure(a: Args, st: Runner -> Step)
    ensures SomeFailed(InitialRcs(a) + RcsOf(Plan(a), st)) <==>
              exists j | 0 <= j < |Plan(a)| :: st(Plan(a)[j]).Returned? && st(Plan(a)[j]).rc != 0
  {
    var tail := RcsOf(Plan(a), st);
    var rcs := InitialRcs(a) + tail;
    SomeFailedRcsOf(Plan(a), st);
    if Selected(a).None? {
      assert SomeFailed(tail) ==> SomeFailed(rcs) by {
        if SomeFailed(tail) {
          var i :| 0 <= i < |tail| && tail[i].Some? && tail[i].value != 0;
          assert rcs[i + 1] == tail[i];
        }
      }
      assert SomeFailed(rcs) ==> SomeFailed(tail) by {
        if SomeFailed(rcs) {
          var i :| 0 <= i < |rcs| && rcs[i].Some? && rcs[i].value != 0;
          assert tail[i - 1] == rcs[i];
        }
      }
    } else {
      assert rcs == tail;
    }
  }

  /** How `test` ends, over all inputs, when the runners stop the process only
      for a missing image or serviced repository: never with "No tests were
      specified."; with a runner's halt exactly when some runner of the plan
      stops the process; with "Some tests failed." exactly when every runner
      returns and one of them returns a non-zero code; normally exactly when
      every runner of the plan returns 0. */
  lemma DriveVerdict(a: Args, st: Runner -> Step)
    requires forall r | st(r).Halted? :: IsRunnerHalt(st(r).why)
    ensures Drive(a, st).outcome != Exited(NoTests)
    ensures (Drive(a, st).outcome.Exited? && IsRunnerHalt(Drive(a, st).outcome.why)) <==>
              exists j | 0 <= j < |Plan(a)| :: st(Plan(a)[j]).Halted?
    ensures Drive(a, st).outcome == Exited(TestsFailed) <==>
              && (forall j | 0 <= j < |Plan(a)| :: st(Plan(a)[j]).Returned?)
              && exists j | 0 <= j < |Plan(a)| :: st(Plan(a)[j]).Returned? && st(Plan(a)[j]).rc != 0
    ensures Drive(a, st).outcome == Completed <==>
              forall j | 0 <= j < |Plan(a)| :: st(Plan(a)[j]) == Returned(0)
  {
    var plan := Plan(a);
    var k := FirstIndex(plan, Halting(st));
    if k < |plan| {
      assert forall j | 0 <= j < k :: !Halting(st)(plan[j]);
      DriveStops(a, st, k);
      assert !(st(plan[k]) == Returned(0));
    } else {
      assert forall j | 0 <= j < |plan| :: !Halting(st)(plan[j]);
      DriveCompletes(a, st);
      CollectedFailure(a, st);
    }
  }

  /** No flag at all: nothing runs, rcs is the single None slot, and `test`
      returns normally. */
  lemma NoFlagsCompletes(a: Args, st: Runner -> Step)
    requires !a.devimg && !a.resmgr && !a.ucspm && !a.nfvimon && !a.core && !a.zp
    requires !a.zepUnit && !a.zepIntegration && !a.servicedUnit && !a.servicedSmoke
    ensures Plan(a) == []
    ensures Drive(a, st) == Report(Completed, [None], [])
  {
    SelectedCases(a);
    assert !SomeFailed([None]);
  }
}
