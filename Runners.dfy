/** The target runners: zen_image_tests, zep_tests and serviced_tests. Each
    gives back its Step (the exit code it returns, or the stop of the process
    it causes) and, in order, the `make` and `docker run` processes it
    started. The `docker images` queries and the zendev_test image check are
    answered by the Oracle and are not recorded as calls. */
module Runners {
  import opened Types
  import opened Images
  import opened Mounts
  import opened Commands

  /** The image zen_image_tests builds and runs unless it runs devimg. */
  const TestImage := "zendev_test"

  /** The name a repository must end with to be the serviced checkout. */
  const ServicedSuffix := "control-center/serviced"

  /** `make devimg`, run in the build root. */
  function BuildCall(env: Environment): Call
  {
    Call(["make", "devimg"], Some(env.buildRoot))
  }

  /** zen_image_tests builds the test image exactly when the product is not
      devimg and it was not told to reuse an existing zendev_test image that is
      there. */
  predicate BuildRuns(a: Args, product: string, o: Oracle)
  {
    product != "devimg" && !(a.useExisting && o.zendevTestExists)
  }

  /** The image zen_image_tests runs, when it gets that far. */
  function ZenImageRef(env: Environment, product: string, o: Oracle): Option<string>
  {
    if product == "devimg" then ResolveDevimg(env.name, o) else Some(TestImage)
  }

  /** What zen_image_tests gives back. */
  function ZenImageStep(a: Args, env: Environment, product: string, o: Oracle): Step
  {
    if ZenImageRef(env, product, o).None? then Halted(MissingDevimg)
    else if BuildRuns(a, product, o) && o.buildRc > 0 then Returned(o.buildRc)
    else Returned(o.runRc(ZenImage(product)))
  }

  /** Taking `-t` out of the default flags leaves the --no-tty flags. */
  lemma RemoveTtyFlag()
    ensures RemoveFirst(ZenFlags(false), "-t") == ZenFlags(true)
  {
    var s := ZenFlags(false);
    assert s[1..][1..][1..][1..] == ["--rm"];
  }

  /** The `docker run` command of zen_image_tests, built token by token. */
  method ZenImageCommand(a: Args, mounts: map<string, string>, image: string) returns (cmd: seq<string>)
    ensures IsDockerRun(cmd, ZenFlags(a.noTty), mounts, image, ZenTail(a))
  {
    cmd := ["docker", "run", "-i", "-t", "--rm"];
    if a.noTty {
      RemoveTtyFlag();
      cmd := RemoveFirst(cmd, "-t");
    }
    assert cmd == ZenFlags(a.noTty);
    ghost var order;
    cmd, order := AppendVolumes(cmd, mounts);
    cmd := cmd + [image];
    ghost var prefix := cmd;
    if a.interactive {
      cmd := cmd + ["bash"];
    } else {
      cmd := cmd + ["/usr/bin/run_tests.sh"];
      if a.zp {
        cmd := cmd + ["zenpack"];
      }
      assert cmd == prefix + (["/usr/bin/run_tests.sh"] + (if a.zp then ["zenpack"] else []));
      cmd := cmd + Drop1(a.arguments);
    }
    assert cmd == prefix + ZenTail(a);
  }

  /** The `docker run` command of zep_tests, built token by token. */
  method ZepCommand(a: Args, mounts: map<string, string>, image: string) returns (cmd: seq<string>)
    ensures IsDockerRun(cmd, ZepFlags(), mounts, image, ZepTail(a))
  {
    cmd := ["docker", "run", "-t", "-i", "--rm"];
    ghost var order;
    cmd, order := AppendVolumes(cmd, mounts);
    cmd := cmd + [image];
    ghost var prefix := cmd;
    if a.interactive {
      cmd := cmd + ["bash"];
    } else {
      cmd := cmd + ["/usr/bin/run_tests.sh"];
      cmd := cmd + ["zep"];
      if a.zepIntegration {
        cmd := cmd + ["integration"];
      }
      ghost var mid := cmd;
      assert mid == prefix + (["/usr/bin/run_tests.sh", "zep"] + (if a.zepIntegration then ["integration"] else []));
      if a.zepUnit {
        cmd := cmd + ["unit"];
      }
      assert cmd == mid + (if a.zepUnit then ["unit"] else []);
      cmd := cmd + Drop1(a.arguments);
    }
    assert cmd == prefix + ZepTail(a);
  }

  /** zen_image_tests: for devimg, resolve the image and also mount ZENHOME;
      for any other product build zendev_test unless an existing one may be
      reused, and stop with the build's code when that code is positive; then
      run the tests in a container. */
  method ZenImageTests(a: Args, env: Environment, product: string, o: Oracle)
    returns (res: Step, calls: seq<Call>)
    ensures res == ZenImageStep(a, env, product, o)
    ensures res.Halted? ==> res.why == MissingDevimg && calls == []
    ensures BuildRuns(a, product, o) <==> |calls| > 0 && calls[0] == BuildCall(env)
    ensures BuildRuns(a, product, o) && o.buildRc > 0 ==> calls == [BuildCall(env)]
    ensures res.Returned? && !(BuildRuns(a, product, o) && o.buildRc > 0) ==>
              && |calls| == (if BuildRuns(a, product, o) then 2 else 1)
              && calls[|calls| - 1].cwd == None
              && IsDockerRun(calls[|calls| - 1].argv, ZenFlags(a.noTty), ZenImageMounts(env, product),
                             ZenImageRef(env, product, o).value, ZenTail(a))
  {
    var mounts := map[env.srcRoot := "/mnt/src",
                      env.buildRoot := "/mnt/build",
                      env.home := "/home/zenoss/.m2",
                      env.varZenoss := "/var/zenoss"];
    var image := TestImage;
    var runBuild := !a.useExisting || (a.useExisting && !o.zendevTestExists);
    calls := [];
    if product == "devimg" {
      var found := CheckDevimg(env.name, o);
      if found.None? {
        return Halted(MissingDevimg), calls;
      }
      image := found.value;
      mounts := mounts[env.zenHome := "/opt/zenoss"];
    } else if runBuild {
      calls := calls + [BuildCall(env)];
      var returnCode := o.buildRc;
      if returnCode > 0 {
        return Returned(returnCode), calls;
      }
    }
    ZenImageMountsLiteral(env, product);

    var cmd := ZenImageCommand(a, mounts, image);
    calls := calls + [Call(cmd, None)];
    res := Returned(o.runRc(ZenImage(product)));
  }

  /** What zep_tests gives back. */
  function ZepStep(env: Environment, o: Oracle): Step
  {
    if ResolveDevimg(env.name, o).None? then Halted(MissingDevimg) else Returned(o.runRc(Zep))
  }

  /** zep_tests: resolve the devimg image, mount the source, the build root,
      HOME/.m2 and ZENHOME, and run the ZEP tests in a container, always with a
      TTY. */
  method ZepTests(a: Args, env: Environment, o: Oracle) returns (res: Step, calls: seq<Call>)
    ensures res == ZepStep(env, o)
    ensures res.Halted? ==> res.why == MissingDevimg && calls == []
    ensures res.Returned? ==>
              && |calls| == 1
              && calls[0].cwd == None
              && IsDockerRun(calls[0].argv, ZepFlags(), ZepMounts(env),
                             ResolveDevimg(env.name, o).value, ZepTail(a))
  {
    var mounts := map[env.srcRoot := "/mnt/src", env.buildRoot := "/mnt/build"];
    var found := CheckDevimg(env.name, o);
    if found.None? {
      return Halted(MissingDevimg), [];
    }
    var image := found.value;
    mounts := mounts[PathJoin(env.home, ".m2") := "/home/zenoss/.m2"];
    mounts := mounts[env.zenHome := "/opt/zenoss"];
    ZepMountsLiteral(env);

    var cmd := ZepCommand(a, mounts, image);
    calls := [Call(cmd, None)];
    res := Returned(o.runRc(Zep));
  }

  /** Whether a repository is the serviced checkout. */
  predicate IsServiced(r: Repo)
  {
    EndsWith(r.name, ServicedSuffix)
  }

  /** The position of the first serviced repository, |repos| when there is none. */
  function FirstServiced(repos: seq<Repo>): nat
  {
    FirstIndex(repos, IsServiced)
  }

  /** What serviced_tests gives back. */
  function ServicedStep(env: Environment, smoke: bool, o: Oracle): Step
  {
    if FirstServiced(env.repos) == |env.repos| then Halted(NoServicedRepo)
    else Returned(o.runRc(Serviced(smoke)))
  }

  /** serviced_tests: in the first repository whose name ends with
      control-center/serviced, run `make smoketest` or `make test` followed by
      the trailing arguments; with no such repository the list index raises and
      the process stops. */
  method ServicedTests(a: Args, env: Environment, smoke: bool, o: Oracle)
    returns (res: Step, calls: seq<Call>)
    ensures res == ServicedStep(env, smoke, o)
    ensures res.Halted? <==> forall i | 0 <= i < |env.repos| :: !IsServiced(env.repos[i])
    ensures res.Halted? ==> res.why == NoServicedRepo && calls == []
    ensures res.Returned? ==>
              var k := FirstServiced(env.repos);
              calls == [Call(ServicedCommand(smoke, a.arguments), Some(env.repos[k].path))]
  {
    var k := FirstServiced(env.repos);
    if k == |env.repos| {
      return Halted(NoServicedRepo), [];
    }
    var repo := env.repos[k];
    var cmd := if smoke then ["make", "smoketest"] else ["make", "test"];
    cmd := cmd + Drop1(a.arguments);
    calls := [Call(cmd, Some(repo.path))];
    res := Returned(o.runRc(Serviced(smoke)));
  }
}
