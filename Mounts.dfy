/** The volume mounts of the containerised runners: host path to container
    path. A mount map is written in the source as a dict literal followed by
    item assignments, so a host path that occurs twice keeps the container
    path of its last occurrence. */
module Mounts {
  import opened Types

  /** One `host: container` entry, in the order the source writes it. */
  datatype Mount = Mount(host: string, container: string)

  /** The dict that a sequence of entries builds when each one is stored in
      turn: the last entry for a host wins. */
  function LastWins(entries: seq<Mount>): map<string, string>
    decreases |entries|
  {
    if |entries| == 0 then map[]
    else
      var last := entries[|entries| - 1];
      LastWins(entries[..|entries| - 1])[last.host := last.container]
  }

  /** The hosts the entries name. */
  function Hosts(entries: seq<Mount>): set<string>
  {
    set i | 0 <= i < |entries| :: entries[i].host
  }

  /** The map has exactly one key per distinct host of the entries. */
  lemma {:induction false} LastWinsKeys(entries: seq<Mount>)
    ensures LastWins(entries).Keys == Hosts(entries)
    decreases |entries|
  {
    if |entries| > 0 {
      var init := entries[..|entries| - 1];
      LastWinsKeys(init);
      assert Hosts(entries) == Hosts(init) + {entries[|entries| - 1].host} by {
        forall h | h in Hosts(entries) ensures h in Hosts(init) + {entries[|entries| - 1].host} {
          var i :| 0 <= i < |entries| && entries[i].host == h;
          if i < |entries| - 1 {
            assert init[i] == entries[i];
          }
        }
        forall h | h in Hosts(init) ensures h in Hosts(entries) {
          var i :| 0 <= i < |init| && init[i].host == h;
          assert entries[i] == init[i];
        }
      }
    }
  }

  /** A host keeps the container path of its last entry. */
  lemma {:induction false} LastWinsValue(entries: seq<Mount>, i: nat)
    requires i < |entries|
    requires forall j | i < j < |entries| :: entries[j].host != entries[i].host
    ensures entries[i].host in LastWins(entries)
    ensures LastWins(entries)[entries[i].host] == entries[i].container
    decreases |entries|
  {
    if i < |entries| - 1 {
      var init := entries[..|entries| - 1];
      assert init[i] == entries[i];
      LastWinsValue(init, i);
    }
  }

  /** A map never has more keys than there were entries, and has exactly as
      many when no host repeats. */
  lemma {:induction false} LastWinsSize(entries: seq<Mount>)
    ensures |LastWins(entries)| <= |entries|
    ensures (forall i, j | 0 <= i < j < |entries| :: entries[i].host != entries[j].host) ==>
              |LastWins(entries)| == |entries|
    decreases |entries|
  {
    if |entries| > 0 {
      var init := entries[..|entries| - 1];
      var last := entries[|entries| - 1];
      LastWinsSize(init);
      if forall i, j | 0 <= i < j < |entries| :: entries[i].host != entries[j].host {
        assert forall i, j | 0 <= i < j < |init| :: init[i].host != init[j].host by {
          forall i, j | 0 <= i < j < |init| ensures init[i].host != init[j].host {
            assert init[i] == entries[i] && init[j] == entries[j];
          }
        }
        LastWinsKeys(init);
        assert last.host !in Hosts(init) by {
          forall k | 0 <= k < |init| ensures init[k].host != last.host {
            assert init[k] == entries[k];
          }
        }
      }
    }
  }

  /** os.path.join(a, b) for a relative b: b is appended after a separator
      unless a is empty or already ends in one. The result starts with a and
      ends with b; a non-empty a is separated from b by exactly one '/' that
      was not already there, or by its own trailing one; so joining a
      non-empty b never gives back a itself (HOME/.m2 is never the HOME key). */
  function PathJoin(a: string, b: string): (r: string)
    requires b == "" || b[0] != '/'
    ensures |a| <= |r| && r[..|a|] == a
    ensures EndsWith(r, b)
    ensures |r| == |a| + |b| || |r| == |a| + |b| + 1
    ensures a != "" ==> r[|r| - |b| - 1] == '/'
    ensures |r| == |a| + |b| + 1 <==> a != "" && a[|a| - 1] != '/'
    ensures b != "" ==> r != a
  {
    if a == "" || a[|a| - 1] == '/' then a + b else a + "/" + b
  }

  /** The mounts zen_image_tests writes, in order; ZENHOME only for the
      devimg product. */
  function ZenImageEntries(env: Environment, product: string): seq<Mount>
  {
    [ Mount(env.srcRoot, "/mnt/src"),
      Mount(env.buildRoot, "/mnt/build"),
      Mount(env.home, "/home/zenoss/.m2"),
      Mount(env.varZenoss, "/var/zenoss") ]
    + (if product == "devimg" then [Mount(env.zenHome, "/opt/zenoss")] else [])
  }

  /** The mounts zep_tests writes, in order. */
  function ZepEntries(env: Environment): seq<Mount>
  {
    [ Mount(env.srcRoot, "/mnt/src"),
      Mount(env.buildRoot, "/mnt/build"),
      Mount(PathJoin(env.home, ".m2"), "/home/zenoss/.m2"),
      Mount(env.zenHome, "/opt/zenoss") ]
  }

  function ZenImageMounts(env: Environment, product: string): map<string, string>
  {
    LastWins(ZenImageEntries(env, product))
  }

  function ZepMounts(env: Environment): map<string, string>
  {
    LastWins(ZepEntries(env))
  }

  /** Storing one more entry updates the map built so far. */
  lemma LastWinsSnoc(entries: seq<Mount>, e: Mount)
    ensures LastWins(entries + [e]) == LastWins(entries)[e.host := e.container]
  {
    assert (entries + [e])[..|entries|] == entries;
  }

  /** The map of four entries is the dict literal that writes them. */
  lemma LastWinsFour(a: Mount, b: Mount, c: Mount, d: Mount)
    ensures LastWins([a, b, c, d]) ==
              map[a.host := a.container, b.host := b.container, c.host := c.container, d.host := d.container]
  {
    LastWinsSnoc([], a);
    assert [a] + [b] == [a, b];
    LastWinsSnoc([a], b);
    assert [a, b] + [c] == [a, b, c];
    LastWinsSnoc([a, b], c);
    assert [a, b, c] + [d] == [a, b, c, d];
    LastWinsSnoc([a, b, c], d);
  }

  /** zen_image_tests' dict literal, with ZENHOME stored on top for devimg. */
  lemma ZenImageMountsLiteral(env: Environment, product: string)
    ensures ZenImageMounts(env, product) ==
              var base := map[env.srcRoot := "/mnt/src", env.buildRoot := "/mnt/build",
                               env.home := "/home/zenoss/.m2", env.varZenoss := "/var/zenoss"];
              if product == "devimg" then base[env.zenHome := "/opt/zenoss"] else base
  {
    var base := [Mount(env.srcRoot, "/mnt/src"), Mount(env.buildRoot, "/mnt/build"),
                 Mount(env.home, "/home/zenoss/.m2"), Mount(env.varZenoss, "/var/zenoss")];
    LastWinsFour(base[0], base[1], base[2], base[3]);
    if product == "devimg" {
      LastWinsSnoc(base, Mount(env.zenHome, "/opt/zenoss"));
    } else {
      assert ZenImageEntries(env, product) == base;
    }
  }

  /** zep_tests' dict literal with HOME/.m2 and then ZENHOME stored on top. */
  lemma ZepMountsLiteral(env: Environment)
    ensures ZepMounts(env) ==
              map[env.srcRoot := "/mnt/src", env.buildRoot := "/mnt/build"]
                [PathJoin(env.home, ".m2") := "/home/zenoss/.m2"][env.zenHome := "/opt/zenoss"]
  {
    var e := ZepEntries(env);
    LastWinsFour(e[0], e[1], e[2], e[3]);
  }

  /** The hosts zen_image_tests mounts are SRCROOT, the build root, HOME and
      the runtime-state directory, plus ZENHOME exactly for devimg; there are
      never more keys than entries. */
  lemma ZenImageMountsKeys(env: Environment, product: string)
    ensures ZenImageMounts(env, product).Keys ==
              {env.srcRoot, env.buildRoot, env.home, env.varZenoss}
              + (if product == "devimg" then {env.zenHome} else {})
    ensures |ZenImageMounts(env, product)| <= |ZenImageEntries(env, product)|
  {
    ZenImageMountsLiteral(env, product);
    LastWinsSize(ZenImageEntries(env, product));
  }

  /** The devimg map is the map of any other product with ZENHOME stored on
      top of it. */
  lemma DevimgMountsExtend(env: Environment, other: string)
    requires other != "devimg"
    ensures ZenImageMounts(env, "devimg") == ZenImageMounts(env, other)[env.zenHome := "/opt/zenoss"]
  {
    var devimg := ZenImageEntries(env, "devimg");
    assert devimg[..|devimg| - 1] == ZenImageEntries(env, other);
  }

  /** The hosts zep_tests mounts are SRCROOT, the build root, HOME/.m2 and
      ZENHOME; ZENHOME always keeps /opt/zenoss, being written last. */
  lemma ZepMountsShape(env: Environment)
    ensures ZepMounts(env).Keys ==
              {env.srcRoot, env.buildRoot, PathJoin(env.home, ".m2"), env.zenHome}
    ensures ZepMounts(env)[env.zenHome] == "/opt/zenoss"
    ensures |ZepMounts(env)| <= 4
  {
    var entries := ZepEntries(env);
    LastWinsKeys(entries);
    LastWinsSize(entries);
    var expected := {env.srcRoot, env.buildRoot, PathJoin(env.home, ".m2"), env.zenHome};
    forall h | h in expected ensures h in Hosts(entries) {
      if h == env.srcRoot { assert entries[0].host == h; }
      else if h == env.buildRoot { assert entries[1].host == h; }
      else if h == PathJoin(env.home, ".m2") { assert entries[2].host == h; }
      else { assert entries[3].host == h; }
    }
    LastWinsValue(entries, 3);
  }
}
