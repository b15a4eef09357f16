/** The argument vectors the runners execute: the `docker run` commands with
    their `-v host:container` pairs, and the `make` command of the serviced
    runner. */
module Commands {
  import opened Types

  /** The elements of a sequence are pairwise different. */
  predicate Distinct(s: seq<string>)
  {
    forall i, j | 0 <= i < j < |s| :: s[i] != s[j]
  }

  /** `order` lists every key exactly once: one of the orders in which a dict
      with these keys may be iterated. */
  predicate IsEnumeration(order: seq<string>, keys: set<string>)
  {
    && Distinct(order)
    && (forall i | 0 <= i < |order| :: order[i] in keys)
    && (forall k | k in keys :: k in order)
  }

  /** The text of one volume option, `"%s:%s" % (host, container)`. */
  function Volume(host: string, container: string): string
  {
    host + ":" + container
  }

  /** The `-v host:container` pairs for the keys of m, taken in the given order. */
  function VolumeArgs(order: seq<string>, m: map<string, string>): seq<string>
    requires forall i | 0 <= i < |order| :: order[i] in m
    decreases |order|
  {
    if |order| == 0 then []
    else
      var h := order[|order| - 1];
      VolumeArgs(order[..|order| - 1], m) + ["-v", Volume(h, m[h])]
  }

  /** The two tokens of the j-th volume pair of a command whose pairs start at base. */
  function Slot(cmd: seq<string>, base: nat, j: nat): seq<string>
    requires base + 2 * j + 2 <= |cmd|
  {
    cmd[base + 2 * j .. base + 2 * j + 2]
  }

  /** The pairs for an order of n keys take 2n tokens, the j-th pair being
      `-v` followed by the j-th key and its container path. */
  lemma {:induction false} VolumeArgsAt(order: seq<string>, m: map<string, string>, j: nat)
    requires forall i | 0 <= i < |order| :: order[i] in m
    requires j < |order|
    ensures |VolumeArgs(order, m)| == 2 * |order|
    ensures Slot(VolumeArgs(order, m), 0, j) == ["-v", Volume(order[j], m[order[j]])]
    decreases |order|
  {
    var init := order[..|order| - 1];
    if j < |order| - 1 {
      VolumeArgsAt(init, m, j);
      assert init[j] == order[j];
      assert Slot(VolumeArgs(order, m), 0, j) == Slot(VolumeArgs(init, m), 0, j);
    } else {
      VolumeArgsLength(init, m);
    }
  }

  lemma {:induction false} VolumeArgsLength(order: seq<string>, m: map<string, string>)
    requires forall i | 0 <= i < |order| :: order[i] in m
    ensures |VolumeArgs(order, m)| == 2 * |order|
    decreases |order|
  {
    if |order| > 0 {
      VolumeArgsLength(order[..|order| - 1], m);
    }
  }

  /** An enumeration of a set of keys has exactly as many elements as the set. */
  lemma {:induction false} EnumerationSize(order: seq<string>, keys: set<string>)
    requires IsEnumeration(order, keys)
    ensures |order| == |keys|
    decreases |order|
  {
    if |order| > 0 {
      var init := order[..|order| - 1];
      var last := order[|order| - 1];
      assert last !in init by {
        forall i | 0 <= i < |init| ensures init[i] != last {
          assert init[i] == order[i];
        }
      }
      assert IsEnumeration(init, keys - {last}) by {
        forall k | k in keys - {last} ensures k in init {
          var i :| 0 <= i < |order| && order[i] == k;
          assert i < |order| - 1;
          assert init[i] == k;
        }
      }
      EnumerationSize(init, keys - {last});
    } else {
      assert forall k | k in keys :: false;
      assert keys == {};
    }
  }

  /** Extends cmd with one `-v host:container` pair per key of mounts, visiting
      the keys in an order nothing constrains (Python 2 `dict.iteritems()`).
      The ghost `order` reports the order that was taken. */
  method AppendVolumes(cmd: seq<string>, mounts: map<string, string>)
    returns (out: seq<string>, ghost order: seq<string>)
    ensures IsEnumeration(order, mounts.Keys)
    ensures out == cmd + VolumeArgs(order, mounts)
  {
    out, order := cmd, [];
    var rest := mounts.Keys;
    while rest != {}
      invariant Distinct(order)
      invariant forall i | 0 <= i < |order| :: order[i] in mounts && order[i] !in rest
      invariant forall k | k in mounts.Keys :: k in rest || k in order
      invariant rest <= mounts.Keys
      invariant out == cmd + VolumeArgs(order, mounts)
      decreases |rest|
    {
      var host :| host in rest;
      out := out + ["-v", Volume(host, mounts[host])];
      order := order + [host];
      rest := rest - {host};
    }
  }

  /** cmd is `flags`, one volume pair per key of m in some order, the image,
      then `tail`. */
  ghost predicate IsDockerRun(cmd: seq<string>, flags: seq<string>, m: map<string, string>,
                              image: string, tail: seq<string>)
  {
    exists order | IsEnumeration(order, m.Keys) :: cmd == flags + VolumeArgs(order, m) + [image] + tail
  }

  /** A docker command of that shape has the flags first, then 2|m| tokens of
      volume pairs, then the image right after the last pair, then the tail. */
  lemma DockerRunLayout(cmd: seq<string>, flags: seq<string>, m: map<string, string>,
                        image: string, tail: seq<string>)
    requires IsDockerRun(cmd, flags, m, image, tail)
    ensures |cmd| == |flags| + 2 * |m| + 1 + |tail|
    ensures cmd[..|flags|] == flags
    ensures cmd[|flags| + 2 * |m|] == image
    ensures cmd[|flags| + 2 * |m| + 1..] == tail
  {
    var order :| IsEnumeration(order, m.Keys) && cmd == flags + VolumeArgs(order, m) + [image] + tail;
    EnumerationSize(order, m.Keys);
    VolumeArgsLength(order, m);
  }

  /** The j-th pair of flags + vs + rest, counted from the end of flags, is the
      j-th pair of vs. */
  lemma SlotOfConcat(flags: seq<string>, vs: seq<string>, rest: seq<string>, j: nat)
    requires 2 * j + 2 <= |vs|
    ensures |flags| + 2 * j + 2 <= |flags + vs + rest|
    ensures Slot(flags + vs + rest, |flags|, j) == Slot(vs, 0, j)
  {
    var cmd := flags + vs + rest;
    assert cmd[|flags| + 2 * j] == vs[2 * j];
    assert cmd[|flags| + 2 * j + 1] == vs[2 * j + 1];
  }

  /** Between the flags and the image there are exactly |m| volume pairs: each
      key of m has a pair, and each pair belongs to a key of m. */
  lemma DockerRunVolumes(cmd: seq<string>, flags: seq<string>, m: map<string, string>,
                         image: string, tail: seq<string>)
    requires IsDockerRun(cmd, flags, m, image, tail)
    ensures |cmd| == |flags| + 2 * |m| + 1 + |tail|
    ensures forall h | h in m :: exists j | 0 <= j < |m| :: Slot(cmd, |flags|, j) == ["-v", Volume(h, m[h])]
    ensures forall j | 0 <= j < |m| :: exists h | h in m :: Slot(cmd, |flags|, j) == ["-v", Volume(h, m[h])]
  {
    DockerRunLayout(cmd, flags, m, image, tail);
    var order :| IsEnumeration(order, m.Keys) && cmd == flags + VolumeArgs(order, m) + [image] + tail;
    EnumerationSize(order, m.Keys);
    var vs := VolumeArgs(order, m);
    forall j | 0 <= j < |m| ensures Slot(cmd, |flags|, j) == ["-v", Volume(order[j], m[order[j]])] {
      VolumeArgsAt(order, m, j);
      SlotOfConcat(flags, vs, [image] + tail, j);
      assert flags + vs + [image] + tail == flags + vs + ([image] + tail);
    }
    forall h | h in m ensures exists j | 0 <= j < |m| :: Slot(cmd, |flags|, j) == ["-v", Volume(h, m[h])] {
      var j :| 0 <= j < |order| && order[j] == h;
      assert Slot(cmd, |flags|, j) == ["-v", Volume(order[j], m[order[j]])];
    }
    forall j | 0 <= j < |m| ensures exists h | h in m :: Slot(cmd, |flags|, j) == ["-v", Volume(h, m[h])] {
      assert order[j] in m;
    }
  }

  /** Python's `list.remove(x)` when x is present: the first occurrence of x
      is taken out and nothing else changes. Python raises ValueError for an
      absent x; the model gives the list back unchanged instead, a case the
      source never reaches. */
  function RemoveFirst(s: seq<string>, x: string): (r: seq<string>)
    ensures x !in s ==> r == s
    ensures x in s ==> r == s[..FirstIndex(s, Is(x))] + s[FirstIndex(s, Is(x)) + 1..]
  {
    if |s| == 0 then []
    else if s[0] == x then s[1..]
    else
      assert x in s ==> x in s[1..];
      [s[0]] + RemoveFirst(s[1..], x)
  }

  /** The flags zen_image_tests starts with: `-t` is dropped under --no-tty. */
  function ZenFlags(noTty: bool): seq<string>
  {
    if noTty then ["docker", "run", "-i", "--rm"] else ["docker", "run", "-i", "-t", "--rm"]
  }

  /** What zen_image_tests puts after the image. */
  function ZenTail(a: Args): seq<string>
  {
    if a.interactive then ["bash"]
    else ["/usr/bin/run_tests.sh"] + (if a.zp then ["zenpack"] else []) + Drop1(a.arguments)
  }

  /** The flags zep_tests starts with; --no-tty is not consulted. */
  function ZepFlags(): seq<string>
  {
    ["docker", "run", "-t", "-i", "--rm"]
  }

  /** What zep_tests puts after the image. */
  function ZepTail(a: Args): seq<string>
  {
    if a.interactive then ["bash"]
    else ["/usr/bin/run_tests.sh", "zep"]
         + (if a.zepIntegration then ["integration"] else [])
         + (if a.zepUnit then ["unit"] else [])
         + Drop1(a.arguments)
  }

  /** The make command serviced_tests runs. */
  function ServicedCommand(smoke: bool, arguments: seq<string>): seq<string>
  {
    (if smoke then ["make", "smoketest"] else ["make", "test"]) + Drop1(arguments)
  }
}
