/** Image resolution: which devimg image a runner uses. */
module Images {
  import opened Types

  /** The reference of the devimg image with a given tag. */
  function DevimgRef(tag: string): string
  {
    "zendev/devimg:" + tag
  }

  /** An image exists when `docker images -q` prints anything for it. */
  predicate ImageExists(o: Oracle, image: string)
  {
    o.imagesQuery(image) != ""
  }

  /** The image check_devimg settles on, or None when neither the
      environment's image nor the latest one exists. */
  function ResolveDevimg(envName: string, o: Oracle): Option<string>
  {
    if ImageExists(o, DevimgRef(envName)) then Some(DevimgRef(envName))
    else if ImageExists(o, DevimgRef("latest")) then Some(DevimgRef("latest"))
    else None
  }

  /** check_devimg: try the environment's tag, then `latest`; the first image
      that exists wins. None stands for the sys.exit(1) taken when neither
      exists. */
  method CheckDevimg(envName: string, o: Oracle) returns (r: Option<string>)
    ensures r == ResolveDevimg(envName, o)
    ensures ImageExists(o, DevimgRef(envName)) ==> r == Some(DevimgRef(envName))
    ensures (!ImageExists(o, DevimgRef(envName)) && ImageExists(o, DevimgRef("latest"))) ==>
              r == Some(DevimgRef("latest"))
    ensures r.None? <==> !ImageExists(o, DevimgRef(envName)) && !ImageExists(o, DevimgRef("latest"))
  {
    var tags := [envName, "latest"];
    for i := 0 to |tags|
      invariant forall j | 0 <= j < i :: !ImageExists(o, DevimgRef(tags[j]))
    {
      var devimg := DevimgRef(tags[i]);
      if ImageExists(o, devimg) {
        assert i == 1 ==> !ImageExists(o, DevimgRef(tags[0]));
        return Some(devimg);
      }
    }
    assert !ImageExists(o, DevimgRef(tags[0])) && !ImageExists(o, DevimgRef(tags[1]));
    return None;
  }
}
