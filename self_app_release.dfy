/** `FindLatestByPlatform`: the newest published release of the app for a
    client platform, as the version-check endpoint reports it. */
module SelfAppRelease {
  import opened Common
  import opened Condition

  /** A `self_app_release` row (the columns the lookup reads). */
  datatype Release = Release(channel: string, version: string, changelog: string, packageUrl: string,
                             updateType: int, buildNum: int, status: int)

  function Columns(r: Release): map<string, Value> {
    map["channel" := Str(r.channel), "version" := Str(r.version), "changelog" := Str(r.changelog),
        "package_url" := Str(r.packageUrl), "update_type" := Int(r.updateType),
        "build_num" := Int(r.buildNum), "status" := Int(r.status)]
  }

  /** `AppReleaseInfo`. */
  datatype AppReleaseInfo = AppReleaseInfo(version: string, updateDesc: string, downloadUrl: string, forceUpdate: int)

  /** The release channel of a platform: "ios" for "ios", "android" for
      every other platform string. */
  function ChannelOf(platform: string): (channel: string)
    ensures channel == "ios" || channel == "android"
    ensures channel == "ios" <==> platform == "ios"
  {
    if platform == "ios" then "ios" else "android"
  }

  /** The query: published releases of the channel, highest build first,
      first page of one row. */
  function LatestQuery(platform: string): (q: Req)
    ensures q.query == [QueryParam("channel", Str(ChannelOf(platform)), EQ, AND),
                        QueryParam("status", Int(1), EQ, AND)]
    ensures q.order == [OrderParam("build_num", DESC)]
    ensures q.page == 1 && q.pageSize == 1
  {
    Req(1, 1, [QueryParam("channel", Str(ChannelOf(platform)), EQ, AND),
               QueryParam("status", Int(1), EQ, AND)],
        [OrderParam("build_num", DESC)])
  }

  /** What the query means: a release is a candidate exactly when it is
      published on the platform's channel. */
  lemma LatestQuerySelects(platform: string, r: Release)
    ensures Selects(LatestQuery(platform).query, Columns(r)) <==>
              r.channel == ChannelOf(platform) && r.status == 1
  {
    var q := LatestQuery(platform).query;
    assert Holds(q[0], Columns(r)) <==> r.channel == ChannelOf(platform);
    assert Holds(q[1], Columns(r)) <==> r.status == 1;
  }

  /** The force-update flag: 1 exactly for update type 1, otherwise 0. */
  function ForceUpdate(updateType: int): (flag: int)
    ensures flag == 0 || flag == 1
    ensures flag == 1 <==> updateType == 1
  {
    if updateType == 1 then 1 else 0
  }

  /** The lookup. `find` is the store's paged query. A store error comes back
      as is; no release gives None without error; otherwise the first row is
      reported. */
  function FindLatestByPlatform(platform: string, find: Req -> Result<seq<Release>, Fault>)
    : (r: Result<Option<AppReleaseInfo>, Fault>)
    ensures find(LatestQuery(platform)).Err? ==> r == Err(find(LatestQuery(platform)).error)
    ensures find(LatestQuery(platform)) == Ok([]) ==> r == Ok(None)
    ensures find(LatestQuery(platform)).Ok? && find(LatestQuery(platform)).value != [] ==>
              var rel := find(LatestQuery(platform)).value[0];
              r.Ok? && r.value.Some? &&
              r.value.value.version == rel.version &&
              r.value.value.updateDesc == rel.changelog &&
              r.value.value.downloadUrl == rel.packageUrl &&
              (r.value.value.forceUpdate == 1 <==> rel.updateType == 1) &&
              (r.value.value.forceUpdate == 0 <==> rel.updateType != 1)
  {
    var releases := find(LatestQuery(platform));
    if releases.Err? then Err(releases.error)
    else if |releases.value| == 0 then Ok(None)
    else
      var release := releases.value[0];
      Ok(Some(AppReleaseInfo(release.version, release.changelog, release.packageUrl, ForceUpdate(release.updateType))))
  }
}
