/** The SysPost repository's id -> name helper. */
module SysPostData {
  import opened Common
  import IdLookup

  /** The columns of a SysPost record the helper reads. */
  datatype SysPost = SysPost(id: string, name: string)

  function IdOf(r: SysPost): string { r.id }
  function NameOf(r: SysPost): string { r.name }

  /** `PostIDToName`: post id -> post name, for the posts the store returns.
      `find` is the store's batch lookup by ids; `queried` is what it was asked, None when it was not called. */
  method PostIdToName(postIds: seq<string>, find: seq<string> -> Result<seq<SysPost>, Fault>)
    returns (resp: Result<map<string, string>, Fault>, queried: Option<seq<string>>)
    ensures queried.None? <==> forall x :: x in postIds ==> x == ""
    ensures queried.Some? ==> queried.value == IdLookup.QueryIds(postIds)
    ensures queried.None? ==> resp == Ok(map[])
    ensures queried.Some? && find(queried.value).Err? ==> resp == Err(find(queried.value).error)
    ensures queried.Some? && find(queried.value).Ok? ==>
              resp == Ok(IdLookup.NameMap(find(queried.value).value, IdOf, NameOf))
  {
    resp, queried := IdLookup.IdToName(postIds, find, IdOf, NameOf);
  }
}
