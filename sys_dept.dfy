/** The SysDept repository's id -> name helper. */
module SysDeptData {
  import opened Common
  import IdLookup

  /** The columns of a SysDept record the helper reads. */
  datatype SysDept = SysDept(id: string, name: string)

  function IdOf(r: SysDept): string { r.id }
  function NameOf(r: SysDept): string { r.name }

  /** `DeptIDToName`: department id -> department name, for the departments the store returns.
      `find` is the store's batch lookup by ids; `queried` is what it was asked, None when it was not called. */
  method DeptIdToName(deptIds: seq<string>, find: seq<string> -> Result<seq<SysDept>, Fault>)
    returns (resp: Result<map<string, string>, Fault>, queried: Option<seq<string>>)
    ensures queried.None? <==> forall x :: x in deptIds ==> x == ""
    ensures queried.Some? ==> queried.value == IdLookup.QueryIds(deptIds)
    ensures queried.None? ==> resp == Ok(map[])
    ensures queried.Some? && find(queried.value).Err? ==> resp == Err(find(queried.value).error)
    ensures queried.Some? && find(queried.value).Ok? ==>
              resp == Ok(IdLookup.NameMap(find(queried.value).value, IdOf, NameOf))
  {
    resp, queried := IdLookup.IdToName(deptIds, find, IdOf, NameOf);
  }
}
