/** The SysRole repository's id -> name helper. */
module SysRoleData {
  import opened Common
  import IdLookup

  /** The columns of a SysRole record the helper reads. */
  datatype SysRole = SysRole(id: string, name: string)

  function IdOf(r: SysRole): string { r.id }
  function NameOf(r: SysRole): string { r.name }

  /** `RoleIDToName`: role id -> role name, for the roles the store returns.
      `find` is the store's batch lookup by ids; `queried` is what it was asked, None when it was not called. */
  method RoleIdToName(roleIds: seq<string>, find: seq<string> -> Result<seq<SysRole>, Fault>)
    returns (resp: Result<map<string, string>, Fault>, queried: Option<seq<string>>)
    ensures queried.None? <==> forall x :: x in roleIds ==> x == ""
    ensures queried.Some? ==> queried.value == IdLookup.QueryIds(roleIds)
    ensures queried.None? ==> resp == Ok(map[])
    ensures queried.Some? && find(queried.value).Err? ==> resp == Err(find(queried.value).error)
    ensures queried.Some? && find(queried.value).Ok? ==>
              resp == Ok(IdLookup.NameMap(find(queried.value).value, IdOf, NameOf))
  {
    resp, queried := IdLookup.IdToName(roleIds, find, IdOf, NameOf);
  }
}
