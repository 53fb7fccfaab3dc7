/** The user repository's pure helpers: the default nickname derived from a
    phone number, and the user id -> nickname join. */
module UserData {
  import opened Common
  import IdLookup

  /** The columns of a user record the helpers read. */
  datatype User = User(id: string, nickname: string, phone: string)

  function IdOf(u: User): string { u.id }
  function NicknameOf(u: User): string { u.nickname }

  const NicknamePrefix: string := "用户"

  /** "用户" followed by the phone's last four characters. Slicing a phone
      shorter than four panics in the source, hence the precondition. */
  function GenerateNicknameByPhone(phone: string): (nick: string)
    requires |phone| >= 4
    ensures |nick| == |NicknamePrefix| + 4
    ensures nick[..|NicknamePrefix|] == NicknamePrefix
    ensures nick[|NicknamePrefix|..] == phone[|phone| - 4..]
  {
    NicknamePrefix + phone[|phone| - 4..]
  }

  /** Two phones get the same nickname exactly when their last four characters agree. */
  lemma NicknameDeterminesTail(p: string, q: string)
    requires |p| >= 4 && |q| >= 4
    ensures GenerateNicknameByPhone(p) == GenerateNicknameByPhone(q) <==> p[|p| - 4..] == q[|q| - 4..]
  {
  }

  /** `UserIDToNickname`: user id -> nickname for the users the store returns.
      `find` is the store's batch lookup by ids; `queried` is what it was asked, None when it was not called. */
  method UserIdToNickname(userIds: seq<string>, find: seq<string> -> Result<seq<User>, Fault>)
    returns (resp: Result<map<string, string>, Fault>, queried: Option<seq<string>>)
    ensures queried.None? <==> forall x :: x in userIds ==> x == ""
    ensures queried.Some? ==> queried.value == IdLookup.QueryIds(userIds)
    ensures queried.None? ==> resp == Ok(map[])
    ensures queried.Some? && find(queried.value).Err? ==> resp == Err(find(queried.value).error)
    ensures queried.Some? && find(queried.value).Ok? ==>
              resp == Ok(IdLookup.NameMap(find(queried.value).value, IdOf, NicknameOf))
  {
    resp, queried := IdLookup.IdToName(userIds, find, IdOf, NicknameOf);
  }
}
