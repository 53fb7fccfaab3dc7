/** The app's user store (`useUserStore`): the signed-in user's id, phone,
    nickname and avatar, with a default avatar, field-wise updates, a reset,
    and a fetch that maps the backend's `GetUserInfo` reply into the store. */
module UserStore {
  import opened Common

  /** What JavaScript's `Number(x)` yields, as far as the store looks at it. */
  datatype JsNumber = Finite(value: real) | NonFinite

  /** The `info` object of the `GetUserInfo` reply; every field may be missing. */
  datatype UserInfoData = UserInfoData(id: Option<string>, phone: Option<string>,
                                       nickname: Option<string>, avatar: Option<string>)

  /** The reply itself; `info` may be missing. */
  datatype GetUserInfoReply = GetUserInfoReply(info: Option<UserInfoData>)

  /** The contents of an `IUserInfoRes` object. */
  datatype UserFields = UserFields(userId: real, username: string, nickname: string, avatar: string)

  const DefaultAvatar: string := "/static/images/default-avatar.png"

  /** `userInfoState`: no user (-1), empty names, the default avatar. */
  const InitialState: UserFields := UserFields(-1.0, "", "", DefaultAvatar)

  /** Optional chaining with `??`: the field's value, or the fallback when it
      or the object holding it is missing. */
  function OrElse(v: Option<string>, fallback: string): (r: string)
    ensures v.Some? ==> r == v.value
    ensures v.None? ==> r == fallback
  {
    if v.Some? then v.value else fallback
  }

  /** `mapUserInfo`. `toNumber` is JavaScript's `Number` on the id string. */
  function MapUserInfo(reply: Option<GetUserInfoReply>, toNumber: string -> JsNumber): (u: UserFields)
    ensures var info := if reply.Some? then reply.value.info else None;
            (info.None? ==> u == UserFields(-1.0, "", "", "")) &&
            (info.Some? ==>
               u.username == OrElse(info.value.phone, "") &&
               u.nickname == OrElse(info.value.nickname, "") &&
               u.avatar == OrElse(info.value.avatar, "") &&
               (info.value.id.None? ==> u.userId == -1.0) &&
               (info.value.id.Some? && toNumber(info.value.id.value).NonFinite? ==> u.userId == -1.0) &&
               (info.value.id.Some? && toNumber(info.value.id.value).Finite? ==>
                  u.userId == toNumber(info.value.id.value).value))
  {
    var info := if reply.Some? then reply.value.info else None;
    var id := if info.Some? && info.value.id.Some? then toNumber(info.value.id.value) else Finite(-1.0);
    UserFields(if id.Finite? then id.value else -1.0,
               if info.Some? then OrElse(info.value.phone, "") else "",
               if info.Some? then OrElse(info.value.nickname, "") else "",
               if info.Some? then OrElse(info.value.avatar, "") else "")
  }

  /** The avatar rule of `setUserInfo`: an empty avatar becomes the default. */
  function WithDefaultAvatar(u: UserFields): (v: UserFields)
    ensures v.userId == u.userId && v.username == u.username && v.nickname == u.nickname
    ensures v.avatar != ""
    ensures u.avatar != "" ==> v.avatar == u.avatar
    ensures u.avatar == "" ==> v.avatar == DefaultAvatar
  {
    if u.avatar == "" then u.(avatar := DefaultAvatar) else u
  }

  /** An `IUserInfoRes` object; the store keeps a reference to one. */
  class UserInfoRes {
    var userId: real
    var username: string
    var nickname: string
    var avatar: string

    constructor(f: UserFields)
      ensures Fields() == f
    {
      userId := f.userId;
      username := f.username;
      nickname := f.nickname;
      avatar := f.avatar;
    }

    function Fields(): UserFields
      reads this
    {
      UserFields(userId, username, nickname, avatar)
    }
  }

  class Store {
    var userInfo: UserInfoRes

    /** The store starts from a copy of the initial state. */
    constructor()
      ensures fresh(userInfo) && userInfo.Fields() == InitialState
    {
      userInfo := new UserInfoRes(InitialState);
    }

    /** `setUserInfo`: applies the avatar rule to the caller's own object,
        then keeps a reference to that object. */
    method SetUserInfo(val: UserInfoRes)
      modifies this, val
      ensures userInfo == val
      ensures val.Fields() == WithDefaultAvatar(old(val.Fields()))
    {
      if val.avatar == "" {
        val.avatar := DefaultAvatar;
      }
      userInfo := val;
    }

    /** `setUserAvatar`: changes the avatar of the stored object only. */
    method SetUserAvatar(avatar: string)
      modifies userInfo
      ensures userInfo == old(userInfo)
      ensures userInfo.Fields() == old(userInfo.Fields()).(avatar := avatar)
    {
      userInfo.avatar := avatar;
    }

    /** `clearUserInfo`: a fresh copy of the initial state, so clearing twice
        leaves the same contents. */
    method ClearUserInfo()
      modifies this
      ensures fresh(userInfo) && userInfo.Fields() == InitialState
    {
      userInfo := new UserInfoRes(InitialState);
    }

    /** `fetchUserInfo`: maps the reply, stores it under the avatar rule and
        returns the very object the store now holds. `reply` is what the
        `GetUserInfo` request resolved to. */
    method FetchUserInfo(reply: Option<GetUserInfoReply>, toNumber: string -> JsNumber)
      returns (user: UserInfoRes)
      modifies this
      ensures fresh(user) && userInfo == user
      ensures user.Fields() == WithDefaultAvatar(MapUserInfo(reply, toNumber))
    {
      user := new UserInfoRes(MapUserInfo(reply, toNumber));
      SetUserInfo(user);
    }
  }
}
