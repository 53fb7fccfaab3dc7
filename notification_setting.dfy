/** The user notification settings endpoints: read the caller's settings,
    creating the default record on first read, and overwrite them from a
    request, keeping the do-not-disturb times the request leaves empty. */
module NotificationSetting {
  import opened Common
  import opened Condition

  /** A `user_notification_setting` row (timestamps left out). */
  datatype Setting = Setting(id: string, userId: string,
                             systemNotification: bool, activityNotification: bool, orderNotification: bool,
                             dndStartTime: string, dndEndTime: string)

  /** The row's columns as the store's query engine sees them. */
  function Columns(s: Setting): map<string, Value> {
    map["id" := Str(s.id), "user_id" := Str(s.userId),
        "system_notification" := Bool(s.systemNotification),
        "activity_notification" := Bool(s.activityNotification),
        "order_notification" := Bool(s.orderNotification),
        "dnd_start_time" := Str(s.dndStartTime), "dnd_end_time" := Str(s.dndEndTime)]
  }

  /** The rows a query selects, in store order. */
  function Found(rows: seq<Setting>, req: Req): (r: seq<Setting>)
    ensures forall s :: s in r <==> s in rows && Selects(req.query, Columns(s))
  {
    Filter(rows, (s: Setting) => Selects(req.query, Columns(s)))
  }

  /** Both endpoints look the settings up by one clause, `user_id EQ userId`. */
  function ByUser(userId: string): (req: Req)
    ensures req.query == [QueryParam("user_id", Str(userId), EQ, AND)]
  {
    Req(0, 0, [QueryParam("user_id", Str(userId), EQ, AND)], [])
  }

  /** The user lookup selects a row exactly when it belongs to the user. */
  lemma ByUserSelects(s: Setting, userId: string)
    ensures Selects(ByUser(userId).query, Columns(s)) <==> s.userId == userId
  {
    assert ByUser(userId).query[0] == QueryParam("user_id", Str(userId), EQ, AND);
  }

  /** Whether two rows agree on every named conflict column. */
  predicate SameOn(a: Setting, b: Setting, fields: seq<string>) {
    forall f :: f in fields ==> f in Columns(a) && f in Columns(b) && Columns(a)[f] == Columns(b)[f]
  }

  /** `UpsertOneByFields`: rows that agree with s on the conflict columns are
      overwritten by s; when there is none, s is appended. */
  function Upserted(rows: seq<Setting>, s: Setting, fields: seq<string>): (r: seq<Setting>)
    ensures (exists i :: 0 <= i < |rows| && SameOn(rows[i], s, fields)) ==>
              |r| == |rows| &&
              forall i :: 0 <= i < |rows| ==> r[i] == (if SameOn(rows[i], s, fields) then s else rows[i])
    ensures (forall i :: 0 <= i < |rows| ==> !SameOn(rows[i], s, fields)) ==> r == rows + [s]
  {
    if exists i :: 0 <= i < |rows| && SameOn(rows[i], s, fields)
    then seq(|rows|, i requires 0 <= i < |rows| => if SameOn(rows[i], s, fields) then s else rows[i])
    else rows + [s]
  }

  /** Conflict on `id` means equal ids. */
  lemma SameOnId(a: Setting, b: Setting)
    ensures SameOn(a, b, ["id"]) <==> a.id == b.id
  {
    assert "id" in ["id"];
  }

  predicate UniqueIds(rows: seq<Setting>) {
    forall i, j :: 0 <= i < |rows| && 0 <= j < |rows| && rows[i].id == rows[j].id ==> i == j
  }

  /** The settings store: its rows, the number of calls made so far, and the
      calls that fail (call number -> fault). A failing call changes no row. */
  class SettingRepo {
    var rows: seq<Setting>
    var calls: nat
    const faults: map<nat, Fault>

    constructor(rows0: seq<Setting>, faults0: map<nat, Fault>)
      ensures rows == rows0 && calls == 0 && faults == faults0
    {
      rows := rows0;
      calls := 0;
      faults := faults0;
    }

    method FindMultiByCondition(req: Req) returns (r: Result<seq<Setting>, Fault>)
      modifies this`calls
      ensures calls == old(calls) + 1
      ensures old(calls) in faults ==> r == Err(faults[old(calls)])
      ensures old(calls) !in faults ==> r == Ok(Found(rows, req))
    {
      if calls in faults {
        r := Err(faults[calls]);
      } else {
        r := Ok(Found(rows, req));
      }
      calls := calls + 1;
    }

    method CreateOne(s: Setting) returns (err: Option<Fault>)
      modifies this
      ensures calls == old(calls) + 1
      ensures old(calls) in faults ==> err == Some(faults[old(calls)]) && rows == old(rows)
      ensures old(calls) !in faults ==> err == None && rows == old(rows) + [s]
    {
      if calls in faults {
        err := Some(faults[calls]);
      } else {
        err := None;
        rows := rows + [s];
      }
      calls := calls + 1;
    }

    method UpsertOneByFields(s: Setting, fields: seq<string>) returns (err: Option<Fault>)
      modifies this
      ensures calls == old(calls) + 1
      ensures old(calls) in faults ==> err == Some(faults[old(calls)]) && rows == old(rows)
      ensures old(calls) !in faults ==> err == None && rows == Upserted(old(rows), s, fields)
    {
      if calls in faults {
        err := Some(faults[calls]);
      } else {
        err := None;
        rows := Upserted(rows, s, fields);
      }
      calls := calls + 1;
    }
  }

  // ------------------------------------------------------------ reading

  /** `NotificationSettingsInfo` of the reply (timestamps left out). */
  datatype SettingsInfo = SettingsInfo(id: string, userId: string,
                                       systemNotification: bool, activityNotification: bool, orderNotification: bool,
                                       dndStartTime: string, dndEndTime: string)

  /** The reply copies every field of the row. */
  function InfoOf(s: Setting): (info: SettingsInfo)
    ensures info.id == s.id && info.userId == s.userId
    ensures info.systemNotification == s.systemNotification
    ensures info.activityNotification == s.activityNotification
    ensures info.orderNotification == s.orderNotification
    ensures info.dndStartTime == s.dndStartTime && info.dndEndTime == s.dndEndTime
  {
    SettingsInfo(s.id, s.userId, s.systemNotification, s.activityNotification, s.orderNotification,
                 s.dndStartTime, s.dndEndTime)
  }

  const DefaultDndStart: string := "22:00"
  const DefaultDndEnd: string := "08:00"

  /** The record created on a user's first read: every notification on, quiet
      hours 22:00-08:00. `id` is the freshly generated UUID. */
  function DefaultSetting(id: string, userId: string): (s: Setting)
    ensures s.id == id && s.userId == userId
    ensures s.systemNotification && s.activityNotification && s.orderNotification
    ensures s.dndStartTime == "22:00" && s.dndEndTime == "08:00"
  {
    Setting(id, userId, true, true, true, DefaultDndStart, DefaultDndEnd)
  }

  /** `GetNotificationSettings` for the caller `userId`; `newId` is the UUID
      the generator hands out should a default record be needed. */
  method GetNotificationSettings(repo: SettingRepo, userId: string, newId: string)
    returns (r: Result<SettingsInfo, ServiceError>)
    modifies repo
    ensures var c := old(repo.calls);
            var found := Found(old(repo.rows), ByUser(userId));
            (c in repo.faults ==>
               r == Err(ServiceError(DataSQLError, Some(repo.faults[c]))) &&
               repo.rows == old(repo.rows) && repo.calls == c + 1) &&
            (c !in repo.faults && found != [] ==>
               r == Ok(InfoOf(found[0])) && repo.rows == old(repo.rows) && repo.calls == c + 1) &&
            (c !in repo.faults && found == [] && c + 1 in repo.faults ==>
               r == Err(ServiceError(DataSQLError, Some(repo.faults[c + 1]))) &&
               repo.rows == old(repo.rows) && repo.calls == c + 2) &&
            (c !in repo.faults && found == [] && c + 1 !in repo.faults ==>
               r == Ok(InfoOf(DefaultSetting(newId, userId))) &&
               repo.rows == old(repo.rows) + [DefaultSetting(newId, userId)] && repo.calls == c + 2)
  {
    var settings := repo.FindMultiByCondition(ByUser(userId));
    if settings.Err? {
      return Err(ServiceError(DataSQLError, Some(settings.error)));
    }
    if |settings.value| == 0 {
      var defaultSettings := DefaultSetting(newId, userId);
      var err := repo.CreateOne(defaultSettings);
      if err.Some? {
        return Err(ServiceError(DataSQLError, Some(err.value)));
      }
      r := Ok(InfoOf(defaultSettings));
    } else {
      r := Ok(InfoOf(settings.value[0]));
    }
  }

  /** The first row of the user in store order heads the user's lookup. */
  lemma FoundFirst(rows: seq<Setting>, userId: string, k: nat)
    requires k < |rows| && rows[k].userId == userId
    requires forall j :: 0 <= j < k ==> rows[j].userId != userId
    ensures Found(rows, ByUser(userId)) != [] && Found(rows, ByUser(userId))[0] == rows[k]
  {
    var p := (s: Setting) => Selects(ByUser(userId).query, Columns(s));
    assert Found(rows, ByUser(userId)) == Filter(rows, p);
    forall j | 0 <= j < k ensures !p(rows[j]) {
      ByUserSelects(rows[j], userId);
    }
    ByUserSelects(rows[k], userId);
    FilterHead(rows, p, k);
  }

  /** When the user has a row, the lookup returns the user's first row first. */
  lemma FirstOfUser(rows: seq<Setting>, userId: string) returns (k: nat)
    requires exists s :: s in rows && s.userId == userId
    ensures Found(rows, ByUser(userId)) != []
    ensures k < |rows| && rows[k] == Found(rows, ByUser(userId))[0] && rows[k].userId == userId
    ensures forall j :: 0 <= j < k ==> rows[j].userId != userId
  {
    var s :| s in rows && s.userId == userId;
    var last :| 0 <= last < |rows| && rows[last] == s;
    k := 0;
    while rows[k].userId != userId
      invariant k <= last
      invariant forall j :: 0 <= j < k ==> rows[j].userId != userId
      decreases last - k
    {
      k := k + 1;
    }
    FoundFirst(rows, userId, k);
  }

  /** A second read after the default was created finds the default and
      writes nothing more: the lookup returns exactly that record. */
  lemma DefaultFoundNext(rows: seq<Setting>, userId: string, newId: string)
    requires Found(rows, ByUser(userId)) == []
    ensures Found(rows + [DefaultSetting(newId, userId)], ByUser(userId)) == [DefaultSetting(newId, userId)]
  {
    var d := DefaultSetting(newId, userId);
    var p := (s: Setting) => Selects(ByUser(userId).query, Columns(s));
    FilterAppend(rows, [d], p);
    ByUserSelects(d, userId);
    assert [d][1..] == [];
  }

  // ------------------------------------------------------------ updating

  /** `UpdateNotificationSettingsReq`. */
  datatype UpdateReq = UpdateReq(systemNotification: bool, activityNotification: bool, orderNotification: bool,
                                 dndStartTime: string, dndEndTime: string)

  datatype UpdateReply = UpdateReply

  /** The record after the request is applied: the three switches always take
      the request's values, a quiet-hours bound only when the request gives one. */
  function Merged(s: Setting, req: UpdateReq): (m: Setting)
    ensures m.id == s.id && m.userId == s.userId
    ensures m.systemNotification == req.systemNotification
    ensures m.activityNotification == req.activityNotification
    ensures m.orderNotification == req.orderNotification
    ensures m.dndStartTime == (if req.dndStartTime != "" then req.dndStartTime else s.dndStartTime)
    ensures m.dndEndTime == (if req.dndEndTime != "" then req.dndEndTime else s.dndEndTime)
  {
    var t := s.(systemNotification := req.systemNotification,
                activityNotification := req.activityNotification,
                orderNotification := req.orderNotification);
    var t := if req.dndStartTime != "" then t.(dndStartTime := req.dndStartTime) else t;
    if req.dndEndTime != "" then t.(dndEndTime := req.dndEndTime) else t
  }

  const SettingNotFound: string := "通知设置不存在"

  /** `UpdateNotificationSettings` for the caller `userId`. */
  method UpdateNotificationSettings(repo: SettingRepo, userId: string, req: UpdateReq)
    returns (r: Result<UpdateReply, ServiceError>)
    modifies repo
    ensures var c := old(repo.calls);
            var found := Found(old(repo.rows), ByUser(userId));
            (c in repo.faults ==>
               r == Err(ServiceError(DataSQLError, Some(repo.faults[c]))) &&
               repo.rows == old(repo.rows) && repo.calls == c + 1) &&
            (c !in repo.faults && found == [] ==>
               r == Err(ServiceError(DataRecordNotFound, Some(SettingNotFound))) &&
               repo.rows == old(repo.rows) && repo.calls == c + 1) &&
            (c !in repo.faults && found != [] && c + 1 in repo.faults ==>
               r == Err(ServiceError(DataSQLError, Some(repo.faults[c + 1]))) &&
               repo.rows == old(repo.rows) && repo.calls == c + 2) &&
            (c !in repo.faults && found != [] && c + 1 !in repo.faults ==>
               r == Ok(UpdateReply) &&
               repo.rows == Upserted(old(repo.rows), Merged(found[0], req), ["id"]) && repo.calls == c + 2)
  {
    var settings := repo.FindMultiByCondition(ByUser(userId));
    if settings.Err? {
      return Err(ServiceError(DataSQLError, Some(settings.error)));
    }
    if |settings.value| == 0 {
      return Err(ServiceError(DataRecordNotFound, Some(SettingNotFound)));
    }
    var setting := settings.value[0];
    setting := setting.(systemNotification := req.systemNotification);
    setting := setting.(activityNotification := req.activityNotification);
    setting := setting.(orderNotification := req.orderNotification);
    if req.dndStartTime != "" {
      setting := setting.(dndStartTime := req.dndStartTime);
    }
    if req.dndEndTime != "" {
      setting := setting.(dndEndTime := req.dndEndTime);
    }
    assert setting == Merged(settings.value[0], req);
    var err := repo.UpsertOneByFields(setting, ["id"]);
    if err.Some? {
      return Err(ServiceError(DataSQLError, Some(err.value)));
    }
    r := Ok(UpdateReply);
  }

  /** Upserting by id over rows with unique ids overwrites the one row with
      that id in place. */
  lemma UpsertAt(rows: seq<Setting>, k: nat, m: Setting)
    requires UniqueIds(rows) && k < |rows| && rows[k].id == m.id
    ensures Upserted(rows, m, ["id"]) == rows[k := m]
  {
    SameOnId(rows[k], m);
    forall i | 0 <= i < |rows| ensures SameOn(rows[i], m, ["id"]) <==> i == k {
      SameOnId(rows[i], m);
    }
  }

  /** Update is idempotent: after a successful update the user's first row
      is the merged record, merging the same request into it changes nothing,
      and upserting it again leaves the rows as they are. */
  lemma UpdateIdempotent(rows: seq<Setting>, userId: string, req: UpdateReq)
    requires UniqueIds(rows)
    requires Found(rows, ByUser(userId)) != []
    ensures var m := Merged(Found(rows, ByUser(userId))[0], req);
            var rows1 := Upserted(rows, m, ["id"]);
            Found(rows1, ByUser(userId)) != [] &&
            Found(rows1, ByUser(userId))[0] == m &&
            Merged(m, req) == m &&
            Upserted(rows1, m, ["id"]) == rows1
  {
    var found := Found(rows, ByUser(userId));
    assert found[0] in found;
    ByUserSelects(found[0], userId);
    var k := FirstOfUser(rows, userId);
    var m := Merged(found[0], req);
    UpsertAt(rows, k, m);
    var rows1 := rows[k := m];
    assert UniqueIds(rows1) by {
      assert forall i :: 0 <= i < |rows| ==> rows1[i].id == rows[i].id;
    }
    assert rows1[k] == m;
    assert forall j :: 0 <= j < k ==> rows1[j] == rows[j];
    FoundFirst(rows1, userId, k);
    UpsertAt(rows1, k, m);
    assert rows1[k := m] == rows1;
  }
}
