# ai-boilerplate core, modelled in Dafny

This project models the parts of the ai-boilerplate backend and app that carry real logic. It proves what they promise.

- **Tag sync (`SyncWxGzhTag`)**: the centrepiece. It synchronises a WeChat official account's user tags into the local `wx_gzh_tag` table.
  - The remote tag list is authoritative.
  - The run splits tag ids into three sets: to create (remote only), to delete (local only) and to update (both).
  - It then issues one batch create, one delete by internal row ids, and one whole-row update per kept row, in that order.
  - The first store error ends the run.
  - The repository is a class holding the table and a log of calls. Any call may fail, and the failing call numbers are fixed up front. A failed call changes nothing.
  - `WxGzhTagSyncProofs` proves what a run does to the table:
    - the three sets partition the tag ids;
    - creates, deletes and updates hit exactly the right rows;
    - a fully successful run converges the account's tag ids to the remote ones and leaves other accounts alone;
    - a second run with the same remote list only rewrites rows. If the remote list has no repeated tag id, those rewrites change nothing.
- **Id-to-name joins**: `UserIDToNickname`, `ProductIDToProductName`, `DeptIDToName`, `PostIDToName` and `RoleIDToName`.
  - They drop empty ids and repeats, and skip the lookup when nothing is left.
  - Otherwise they map every returned record's id to its name.
  - All five share `IdLookup.IdToName`.
  - `GenerateNicknameByPhone` is modelled beside them.
- **Notification settings**:
  - `GetNotificationSettings` returns the caller's first record. On first use it creates the default record.
  - `UpdateNotificationSettings` merges a request into the first record and upserts it by `id`.
  - The settings store is a class with failing calls, as above.
- **Unread notifications (`GetSysNotifyMessageMyUnreadList`)**:
  - an in-place insertion sort, newest send time first;
  - the deduplicated sender and receiver ids;
  - the join with the admin records.
- **`CheckToken`**: validates a token's claims and extracts them.
- **`FindLatestByPlatform`**: the latest published app release for a platform.
- **`ListHelpFaqs`**: the FAQ page's query builder and result mapping.
- **The app's user store (`store/user.ts`)**: a class whose methods update the stored user object in place.

The ORM's query description (`condition.Req`) is modelled in module `Condition`. The ORM's query engine is not part of this model. `Condition.Selects` gives clauses their SQL meaning: `EQ` is equality, `LIKE` is pattern matching with `%`, `_` and backslash escapes, and clauses are joined by `AND`. Lemmas about the endpoints' queries (`ByUserSelects`, `LatestQuerySelects`, `FaqQuerySelects`) state which rows the queries select.

Unseen collaborators are parameters of function type. They include the account lookup, the official-account client, the JWT parser, the store lookups, the UUID generator's output and JavaScript's `Number`. A method that calls such a parameter reports the argument it passed (`queried`, `param`), so that its contract can say what was asked.

Facts about the tag sync that the model keeps as the code has them:
- a remote list with a repeated tag id is not rejected; the last name seen wins (`NameIndexLast`);
- an empty remote list deletes every local tag of the account;
- all deletes go out as a single call;
- the first failed write ends the run, and the writes of the later phases are not issued;
- a successful run replies with an empty message, without counts.

## Model

| member | source | states |
|---|---|---|
| WxGzhTagSync.ToInt32 | ai-boilerplate-backend/internal/service/admin_v1_wxgzhtag_syncwxgzhtag.go:32 | Go's `int32(v.ID)`: the identity on the int32 range, otherwise congruent to the input modulo 2^32 |
| WxGzhTagSync.RemoteTagRows | ai-boilerplate-backend/internal/service/admin_v1_wxgzhtag_syncwxgzhtag.go:28-38 | the loop yields, per remote tag in order, a row with the account's app id, the narrowed tag id and the tag name, and the list of those tag ids |
| WxGzhTagSync.TagIdsOf | ai-boilerplate-backend/internal/service/admin_v1_wxgzhtag_syncwxgzhtag.go:43-45 | one tag id per row, in order; its members are exactly the rows' tag ids |
| WxGzhTagSync.Diff | ai-boilerplate-backend/internal/service/admin_v1_wxgzhtag_syncwxgzhtag.go:46-49 | create = remote minus local, delete = local minus remote, update = both; the three are pairwise disjoint and together hold every tag id seen on either side |
| WxGzhTagSync.WithTagIdIn | ai-boilerplate-backend/internal/service/admin_v1_wxgzhtag_syncwxgzhtag.go:52-54 | the filter keeps exactly the rows whose tag id is in the key set |
| WxGzhTagSync.NameIndex | ai-boilerplate-backend/internal/service/admin_v1_wxgzhtag_syncwxgzhtag.go:82-85 | the tag id -> name map has exactly the remote tag ids as keys |
| WxGzhTagSyncProofs.NameIndexLast | ai-boilerplate-backend/internal/service/admin_v1_wxgzhtag_syncwxgzhtag.go:82-85 | for a repeated remote tag id the map holds the name of its last occurrence |
| WxGzhTagSync.FetchRemote | ai-boilerplate-backend/internal/service/admin_v1_wxgzhtag_syncwxgzhtag.go:14-27 | succeeds iff account lookup, client construction and tag listing all succeed; the first two fail with DataSQLError, the listing with APIThirdErr, each carrying its cause |
| WxGzhTagSync.TagRepo.FindMultiCacheByAppId | ai-boilerplate-backend/internal/service/admin_v1_wxgzhtag_syncwxgzhtag.go:39-42 | logs the call; returns the account's rows in table order, or the call's fault |
| WxGzhTagSync.TagRepo.CreateBatchCache | ai-boilerplate-backend/internal/service/admin_v1_wxgzhtag_syncwxgzhtag.go:56 | logs the call; on success appends the rows with fresh internal ids, on failure leaves the table as it was; the table stays valid |
| WxGzhTagSync.TagRepo.DeleteMultiCacheByIds | ai-boilerplate-backend/internal/service/admin_v1_wxgzhtag_syncwxgzhtag.go:71 | logs the call; on success removes the rows with the given internal ids, on failure changes nothing |
| WxGzhTagSync.TagRepo.UpdateOneCacheWithZero | ai-boilerplate-backend/internal/service/admin_v1_wxgzhtag_syncwxgzhtag.go:90 | logs the call with its pre-image; on success overwrites the row with the same internal id, on failure changes nothing |
| WxGzhTagSync.ApplyAllValid | ai-boilerplate-backend/internal/service/admin_v1_wxgzhtag_syncwxgzhtag.go:56-90 | any sequence of successful store calls keeps internal ids a key, rows distinct and ids below the next free id |
| WxGzhTagSync.IssuedStop | ai-boilerplate-backend/internal/service/admin_v1_wxgzhtag_syncwxgzhtag.go:57-59 | once a call fails, the calls that would follow are not issued and the table and log stay as they were |
| WxGzhTagSync.IssuedAll | ai-boilerplate-backend/internal/service/admin_v1_wxgzhtag_syncwxgzhtag.go:50-96 | when no call fails, the log gained every call and the table holds the effect of all of them |
| WxGzhTagSync.IssuedFailedLast | ai-boilerplate-backend/internal/service/admin_v1_wxgzhtag_syncwxgzhtag.go:57-59 | when a call fails, the log gained at least one and at most all of the calls, the failed call is the last logged, and its fault is the one reported |
| WxGzhTagSync.IssuedThen | ai-boilerplate-backend/internal/service/admin_v1_wxgzhtag_syncwxgzhtag.go:50-96 | issuing one list of calls without failure and then another is issuing their concatenation |
| WxGzhTagSync.CreateTags | ai-boilerplate-backend/internal/service/admin_v1_wxgzhtag_syncwxgzhtag.go:50-61 | issues exactly the create phase (no call when the set or the filtered rows are empty), stopping at a failure |
| WxGzhTagSync.DeleteTags | ai-boilerplate-backend/internal/service/admin_v1_wxgzhtag_syncwxgzhtag.go:62-76 | issues exactly the delete phase, by internal ids, stopping at a failure |
| WxGzhTagSync.UpdateTags | ai-boilerplate-backend/internal/service/admin_v1_wxgzhtag_syncwxgzhtag.go:77-96 | builds the name index in a loop, then issues one update per kept local row in order, stopping at the first failure |
| WxGzhTagSync.Renamed | ai-boilerplate-backend/internal/service/admin_v1_wxgzhtag_syncwxgzhtag.go:88-89 | the copied row keeps its internal id, app id and tag id; its name is the index's name for the tag id, "" when the index lacks it |
| WxGzhTagSync.CreatePhase | ai-boilerplate-backend/internal/service/admin_v1_wxgzhtag_syncwxgzhtag.go:50-61 | at most one call, a batch of size 100 holding exactly the remote rows whose tag id is to be created |
| WxGzhTagSync.DeletePhase | ai-boilerplate-backend/internal/service/admin_v1_wxgzhtag_syncwxgzhtag.go:62-76 | at most one call, a delete by internal ids |
| WxGzhTagSync.UpdatePhase | ai-boilerplate-backend/internal/service/admin_v1_wxgzhtag_syncwxgzhtag.go:77-96 | at most one call per local row; each updates a local row whose tag id is kept, renamed from the remote names |
| WxGzhTagSync.Plan | ai-boilerplate-backend/internal/service/admin_v1_wxgzhtag_syncwxgzhtag.go:50-96 | a run writes at most one create, one delete and one update per local row |
| WxGzhTagSync.WriteDiff | ai-boilerplate-backend/internal/service/admin_v1_wxgzhtag_syncwxgzhtag.go:50-96 | the writes issued are the plan (create, delete, update phases) up to and including the first failed call; the table holds the effect of the successful ones |
| WxGzhTagSync.SyncWxGzhTag | ai-boilerplate-backend/internal/service/admin_v1_wxgzhtag_syncwxgzhtag.go:12-98 | a failure before the local read returns its error with no store call; a failed local read returns DataSQLError with no write; otherwise the plan is issued up to the first failed write, which ends the run with DataSQLError carrying the store's fault; the reply is Ok exactly when every write succeeded |
| WxGzhTagSyncProofs.DiffOf | ai-boilerplate-backend/internal/service/admin_v1_wxgzhtag_syncwxgzhtag.go:43-49 | the run's three sets are the set differences and intersection of the remote and local tag ids |
| WxGzhTagSyncProofs.PlanOrder | ai-boilerplate-backend/internal/service/admin_v1_wxgzhtag_syncwxgzhtag.go:50-96 | the plan creates, then deletes, then updates; it holds at most one create and one delete and never reads |
| WxGzhTagSyncProofs.PlanCreates | ai-boilerplate-backend/internal/service/admin_v1_wxgzhtag_syncwxgzhtag.go:51-61 | a create is planned iff some remote tag id is missing locally; it inserts exactly those remote rows, with batch size 100 |
| WxGzhTagSyncProofs.PlanDeletes | ai-boilerplate-backend/internal/service/admin_v1_wxgzhtag_syncwxgzhtag.go:62-76 | a delete is planned iff some local row's tag id is gone remotely; it names exactly those rows' internal ids |
| WxGzhTagSyncProofs.PlanUpdates | ai-boilerplate-backend/internal/service/admin_v1_wxgzhtag_syncwxgzhtag.go:77-96 | every local row whose tag id is remote gets an update, even if its name is unchanged; each update's pre-image is a local row and the new row differs from it only in the name, taken from the index; with distinct local rows no row is updated twice |
| WxGzhTagSyncProofs.UpdateCallsEffect | ai-boilerplate-backend/internal/service/admin_v1_wxgzhtag_syncwxgzhtag.go:86-94 | the per-row updates rename, in place, exactly the table rows with those internal ids |
| WxGzhTagSyncProofs.CreateEffect | ai-boilerplate-backend/internal/service/admin_v1_wxgzhtag_syncwxgzhtag.go:51-61 | after the create phase the old rows remain and every new row is a remote row with a missing tag id and a fresh internal id |
| WxGzhTagSyncProofs.DeleteEffect | ai-boilerplate-backend/internal/service/admin_v1_wxgzhtag_syncwxgzhtag.go:62-76 | after the delete phase the rows are exactly the previous rows less the local rows whose tag id is gone remotely |
| WxGzhTagSyncProofs.UpdateEffect | ai-boilerplate-backend/internal/service/admin_v1_wxgzhtag_syncwxgzhtag.go:77-96 | after the update phase the table is the previous one with the kept local rows renamed from the index |
| WxGzhTagSyncProofs.OtherAccountsUntouched | ai-boilerplate-backend/internal/service/admin_v1_wxgzhtag_syncwxgzhtag.go:39-96 | a fully successful run leaves every row of other accounts as it was |
| WxGzhTagSyncProofs.KeptRowsRenamed | ai-boilerplate-backend/internal/service/admin_v1_wxgzhtag_syncwxgzhtag.go:78-94 | after a fully successful run every kept local row is present with the remote name |
| WxGzhTagSyncProofs.MissingTagsCreated | ai-boilerplate-backend/internal/service/admin_v1_wxgzhtag_syncwxgzhtag.go:51-61 | after a fully successful run every remote tag missing locally has a row with a fresh internal id |
| WxGzhTagSyncProofs.AccountRowsAccounted | ai-boilerplate-backend/internal/service/admin_v1_wxgzhtag_syncwxgzhtag.go:43-96 | after a fully successful run every row of the account is a renamed kept row or a newly created remote row |
| WxGzhTagSyncProofs.Converges | ai-boilerplate-backend/internal/service/admin_v1_wxgzhtag_syncwxgzhtag.go:43-96 | the four facts above together: the account's rows are in step with the remote list |
| WxGzhTagSyncProofs.ConvergesOnTagIds | ai-boilerplate-backend/internal/service/admin_v1_wxgzhtag_syncwxgzhtag.go:43-96 | after a fully successful run the account's tag ids are exactly the remote tag ids |
| WxGzhTagSyncProofs.SecondRunOnlyUpdates | ai-boilerplate-backend/internal/service/admin_v1_wxgzhtag_syncwxgzhtag.go:47-96 | a second run with the same remote list plans no create and no delete |
| WxGzhTagSyncProofs.SecondRunRewritesSame | ai-boilerplate-backend/internal/service/admin_v1_wxgzhtag_syncwxgzhtag.go:82-94 | when no remote tag id repeats, every update of a second run writes the row it read |
| Common.Uniq | ai-boilerplate-backend/internal/data/user.go:98 | `lo.Uniq`: no repeats, same members, never longer |
| Common.LastWinsAt | ai-boilerplate-backend/internal/data/user.go:106-108 | a map filled in a loop holds, for each key, the value of the key's last row |
| IdLookup.QueryIds | ai-boilerplate-backend/internal/data/user.go:95-98 | the ids handed to the lookup: no repeats, exactly the non-empty input ids, empty iff every input id is empty |
| IdLookup.QueryIdsOrderInsensitive | ai-boilerplate-backend/internal/data/user.go:95-98 | inputs with the same non-empty ids, in any order and with any repetition, query the same ids (as a multiset) |
| IdLookup.NameMapAt | ai-boilerplate-backend/internal/data/user.go:106-108 | a returned record whose id does not repeat later contributes exactly its own name |
| IdLookup.IdToName | ai-boilerplate-backend/internal/data/user.go:93-109 | no lookup and an empty map when no non-empty id is left; otherwise the lookup gets the cleaned ids, its error is returned as is, and its records give the id -> name map |
| UserData.GenerateNicknameByPhone | ai-boilerplate-backend/internal/data/user.go:43-45 | "用户" followed by the phone's last four characters |
| UserData.NicknameDeterminesTail | ai-boilerplate-backend/internal/data/user.go:43-45 | two phones get the same nickname iff their last four characters agree |
| UserData.UserIdToNickname | ai-boilerplate-backend/internal/data/user.go:93-109 | the join above with id -> nickname |
| MallProductData.ProductIdToProductName | ai-boilerplate-backend/internal/data/mallproduct.go:31-48 | the join above with id -> product name |
| SysDeptData.DeptIdToName | ai-boilerplate-backend/internal/data/sysdept.go:31-48 | the join above with id -> department name |
| SysPostData.PostIdToName | ai-boilerplate-backend/internal/data/syspost.go:30-47 | the join above with id -> post name |
| SysRoleData.RoleIdToName | ai-boilerplate-backend/internal/data/sysrole.go:30-47 | the join above with id -> role name |
| NotificationSetting.ByUserSelects | ai-boilerplate-backend/internal/service/app_v1_usernotificationsetting_getnotificationsettings.go:23-32 | the lookup selects a row iff it belongs to the caller |
| NotificationSetting.SameOnId | ai-boilerplate-backend/internal/service/app_v1_usernotificationsetting_updatenotificationsettings.go:55 | a conflict on the `id` column means equal ids |
| NotificationSetting.SettingRepo.FindMultiByCondition | ai-boilerplate-backend/internal/service/app_v1_usernotificationsetting_getnotificationsettings.go:34 | counts the call; returns the selected rows in store order, or the call's fault; changes no row |
| NotificationSetting.SettingRepo.CreateOne | ai-boilerplate-backend/internal/service/app_v1_usernotificationsetting_getnotificationsettings.go:51 | on success appends the record, on failure changes nothing |
| NotificationSetting.SettingRepo.UpsertOneByFields | ai-boilerplate-backend/internal/service/app_v1_usernotificationsetting_updatenotificationsettings.go:55 | on success overwrites the rows that conflict on the given columns, or appends when none does; on failure changes nothing |
| NotificationSetting.DefaultSetting | ai-boilerplate-backend/internal/service/app_v1_usernotificationsetting_getnotificationsettings.go:40-49 | the new id, the caller, all three notifications on, quiet hours "22:00" to "08:00" |
| NotificationSetting.InfoOf | ai-boilerplate-backend/internal/service/app_v1_usernotificationsetting_getnotificationsettings.go:56-79 | the reply copies every field of the record |
| NotificationSetting.GetNotificationSettings | ai-boilerplate-backend/internal/service/app_v1_usernotificationsetting_getnotificationsettings.go:16-83 | a lookup failure returns DataSQLError and writes nothing; an existing record is returned and nothing is written; otherwise exactly the default record is created and returned, or the create failure returns DataSQLError |
| NotificationSetting.FoundFirst | ai-boilerplate-backend/internal/service/app_v1_usernotificationsetting_getnotificationsettings.go:68 | the first record returned is the caller's first row in store order |
| NotificationSetting.FirstOfUser | ai-boilerplate-backend/internal/service/app_v1_usernotificationsetting_getnotificationsettings.go:67-68 | when the caller has a row, the lookup is non-empty and heads with the caller's first row |
| NotificationSetting.DefaultFoundNext | ai-boilerplate-backend/internal/service/app_v1_usernotificationsetting_getnotificationsettings.go:40-54 | after the default was created, the next lookup finds exactly that record, so a second read writes nothing |
| NotificationSetting.Merged | ai-boilerplate-backend/internal/service/app_v1_usernotificationsetting_updatenotificationsettings.go:42-52 | id and user kept; the three switches always take the request's values, false included; a quiet-hours bound changes only when the request gives a non-empty one |
| NotificationSetting.UpdateNotificationSettings | ai-boilerplate-backend/internal/service/app_v1_usernotificationsetting_updatenotificationsettings.go:14-61 | a lookup failure returns DataSQLError, no record returns DataRecordNotFound "通知设置不存在", both without a write; otherwise the first record merged with the request is upserted by id, or the upsert failure returns DataSQLError |
| NotificationSetting.UpsertAt | ai-boilerplate-backend/internal/service/app_v1_usernotificationsetting_updatenotificationsettings.go:55 | with unique ids, the upsert by id overwrites just the row with that id, in place |
| NotificationSetting.UpdateIdempotent | ai-boilerplate-backend/internal/service/app_v1_usernotificationsetting_updatenotificationsettings.go:42-58 | after an update the caller's first record is the merged one; applying the same request again merges to the same record and the upsert leaves the rows unchanged |
| SysNotifyMessage.Less | ai-boilerplate-backend/internal/service/admin_v1_sysnotifymessage_getsysnotifymessagemyunreadlist.go:30 | the comparator `<` on send times: never between equal strings, and a proper prefix is below the longer string |
| SysNotifyMessage.LessIsLexicographic | ai-boilerplate-backend/internal/service/admin_v1_sysnotifymessage_getsysnotifymessagemyunreadlist.go:30 | Go's string `<` is lexicographic order: a proper prefix, or a smaller character at the first difference |
| SysNotifyMessage.LessTransitive | ai-boilerplate-backend/internal/service/admin_v1_sysnotifymessage_getsysnotifymessagemyunreadlist.go:30 | the order is transitive |
| SysNotifyMessage.LessTotal | ai-boilerplate-backend/internal/service/admin_v1_sysnotifymessage_getsysnotifymessagemyunreadlist.go:30 | any two distinct strings are ordered one way or the other |
| SysNotifyMessage.LessIrreflexive | ai-boilerplate-backend/internal/service/admin_v1_sysnotifymessage_getsysnotifymessagemyunreadlist.go:30 | no string is below itself |
| SysNotifyMessage.InsertDesc | ai-boilerplate-backend/internal/service/admin_v1_sysnotifymessage_getsysnotifymessagemyunreadlist.go:29-31 | one insertion step in place: the first i+1 messages end up newest first, and the array is a permutation of before |
| SysNotifyMessage.SortBySendTimeDesc | ai-boilerplate-backend/internal/service/admin_v1_sysnotifymessage_getsysnotifymessagemyunreadlist.go:29-31 | sorts the array in place so that send times never increase, as a permutation of the input |
| SysNotifyMessage.SortUnread | ai-boilerplate-backend/internal/service/admin_v1_sysnotifymessage_getsysnotifymessagemyunreadlist.go:29-31 | the sorted list is newest first and a permutation of the unread list |
| SysNotifyMessage.Participants | ai-boilerplate-backend/internal/service/admin_v1_sysnotifymessage_getsysnotifymessagemyunreadlist.go:36-38 | two ids per message, and its members are exactly the messages' receivers and senders |
| SysNotifyMessage.CollectAdminIds | ai-boilerplate-backend/internal/service/admin_v1_sysnotifymessage_getsysnotifymessagemyunreadlist.go:33-38 | the loop collects receiver then sender of each message, in list order |
| SysNotifyMessage.AdminMaps | ai-boilerplate-backend/internal/service/admin_v1_sysnotifymessage_getsysnotifymessagemyunreadlist.go:44-47 | the loop builds the id -> nickname and id -> avatar maps, the last returned admin with an id winning |
| SysNotifyMessage.InfoOf | ai-boilerplate-backend/internal/service/admin_v1_sysnotifymessage_getsysnotifymessagemyunreadlist.go:49-64 | an entry copies the message's fields and takes the parties' names and avatars from the maps, "" when absent |
| SysNotifyMessage.BuildInfos | ai-boilerplate-backend/internal/service/admin_v1_sysnotifymessage_getsysnotifymessagemyunreadlist.go:48-65 | one entry per message, in list order |
| SysNotifyMessage.EnrichedMissing | ai-boilerplate-backend/internal/service/admin_v1_sysnotifymessage_getsysnotifymessagemyunreadlist.go:60-63 | a party the admin lookup did not return gets "" as name and avatar |
| SysNotifyMessage.EnrichedFound | ai-boilerplate-backend/internal/service/admin_v1_sysnotifymessage_getsysnotifymessagemyunreadlist.go:44-63 | a party the lookup returned gets the nickname and avatar of the last admin returned with that id |
| SysNotifyMessage.GetSysNotifyMessageMyUnreadList | ai-boilerplate-backend/internal/service/admin_v1_sysnotifymessage_getsysnotifymessagemyunreadlist.go:14-68 | reads the caller's messages with empty read time; a read error returns DataSQLError; no unread message returns an empty list without an admin lookup; otherwise the admin lookup gets the receivers and senders without repeats, its error returns DataSQLError, and the reply has one entry per message, newest first |
| CheckToken.TextClaim | ai-boilerplate-backend/internal/service/app_v1_user_checktoken.go:18 | a claim's text exactly when it is present and a string |
| CheckToken.CheckToken | ai-boilerplate-backend/internal/service/app_v1_user_checktoken.go:10-30 | a parse error gives TokenInvalidErr with the cause; success iff the `uid` claim is a non-empty string, otherwise TokenInvalidErr; on success the user id is the claim and each WeChat id is its claim when a string, otherwise "" |
| CheckToken.IssuedClaims | ai-boilerplate-backend/internal/data/user.go:70-74 | the ids `GenerateToken` passes to the JWT helper: exactly the keys "uid", "wxGzhUserId" and "wxGzhXcxId", each a string |
| CheckToken.IssuedTokenChecks | ai-boilerplate-backend/internal/service/app_v1_user_checktoken.go:10-30 | round trip: a token whose parsed claims hold the issued ids, beside any other claims the JWT helper adds (issuer, expiry), checks to the ids it was issued for, or to TokenInvalidErr when the user id is empty |
| SelfAppRelease.ChannelOf | ai-boilerplate-backend/internal/data/selfapprelease.go:40-44 | "ios" iff the platform is "ios", "android" for every other platform |
| SelfAppRelease.LatestQuery | ai-boilerplate-backend/internal/data/selfapprelease.go:46-56 | clauses channel EQ the channel and status EQ 1, order build_num descending, page 1 of size 1 |
| SelfAppRelease.LatestQuerySelects | ai-boilerplate-backend/internal/data/selfapprelease.go:46-56 | the query selects a release iff it is published on the platform's channel |
| SelfAppRelease.ForceUpdate | ai-boilerplate-backend/internal/data/selfapprelease.go:64-67 | 1 iff the update type is 1, otherwise 0 |
| SelfAppRelease.FindLatestByPlatform | ai-boilerplate-backend/internal/data/selfapprelease.go:39-74 | a query error is returned as is; no release gives none without error; otherwise the first release's version, changelog, package URL and force flag |
| HelpFaq.FaqQuery | ai-boilerplate-backend/internal/service/app_v1_helpfaq_listhelpfaqs.go:19-54 | page and size passed through, order_num ascending; status EQ 1 first, a category clause iff a category is given (second), a keyword LIKE clause iff a keyword is given (last), all AND |
| HelpFaq.FaqQuerySelects | ai-boilerplate-backend/internal/service/app_v1_helpfaq_listhelpfaqs.go:28-54 | a FAQ is selected iff enabled, in the category when one is given, and its question matches the keyword pattern when one is given |
| HelpFaq.FaqQueryKeyword | ai-boilerplate-backend/internal/service/app_v1_helpfaq_listhelpfaqs.go:47-54 | for a keyword without `%`, `_` or backslash the keyword clause is a substring search on the question |
| Condition.LikeContains | ai-boilerplate-backend/internal/service/app_v1_helpfaq_listhelpfaqs.go:50 | the pattern `"%" + w + "%"` matches a string iff w occurs in it, for w without LIKE special characters |
| Condition.WildcardKeyword | ai-boilerplate-backend/internal/service/app_v1_helpfaq_listhelpfaqs.go:50 | the keyword is not escaped: the keyword "_" selects the question "a", which does not contain it |
| HelpFaq.InfoOf | ai-boilerplate-backend/internal/service/app_v1_helpfaq_listhelpfaqs.go:64-77 | an entry copies every field of the row |
| HelpFaq.ListHelpFaqs | ai-boilerplate-backend/internal/service/app_v1_helpfaq_listhelpfaqs.go:12-81 | builds the query clause by clause; a store error returns DataSQLError with the cause; otherwise the total is the pager's and the list has one entry per row, in order |
| UserStore.MapUserInfo | ai-boilerplate-app/src/store/user.ts:15-24 | username from phone, nickname and avatar copied, each "" when missing; user id -1 when the id is missing or converts to a non-finite number |
| UserStore.WithDefaultAvatar | ai-boilerplate-app/src/store/user.ts:42-45 | an empty avatar becomes the default path; any other avatar and every other field stay |
| UserStore.UserInfoRes.constructor | ai-boilerplate-app/src/store/user.ts:8-13 | a user object holding the given fields |
| UserStore.Store.constructor | ai-boilerplate-app/src/store/user.ts:27-38 | the store starts with a fresh copy of the initial state: user -1, empty names, the default avatar |
| UserStore.Store.SetUserInfo | ai-boilerplate-app/src/store/user.ts:40-47 | applies the avatar rule to the caller's own object and then stores that very object |
| UserStore.Store.SetUserAvatar | ai-boilerplate-app/src/store/user.ts:48-52 | changes only the avatar of the stored object |
| UserStore.Store.ClearUserInfo | ai-boilerplate-app/src/store/user.ts:54-57 | the store holds a fresh copy of the initial state |
| UserStore.Store.FetchUserInfo | ai-boilerplate-app/src/store/user.ts:62-67 | stores and returns one fresh object holding the mapped reply under the avatar rule |

## Left out

- Timestamps: `CreatedAt`/`UpdatedAt` and their RFC3339 formatting are not modelled; records and replies carry the other fields.
- `Extend.String()` in the unread list: `extend` is carried as the string it renders to.
- The repositories' cache handling and SQL: each repository is an abstract store whose calls may fail. A read returns rows in table order; the store's own ordering and paging for FAQs and releases is not modelled, and their lookups are parameters.
- The ORM's query engine is not part of this model. `Condition` gives clauses their SQL meaning, with case-sensitive `LIKE` and backslash as the escape character; collation and case folding are not modelled.
- Concurrent runs of the tag sync: the code takes no lock, and the model runs one call at a time.
- The account lookup, the official-account client, the JWT parser, the UUID generator, the request context (caller ids) and JavaScript's `Number` are parameters or arguments of the model.
- `console.log`, `uni.removeStorageSync` and the store's persistence.
- The asynchronous request in `fetchUserInfo`: the model takes the reply it resolved to; a rejected request is not modelled.
- SysNotifyMessage.SortBySendTimeDesc: `sort.Slice` is not stable and its exact order of equal send times is unspecified; the model sorts by insertion and promises only the order and the permutation.
- SysNotifyMessage.Less: Go compares strings byte by byte; the model compares characters, which gives the same order on valid UTF-8.
- UserData.GenerateNicknameByPhone: Go slices the last four bytes; the model takes the last four characters, the same for ASCII phone numbers. The panic on a phone shorter than four bytes is its precondition.
- The generated TypeScript API clients and types, the HTTP middleware, the password and JWT helpers, and the other endpoints.
