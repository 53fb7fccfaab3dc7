/** Synchronising an official account's user tags into the local tag table.

    The remote tag list is authoritative. The run splits the tag ids into
    those to create (remote only), to delete (local only) and to update (both),
    then writes one create batch, one delete by internal ids, and one update
    per kept row, in that order, stopping at the first store error. */
module WxGzhTagSync {
  import opened Common

  newtype int32 = x: int | -0x8000_0000 <= x < 0x8000_0000

  /** Go's `int32(x)`: keep the low 32 bits as a two's-complement value. */
  function ToInt32(x: int): (t: int32)
    ensures -0x8000_0000 <= x < 0x8000_0000 ==> t as int == x
    ensures (x - t as int) % 0x1_0000_0000 == 0
  {
    ((x + 0x8000_0000) % 0x1_0000_0000 - 0x8000_0000) as int32
  }

  /** The internal primary key the local store assigns to a row. */
  type RowId = nat

  /** The id a row carries before the store assigns one. */
  const UnsetId: RowId := 0

  /** The batch size the create phase hands to the store. */
  const CreateBatchSize: nat := 100

  /** A row of the local tag table. */
  datatype WxGzhTag = WxGzhTag(id: RowId, appId: string, tagId: int32, name: string)

  /** The official account's credentials, looked up by app id. */
  datatype WxGzhAccount = WxGzhAccount(appId: string, appSecret: string, token: string, encodingAesKey: string)

  /** A client of the official-account API, bound to one account. */
  datatype OfficialAccountClient = OfficialAccountClient(account: WxGzhAccount)

  /** A tag as the official-account API lists it. */
  datatype UserTag = UserTag(id: int, name: string)

  datatype SyncWxGzhTagReply = SyncWxGzhTagReply

  // ---------------------------------------------------------------------------
  // The local store

  /** The contents of the local tag table and the next internal id it hands out. */
  datatype TagTable = TagTable(rows: seq<WxGzhTag>, nextId: RowId) {
    /** Rows are distinct, internal ids are a key, and every id is below nextId. */
    predicate Valid() {
      && NoDups(rows)
      && (forall x, y :: x in rows && y in rows && x.id == y.id ==> x == y)
      && (forall x :: x in rows ==> x.id < nextId)
    }
  }

  /** One call into the tag repository. */
  datatype TagCall =
    | FindMultiByAppId(appId: string)
    | CreateBatch(rows: seq<WxGzhTag>, batchSize: nat)
    | DeleteMultiByIds(ids: seq<RowId>)
    | UpdateOneWithZero(row: WxGzhTag, before: WxGzhTag)

  /** The rows of one account. */
  function RowsOf(rows: seq<WxGzhTag>, appId: string): (r: seq<WxGzhTag>)
    ensures forall x :: x in r <==> x in rows && x.appId == appId
  {
    Filter(rows, (x: WxGzhTag) => x.appId == appId)
  }

  /** The rows whose internal id is not listed. */
  function WithoutIds(rows: seq<WxGzhTag>, ids: seq<RowId>): (r: seq<WxGzhTag>)
    ensures forall x :: x in r <==> x in rows && x.id !in ids
  {
    Filter(rows, (x: WxGzhTag) => x.id !in ids)
  }

  /** New rows with consecutive internal ids starting at `from`. */
  function Stamped(rows: seq<WxGzhTag>, from: RowId): (r: seq<WxGzhTag>)
    ensures |r| == |rows|
    ensures forall i :: 0 <= i < |rows| ==> r[i] == rows[i].(id := from + i)
  {
    seq(|rows|, i requires 0 <= i < |rows| => rows[i].(id := from + i))
  }

  /** Every row with the given row's internal id overwritten by it, all columns included. */
  function Replaced(rows: seq<WxGzhTag>, row: WxGzhTag): (r: seq<WxGzhTag>)
    ensures |r| == |rows|
    ensures forall i :: 0 <= i < |rows| ==> r[i] == if rows[i].id == row.id then row else rows[i]
  {
    seq(|rows|, i requires 0 <= i < |rows| => if rows[i].id == row.id then row else rows[i])
  }

  /** The effect of one successful repository call on the table. */
  function Apply(t: TagTable, c: TagCall): TagTable {
    match c
    case FindMultiByAppId(_) => t
    case CreateBatch(rows, _) => TagTable(t.rows + Stamped(rows, t.nextId), t.nextId + |rows|)
    case DeleteMultiByIds(ids) => TagTable(WithoutIds(t.rows, ids), t.nextId)
    case UpdateOneWithZero(row, _) => TagTable(Replaced(t.rows, row), t.nextId)
  }

  /** The effect of a sequence of successful calls, in order. */
  function ApplyAll(t: TagTable, calls: seq<TagCall>): TagTable {
    if calls == [] then t else Apply(ApplyAll(t, calls[..|calls| - 1]), calls[|calls| - 1])
  }

  lemma StampedIds(rows: seq<WxGzhTag>, from: RowId, x: WxGzhTag)
    requires x in Stamped(rows, from)
    ensures from <= x.id < from + |rows|
    ensures forall y :: y in Stamped(rows, from) && y.id == x.id ==> y == x
  {
    var s := Stamped(rows, from);
    var i :| 0 <= i < |s| && s[i] == x;
    forall y | y in s && y.id == x.id ensures y == x {
      var j :| 0 <= j < |s| && s[j] == y;
    }
  }

  lemma StampedValid(t: TagTable, rows: seq<WxGzhTag>, n: nat)
    requires t.Valid()
    ensures Apply(t, CreateBatch(rows, n)).Valid()
  {
    var s := Stamped(rows, t.nextId);
    var r := t.rows + s;
    assert Apply(t, CreateBatch(rows, n)) == TagTable(r, t.nextId + |rows|);
    forall x | x in r ensures x.id < t.nextId + |rows| {
      if x in s { StampedIds(rows, t.nextId, x); }
    }
    forall x, y | x in r && y in r && x.id == y.id ensures x == y {
      if x in s { StampedIds(rows, t.nextId, x); }
      if y in s { StampedIds(rows, t.nextId, y); }
    }
    forall i, j | 0 <= i < j < |r| ensures r[i] != r[j] {
      if j < |t.rows| {
        assert r[i] == t.rows[i] && r[j] == t.rows[j];
      } else if i < |t.rows| {
        assert r[i] in t.rows;
        StampedIds(rows, t.nextId, r[j]);
      } else {
        assert r[i] == s[i - |t.rows|] && r[j] == s[j - |t.rows|];
      }
    }
  }

  lemma ReplacedValid(t: TagTable, row: WxGzhTag, before: WxGzhTag)
    requires t.Valid()
    ensures Apply(t, UpdateOneWithZero(row, before)).Valid()
  {
    var r := Replaced(t.rows, row);
    forall x | x in r ensures x.id < t.nextId && (x in t.rows || x == row) && (x.id == row.id ==> x == row) {
      var i :| 0 <= i < |r| && r[i] == x;
      assert t.rows[i] in t.rows;
    }
    forall i, j | 0 <= i < j < |r| ensures r[i] != r[j] {
      assert t.rows[i] in t.rows && t.rows[j] in t.rows;
    }
  }

  /** Every repository call keeps the table valid. */
  lemma ApplyValid(t: TagTable, c: TagCall)
    requires t.Valid()
    ensures Apply(t, c).Valid()
  {
    match c
    case FindMultiByAppId(_) =>
    case CreateBatch(rows, n) =>
      StampedValid(t, rows, n);
    case DeleteMultiByIds(ids) =>
      FilterNoDups(t.rows, (x: WxGzhTag) => x.id !in ids);
    case UpdateOneWithZero(row, before) =>
      ReplacedValid(t, row, before);
  }

  lemma {:induction false} ApplyAllValid(t: TagTable, calls: seq<TagCall>)
    requires t.Valid()
    ensures ApplyAll(t, calls).Valid()
  {
    if calls != [] {
      ApplyAllValid(t, calls[..|calls| - 1]);
      ApplyValid(ApplyAll(t, calls[..|calls| - 1]), calls[|calls| - 1]);
    }
  }

  /** The cache-backed tag repository. Every call is logged; call number i
      fails with faults[i] when i is a key of faults, and then changes nothing. */
  class TagRepo {
    var table: TagTable
    var log: seq<TagCall>
    const faults: map<nat, Fault>

    ghost predicate Valid()
      reads this
    {
      table.Valid()
    }

    constructor (table: TagTable, faults: map<nat, Fault>)
      requires table.Valid()
      ensures Valid()
      ensures this.table == table && this.faults == faults && log == []
    {
      this.table := table;
      this.faults := faults;
      log := [];
    }

    /** FindMultiCacheByAppID: the rows of one account, in table order. */
    method FindMultiCacheByAppId(appId: string) returns (r: Result<seq<WxGzhTag>, Fault>)
      modifies this`log
      ensures log == old(log) + [FindMultiByAppId(appId)]
      ensures |old(log)| in faults ==> r == Err(faults[|old(log)|])
      ensures |old(log)| !in faults ==> r == Ok(RowsOf(table.rows, appId))
    {
      r := if |log| in faults then Err(faults[|log|]) else Ok(RowsOf(table.rows, appId));
      log := log + [FindMultiByAppId(appId)];
    }

    /** CreateBatchCache: insert the rows, the store assigning their internal ids. */
    method CreateBatchCache(rows: seq<WxGzhTag>, batchSize: nat) returns (err: Option<Fault>)
      requires Valid()
      modifies this
      ensures Valid()
      ensures log == old(log) + [CreateBatch(rows, batchSize)]
      ensures |old(log)| in faults ==> err == Some(faults[|old(log)|]) && table == old(table)
      ensures |old(log)| !in faults ==> err == None && table == Apply(old(table), CreateBatch(rows, batchSize))
    {
      err := Write(CreateBatch(rows, batchSize));
    }

    /** DeleteMultiCacheByIDS: remove the rows with the given internal ids. */
    method DeleteMultiCacheByIds(ids: seq<RowId>) returns (err: Option<Fault>)
      requires Valid()
      modifies this
      ensures Valid()
      ensures log == old(log) + [DeleteMultiByIds(ids)]
      ensures |old(log)| in faults ==> err == Some(faults[|old(log)|]) && table == old(table)
      ensures |old(log)| !in faults ==> err == None && table == Apply(old(table), DeleteMultiByIds(ids))
    {
      err := Write(DeleteMultiByIds(ids));
    }

    /** UpdateOneCacheWithZero: overwrite the row with row's internal id by row,
        zero values included; `before` is the pre-image used to evict cache entries. */
    method UpdateOneCacheWithZero(row: WxGzhTag, before: WxGzhTag) returns (err: Option<Fault>)
      requires Valid()
      modifies this
      ensures Valid()
      ensures log == old(log) + [UpdateOneWithZero(row, before)]
      ensures |old(log)| in faults ==> err == Some(faults[|old(log)|]) && table == old(table)
      ensures |old(log)| !in faults ==> err == None && table == Apply(old(table), UpdateOneWithZero(row, before))
    {
      err := Write(UpdateOneWithZero(row, before));
    }

    method Write(c: TagCall) returns (err: Option<Fault>)
      requires Valid()
      modifies this
      ensures Valid()
      ensures log == old(log) + [c]
      ensures |old(log)| in faults ==> err == Some(faults[|old(log)|]) && table == old(table)
      ensures |old(log)| !in faults ==> err == None && table == Apply(old(table), c)
    {
      if |log| in faults {
        err := Some(faults[|log|]);
      } else {
        err := None;
        ApplyValid(table, c);
        table := Apply(table, c);
      }
      log := log + [c];
    }
  }

  // ---------------------------------------------------------------------------
  // The diff

  /** The rows the remote tag list stands for: the account's app id, the tag
      id narrowed to int32, the tag name, no internal id yet. */
  function RemoteRows(account: WxGzhAccount, tags: seq<UserTag>): (r: seq<WxGzhTag>)
    ensures |r| == |tags|
    ensures forall i :: 0 <= i < |tags| ==>
              r[i] == WxGzhTag(UnsetId, account.appId, ToInt32(tags[i].id), tags[i].name)
  {
    seq(|tags|, i requires 0 <= i < |tags| => WxGzhTag(UnsetId, account.appId, ToInt32(tags[i].id), tags[i].name))
  }

  function TagIds(rows: seq<WxGzhTag>): set<int32> {
    set x | x in rows :: x.tagId
  }

  /** lo.Map to the tag ids. */
  function TagIdsOf(rows: seq<WxGzhTag>): (ids: seq<int32>)
    ensures |ids| == |rows|
    ensures forall i :: 0 <= i < |rows| ==> ids[i] == rows[i].tagId
    ensures forall k :: k in ids <==> k in TagIds(rows)
  {
    var ids := seq(|rows|, i requires 0 <= i < |rows| => rows[i].tagId);
    assert forall x :: x in rows ==> x.tagId in ids by {
      forall x | x in rows ensures x.tagId in ids {
        var i :| 0 <= i < |rows| && rows[i] == x;
        assert ids[i] == x.tagId;
      }
    }
    ids
  }

  /** lo.Map to the internal ids. */
  function IdsOf(rows: seq<WxGzhTag>): (ids: seq<RowId>)
    ensures |ids| == |rows|
    ensures forall i :: 0 <= i < |rows| ==> ids[i] == rows[i].id
  {
    seq(|rows|, i requires 0 <= i < |rows| => rows[i].id)
  }

  /** The three tag-id sets of one run. */
  datatype TagDiff = TagDiff(create: set<int32>, delete: set<int32>, update: set<int32>)

  /** lo.Difference and lo.Intersect of the remote and local tag ids, as sets.
      The three sets are disjoint and together hold every tag id seen on either side. */
  function Diff(wxTagIds: seq<int32>, dbTagIds: seq<int32>): (d: TagDiff)
    ensures forall k :: k in d.create <==> k in wxTagIds && k !in dbTagIds
    ensures forall k :: k in d.delete <==> k in dbTagIds && k !in wxTagIds
    ensures forall k :: k in d.update <==> k in wxTagIds && k in dbTagIds
    ensures d.create !! d.delete && d.create !! d.update && d.delete !! d.update
    ensures forall k :: k in d.create + d.delete + d.update <==> k in wxTagIds || k in dbTagIds
  {
    var wx := set k | k in wxTagIds;
    var db := set k | k in dbTagIds;
    TagDiff(wx - db, db - wx, wx * db)
  }

  /** lo.Filter on `lo.Contains(keys, TagID)`. */
  function WithTagIdIn(rows: seq<WxGzhTag>, keys: set<int32>): (r: seq<WxGzhTag>)
    ensures |r| <= |rows|
    ensures forall x :: x in r <==> x in rows && x.tagId in keys
  {
    Filter(rows, (x: WxGzhTag) => x.tagId in keys)
  }

  function TagIdOf(x: WxGzhTag): int32 { x.tagId }
  function NameOf(x: WxGzhTag): string { x.name }

  /** The tag id -> name map built from the remote rows; the last name seen for an id wins. */
  function NameIndex(remote: seq<WxGzhTag>): (m: map<int32, string>)
    ensures m.Keys == TagIds(remote)
  {
    LastWins(remote, TagIdOf, NameOf)
  }

  /** A local row with its name taken from the index. */
  function Renamed(row: WxGzhTag, names: map<int32, string>): (r: WxGzhTag)
    ensures r.id == row.id && r.appId == row.appId && r.tagId == row.tagId
    ensures row.tagId in names ==> r.name == names[row.tagId]
    ensures row.tagId !in names ==> r.name == ""
  {
    row.(name := MapGet(names, row.tagId, ""))
  }

  /** One whole-row update per row, each with its pre-image. */
  function UpdateCalls(rows: seq<WxGzhTag>, names: map<int32, string>): (calls: seq<TagCall>)
    ensures |calls| == |rows|
    ensures forall i :: 0 <= i < |rows| ==> calls[i] == UpdateOneWithZero(Renamed(rows[i], names), rows[i])
  {
    seq(|rows|, i requires 0 <= i < |rows| => UpdateOneWithZero(Renamed(rows[i], names), rows[i]))
  }

  /** The create phase: one batch of the remote rows whose tag id is to be
      created, or no call when there is none. */
  function CreatePhase(remote: seq<WxGzhTag>, d: TagDiff): (c: seq<TagCall>)
    ensures |c| <= 1
    ensures forall k :: 0 <= k < |c| ==>
              && c[k].CreateBatch? && c[k].batchSize == CreateBatchSize
              && forall x :: x in c[k].rows <==> x in remote && x.tagId in d.create
  {
    if |d.create| > 0 && |WithTagIdIn(remote, d.create)| > 0
    then [CreateBatch(WithTagIdIn(remote, d.create), CreateBatchSize)]
    else []
  }

  /** The delete phase: one delete of the local rows whose tag id is to be
      deleted, or no call when there is none. */
  function DeletePhase(local: seq<WxGzhTag>, d: TagDiff): (e: seq<TagCall>)
    ensures |e| <= 1
    ensures forall k :: 0 <= k < |e| ==> e[k].DeleteMultiByIds?
  {
    if |d.delete| > 0 && |WithTagIdIn(local, d.delete)| > 0
    then [DeleteMultiByIds(IdsOf(WithTagIdIn(local, d.delete)))]
    else []
  }

  /** The update phase: one whole-row update per local row whose tag id is
      kept, renamed from the remote names. */
  function UpdatePhase(remote: seq<WxGzhTag>, local: seq<WxGzhTag>, d: TagDiff): (u: seq<TagCall>)
    ensures |u| <= |local|
    ensures forall i :: 0 <= i < |u| ==>
              && u[i].UpdateOneWithZero? && u[i].before in local && u[i].before.tagId in d.update
              && u[i].row == Renamed(u[i].before, NameIndex(remote))
  {
    if |d.update| > 0 then UpdateCalls(WithTagIdIn(local, d.update), NameIndex(remote)) else []
  }

  /** The writes a run issues, in order, when no write fails. */
  function Plan(remote: seq<WxGzhTag>, local: seq<WxGzhTag>): (p: seq<TagCall>)
    ensures |p| <= 2 + |local|
  {
    var d := Diff(TagIdsOf(remote), TagIdsOf(local));
    CreatePhase(remote, d) + DeletePhase(local, d) + UpdatePhase(remote, local, d)
  }

  /** The account lookup, the client and the remote tag list: the account and
      the remote tags, or the error the run returns without touching the store. */
  function FetchRemote(appId: string,
                       findAccount: string -> Result<WxGzhAccount, Fault>,
                       newClient: WxGzhAccount -> Result<OfficialAccountClient, Fault>,
                       listTags: OfficialAccountClient -> Result<seq<UserTag>, Fault>)
    : (r: Result<(WxGzhAccount, seq<UserTag>), ServiceError>)
    ensures r.Ok? <==> findAccount(appId).Ok? && newClient(findAccount(appId).value).Ok?
                       && listTags(newClient(findAccount(appId).value).value).Ok?
    ensures r.Ok? ==> r.value == (findAccount(appId).value, listTags(newClient(findAccount(appId).value).value).value)
    ensures r.Err? ==> r.error.cause.Some?
    ensures r.Err? ==> r.error.reason == if findAccount(appId).Ok? && newClient(findAccount(appId).value).Ok?
                                         then APIThirdErr else DataSQLError
  {
    match findAccount(appId)
    case Err(e) => Err(ServiceError(DataSQLError, Some(e)))
    case Ok(account) =>
      match newClient(account)
      case Err(e) => Err(ServiceError(DataSQLError, Some(e)))
      case Ok(client) =>
        match listTags(client)
        case Err(e) => Err(ServiceError(APIThirdErr, Some(e)))
        case Ok(tags) => Ok((account, tags))
  }

  // ---------------------------------------------------------------------------
  // Issuing writes

  /** `calls` were issued in order, starting from log `log0` and table `t0`:
      each call is logged as call number |log|; a call whose number is a key
      of `faults` ends the run with that fault and leaves the table as it was,
      any other call takes effect and the run goes on. `err` is None when
      every call succeeded. */
  ghost predicate Issued(log0: seq<TagCall>, t0: TagTable, faults: map<nat, Fault>, calls: seq<TagCall>,
                         log: seq<TagCall>, t: TagTable, err: Option<Fault>)
    decreases |calls|
  {
    if calls == [] then log == log0 && t == t0 && err == None
    else if |log0| in faults then log == log0 + [calls[0]] && t == t0 && err == Some(faults[|log0|])
    else Issued(log0 + [calls[0]], Apply(t0, calls[0]), faults, calls[1..], log, t, err)
  }

  lemma IssuedNothing(log0: seq<TagCall>, t0: TagTable, faults: map<nat, Fault>)
    ensures Issued(log0, t0, faults, [], log0, t0, None)
  {
  }

  lemma IssuedOne(log0: seq<TagCall>, t0: TagTable, faults: map<nat, Fault>, c: TagCall, t: TagTable, err: Option<Fault>)
    requires |log0| in faults ==> err == Some(faults[|log0|]) && t == t0
    requires |log0| !in faults ==> err == None && t == Apply(t0, c)
    ensures Issued(log0, t0, faults, [c], log0 + [c], t, err)
  {
    assert [c][0] == c && [c][1..] == [];
  }

  lemma {:induction false} ApplyAllAppend(t: TagTable, a: seq<TagCall>, b: seq<TagCall>)
    ensures ApplyAll(t, a + b) == ApplyAll(ApplyAll(t, a), b)
    decreases |b|
  {
    if b == [] {
      assert a + b == a;
    } else {
      assert (a + b)[..|a + b| - 1] == a + b[..|b| - 1];
      ApplyAllAppend(t, a, b[..|b| - 1]);
    }
  }
  /** When no call fails, the log gains every call and the table holds
      their effect. */
  lemma {:induction false} IssuedAll(log0: seq<TagCall>, t0: TagTable, faults: map<nat, Fault>, calls: seq<TagCall>,
                                     log: seq<TagCall>, t: TagTable)
    requires Issued(log0, t0, faults, calls, log, t, None)
    ensures log == log0 + calls && t == ApplyAll(t0, calls)
    decreases |calls|
  {
    if calls != [] {
      var c := calls[0];
      IssuedAll(log0 + [c], Apply(t0, c), faults, calls[1..], log, t);
      assert [c] + calls[1..] == calls;
      assert ApplyAll(t0, [c]) == Apply(t0, c) by { assert [c][..0] == []; }
      ApplyAllAppend(t0, [c], calls[1..]);
    }
  }

  /** When a call fails, it is the last one logged and its fault is the
      one reported. */
  lemma {:induction false} IssuedFailedLast(log0: seq<TagCall>, t0: TagTable, faults: map<nat, Fault>, calls: seq<TagCall>,
                                            log: seq<TagCall>, t: TagTable, e: Fault)
    requires Issued(log0, t0, faults, calls, log, t, Some(e))
    ensures |log0| < |log| <= |log0| + |calls| && log[..|log0|] == log0
    ensures |log| - 1 in faults && e == faults[|log| - 1]
    decreases |calls|
  {
    if |log0| !in faults {
      var c := calls[0];
      IssuedFailedLast(log0 + [c], Apply(t0, c), faults, calls[1..], log, t, e);
      assert log[..|log0|] == (log0 + [c])[..|log0|];
    }
  }

  /** Issuing `a` with no failure and then `b` is issuing `a + b`. */
  lemma {:induction false} IssuedThen(log0: seq<TagCall>, t0: TagTable, faults: map<nat, Fault>, a: seq<TagCall>,
                                      log1: seq<TagCall>, t1: TagTable, b: seq<TagCall>,
                                      log2: seq<TagCall>, t2: TagTable, err: Option<Fault>)
    requires Issued(log0, t0, faults, a, log1, t1, None)
    requires Issued(log1, t1, faults, b, log2, t2, err)
    ensures Issued(log0, t0, faults, a + b, log2, t2, err)
    decreases |a|
  {
    if a == [] {
      assert a + b == b;
    } else {
      IssuedThen(log0 + [a[0]], Apply(t0, a[0]), faults, a[1..], log1, t1, b, log2, t2, err);
      assert (a + b)[0] == a[0] && (a + b)[1..] == a[1..] + b;
    }
  }

  /** After a failed call nothing more is issued. */
  lemma {:induction false} IssuedStop(log0: seq<TagCall>, t0: TagTable, faults: map<nat, Fault>, a: seq<TagCall>,
                                      log: seq<TagCall>, t: TagTable, e: Fault, b: seq<TagCall>)
    requires Issued(log0, t0, faults, a, log, t, Some(e))
    ensures Issued(log0, t0, faults, a + b, log, t, Some(e))
    decreases |a|
  {
    assert (a + b)[0] == a[0];
    if |log0| !in faults {
      IssuedStop(log0 + [a[0]], Apply(t0, a[0]), faults, a[1..], log, t, e, b);
      assert (a + b)[1..] == a[1..] + b;
    }
  }

  /** One more call of `calls`, the (i+1)-th, was issued after the first i succeeded. */
  lemma IssuedStep(log0: seq<TagCall>, t0: TagTable, faults: map<nat, Fault>, calls: seq<TagCall>, i: nat,
                   log1: seq<TagCall>, t1: TagTable, t: TagTable, err: Option<Fault>)
    requires i < |calls|
    requires Issued(log0, t0, faults, calls[..i], log1, t1, None)
    requires |log1| in faults ==> err == Some(faults[|log1|]) && t == t1
    requires |log1| !in faults ==> err == None && t == Apply(t1, calls[i])
    ensures err.None? ==> Issued(log0, t0, faults, calls[..i + 1], log1 + [calls[i]], t, None)
    ensures err.Some? ==> Issued(log0, t0, faults, calls, log1 + [calls[i]], t, err)
  {
    var c := calls[i];
    var head := calls[..i + 1];
    assert calls[..i] + [c] == head;
    assert Issued(log0, t0, faults, head, log1 + [c], t, err) by {
      IssuedOne(log1, t1, faults, c, t, err);
      IssuedThen(log0, t0, faults, calls[..i], log1, t1, [c], log1 + [c], t, err);
    }
    if err.Some? {
      assert head + calls[i + 1..] == calls;
      IssuedStop(log0, t0, faults, head, log1 + [c], t, err.value, calls[i + 1..]);
    }
  }

  // ---------------------------------------------------------------------------
  // The run

  /** The loop over the remote tags: their ids narrowed to int32, and the rows they stand for. */
  method RemoteTagRows(account: WxGzhAccount, tags: seq<UserTag>) returns (wxTagIds: seq<int32>, wxTagDatas: seq<WxGzhTag>)
    ensures wxTagDatas == RemoteRows(account, tags)
    ensures wxTagIds == TagIdsOf(wxTagDatas)
  {
    wxTagDatas, wxTagIds := [], [];
    for i := 0 to |tags|
      invariant |wxTagDatas| == |wxTagIds| == i
      invariant forall j :: 0 <= j < i ==>
                  wxTagDatas[j] == WxGzhTag(UnsetId, account.appId, ToInt32(tags[j].id), tags[j].name)
      invariant forall j :: 0 <= j < i ==> wxTagIds[j] == wxTagDatas[j].tagId
    {
      wxTagIds := wxTagIds + [ToInt32(tags[i].id)];
      wxTagDatas := wxTagDatas + [WxGzhTag(UnsetId, account.appId, ToInt32(tags[i].id), tags[i].name)];
    }
  }

  /** The create phase: one batch insert of the remote rows whose tag id is new. */
  method CreateTags(repo: TagRepo, wxTagDatas: seq<WxGzhTag>, d: TagDiff) returns (err: Option<Fault>)
    requires repo.Valid()
    modifies repo
    ensures repo.Valid()
    ensures Issued(old(repo.log), old(repo.table), repo.faults, CreatePhase(wxTagDatas, d), repo.log, repo.table, err)
  {
    err := None;
    IssuedNothing(repo.log, repo.table, repo.faults);
    if |d.create| > 0 {
      var createDatas := WithTagIdIn(wxTagDatas, d.create);
      if |createDatas| > 0 {
        ghost var log0, t0 := repo.log, repo.table;
        err := repo.CreateBatchCache(createDatas, CreateBatchSize);
        IssuedOne(log0, t0, repo.faults, CreateBatch(createDatas, CreateBatchSize), repo.table, err);
      }
    }
  }

  /** The delete phase: one delete by the internal ids of the local rows whose tag id is gone. */
  method DeleteTags(repo: TagRepo, dbTagDatas: seq<WxGzhTag>, d: TagDiff) returns (err: Option<Fault>)
    requires repo.Valid()
    modifies repo
    ensures repo.Valid()
    ensures Issued(old(repo.log), old(repo.table), repo.faults, DeletePhase(dbTagDatas, d), repo.log, repo.table, err)
  {
    err := None;
    IssuedNothing(repo.log, repo.table, repo.faults);
    if |d.delete| > 0 {
      var deleteDatas := WithTagIdIn(dbTagDatas, d.delete);
      if |deleteDatas| > 0 {
        var deleteIds := IdsOf(deleteDatas);
        ghost var log0, t0 := repo.log, repo.table;
        err := repo.DeleteMultiCacheByIds(deleteIds);
        IssuedOne(log0, t0, repo.faults, DeleteMultiByIds(deleteIds), repo.table, err);
      }
    }
  }

  /** The update phase: build the tag id -> name index from the remote rows,
      then rewrite every local row whose tag id is kept, one call per row. */
  method UpdateTags(repo: TagRepo, wxTagDatas: seq<WxGzhTag>, dbTagDatas: seq<WxGzhTag>, d: TagDiff)
    returns (err: Option<Fault>)
    requires repo.Valid()
    modifies repo
    ensures repo.Valid()
    ensures Issued(old(repo.log), old(repo.table), repo.faults, UpdatePhase(wxTagDatas, dbTagDatas, d),
                   repo.log, repo.table, err)
  {
    err := None;
    ghost var log0, t0 := repo.log, repo.table;
    IssuedNothing(log0, t0, repo.faults);
    if |d.update| > 0 {
      var updateDatas := WithTagIdIn(dbTagDatas, d.update);
      var tagIdToName: map<int32, string> := map[];
      for i := 0 to |wxTagDatas|
        invariant tagIdToName == LastWins(wxTagDatas[..i], TagIdOf, NameOf)
      {
        assert wxTagDatas[..i + 1][..i] == wxTagDatas[..i];
        tagIdToName := tagIdToName[wxTagDatas[i].tagId := wxTagDatas[i].name];
      }
      assert wxTagDatas[..|wxTagDatas|] == wxTagDatas;
      ghost var calls := UpdateCalls(updateDatas, tagIdToName);
      assert calls == UpdatePhase(wxTagDatas, dbTagDatas, d);
      for i := 0 to |updateDatas|
        invariant repo.Valid()
        invariant err == None
        invariant Issued(log0, t0, repo.faults, calls[..i], repo.log, repo.table, None)
      {
        var v := updateDatas[i];
        var oldData := v;
        v := v.(name := MapGet(tagIdToName, v.tagId, ""));
        ghost var log1, t1 := repo.log, repo.table;
        err := repo.UpdateOneCacheWithZero(v, oldData);
        IssuedStep(log0, t0, repo.faults, calls, i, log1, t1, repo.table, err);
        if err.Some? {
          return;
        }
      }
      assert calls[..|updateDatas|] == calls;
    }
  }

  lemma PlanPhases(remote: seq<WxGzhTag>, local: seq<WxGzhTag>)
    ensures var d := Diff(TagIdsOf(remote), TagIdsOf(local));
            && Plan(remote, local) == CreatePhase(remote, d) + DeletePhase(local, d) + UpdatePhase(remote, local, d)
            && Plan(remote, local) == CreatePhase(remote, d) + (DeletePhase(local, d) + UpdatePhase(remote, local, d))
  {
  }

  /** The three write phases in order -- create, delete, update -- the run
      returning at the first error. */
  method WriteDiff(repo: TagRepo, wxTagDatas: seq<WxGzhTag>, dbTagDatas: seq<WxGzhTag>, d: TagDiff)
    returns (err: Option<Fault>)
    requires repo.Valid()
    requires d == Diff(TagIdsOf(wxTagDatas), TagIdsOf(dbTagDatas))
    modifies repo
    ensures repo.Valid()
    ensures Issued(old(repo.log), old(repo.table), repo.faults, Plan(wxTagDatas, dbTagDatas),
                   repo.log, repo.table, err)
  {
    ghost var log0, t0 := repo.log, repo.table;
    ghost var create, delete, update :=
      CreatePhase(wxTagDatas, d), DeletePhase(dbTagDatas, d), UpdatePhase(wxTagDatas, dbTagDatas, d);
    ghost var plan := Plan(wxTagDatas, dbTagDatas);
    PlanPhases(wxTagDatas, dbTagDatas);

    err := CreateTags(repo, wxTagDatas, d);
    if err.Some? {
      assert Issued(log0, t0, repo.faults, plan, repo.log, repo.table, err) by {
        IssuedStop(log0, t0, repo.faults, create, repo.log, repo.table, err.value, delete + update);
      }
      return;
    }
    ghost var log1, t1 := repo.log, repo.table;
    err := DeleteTags(repo, dbTagDatas, d);
    if err.Some? {
      assert Issued(log0, t0, repo.faults, plan, repo.log, repo.table, err) by {
        IssuedThen(log0, t0, repo.faults, create, log1, t1, delete, repo.log, repo.table, err);
        IssuedStop(log0, t0, repo.faults, create + delete, repo.log, repo.table, err.value, update);
      }
      return;
    }
    ghost var log2, t2 := repo.log, repo.table;
    assert Issued(log0, t0, repo.faults, create + delete, log2, t2, None) by {
      IssuedThen(log0, t0, repo.faults, create, log1, t1, delete, log2, t2, err);
    }
    err := UpdateTags(repo, wxTagDatas, dbTagDatas, d);
    assert Issued(log0, t0, repo.faults, plan, repo.log, repo.table, err) by {
      IssuedThen(log0, t0, repo.faults, create + delete, log2, t2, update, repo.log, repo.table, err);
    }
  }

  /** SyncWxGzhTag. A failure before the first write returns its error and
      changes nothing; otherwise the writes are those of Plan, issued in order
      up to the first that fails, which ends the run with DataSQLError and
      the store's fault. The reply is Ok exactly when every write succeeds. */
  method SyncWxGzhTag(repo: TagRepo, appId: string,
                      findAccount: string -> Result<WxGzhAccount, Fault>,
                      newClient: WxGzhAccount -> Result<OfficialAccountClient, Fault>,
                      listTags: OfficialAccountClient -> Result<seq<UserTag>, Fault>)
    returns (r: Result<SyncWxGzhTagReply, ServiceError>)
    requires repo.Valid()
    modifies repo
    ensures repo.Valid()
    ensures FetchRemote(appId, findAccount, newClient, listTags).Err? ==>
              && r == Err(FetchRemote(appId, findAccount, newClient, listTags).error)
              && repo.log == old(repo.log) && repo.table == old(repo.table)
    ensures FetchRemote(appId, findAccount, newClient, listTags).Ok? && |old(repo.log)| in repo.faults ==>
              && r == Err(ServiceError(DataSQLError, Some(repo.faults[|old(repo.log)|])))
              && repo.log == old(repo.log) + [FindMultiByAppId(appId)] && repo.table == old(repo.table)
    ensures FetchRemote(appId, findAccount, newClient, listTags).Ok? && |old(repo.log)| !in repo.faults ==>
              var fetched := FetchRemote(appId, findAccount, newClient, listTags).value;
              && (r.Err? ==> r.error.reason == DataSQLError && r.error.cause.Some?)
              && Issued(old(repo.log) + [FindMultiByAppId(appId)], old(repo.table), repo.faults,
                        Plan(RemoteRows(fetched.0, fetched.1), RowsOf(old(repo.table).rows, appId)),
                        repo.log, repo.table, if r.Ok? then None else r.error.cause)
  {
    var accountRes := findAccount(appId);
    if accountRes.Err? {
      return Err(ServiceError(DataSQLError, Some(accountRes.error)));
    }
    var account := accountRes.value;
    var clientRes := newClient(account);
    if clientRes.Err? {
      return Err(ServiceError(DataSQLError, Some(clientRes.error)));
    }
    var tagList := listTags(clientRes.value);
    if tagList.Err? {
      return Err(ServiceError(APIThirdErr, Some(tagList.error)));
    }
    var wxTagIds, wxTagDatas := RemoteTagRows(account, tagList.value);
    var dbRes := repo.FindMultiCacheByAppId(appId);
    if dbRes.Err? {
      return Err(ServiceError(DataSQLError, Some(dbRes.error)));
    }
    var dbTagDatas := dbRes.value;
    var dbTagIds := TagIdsOf(dbTagDatas);
    var d := Diff(wxTagIds, dbTagIds);

    var err := WriteDiff(repo, wxTagDatas, dbTagDatas, d);
    if err.Some? {
      return Err(ServiceError(DataSQLError, err));
    }
    r := Ok(SyncWxGzhTagReply);
  }
}
