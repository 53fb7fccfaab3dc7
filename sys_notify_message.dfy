/** `GetSysNotifyMessageMyUnreadList`: the admin's unread system
    notifications, newest first, each with the names and avatars of its
    sender and receiver. */
module SysNotifyMessage {
  import opened Common

  // ------------------------------------------------------- string order

  /** Go's `<` on strings: lexicographic order of the characters. */
  predicate Less(a: string, b: string)
    ensures Less(a, b) ==> a != b
    ensures |a| < |b| && b[..|a|] == a ==> Less(a, b)
    decreases |a|
  {
    if a == [] then b != []
    else b != [] && (a[0] < b[0] || (a[0] == b[0] && Less(a[1..], b[1..])))
  }

  /** The textbook definition: a proper prefix, or a first differing
      position holding the smaller character. */
  predicate LexLess(a: string, b: string) {
    (|a| < |b| && b[..|a|] == a) ||
    (exists k :: 0 <= k < |a| && k < |b| && a[..k] == b[..k] && a[k] < b[k])
  }

  lemma {:induction false} LessIsLexicographic(a: string, b: string)
    ensures Less(a, b) <==> LexLess(a, b)
    decreases |a|
  {
    if a != [] && b != [] {
      LessIsLexicographic(a[1..], b[1..]);
      if a[0] == b[0] {
        if LexLess(a[1..], b[1..]) {
          if |a| - 1 < |b| - 1 && b[1..][..|a| - 1] == a[1..] {
            assert b[..|a|] == [b[0]] + b[1..][..|a| - 1];
            assert a == [a[0]] + a[1..];
          } else {
            var k :| 0 <= k < |a| - 1 && k < |b| - 1 && a[1..][..k] == b[1..][..k] && a[1..][k] < b[1..][k];
            assert a[..k + 1] == [a[0]] + a[1..][..k];
            assert b[..k + 1] == [b[0]] + b[1..][..k];
          }
        }
        if LexLess(a, b) {
          if |a| < |b| && b[..|a|] == a {
            assert b[1..][..|a| - 1] == b[..|a|][1..];
          } else {
            var k :| 0 <= k < |a| && k < |b| && a[..k] == b[..k] && a[k] < b[k];
            assert k != 0;
            assert a[1..][..k - 1] == a[..k][1..];
            assert b[1..][..k - 1] == b[..k][1..];
          }
        }
      } else {
        if a[0] < b[0] {
          assert a[..0] == b[..0];
        }
        assert |a| < |b| ==> b[..|a|][0] == b[0];
        assert forall k :: 0 < k <= |a| && k <= |b| ==> a[..k][0] == a[0] && b[..k][0] == b[0];
      }
    } else if a == [] && b != [] {
      assert b[..0] == a;
    }
  }

  lemma {:induction false} LessIrreflexive(a: string)
    ensures !Less(a, a)
    decreases |a|
  {
    if a != [] {
      LessIrreflexive(a[1..]);
    }
  }

  lemma {:induction false} LessTransitive(a: string, b: string, c: string)
    requires Less(a, b) && Less(b, c)
    ensures Less(a, c)
    decreases |a|
  {
    if a != [] && a[0] == b[0] && b[0] == c[0] {
      LessTransitive(a[1..], b[1..], c[1..]);
    }
  }

  lemma {:induction false} LessTotal(a: string, b: string)
    ensures a == b || Less(a, b) || Less(b, a)
    decreases |a|
  {
    if a != [] && b != [] && a[0] == b[0] {
      LessTotal(a[1..], b[1..]);
      if a[1..] == b[1..] {
        assert a == [a[0]] + a[1..] && b == [b[0]] + b[1..];
      }
    }
  }

  /** `>=` on strings is transitive. */
  lemma NotLessTransitive(a: string, b: string, c: string)
    requires !Less(a, b) && !Less(b, c)
    ensures !Less(a, c)
  {
    if Less(a, c) {
      LessTotal(a, b);
      if a == b {
      } else {
        LessTransitive(b, a, c);
      }
    }
  }

  lemma LessAsymmetric(a: string, b: string)
    requires Less(a, b)
    ensures !Less(b, a)
  {
    if Less(b, a) {
      LessTransitive(a, b, a);
      LessIrreflexive(a);
    }
  }

  // ------------------------------------------------------------- records

  /** A `sys_notify_message` row. */
  datatype Message = Message(id: string, tenantId: string, msgType: string, subject: string, content: string,
                             sender: string, receiver: string, sendTime: string, readTime: string, extend: string)

  /** A `sys_admin` row (the columns the join reads). */
  datatype Admin = Admin(id: string, nickname: string, avatar: string)

  function AdminIdOf(a: Admin): string { a.id }
  function NicknameOf(a: Admin): string { a.nickname }
  function AvatarOf(a: Admin): string { a.avatar }

  /** `SysNotifyMessageInfo`. */
  datatype MessageInfo = MessageInfo(id: string, tenantId: string, msgType: string, subject: string, content: string,
                                     sender: string, receiver: string, sendTime: string, readTime: string, extend: string,
                                     senderName: string, senderAvatar: string, receiverName: string, receiverAvatar: string)

  /** m sends no later than n. */
  predicate NotOlder(m: Message, n: Message) {
    !Less(m.sendTime, n.sendTime)
  }

  /** Newest first: send times never increase along the list. */
  predicate SortedDesc(s: seq<Message>) {
    forall p, q :: 0 <= p < q < |s| ==> NotOlder(s[p], s[q])
  }

  /** While a[i] moves to the front: the first i+1 messages are in order
      apart from the one at j, which is no older than any message after it. */
  predicate Inserting(s: seq<Message>, i: int, j: int)
    requires 0 <= j <= i < |s|
  {
    && (forall p, q :: 0 <= p < q <= i && p != j && q != j ==> NotOlder(s[p], s[q]))
    && (forall q :: j < q <= i ==> NotOlder(s[j], s[q]))
  }

  /** Swapping the moving message with an older-sending predecessor keeps
      the insertion invariant, one place further forward. */
  lemma InsertingSwap(s: seq<Message>, i: int, j: int)
    requires 0 < j <= i < |s| && Inserting(s, i, j)
    requires Less(s[j - 1].sendTime, s[j].sendTime)
    ensures Inserting(s[j - 1 := s[j]][j := s[j - 1]], i, j - 1)
  {
    LessAsymmetric(s[j - 1].sendTime, s[j].sendTime);
  }

  /** The insertion stops at the front or behind a message no older than
      the moving one; then the first i+1 messages are in order. */
  lemma InsertingDone(s: seq<Message>, i: int, j: int)
    requires 0 <= j <= i < |s| && Inserting(s, i, j)
    requires j == 0 || !Less(s[j - 1].sendTime, s[j].sendTime)
    ensures forall p, q :: 0 <= p < q <= i ==> NotOlder(s[p], s[q])
  {
    forall p | 0 <= p < j ensures NotOlder(s[p], s[j]) {
      if p < j - 1 {
        NotLessTransitive(s[p].sendTime, s[j - 1].sendTime, s[j].sendTime);
      }
    }
  }

  /** One insertion step: moves a[i] towards the front past every message
      sent strictly earlier, so that a[..i+1] is sorted. */
  method InsertDesc(a: array<Message>, i: int)
    requires 0 <= i < a.Length
    requires forall p, q :: 0 <= p < q < i ==> NotOlder(a[p], a[q])
    modifies a
    ensures forall p, q :: 0 <= p < q <= i ==> NotOlder(a[p], a[q])
    ensures multiset(a[..]) == multiset(old(a[..]))
  {
    var j := i;
    while j > 0 && Less(a[j - 1].sendTime, a[j].sendTime)
      invariant 0 <= j <= i
      invariant Inserting(a[..], i, j)
      invariant multiset(a[..]) == multiset(old(a[..]))
    {
      ghost var s := a[..];
      a[j - 1], a[j] := a[j], a[j - 1];
      assert a[..] == s[j - 1 := s[j]][j := s[j - 1]];
      InsertingSwap(s, i, j);
      j := j - 1;
    }
    InsertingDone(a[..], i, j);
  }

  /** `sort.Slice(list, list[i].SendTime > list[j].SendTime)`, in place. */
  method SortBySendTimeDesc(a: array<Message>)
    modifies a
    ensures SortedDesc(a[..])
    ensures multiset(a[..]) == multiset(old(a[..]))
  {
    for i := 0 to a.Length
      invariant forall p, q :: 0 <= p < q < i ==> NotOlder(a[p], a[q])
      invariant multiset(a[..]) == multiset(old(a[..]))
    {
      InsertDesc(a, i);
    }
  }

  /** Receiver then sender of every message, in list order. */
  function Participants(list: seq<Message>): (ids: seq<string>)
    ensures |ids| == 2 * |list|
    ensures forall x :: x in ids <==> exists m :: m in list && (x == m.receiver || x == m.sender)
  {
    if list == [] then []
    else
      var rest := Participants(list[..|list| - 1]);
      var m := list[|list| - 1];
      assert forall n :: n in list <==> n in list[..|list| - 1] || n == m;
      rest + [m.receiver, m.sender]
  }

  /** One reply entry: the message's fields, and the names and avatars of its
      sender and receiver ("" when the admin was not found). */
  function InfoOf(m: Message, names: map<string, string>, avatars: map<string, string>): (info: MessageInfo)
    ensures info.id == m.id && info.tenantId == m.tenantId && info.msgType == m.msgType
    ensures info.subject == m.subject && info.content == m.content && info.extend == m.extend
    ensures info.sender == m.sender && info.receiver == m.receiver
    ensures info.sendTime == m.sendTime && info.readTime == m.readTime
    ensures info.senderName == MapGet(names, m.sender, "") && info.senderAvatar == MapGet(avatars, m.sender, "")
    ensures info.receiverName == MapGet(names, m.receiver, "") && info.receiverAvatar == MapGet(avatars, m.receiver, "")
  {
    MessageInfo(m.id, m.tenantId, m.msgType, m.subject, m.content, m.sender, m.receiver, m.sendTime, m.readTime,
                m.extend, MapGet(names, m.sender, ""), MapGet(avatars, m.sender, ""),
                MapGet(names, m.receiver, ""), MapGet(avatars, m.receiver, ""))
  }

  /** The unread list sorted newest first: copied into an array and sorted
      in place. */
  method SortUnread(list: seq<Message>) returns (sorted: seq<Message>)
    ensures multiset(sorted) == multiset(list) && SortedDesc(sorted)
    ensures forall m :: m in sorted <==> m in list
  {
    var a := new Message[|list|](i requires 0 <= i < |list| => list[i]);
    assert a[..] == list;
    SortBySendTimeDesc(a);
    sorted := a[..];
    forall m ensures m in sorted <==> m in list {
      assert m in sorted <==> m in multiset(sorted);
      assert m in list <==> m in multiset(list);
    }
  }

  /** The loop appending every message's receiver and sender. */
  method CollectAdminIds(list: seq<Message>) returns (ids: seq<string>)
    ensures ids == Participants(list)
  {
    ids := [];
    for i := 0 to |list|
      invariant ids == Participants(list[..i])
    {
      assert list[..i + 1][..i] == list[..i];
      ids := ids + [list[i].receiver, list[i].sender];
    }
    assert list[..|list|] == list;
  }

  /** The loop filling the id -> nickname and id -> avatar maps. */
  method AdminMaps(rows: seq<Admin>) returns (names: map<string, string>, avatars: map<string, string>)
    ensures names == LastWins(rows, AdminIdOf, NicknameOf)
    ensures avatars == LastWins(rows, AdminIdOf, AvatarOf)
  {
    names := map[];
    avatars := map[];
    for i := 0 to |rows|
      invariant names == LastWins(rows[..i], AdminIdOf, NicknameOf)
      invariant avatars == LastWins(rows[..i], AdminIdOf, AvatarOf)
    {
      assert rows[..i + 1][..i] == rows[..i];
      names := names[rows[i].id := rows[i].nickname];
      avatars := avatars[rows[i].id := rows[i].avatar];
    }
    assert rows[..|rows|] == rows;
  }

  /** The loop appending one reply entry per message, in list order. */
  method BuildInfos(list: seq<Message>, names: map<string, string>, avatars: map<string, string>)
    returns (infos: seq<MessageInfo>)
    ensures |infos| == |list|
    ensures forall i :: 0 <= i < |list| ==> infos[i] == InfoOf(list[i], names, avatars)
  {
    infos := [];
    for i := 0 to |list|
      invariant |infos| == i
      invariant forall j :: 0 <= j < i ==> infos[j] == InfoOf(list[j], names, avatars)
    {
      infos := infos + [InfoOf(list[i], names, avatars)];
    }
  }

  /** The reply for a sorted unread list once the admins are known. */
  predicate Enriched(r: seq<MessageInfo>, sorted: seq<Message>, admins: seq<Admin>) {
    |r| == |sorted| &&
    forall i :: 0 <= i < |sorted| ==>
      r[i] == InfoOf(sorted[i], LastWins(admins, AdminIdOf, NicknameOf), LastWins(admins, AdminIdOf, AvatarOf))
  }

  /** A message whose sender or receiver the admin store did not return gets
      "" for that party's name and avatar. */
  lemma EnrichedMissing(r: seq<MessageInfo>, sorted: seq<Message>, admins: seq<Admin>, i: nat)
    requires Enriched(r, sorted, admins) && i < |sorted|
    ensures (forall a :: a in admins ==> a.id != sorted[i].sender) ==>
              r[i].senderName == "" && r[i].senderAvatar == ""
    ensures (forall a :: a in admins ==> a.id != sorted[i].receiver) ==>
              r[i].receiverName == "" && r[i].receiverAvatar == ""
  {
  }

  /** A party the admin store returned gets the name and avatar of the last
      returned admin with that id. */
  lemma EnrichedFound(r: seq<MessageInfo>, sorted: seq<Message>, admins: seq<Admin>, i: nat, k: nat)
    requires Enriched(r, sorted, admins) && i < |sorted| && k < |admins|
    requires forall j :: k < j < |admins| ==> admins[j].id != admins[k].id
    ensures admins[k].id == sorted[i].sender ==>
              r[i].senderName == admins[k].nickname && r[i].senderAvatar == admins[k].avatar
    ensures admins[k].id == sorted[i].receiver ==>
              r[i].receiverName == admins[k].nickname && r[i].receiverAvatar == admins[k].avatar
  {
    LastWinsAt(admins, AdminIdOf, NicknameOf, k);
    LastWinsAt(admins, AdminIdOf, AvatarOf, k);
  }

  /** The endpoint for the caller `adminId`. `findUnread(receiver, readTime)`
      is the message store's lookup, `findAdmins` the admin store's batch
      lookup by ids. `sorted` is the unread list after sorting and `queried`
      the ids the admin lookup was given (None when it was not called). */
  method GetSysNotifyMessageMyUnreadList(adminId: string,
                                         findUnread: (string, string) -> Result<seq<Message>, Fault>,
                                         findAdmins: seq<string> -> Result<seq<Admin>, Fault>)
    returns (r: Result<seq<MessageInfo>, ServiceError>, sorted: seq<Message>, queried: Option<seq<string>>)
    ensures findUnread(adminId, "").Err? ==>
              r == Err(ServiceError(DataSQLError, Some(findUnread(adminId, "").error))) && queried.None?
    ensures findUnread(adminId, "") == Ok([]) ==> r == Ok([]) && queried.None?
    ensures findUnread(adminId, "").Ok? && findUnread(adminId, "").value != [] ==>
              var list := findUnread(adminId, "").value;
              multiset(sorted) == multiset(list) && SortedDesc(sorted) &&
              queried.Some? && NoDups(queried.value) &&
              (forall x :: x in queried.value <==> exists m :: m in list && (x == m.receiver || x == m.sender)) &&
              (findAdmins(queried.value).Err? ==>
                 r == Err(ServiceError(DataSQLError, Some(findAdmins(queried.value).error)))) &&
              (findAdmins(queried.value).Ok? ==> r.Ok? && Enriched(r.value, sorted, findAdmins(queried.value).value))
  {
    queried := None;
    sorted := [];
    var found := findUnread(adminId, "");
    if found.Err? {
      return Err(ServiceError(DataSQLError, Some(found.error))), sorted, queried;
    }
    var list := found.value;
    if |list| == 0 {
      return Ok([]), sorted, queried;
    }
    sorted := SortUnread(list);
    var adminIds := CollectAdminIds(sorted);
    adminIds := Uniq(adminIds);
    queried := Some(adminIds);
    var admins := findAdmins(adminIds);
    if admins.Err? {
      return Err(ServiceError(DataSQLError, Some(admins.error))), sorted, queried;
    }
    var names, avatars := AdminMaps(admins.value);
    var infos := BuildInfos(sorted, names, avatars);
    r := Ok(infos);
  }
}
