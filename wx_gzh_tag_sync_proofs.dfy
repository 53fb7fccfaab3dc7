/** What a tag sync run does to the local table: the shape of its write plan,
    the table it leaves behind, and what a second run with the same remote
    list writes. */
module WxGzhTagSyncProofs {
  import opened Common
  import opened WxGzhTagSync

  /** The order of the phases a call belongs to. */
  function PhaseOf(c: TagCall): nat {
    match c
    case FindMultiByAppId(_) => 0
    case CreateBatch(_, _) => 1
    case DeleteMultiByIds(_) => 2
    case UpdateOneWithZero(_, _) => 3
  }

  lemma DiffOf(remote: seq<WxGzhTag>, local: seq<WxGzhTag>)
    ensures var d := Diff(TagIdsOf(remote), TagIdsOf(local));
            && d.create == TagIds(remote) - TagIds(local)
            && d.delete == TagIds(local) - TagIds(remote)
            && d.update == TagIds(remote) * TagIds(local)
  {
  }

  lemma CreatePhaseShape(remote: seq<WxGzhTag>, d: TagDiff)
    ensures |CreatePhase(remote, d)| <= 1
    ensures forall c :: c in CreatePhase(remote, d) ==> c.CreateBatch?
  {
  }

  lemma DeletePhaseShape(local: seq<WxGzhTag>, d: TagDiff)
    ensures |DeletePhase(local, d)| <= 1
    ensures forall c :: c in DeletePhase(local, d) ==> c.DeleteMultiByIds?
  {
  }

  lemma UpdatePhaseShape(remote: seq<WxGzhTag>, local: seq<WxGzhTag>, d: TagDiff)
    ensures forall c :: c in UpdatePhase(remote, local, d) ==> c.UpdateOneWithZero?
  {
    var u := UpdatePhase(remote, local, d);
    forall c | c in u ensures c.UpdateOneWithZero? {
      var i :| 0 <= i < |u| && u[i] == c;
    }
  }

  lemma PhaseShapes(remote: seq<WxGzhTag>, local: seq<WxGzhTag>, d: TagDiff)
    ensures |CreatePhase(remote, d)| <= 1 && |DeletePhase(local, d)| <= 1
    ensures forall c :: c in CreatePhase(remote, d) ==> c.CreateBatch?
    ensures forall c :: c in DeletePhase(local, d) ==> c.DeleteMultiByIds?
    ensures forall c :: c in UpdatePhase(remote, local, d) ==> c.UpdateOneWithZero?
  {
    CreatePhaseShape(remote, d);
    DeletePhaseShape(local, d);
    UpdatePhaseShape(remote, local, d);
  }

  /** Calls of three phases laid end to end come in phase order. */
  lemma PhasesInOrder(c: seq<TagCall>, e: seq<TagCall>, u: seq<TagCall>)
    requires |c| <= 1 && |e| <= 1
    requires forall x :: x in c ==> x.CreateBatch?
    requires forall x :: x in e ==> x.DeleteMultiByIds?
    requires forall x :: x in u ==> x.UpdateOneWithZero?
    ensures forall i, j :: 0 <= i < j < |c + e + u| ==> PhaseOf((c + e + u)[i]) <= PhaseOf((c + e + u)[j])
    ensures forall i, j :: 0 <= i < j < |c + e + u| && PhaseOf((c + e + u)[i]) == PhaseOf((c + e + u)[j]) ==>
              (c + e + u)[i].UpdateOneWithZero?
    ensures forall x :: x in c + e + u ==> !x.FindMultiByAppId?
  {
    var plan := c + e + u;
    forall i | 0 <= i < |plan|
      ensures i < |c| ==> PhaseOf(plan[i]) == 1
      ensures |c| <= i < |c| + |e| ==> PhaseOf(plan[i]) == 2
      ensures |c| + |e| <= i ==> PhaseOf(plan[i]) == 3
    {
      if i < |c| {
        assert plan[i] == c[i] && c[i] in c;
      } else if i < |c| + |e| {
        assert plan[i] == e[i - |c|] && e[i - |c|] in e;
      } else {
        assert plan[i] == u[i - |c| - |e|] && u[i - |c| - |e|] in u;
      }
    }
  }

  /** The plan creates first, then deletes, then updates; it never reads, and
      holds at most one create and one delete. */
  lemma PlanOrder(remote: seq<WxGzhTag>, local: seq<WxGzhTag>)
    ensures var plan := Plan(remote, local);
            && (forall i, j :: 0 <= i < j < |plan| ==> PhaseOf(plan[i]) <= PhaseOf(plan[j]))
            && (forall i, j :: 0 <= i < j < |plan| && PhaseOf(plan[i]) == PhaseOf(plan[j]) ==> plan[i].UpdateOneWithZero?)
            && (forall c :: c in plan ==> !c.FindMultiByAppId?)
  {
    var d := Diff(TagIdsOf(remote), TagIdsOf(local));
    var c, e, u := CreatePhase(remote, d), DeletePhase(local, d), UpdatePhase(remote, local, d);
    PhaseShapes(remote, local, d);
    PhasesInOrder(c, e, u);
    PlanPhases(remote, local);
  }

  lemma CreatePhaseRows(remote: seq<WxGzhTag>, local: seq<WxGzhTag>, d: TagDiff)
    requires d.create == TagIds(remote) - TagIds(local)
    ensures CreatePhase(remote, d) != [] <==> exists x :: x in remote && x.tagId !in TagIds(local)
    ensures forall c :: c in CreatePhase(remote, d) ==>
              && c == CreateBatch(c.rows, CreateBatchSize)
              && (forall x :: x in c.rows <==> x in remote && x.tagId !in TagIds(local))
  {
    var rows := WithTagIdIn(remote, d.create);
    if exists x :: x in remote && x.tagId !in TagIds(local) {
      var x :| x in remote && x.tagId !in TagIds(local);
      assert x.tagId in d.create;
      assert x in rows;
    }
  }

  /** The internal ids of the rows, as lo.Map lists them. */
  lemma IdsOfMembers(rows: seq<WxGzhTag>)
    ensures forall id :: id in IdsOf(rows) <==> exists x :: x in rows && x.id == id
  {
    var ids := IdsOf(rows);
    forall id | exists x :: x in rows && x.id == id ensures id in ids {
      var x :| x in rows && x.id == id;
      var i :| 0 <= i < |rows| && rows[i] == x;
      assert ids[i] == id;
    }
    forall id | id in ids ensures exists x :: x in rows && x.id == id {
      var i :| 0 <= i < |ids| && ids[i] == id;
      assert rows[i] in rows;
    }
  }

  lemma DeletePhaseIds(remote: seq<WxGzhTag>, local: seq<WxGzhTag>, d: TagDiff)
    requires d.delete == TagIds(local) - TagIds(remote)
    ensures DeletePhase(local, d) != [] <==> exists x :: x in local && x.tagId !in TagIds(remote)
    ensures forall c :: c in DeletePhase(local, d) ==>
              && c.DeleteMultiByIds?
              && forall id :: id in c.ids <==> exists x :: x in local && x.tagId !in TagIds(remote) && x.id == id
  {
    var rows := WithTagIdIn(local, d.delete);
    assert forall x :: x in rows <==> x in local && x.tagId !in TagIds(remote);
    if exists x :: x in local && x.tagId !in TagIds(remote) {
      var x :| x in local && x.tagId !in TagIds(remote);
      assert x in rows;
    }
    IdsOfMembers(rows);
  }

  /** In a plan laid out by phase, a create can only be the first phase's and a delete the second's. */
  lemma CreatesAndDeletesAtHead(c: seq<TagCall>, e: seq<TagCall>, u: seq<TagCall>)
    requires forall x :: x in c ==> x.CreateBatch?
    requires forall x :: x in e ==> x.DeleteMultiByIds?
    requires forall x :: x in u ==> x.UpdateOneWithZero?
    ensures (exists x :: x in c + e + u && x.CreateBatch?) <==> c != []
    ensures (exists x :: x in c + e + u && x.DeleteMultiByIds?) <==> e != []
    ensures forall x :: x in c + e + u && x.CreateBatch? ==> x in c
    ensures forall x :: x in c + e + u && x.DeleteMultiByIds? ==> x in e
  {
    if c != [] {
      assert c[0] in c + e + u;
    }
    if e != [] {
      assert e[0] in c + e + u;
    }
  }

  /** A create is issued exactly when some remote tag id is missing locally;
      it inserts exactly the remote rows with such ids, in batches of 100. */
  lemma PlanCreates(remote: seq<WxGzhTag>, local: seq<WxGzhTag>)
    ensures var plan := Plan(remote, local);
            && ((exists c :: c in plan && c.CreateBatch?) <==> (exists x :: x in remote && x.tagId !in TagIds(local)))
            && (forall c :: c in plan && c.CreateBatch? ==>
                  && c.batchSize == CreateBatchSize
                  && (forall x :: x in c.rows <==> x in remote && x.tagId !in TagIds(local)))
  {
    var d := Diff(TagIdsOf(remote), TagIdsOf(local));
    PhaseShapes(remote, local, d);
    PlanPhases(remote, local);
    DiffOf(remote, local);
    CreatePhaseRows(remote, local, d);
    CreatesAndDeletesAtHead(CreatePhase(remote, d), DeletePhase(local, d), UpdatePhase(remote, local, d));
  }

  /** A delete is issued exactly when some local row's tag id is gone remotely;
      it names exactly the internal ids of those rows. */
  lemma PlanDeletes(remote: seq<WxGzhTag>, local: seq<WxGzhTag>)
    ensures var plan := Plan(remote, local);
            && ((exists c :: c in plan && c.DeleteMultiByIds?) <==> (exists x :: x in local && x.tagId !in TagIds(remote)))
            && (forall c :: c in plan && c.DeleteMultiByIds? ==>
                  forall id :: id in c.ids <==> exists x :: x in local && x.tagId !in TagIds(remote) && x.id == id)
  {
    var d := Diff(TagIdsOf(remote), TagIdsOf(local));
    PhaseShapes(remote, local, d);
    PlanPhases(remote, local);
    DiffOf(remote, local);
    DeletePhaseIds(remote, local, d);
    CreatesAndDeletesAtHead(CreatePhase(remote, d), DeletePhase(local, d), UpdatePhase(remote, local, d));
  }

  lemma UpdatePhaseRows(remote: seq<WxGzhTag>, local: seq<WxGzhTag>, d: TagDiff)
    requires d.update == TagIds(remote) * TagIds(local)
    ensures forall c :: c in UpdatePhase(remote, local, d) ==>
              && c.UpdateOneWithZero?
              && c.before in local
              && c.before.tagId in NameIndex(remote)
              && c.row == c.before.(name := NameIndex(remote)[c.before.tagId])
    ensures forall x :: x in local && x.tagId in TagIds(remote) ==>
              UpdateOneWithZero(Renamed(x, NameIndex(remote)), x) in UpdatePhase(remote, local, d)
    ensures NoDups(local) ==>
              forall i, j :: 0 <= i < j < |UpdatePhase(remote, local, d)| ==>
                UpdatePhase(remote, local, d)[i].before != UpdatePhase(remote, local, d)[j].before
  {
    var u := UpdatePhase(remote, local, d);
    var rows := WithTagIdIn(local, d.update);
    var names := NameIndex(remote);
    forall c | c in u
      ensures c.UpdateOneWithZero? && c.before in local && c.before.tagId in names
      ensures c.row == c.before.(name := names[c.before.tagId])
    {
      var i :| 0 <= i < |u| && u[i] == c;
      assert rows[i] in rows;
    }
    forall x | x in local && x.tagId in TagIds(remote) ensures UpdateOneWithZero(Renamed(x, names), x) in u {
      assert x.tagId in TagIds(local);
      assert x in rows;
      var i :| 0 <= i < |rows| && rows[i] == x;
      assert u[i] in u;
    }
    if NoDups(local) && |d.update| > 0 {
      FilterNoDups(local, (x: WxGzhTag) => x.tagId in d.update);
      forall i, j | 0 <= i < j < |u| ensures u[i].before != u[j].before {
        assert rows[i] != rows[j];
      }
    }
  }

  /** Every local row whose tag id is still listed remotely gets exactly one
      whole-row update, whether or not its name changed: the pre-image is the
      row as read, and the new row differs from it only in the name, which is
      the one the remote list gives that tag id last. */
  lemma PlanUpdates(remote: seq<WxGzhTag>, local: seq<WxGzhTag>)
    ensures var plan := Plan(remote, local);
            && (forall c :: c in plan && c.UpdateOneWithZero? ==>
                  && c.before in local
                  && c.before.tagId in NameIndex(remote)
                  && c.row == c.before.(name := NameIndex(remote)[c.before.tagId]))
            && (forall x :: x in local && x.tagId in TagIds(remote) ==>
                  UpdateOneWithZero(Renamed(x, NameIndex(remote)), x) in plan)
            && (NoDups(local) ==>
                  forall i, j :: 0 <= i < j < |plan| && plan[i].UpdateOneWithZero? && plan[j].UpdateOneWithZero? ==>
                    plan[i].before != plan[j].before)
  {
    var d := Diff(TagIdsOf(remote), TagIdsOf(local));
    var c, e, u := CreatePhase(remote, d), DeletePhase(local, d), UpdatePhase(remote, local, d);
    PhaseShapes(remote, local, d);
    PlanPhases(remote, local);
    DiffOf(remote, local);
    UpdatePhaseRows(remote, local, d);
    UpdatesAtTail(c, e, u);
  }

  /** In a plan laid out by phase, the updates are exactly the tail. */
  lemma UpdatesAtTail(c: seq<TagCall>, e: seq<TagCall>, u: seq<TagCall>)
    requires forall x :: x in c ==> x.CreateBatch?
    requires forall x :: x in e ==> x.DeleteMultiByIds?
    ensures forall i :: 0 <= i < |c + e + u| && (c + e + u)[i].UpdateOneWithZero? ==>
              |c + e| <= i && (c + e + u)[i] == u[i - |c + e|]
    ensures forall x :: x in c + e + u && x.UpdateOneWithZero? ==> x in u
    ensures forall x :: x in u ==> x in c + e + u
  {
    var plan := c + e + u;
    forall i | 0 <= i < |c + e| ensures !plan[i].UpdateOneWithZero? {
      if i < |c| {
        assert plan[i] == c[i] && c[i] in c;
      } else {
        assert plan[i] == e[i - |c|] && e[i - |c|] in e;
      }
    }
  }

  /** The name the index holds for a tag id is the name of the last remote row carrying it. */
  lemma NameIndexLast(remote: seq<WxGzhTag>, i: nat)
    requires i < |remote|
    requires forall j :: i < j < |remote| ==> remote[j].tagId != remote[i].tagId
    ensures remote[i].tagId in NameIndex(remote) && NameIndex(remote)[remote[i].tagId] == remote[i].name
  {
    LastWinsAt(remote, TagIdOf, NameOf, i);
  }

  // ---------------------------------------------------------------------------
  // The table a run leaves behind

  function RowIds(rows: seq<WxGzhTag>): set<RowId> {
    set x | x in rows :: x.id
  }

  /** The rows with those whose internal id is listed renamed from the index. */
  function RenameByIds(rows: seq<WxGzhTag>, ids: set<RowId>, names: map<int32, string>): (r: seq<WxGzhTag>)
    ensures |r| == |rows|
    ensures forall i :: 0 <= i < |rows| ==> r[i] == if rows[i].id in ids then Renamed(rows[i], names) else rows[i]
  {
    seq(|rows|, i requires 0 <= i < |rows| => if rows[i].id in ids then Renamed(rows[i], names) else rows[i])
  }

  lemma RenameByIdsKeeps(rows: seq<WxGzhTag>, ids: set<RowId>, names: map<int32, string>)
    ensures forall y :: y in rows ==> (if y.id in ids then Renamed(y, names) else y) in RenameByIds(rows, ids, names)
  {
    var r := RenameByIds(rows, ids, names);
    forall y | y in rows ensures (if y.id in ids then Renamed(y, names) else y) in r {
      var i :| 0 <= i < |rows| && rows[i] == y;
      assert r[i] in r;
    }
  }

  lemma RenameByIdsOrigin(rows: seq<WxGzhTag>, ids: set<RowId>, names: map<int32, string>, x: WxGzhTag)
    returns (y: WxGzhTag)
    requires x in RenameByIds(rows, ids, names)
    ensures y in rows && x == if y.id in ids then Renamed(y, names) else y
  {
    var r := RenameByIds(rows, ids, names);
    var i :| 0 <= i < |r| && r[i] == x;
    y := rows[i];
  }

  /** Issuing one update per row of u renames, in the table, the rows with
      those internal ids -- provided each such row is the one u holds. */
  lemma {:induction false} UpdateCallsEffect(t: TagTable, u: seq<WxGzhTag>, names: map<int32, string>)
    requires forall x, y :: x in t.rows && y in u && x.id == y.id ==> x == y
    ensures ApplyAll(t, UpdateCalls(u, names)) == TagTable(RenameByIds(t.rows, RowIds(u), names), t.nextId)
    decreases |u|
  {
    var calls := UpdateCalls(u, names);
    if u == [] {
      assert calls == [];
      assert RenameByIds(t.rows, RowIds(u), names) == t.rows;
    } else {
      var init, last := u[..|u| - 1], u[|u| - 1];
      var before := RenameByIds(t.rows, RowIds(init), names);
      var after := Replaced(before, Renamed(last, names));
      assert ApplyAll(t, calls) == TagTable(after, t.nextId) by {
        assert calls[..|calls| - 1] == UpdateCalls(init, names);
        assert calls[|calls| - 1] == UpdateOneWithZero(Renamed(last, names), last);
        UpdateCallsEffect(t, init, names);
      }
      assert RowIds(u) == RowIds(init) + {last.id} by {
        assert forall x :: x in u <==> x in init || x == last;
      }
      assert after == RenameByIds(t.rows, RowIds(u), names) by {
        forall i | 0 <= i < |t.rows| ensures after[i] == RenameByIds(t.rows, RowIds(u), names)[i] {
          if t.rows[i].id == last.id {
            assert t.rows[i] in t.rows && last in u;
          }
        }
      }
    }
  }

  lemma ApplyAllOne(t: TagTable, c: TagCall)
    ensures ApplyAll(t, [c]) == Apply(t, c)
  {
    assert [c][..0] == [];
  }

  /** Stamped rows are the given rows with fresh ids, one for one. */
  lemma StampedMembers(rows: seq<WxGzhTag>, from: RowId)
    requires forall x :: x in rows ==> x.id == UnsetId
    ensures forall x :: x in Stamped(rows, from) ==> from <= x.id && x.(id := UnsetId) in rows
    ensures forall r :: r in rows ==> exists x :: x in Stamped(rows, from) && from <= x.id && x.(id := UnsetId) == r
  {
    var s := Stamped(rows, from);
    forall x | x in s ensures from <= x.id && x.(id := UnsetId) in rows {
      var i :| 0 <= i < |s| && s[i] == x;
      assert rows[i] in rows;
    }
    forall r | r in rows ensures exists x :: x in s && from <= x.id && x.(id := UnsetId) == r {
      var i :| 0 <= i < |rows| && rows[i] == r;
      assert s[i] in s;
    }
  }

  /** A create batch keeps the old rows and adds the given ones with fresh ids. */
  lemma CreateBatchEffect(t: TagTable, rows: seq<WxGzhTag>, n: nat)
    requires t.Valid()
    requires forall x :: x in rows ==> x.id == UnsetId
    ensures ApplyAll(t, [CreateBatch(rows, n)]).nextId >= t.nextId
    ensures forall x :: x in t.rows ==> x in ApplyAll(t, [CreateBatch(rows, n)]).rows
    ensures forall x :: x in ApplyAll(t, [CreateBatch(rows, n)]).rows ==>
              (x in t.rows && x.id < t.nextId) || (t.nextId <= x.id && x.(id := UnsetId) in rows)
    ensures forall r :: r in rows ==>
              exists x :: x in ApplyAll(t, [CreateBatch(rows, n)]).rows && t.nextId <= x.id && x.(id := UnsetId) == r
  {
    StampedMembers(rows, t.nextId);
    ApplyAllOne(t, CreateBatch(rows, n));
  }

  /** After the create phase: the old rows, plus one new row, with a fresh
      internal id, for every remote row whose tag id was missing locally. */
  lemma CreateEffect(t: TagTable, remote: seq<WxGzhTag>, local: seq<WxGzhTag>, d: TagDiff)
    requires t.Valid()
    requires forall x :: x in remote ==> x.id == UnsetId
    requires d.create == TagIds(remote) - TagIds(local)
    ensures ApplyAll(t, CreatePhase(remote, d)).nextId >= t.nextId
    ensures forall x :: x in t.rows ==> x in ApplyAll(t, CreatePhase(remote, d)).rows
    ensures forall x :: x in ApplyAll(t, CreatePhase(remote, d)).rows ==>
              (x in t.rows && x.id < t.nextId) ||
              (t.nextId <= x.id && x.(id := UnsetId) in remote && x.tagId !in TagIds(local))
    ensures forall r :: r in remote && r.tagId !in TagIds(local) ==>
              exists x :: x in ApplyAll(t, CreatePhase(remote, d)).rows && t.nextId <= x.id && x.(id := UnsetId) == r
  {
    CreatePhaseRows(remote, local, d);
    var c := CreatePhase(remote, d);
    if c != [] {
      var rows := c[0].rows;
      assert forall x :: x in rows ==> x.id == UnsetId;
      CreateBatchEffect(t, rows, CreateBatchSize);
      assert c == [CreateBatch(rows, CreateBatchSize)];
    }
  }

  /** After the delete phase: the rows less the local rows whose tag id is gone remotely. */
  lemma DeleteEffect(t: TagTable, remote: seq<WxGzhTag>, local: seq<WxGzhTag>, d: TagDiff)
    requires t.Valid()
    requires forall x :: x in local ==> x in t.rows
    requires d.delete == TagIds(local) - TagIds(remote)
    ensures ApplyAll(t, DeletePhase(local, d)).nextId == t.nextId
    ensures forall x :: x in ApplyAll(t, DeletePhase(local, d)).rows <==>
              x in t.rows && !(x in local && x.tagId !in TagIds(remote))
  {
    DeletePhaseIds(remote, local, d);
    var e := DeletePhase(local, d);
    if e != [] {
      var ids := e[0].ids;
      assert e == [DeleteMultiByIds(ids)];
      ApplyAllOne(t, DeleteMultiByIds(ids));
      assert ApplyAll(t, e).rows == WithoutIds(t.rows, ids);
      forall x | x in t.rows ensures x.id in ids <==> x in local && x.tagId !in TagIds(remote) {
        if x.id in ids {
          var z :| z in local && z.tagId !in TagIds(remote) && z.id == x.id;
          assert z in t.rows;
        }
      }
    }
  }

  function KeptIds(remote: seq<WxGzhTag>, local: seq<WxGzhTag>): set<RowId> {
    set x | x in local && x.tagId in TagIds(remote) :: x.id
  }

  /** After the update phase: every row that is a kept local row renamed from the index. */
  lemma UpdateEffect(t: TagTable, remote: seq<WxGzhTag>, local: seq<WxGzhTag>, d: TagDiff)
    requires t.Valid()
    requires forall x :: x in local && x.tagId in TagIds(remote) ==> x in t.rows
    requires d.update == TagIds(remote) * TagIds(local)
    ensures ApplyAll(t, UpdatePhase(remote, local, d)) ==
            TagTable(RenameByIds(t.rows, KeptIds(remote, local), NameIndex(remote)), t.nextId)
  {
    var u := WithTagIdIn(local, d.update);
    assert forall x :: x in u <==> x in local && x.tagId in TagIds(remote);
    assert RowIds(u) == KeptIds(remote, local);
    UpdateCallsEffect(t, u, NameIndex(remote));
    if |d.update| == 0 {
      assert KeptIds(remote, local) == {} by {
        forall x | x in local ensures x.tagId !in TagIds(remote) {
          assert x.tagId in TagIds(local);
        }
      }
      assert RenameByIds(t.rows, {}, NameIndex(remote)) == t.rows;
    }
  }

  /** The three stages of a run that issues its whole plan, in table terms. */
  lemma Stages(t: TagTable, remote: seq<WxGzhTag>, appId: string) returns (t1: TagTable, t2: TagTable)
    requires t.Valid()
    requires forall x :: x in remote ==> x.id == UnsetId && x.appId == appId
    ensures forall x :: x in t.rows ==> x in t1.rows
    ensures forall x :: x in t1.rows ==>
              (x in t.rows && x.id < t.nextId) ||
              (t.nextId <= x.id && x.(id := UnsetId) in remote && x.tagId !in TagIds(RowsOf(t.rows, appId)))
    ensures forall r :: r in remote && r.tagId !in TagIds(RowsOf(t.rows, appId)) ==>
              exists x :: x in t1.rows && t.nextId <= x.id && x.(id := UnsetId) == r
    ensures forall x :: x in t2.rows <==>
              x in t1.rows && !(x in RowsOf(t.rows, appId) && x.tagId !in TagIds(remote))
    ensures forall y :: y in t2.rows ==>
              (y.id in KeptIds(remote, RowsOf(t.rows, appId)) <==> y in RowsOf(t.rows, appId) && y.tagId in TagIds(remote))
    ensures ApplyAll(t, Plan(remote, RowsOf(t.rows, appId))) ==
            TagTable(RenameByIds(t2.rows, KeptIds(remote, RowsOf(t.rows, appId)), NameIndex(remote)), t2.nextId)
  {
    var local := RowsOf(t.rows, appId);
    var d := Diff(TagIdsOf(remote), TagIdsOf(local));
    DiffOf(remote, local);
    PlanPhases(remote, local);
    var c, e, u := CreatePhase(remote, d), DeletePhase(local, d), UpdatePhase(remote, local, d);
    t1 := ApplyAll(t, c);
    CreateEffect(t, remote, local, d);
    ApplyAllValid(t, c);
    t2 := ApplyAll(t1, e);
    DeleteEffect(t1, remote, local, d);
    ApplyAllValid(t1, e);
    UpdateEffect(t2, remote, local, d);
    forall y | y in t2.rows ensures y.id in KeptIds(remote, local) <==> y in local && y.tagId in TagIds(remote) {
      KeptIdsMember(t2, remote, local, y);
    }
    ApplyAllAppend(t, c, e);
    ApplyAllAppend(t, c + e, u);
  }

  lemma KeptIdsMember(t: TagTable, remote: seq<WxGzhTag>, local: seq<WxGzhTag>, y: WxGzhTag)
    requires t.Valid() && y in t.rows
    requires forall x :: x in local && x.tagId in TagIds(remote) ==> x in t.rows
    ensures y.id in KeptIds(remote, local) <==> y in local && y.tagId in TagIds(remote)
  {
    if y.id in KeptIds(remote, local) {
      var z :| z in local && z.tagId in TagIds(remote) && z.id == y.id;
      assert z in t.rows;
    }
  }

  /** A fully successful run leaves the rows of other accounts as they were. */
  lemma OtherAccountsUntouched(t: TagTable, remote: seq<WxGzhTag>, appId: string)
    requires t.Valid()
    requires forall x :: x in remote ==> x.id == UnsetId && x.appId == appId
    ensures forall x: WxGzhTag :: x.appId != appId ==>
              (x in ApplyAll(t, Plan(remote, RowsOf(t.rows, appId))).rows <==> x in t.rows)
  {
    var local := RowsOf(t.rows, appId);
    var kept, names := KeptIds(remote, local), NameIndex(remote);
    var t1, t2 := Stages(t, remote, appId);
    RenameByIdsKeeps(t2.rows, kept, names);
    var after := RenameByIds(t2.rows, kept, names);
    forall x: WxGzhTag | x.appId != appId ensures x in after <==> x in t.rows {
      if x in after {
        var y := RenameByIdsOrigin(t2.rows, kept, names, x);
        assert y.appId == x.appId;
        assert y !in local;
        assert x == y;
      }
      if x in t.rows {
        assert x !in local;
        assert x in t2.rows;
      }
    }
  }

  /** A fully successful run renames every kept local row from the index. */
  lemma KeptRowsRenamed(t: TagTable, remote: seq<WxGzhTag>, appId: string)
    requires t.Valid()
    requires forall x :: x in remote ==> x.id == UnsetId && x.appId == appId
    ensures forall y :: y in RowsOf(t.rows, appId) && y.tagId in TagIds(remote) ==>
              Renamed(y, NameIndex(remote)) in ApplyAll(t, Plan(remote, RowsOf(t.rows, appId))).rows
  {
    var local := RowsOf(t.rows, appId);
    var t1, t2 := Stages(t, remote, appId);
    RenameByIdsKeeps(t2.rows, KeptIds(remote, local), NameIndex(remote));
    forall y | y in RowsOf(t.rows, appId) && y.tagId in TagIds(remote)
      ensures Renamed(y, NameIndex(remote)) in ApplyAll(t, Plan(remote, RowsOf(t.rows, appId))).rows
    {
      assert y in t2.rows;
    }
  }

  /** A fully successful run adds a row, with a fresh internal id, for every
      remote row whose tag id was missing locally. */
  lemma MissingTagsCreated(t: TagTable, remote: seq<WxGzhTag>, appId: string)
    requires t.Valid()
    requires forall x :: x in remote ==> x.id == UnsetId && x.appId == appId
    ensures forall r :: r in remote && r.tagId !in TagIds(RowsOf(t.rows, appId)) ==>
              exists x :: x in ApplyAll(t, Plan(remote, RowsOf(t.rows, appId))).rows &&
                           t.nextId <= x.id && x.(id := UnsetId) == r
  {
    var local := RowsOf(t.rows, appId);
    var t1, t2 := Stages(t, remote, appId);
    RenameByIdsKeeps(t2.rows, KeptIds(remote, local), NameIndex(remote));
    forall r | r in remote && r.tagId !in TagIds(RowsOf(t.rows, appId))
      ensures exists x :: x in ApplyAll(t, Plan(remote, RowsOf(t.rows, appId))).rows &&
                          t.nextId <= x.id && x.(id := UnsetId) == r
    {
      var x :| x in t1.rows && t.nextId <= x.id && x.(id := UnsetId) == r;
      assert x !in t.rows;
      assert x in t2.rows;
    }
  }

  /** After a fully successful run every row of the account is a kept local
      row renamed from the index or a new row made from a remote row. */
  lemma AccountRowsAccounted(t: TagTable, remote: seq<WxGzhTag>, appId: string)
    requires t.Valid()
    requires forall x :: x in remote ==> x.id == UnsetId && x.appId == appId
    ensures forall x :: x in ApplyAll(t, Plan(remote, RowsOf(t.rows, appId))).rows && x.appId == appId ==>
              || (x.id < t.nextId && exists y :: y in RowsOf(t.rows, appId) && y.tagId in TagIds(remote) &&
                                                 x == Renamed(y, NameIndex(remote)))
              || (t.nextId <= x.id && x.(id := UnsetId) in remote && x.tagId !in TagIds(RowsOf(t.rows, appId)))
  {
    var local := RowsOf(t.rows, appId);
    var t1, t2 := Stages(t, remote, appId);
    forall x | x in ApplyAll(t, Plan(remote, local)).rows && x.appId == appId
      ensures || (x.id < t.nextId && exists y :: y in local && y.tagId in TagIds(remote) && x == Renamed(y, NameIndex(remote)))
              || (t.nextId <= x.id && x.(id := UnsetId) in remote && x.tagId !in TagIds(local))
    {
      var y := RenameByIdsOrigin(t2.rows, KeptIds(remote, local), NameIndex(remote), x);
      RowOrigin(t, t1, t2, remote, local, appId, KeptIds(remote, local), NameIndex(remote), x, y);
    }
  }

  /** Where one row of the account comes from after the run. */
  lemma RowOrigin(t: TagTable, t1: TagTable, t2: TagTable, remote: seq<WxGzhTag>, local: seq<WxGzhTag>,
                  appId: string, kept: set<RowId>, names: map<int32, string>, x: WxGzhTag, y: WxGzhTag)
    requires t.Valid()
    requires forall z :: z in local <==> z in t.rows && z.appId == appId
    requires forall z :: z in t1.rows ==>
               (z in t.rows && z.id < t.nextId) ||
               (t.nextId <= z.id && z.(id := UnsetId) in remote && z.tagId !in TagIds(local))
    requires forall z :: z in t2.rows <==> z in t1.rows && !(z in local && z.tagId !in TagIds(remote))
    requires y in t2.rows
    requires y.id in kept <==> y in local && y.tagId in TagIds(remote)
    requires x == if y.id in kept then Renamed(y, names) else y
    requires x.appId == appId
    ensures || (x.id < t.nextId && y in local && y.tagId in TagIds(remote) && x == Renamed(y, names))
            || (t.nextId <= x.id && x.(id := UnsetId) in remote && x.tagId !in TagIds(local))
  {
    if y.id in kept {
      assert y in t.rows;
    } else {
      assert y !in t.rows;
    }
  }

  /** A run whose writes all succeed leaves the account's rows in step with
      the remote list: every kept local row is renamed from the index, every
      missing tag gets a new row, rows of other accounts are untouched, and
      every row of the account is one of those. */
  lemma Converges(t: TagTable, remote: seq<WxGzhTag>, appId: string)
    requires t.Valid()
    requires forall x :: x in remote ==> x.id == UnsetId && x.appId == appId
    ensures var local := RowsOf(t.rows, appId);
            var after := ApplyAll(t, Plan(remote, local)).rows;
            && (forall x: WxGzhTag :: x.appId != appId ==> (x in after <==> x in t.rows))
            && (forall y :: y in local && y.tagId in TagIds(remote) ==> Renamed(y, NameIndex(remote)) in after)
            && (forall r :: r in remote && r.tagId !in TagIds(local) ==>
                  exists x :: x in after && t.nextId <= x.id && x.(id := UnsetId) == r)
            && (forall x :: x in after && x.appId == appId ==>
                  || (x.id < t.nextId && exists y :: y in local && y.tagId in TagIds(remote) && x == Renamed(y, NameIndex(remote)))
                  || (t.nextId <= x.id && x.(id := UnsetId) in remote && x.tagId !in TagIds(local)))
  {
    OtherAccountsUntouched(t, remote, appId);
    KeptRowsRenamed(t, remote, appId);
    MissingTagsCreated(t, remote, appId);
    AccountRowsAccounted(t, remote, appId);
  }

  /** After a run whose writes all succeed, the account's tag ids are exactly the remote ones. */
  lemma ConvergesOnTagIds(t: TagTable, remote: seq<WxGzhTag>, appId: string)
    requires t.Valid()
    requires forall x :: x in remote ==> x.id == UnsetId && x.appId == appId
    ensures TagIds(RowsOf(ApplyAll(t, Plan(remote, RowsOf(t.rows, appId))).rows, appId)) == TagIds(remote)
  {
    var local := RowsOf(t.rows, appId);
    var after := ApplyAll(t, Plan(remote, local)).rows;
    var names := NameIndex(remote);
    Converges(t, remote, appId);
    forall k | k in TagIds(RowsOf(after, appId)) ensures k in TagIds(remote) {
      var x :| x in RowsOf(after, appId) && x.tagId == k;
      if x.id < t.nextId {
        var y :| y in local && y.tagId in TagIds(remote) && x == Renamed(y, names);
      } else {
        assert x.(id := UnsetId) in remote;
      }
    }
    forall k | k in TagIds(remote) ensures k in TagIds(RowsOf(after, appId)) {
      var r :| r in remote && r.tagId == k;
      if k in TagIds(local) {
        var y :| y in local && y.tagId == k;
        assert Renamed(y, names) in RowsOf(after, appId);
      } else {
        var x :| x in after && t.nextId <= x.id && x.(id := UnsetId) == r;
        assert x in RowsOf(after, appId);
      }
    }
  }

  /** Run again on the table a fully successful run left, with the same remote
      list, the sync creates and deletes nothing: it only rewrites rows. */
  lemma SecondRunOnlyUpdates(t: TagTable, remote: seq<WxGzhTag>, appId: string)
    requires t.Valid()
    requires forall x :: x in remote ==> x.id == UnsetId && x.appId == appId
    ensures var after := ApplyAll(t, Plan(remote, RowsOf(t.rows, appId)));
            forall c :: c in Plan(remote, RowsOf(after.rows, appId)) ==> c.UpdateOneWithZero?
  {
    var after := ApplyAll(t, Plan(remote, RowsOf(t.rows, appId)));
    var local := RowsOf(after.rows, appId);
    ConvergesOnTagIds(t, remote, appId);
    PlanCreates(remote, local);
    PlanDeletes(remote, local);
    PlanOrder(remote, local);
    assert !exists x :: x in remote && x.tagId !in TagIds(local) by {
      forall x | x in remote ensures x.tagId in TagIds(local) {
        assert x.tagId in TagIds(remote);
      }
    }
    assert !exists x :: x in local && x.tagId !in TagIds(remote) by {
      forall x | x in local ensures x.tagId in TagIds(remote) {
        assert x.tagId in TagIds(local);
      }
    }
  }

  /** When the remote list names every tag id once, a second run rewrites
      every row with the values it already has: the sync is then a fixpoint. */
  lemma SecondRunRewritesSame(t: TagTable, remote: seq<WxGzhTag>, appId: string)
    requires t.Valid()
    requires forall x :: x in remote ==> x.id == UnsetId && x.appId == appId
    requires forall i, j :: 0 <= i < j < |remote| ==> remote[i].tagId != remote[j].tagId
    ensures var after := ApplyAll(t, Plan(remote, RowsOf(t.rows, appId)));
            forall c :: c in Plan(remote, RowsOf(after.rows, appId)) ==> c.UpdateOneWithZero? && c.row == c.before
  {
    var local0 := RowsOf(t.rows, appId);
    var after := ApplyAll(t, Plan(remote, local0));
    var local := RowsOf(after.rows, appId);
    var names := NameIndex(remote);
    SecondRunOnlyUpdates(t, remote, appId);
    PlanUpdates(remote, local);
    Converges(t, remote, appId);
    forall c | c in Plan(remote, local) ensures c.row == c.before {
      var x := c.before;
      assert x in after.rows && x.appId == appId;
      if x.id < t.nextId {
        var y :| y in local0 && y.tagId in TagIds(remote) && x == Renamed(y, names);
      } else {
        var r := x.(id := UnsetId);
        var i :| 0 <= i < |remote| && remote[i] == r;
        NameIndexLast(remote, i);
      }
    }
  }
}
