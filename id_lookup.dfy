/** The "ids to names" join that the data repositories share: drop empty ids,
    drop repeated ids, return an empty map without asking the store when
    nothing is left, otherwise look the ids up once and map every returned
    record's id to its name. */
module IdLookup {
  import opened Common

  function NonEmpty(ids: seq<string>): (r: seq<string>)
    ensures forall x :: x in r <==> x in ids && x != ""
  {
    Filter(ids, (x: string) => x != "")
  }

  /** The id list handed to the store lookup: every non-empty input id once,
      in order of first occurrence. */
  function QueryIds(ids: seq<string>): (q: seq<string>)
    ensures NoDups(q)
    ensures forall x :: x in q <==> x in ids && x != ""
    ensures q == [] <==> forall x :: x in ids ==> x == ""
  {
    var q := Uniq(NonEmpty(ids));
    assert q != [] ==> q[0] in q;
    q
  }

  /** Inputs with the same non-empty ids, in whatever order and with whatever
      repetitions, hand the lookup the same ids, at most in another order. */
  lemma QueryIdsOrderInsensitive(a: seq<string>, b: seq<string>)
    requires forall x :: x != "" ==> (x in a <==> x in b)
    ensures multiset(QueryIds(a)) == multiset(QueryIds(b))
  {
    SameElementsNoDups(QueryIds(a), QueryIds(b));
  }

  /** The id -> name map built from the records the lookup returned. */
  function NameMap<R(!new)>(rows: seq<R>, idOf: R -> string, nameOf: R -> string): (m: map<string, string>)
    ensures m.Keys == set r | r in rows :: idOf(r)
  {
    LastWins(rows, idOf, nameOf)
  }

  /** Every returned record whose id is not repeated later contributes its own name. */
  lemma NameMapAt<R(!new)>(rows: seq<R>, idOf: R -> string, nameOf: R -> string, i: nat)
    requires i < |rows|
    requires forall j :: i < j < |rows| ==> idOf(rows[j]) != idOf(rows[i])
    ensures NameMap(rows, idOf, nameOf)[idOf(rows[i])] == nameOf(rows[i])
  {
    LastWinsAt(rows, idOf, nameOf, i);
  }

  /** The join. `find` is the repository's batch lookup by ids (FindMultiCacheByIDS);
      `queried` is the argument it was called with, None when it was not called. */
  method IdToName<R(!new)>(ids: seq<string>, find: seq<string> -> Result<seq<R>, Fault>,
                          idOf: R -> string, nameOf: R -> string)
    returns (resp: Result<map<string, string>, Fault>, queried: Option<seq<string>>)
    ensures queried.None? <==> forall x :: x in ids ==> x == ""
    ensures queried.Some? ==> queried.value == QueryIds(ids)
    ensures queried.None? ==> resp == Ok(map[])
    ensures queried.Some? && find(queried.value).Err? ==> resp == Err(find(queried.value).error)
    ensures queried.Some? && find(queried.value).Ok? ==>
              resp == Ok(NameMap(find(queried.value).value, idOf, nameOf))
  {
    var list := NonEmpty(ids);
    list := Uniq(list);
    assert list == QueryIds(ids);
    if |list| == 0 {
      return Ok(map[]), None;
    }
    queried := Some(list);
    var found := find(list);
    if found.Err? {
      return Err(found.error), queried;
    }
    var rows := found.value;
    var m: map<string, string> := map[];
    for i := 0 to |rows|
      invariant m == NameMap(rows[..i], idOf, nameOf)
    {
      assert rows[..i + 1][..i] == rows[..i];
      m := m[idOf(rows[i]) := nameOf(rows[i])];
    }
    assert rows[..|rows|] == rows;
    resp := Ok(m);
  }
}
