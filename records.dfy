/** The History table: case records, the queries the routes run over them, and how SQLite numbers new rows. */
module Records {
  import opened Common
  import opened Text

  /** One row of the History table. */
  datatype History = History(
    id: nat,
    userId: nat,
    patientName: string,
    date: string,
    condition: string,
    imagePath: string)

  /** Rows are kept in rowid order, and SQLite hands out rowids in increasing order. */
  ghost predicate Ascending(hs: seq<History>)
  {
    forall i, j :: 0 <= i < j < |hs| ==> hs[i].id < hs[j].id
  }

  /** One filter clause of a History query. */
  datatype Clause =
    | UserIs(owner: Option<nat>)   // filter_by(user_id=...); None compiles to IS NULL and keeps no row
    | UserIsNot(other: nat)        // the rows that survive deleting a user's histories
    | NameLike(query: string)      // patient_name.ilike('%query%')
    | IdNotIn(ids: set<nat>)       // the rows not yet deleted in the current session

  predicate Holds(h: History, c: Clause)
  {
    match c
    case UserIs(owner) => owner == Some(h.userId)
    case UserIsNot(other) => h.userId != other
    case NameLike(query) => ContainsIgnoringCase(h.patientName, query)
    case IdNotIn(ids) => h.id !in ids
  }

  /** A row passes a chain of `.filter(...)` calls when it satisfies every clause. */
  predicate MatchesAll(h: History, cs: seq<Clause>)
  {
    cs == [] || (Holds(h, cs[0]) && MatchesAll(h, cs[1..]))
  }

  /** `query.filter(...).all()`: the rows that pass every clause, in table order. */
  function Where(hs: seq<History>, cs: seq<Clause>): (r: seq<History>)
    ensures |r| <= |hs|
    ensures forall h :: h in r <==> h in hs && MatchesAll(h, cs)
  {
    if hs == [] then []
    else
      assert hs == [hs[0]] + hs[1..];
      if MatchesAll(hs[0], cs) then [hs[0]] + Where(hs[1..], cs) else Where(hs[1..], cs)
  }

  /** Filtering keeps table order. */
  lemma {:induction false} WhereAscending(hs: seq<History>, cs: seq<Clause>)
    requires Ascending(hs)
    ensures Ascending(Where(hs, cs))
  {
    if hs != [] {
      var rest := Where(hs[1..], cs);
      WhereAscending(hs[1..], cs);
      forall h | h in rest ensures hs[0].id < h.id {
        var k :| 0 <= k < |hs[1..]| && hs[1..][k] == h;
        assert hs[k + 1] == h;
      }
      if MatchesAll(hs[0], cs) {
        var r := [hs[0]] + rest;
        forall i, j | 0 <= i < j < |r| ensures r[i].id < r[j].id {
          assert r[j] == rest[j - 1];
          if i > 0 {
            assert r[i] == rest[i - 1];
          }
        }
      }
    }
  }

  /** Two clause chains that agree on every row select the same rows. */
  lemma {:induction false} WhereExt(hs: seq<History>, a: seq<Clause>, b: seq<Clause>)
    requires forall h :: h in hs ==> (MatchesAll(h, a) <==> MatchesAll(h, b))
    ensures Where(hs, a) == Where(hs, b)
  {
    if hs != [] {
      assert hs == [hs[0]] + hs[1..];
      WhereExt(hs[1..], a, b);
    }
  }

  /** Rows that pass every clause are all kept. */
  lemma {:induction false} WhereKeepsAll(hs: seq<History>, cs: seq<Clause>)
    requires forall h :: h in hs ==> MatchesAll(h, cs)
    ensures Where(hs, cs) == hs
  {
    if hs != [] {
      assert hs == [hs[0]] + hs[1..];
      WhereKeepsAll(hs[1..], cs);
    }
  }

  /** Chaining two filters is filtering by both clause chains. */
  lemma {:induction false} WhereWhere(hs: seq<History>, a: seq<Clause>, b: seq<Clause>)
    ensures Where(Where(hs, a), b) == Where(hs, a + b)
  {
    if hs != [] {
      assert hs == [hs[0]] + hs[1..];
      WhereWhere(hs[1..], a, b);
      MatchesAllAppend(hs[0], a, b);
    }
  }

  lemma {:induction false} MatchesAllAppend(h: History, a: seq<Clause>, b: seq<Clause>)
    ensures MatchesAll(h, a + b) <==> MatchesAll(h, a) && MatchesAll(h, b)
  {
    if a != [] {
      assert (a + b)[1..] == a[1..] + b;
      MatchesAllAppend(h, a[1..], b);
    } else {
      assert a + b == b;
    }
  }

  /** A chain of one or two clauses means what its clauses say. */
  lemma ShortChains(c: Clause, d: Clause)
    ensures forall h :: MatchesAll(h, [c]) <==> Holds(h, c)
    ensures forall h :: MatchesAll(h, [c, d]) <==> Holds(h, c) && Holds(h, d)
  {
    assert [c][1..] == [];
    assert [c, d][1..] == [d];
    forall h ensures MatchesAll(h, [c, d]) <==> Holds(h, c) && Holds(h, d) {
      assert MatchesAll(h, [d]) <==> Holds(h, d);
    }
  }

  /** The session check `if not user_id`: a missing id and id 0 both count as logged out. */
  predicate LoggedIn(session: Option<nat>)
    ensures LoggedIn(session) <==> session !in {None, Some(0)}
  {
    session.Some? && session.value != 0
  }

  /** The number of rows the recent listing shows. */
  const RecentLimit: nat := 4

  /** The `histories` route: `filter_by(user_id=user_id).limit(4).all()`, with no login check. */
  function Recent(hs: seq<History>, session: Option<nat>): (r: seq<History>)
    ensures |r| <= RecentLimit
    ensures forall h :: h in r ==> h in hs && session == Some(h.userId)
    ensures r <= Where(hs, [UserIs(session)])
    ensures |r| == RecentLimit || r == Where(hs, [UserIs(session)])
  {
    var mine := Where(hs, [UserIs(session)]);
    ShortChains(UserIs(session), UserIs(session));
    if |mine| <= RecentLimit then mine else mine[..RecentLimit]
  }

  /** The `all_histories` route: nothing when logged out; otherwise the caller's rows whose patient name
      contains the query ignoring case, or all of the caller's rows when the query is empty. */
  function Search(hs: seq<History>, session: Option<nat>, query: string): (r: Option<seq<History>>)
    ensures r.None? <==> !LoggedIn(session)
    ensures r.Some? ==> forall h :: h in r.value <==>
      h in hs && h.userId == session.value && ContainsIgnoringCase(h.patientName, query)
    ensures r.Some? && Ascending(hs) ==> Ascending(r.value)
  {
    if !LoggedIn(session) then None
    else if query != "" then
      ShortChains(UserIs(session), NameLike(query));
      WhereAscendingWhenSorted(hs, [UserIs(session), NameLike(query)]);
      Some(Where(hs, [UserIs(session), NameLike(query)]))
    else
      ShortChains(UserIs(session), NameLike(query));
      EmptyQueryMatchesAll(query);
      WhereAscendingWhenSorted(hs, [UserIs(session)]);
      Some(Where(hs, [UserIs(session)]))
  }

  lemma EmptyQueryMatchesAll(query: string)
    requires query == ""
    ensures forall h :: Holds(h, NameLike(query))
  {
    forall h ensures Holds(h, NameLike(query)) { EmptyQueryMatches(h.patientName); }
  }

  lemma WhereAscendingWhenSorted(hs: seq<History>, cs: seq<Clause>)
    ensures Ascending(hs) ==> Ascending(Where(hs, cs))
  {
    if Ascending(hs) { WhereAscending(hs, cs); }
  }

  /** The empty-query branch is the `ilike('%%')` query: every query, empty or not, selects the caller's
      rows whose names contain it, and the empty query lists every row of the caller. */
  lemma {:induction false} SearchIsOneQuery(hs: seq<History>, session: Option<nat>, query: string)
    requires LoggedIn(session)
    ensures Search(hs, session, query) == Some(Where(hs, [UserIs(session), NameLike(query)]))
    ensures Search(hs, session, "") == Some(Where(hs, [UserIs(session)]))
  {
    ShortChains(UserIs(session), NameLike(""));
    EmptyQueryMatchesAll("");
    WhereExt(hs, [UserIs(session), NameLike("")], [UserIs(session)]);
  }

  /** The recent listing is the first rows of the full listing. */
  lemma RecentIsPrefixOfSearch(hs: seq<History>, session: Option<nat>)
    requires LoggedIn(session)
    ensures Recent(hs, session) <= Search(hs, session, "").value
  {
  }

  /** `History.query.get(id)`: the row with that id, by primary key and without any owner check. */
  function Lookup(hs: seq<History>, id: nat): (r: Option<History>)
    ensures r.Some? ==> r.value in hs && r.value.id == id
    ensures r.None? <==> forall h :: h in hs ==> h.id != id
  {
    if hs == [] then None
    else if hs[0].id == id then Some(hs[0])
    else
      assert hs == [hs[0]] + hs[1..];
      Lookup(hs[1..], id)
  }

  /** Ids are unique in a table in rowid order, so the lookup finds the very row. */
  lemma LookupFindsRow(hs: seq<History>, h: History)
    requires Ascending(hs) && h in hs
    ensures Lookup(hs, h.id) == Some(h)
  {
    var g := Lookup(hs, h.id).value;
    var i :| 0 <= i < |hs| && hs[i] == g;
    var j :| 0 <= j < |hs| && hs[j] == h;
    assert i == j;
  }

  /** The largest id in the table, 0 when it is empty. */
  function MaxId(hs: seq<History>): (m: nat)
    ensures forall h :: h in hs ==> h.id <= m
    ensures hs != [] ==> exists h :: h in hs && h.id == m
  {
    if hs == [] then 0
    else
      assert hs == [hs[0]] + hs[1..];
      var rest := MaxId(hs[1..]);
      if hs[0].id >= rest then hs[0].id else rest
  }

  /** SQLite's rowid for a new row: one more than the largest, 1 for an empty table. */
  function NextId(hs: seq<History>): (n: nat)
    ensures n >= 1
    ensures forall h :: h in hs ==> h.id < n
  {
    MaxId(hs) + 1
  }

  /** A row whose id exceeds every present id can be appended without breaking rowid order. */
  lemma AppendKeepsAscending(hs: seq<History>, h: History)
    requires Ascending(hs)
    requires forall g :: g in hs ==> g.id < h.id
    ensures Ascending(hs + [h])
  {
    var r := hs + [h];
    forall i, j | 0 <= i < j < |r| ensures r[i].id < r[j].id {
      assert r[i] == hs[i];
      if j < |hs| { assert r[j] == hs[j]; } else { assert hs[i] in hs; }
    }
  }

  /** The ids of some rows. */
  function IdSet(hs: seq<History>): set<nat>
  {
    set h | h in hs :: h.id
  }

  /** Deleting the ids of a user's rows leaves exactly the rows of the other users. */
  lemma DropOwnedLeavesOthers(hs: seq<History>, uid: nat)
    requires Ascending(hs)
    ensures Where(hs, [IdNotIn(IdSet(Where(hs, [UserIs(Some(uid))])))]) == Where(hs, [UserIsNot(uid)])
  {
    var ids := IdSet(Where(hs, [UserIs(Some(uid))]));
    forall h | h in hs ensures MatchesAll(h, [IdNotIn(ids)]) <==> MatchesAll(h, [UserIsNot(uid)]) {
      if h.userId == uid {
        assert MatchesAll(h, [UserIs(Some(uid))]);
        assert h.id in ids;
      }
      if h.id in ids {
        var g :| g in Where(hs, [UserIs(Some(uid))]) && g.id == h.id;
        var i :| 0 <= i < |hs| && hs[i] == g;
        var j :| 0 <= j < |hs| && hs[j] == h;
        assert i == j;
        assert Holds(g, UserIs(Some(uid)));
      }
    }
    WhereExt(hs, [IdNotIn(ids)], [UserIsNot(uid)]);
  }

  /** Removing one user's rows leaves every other user's listing as it was, and none of that user's. */
  lemma {:induction false} DeletionKeepsOthers(hs: seq<History>, uid: nat, other: nat)
    ensures other != uid ==>
      Where(Where(hs, [UserIsNot(uid)]), [UserIs(Some(other))]) == Where(hs, [UserIs(Some(other))])
    ensures Where(Where(hs, [UserIsNot(uid)]), [UserIs(Some(uid))]) == []
  {
    WhereWhere(hs, [UserIsNot(uid)], [UserIs(Some(other))]);
    if other != uid {
      forall h | h in hs
        ensures MatchesAll(h, [UserIsNot(uid)] + [UserIs(Some(other))]) <==> MatchesAll(h, [UserIs(Some(other))])
      {
        MatchesAllAppend(h, [UserIsNot(uid)], [UserIs(Some(other))]);
      }
      WhereExt(hs, [UserIsNot(uid)] + [UserIs(Some(other))], [UserIs(Some(other))]);
    }
    var gone := Where(Where(hs, [UserIsNot(uid)]), [UserIs(Some(uid))]);
    if gone != [] {
      assert gone[0] in gone;
      ShortChains(UserIs(Some(uid)), UserIsNot(uid));
    }
  }
}
