/**
  Merge and derive: the left join of the lookup results onto the selected rows, the
  derived 'account_id' and 'status' columns, `drop_duplicates` and the projection to the
  eight exported columns.
*/
module Merge {
  import opened Wrappers
  import opened Normalizer

  /** One lookup result: `{'cpf': ..., 'userID': ..., 'name': ...}`. */
  datatype LookupResult = LookupResult(cpf: string, userId: Cell, name: Cell)

  /** A row of the left join before the derived columns are added. */
  datatype Joined = Joined(row: NormRow, userId: Cell, name: Cell)

  /** A row of the merged table: every column, including 'name' and 'cpf_valido'. */
  datatype MergedRow = MergedRow(row: NormRow, userId: Cell, name: Cell, accountId: Cell, status: string)

  /**
    An exported row, fields in the exported column order: 'cpf', 'userID', 'account_id', 'status',
    'ID', 'Data da Solicitacao', 'Data da Resolucao', 'Formulario Ticket'.
  */
  datatype FinalRow = FinalRow(cpf: string, userId: Cell, accountId: Cell, status: string,
                               id: Cell, requestDate: Cell, resolutionDate: Cell, ticketForm: Cell)

  const Registered: string := "CADASTRADO"
  const NotRegistered: string := "SEM CADASTRO"

  /** The results whose key is `cpf`, in result order. */
  function MatchesOf(cpf: string, results: seq<LookupResult>): (ms: seq<LookupResult>)
    ensures |ms| <= |results|
    ensures forall r :: r in ms <==> r in results && r.cpf == cpf
    ensures (forall r :: r in results ==> r.cpf != cpf) ==> ms == []
  {
    if results == [] then []
    else (if results[0].cpf == cpf then [results[0]] else []) + MatchesOf(cpf, results[1..])
  }

  /** The join rows of one left row: one per matching result, or a single row with null enrichment. */
  function JoinRow(row: NormRow, results: seq<LookupResult>): (js: seq<Joined>)
    ensures |js| >= 1
    ensures forall j :: j in js ==> j.row == row
  {
    var ms := MatchesOf(row.cpf, results);
    if ms == [] then [Joined(row, None, None)]
    else seq(|ms|, i requires 0 <= i < |ms| => Joined(row, ms[i].userId, ms[i].name))
  }

  /** Where a join row's enrichment comes from: a result with its key, or nothing when no result has it. */
  predicate JoinedFrom(j: Joined, results: seq<LookupResult>) {
    || (exists r :: r in results && r.cpf == j.row.cpf && r.userId == j.userId && r.name == j.name)
    || (j.userId == None && j.name == None && forall r :: r in results ==> r.cpf != j.row.cpf)
  }

  /** `pd.merge(rows, results, on='cpf', how='left')`. */
  function LeftJoin(rows: seq<NormRow>, results: seq<LookupResult>): (js: seq<Joined>)
    ensures |js| >= |rows|
    ensures forall j :: j in js ==> j.row in rows && JoinedFrom(j, results)
    ensures forall row :: row in rows && (forall r :: r in results ==> r.cpf != row.cpf) ==>
      Joined(row, None, None) in js
    ensures forall row, r :: row in rows && r in results && r.cpf == row.cpf ==>
      Joined(row, r.userId, r.name) in js
  {
    if rows == [] then []
    else
      var head := JoinRow(rows[0], results);
      var rest := LeftJoin(rows[1..], results);
      JoinRowFacts(rows[0], results);
      assert forall row :: row in rows ==> row == rows[0] || row in rows[1..];
      head + rest
  }

  lemma JoinRowFacts(row: NormRow, results: seq<LookupResult>)
    ensures forall j :: j in JoinRow(row, results) ==> JoinedFrom(j, results)
    ensures (forall r :: r in results ==> r.cpf != row.cpf) ==> JoinRow(row, results) == [Joined(row, None, None)]
    ensures forall r :: r in results && r.cpf == row.cpf ==> Joined(row, r.userId, r.name) in JoinRow(row, results)
  {
    var ms := MatchesOf(row.cpf, results);
    var js := JoinRow(row, results);
    if ms != [] {
      forall j | j in js ensures JoinedFrom(j, results) {
        var i :| 0 <= i < |js| && js[i] == j;
        assert ms[i] in ms;
      }
      forall r | r in results && r.cpf == row.cpf ensures Joined(row, r.userId, r.name) in js {
        var i :| 0 <= i < |ms| && ms[i] == r;
        assert js[i] == Joined(row, r.userId, r.name);
      }
    } else {
      assert forall r :: r in results ==> r !in ms;
    }
  }

  /** The matches of a concatenation of result lists are those of each part, in order. */
  lemma {:induction false} MatchesOfAppend(cpf: string, a: seq<LookupResult>, b: seq<LookupResult>)
    ensures MatchesOf(cpf, a + b) == MatchesOf(cpf, a) + MatchesOf(cpf, b)
  {
    if a == [] {
      assert a + b == b;
    } else {
      var ab := a + b;
      var h := if a[0].cpf == cpf then [a[0]] else [];
      assert ab[0] == a[0] && ab[1..] == a[1..] + b;
      calc {
        MatchesOf(cpf, ab);
        h + MatchesOf(cpf, a[1..] + b);
        { MatchesOfAppend(cpf, a[1..], b); }
        h + (MatchesOf(cpf, a[1..]) + MatchesOf(cpf, b));
        { AppendAssoc(h, MatchesOf(cpf, a[1..]), MatchesOf(cpf, b)); }
        (h + MatchesOf(cpf, a[1..])) + MatchesOf(cpf, b);
      }
    }
  }

  /**
    A row with matches joins exactly once per matching result, in result order, taking that
    result's id and name; a row without matches joins once, with null enrichment.
  */
  lemma JoinRowMatches(row: NormRow, results: seq<LookupResult>)
    ensures var ms := MatchesOf(row.cpf, results); var js := JoinRow(row, results);
      && (ms == [] ==> js == [Joined(row, None, None)])
      && (ms != [] ==> |js| == |ms| && forall i :: 0 <= i < |ms| ==> js[i] == Joined(row, ms[i].userId, ms[i].name))
  {
  }

  /** The left join works row by row: joining a concatenation of tables joins each part, in order. */
  lemma {:induction false} LeftJoinAppend(a: seq<NormRow>, b: seq<NormRow>, results: seq<LookupResult>)
    ensures LeftJoin(a + b, results) == LeftJoin(a, results) + LeftJoin(b, results)
  {
    if a == [] {
      assert a + b == b;
    } else {
      var ab := a + b;
      var h := JoinRow(a[0], results);
      assert ab[0] == a[0] && ab[1..] == a[1..] + b;
      calc {
        LeftJoin(ab, results);
        h + LeftJoin(a[1..] + b, results);
        { LeftJoinAppend(a[1..], b, results); }
        h + (LeftJoin(a[1..], results) + LeftJoin(b, results));
        { AppendAssoc(h, LeftJoin(a[1..], results), LeftJoin(b, results)); }
        (h + LeftJoin(a[1..], results)) + LeftJoin(b, results);
      }
    }
  }

  /** The left join of a single row is that row's join rows. */
  lemma LeftJoinSingle(row: NormRow, results: seq<LookupResult>)
    ensures LeftJoin([row], results) == JoinRow(row, results)
  {
    assert [row][1..] == [];
  }

  /** `calcular_sha256`: the digest of the textual user id, or null for a null id. */
  function AccountId(userId: Cell, hash: string -> string): Cell {
    if userId.Some? then Some(hash(userId.value)) else None
  }

  /** The 'status' column. */
  function Status(name: Cell): string {
    if name.Some? then Registered else NotRegistered
  }

  function Derive(j: Joined, hash: string -> string): MergedRow {
    MergedRow(j.row, j.userId, j.name, AccountId(j.userId, hash), Status(j.name))
  }

  predicate Distinct<T(==)>(s: seq<T>) {
    forall i, j :: 0 <= i < j < |s| ==> s[i] != s[j]
  }

  /** `drop_duplicates()`: keeps the first occurrence of every row, in order. */
  function DropDuplicates<T(==,!new)>(s: seq<T>): (r: seq<T>)
    ensures Distinct(r)
    ensures forall x :: x in r <==> x in s
    ensures |r| <= |s|
  {
    if s == [] then []
    else
      var p := DropDuplicates(s[..|s| - 1]);
      assert forall x :: x in s <==> x in s[..|s| - 1] || x == s[|s| - 1];
      if s[|s| - 1] in p then p else p + [s[|s| - 1]]
  }

  /** Dropping duplicates from rows that are already distinct changes nothing. */
  lemma {:induction false} DropDuplicatesOfDistinct<T(!new)>(s: seq<T>)
    requires Distinct(s)
    ensures DropDuplicates(s) == s
  {
    if s != [] {
      var init := s[..|s| - 1];
      assert Distinct(init);
      DropDuplicatesOfDistinct(init);
      assert s[|s| - 1] !in init;
      assert init + [s[|s| - 1]] == s;
    }
  }

  /** The projection to the exported columns. */
  function Project(m: MergedRow): FinalRow {
    FinalRow(m.row.cpf, m.userId, m.accountId, m.status, m.row.id, m.row.requestDate, m.row.resolutionDate, m.row.ticketForm)
  }

  /** The derived columns added to every join row, in order. */
  function DeriveAll(js: seq<Joined>, hash: string -> string): seq<MergedRow> {
    seq(|js|, i requires 0 <= i < |js| => Derive(js[i], hash))
  }

  /** The merged table: left join, derived columns, duplicates dropped. */
  function Merged(rows: seq<NormRow>, results: seq<LookupResult>, hash: string -> string): seq<MergedRow> {
    DropDuplicates(DeriveAll(LeftJoin(rows, results), hash))
  }

  /** The exported table, `df_final`. */
  function MergeTable(rows: seq<NormRow>, results: seq<LookupResult>, hash: string -> string): seq<FinalRow> {
    var ms := Merged(rows, results, hash);
    seq(|ms|, i requires 0 <= i < |ms| => Project(ms[i]))
  }

  /**
    Every merged row comes from a table row and its matching result (or none), carries
    'account_id' null exactly when 'userID' is null and the digest of 'userID' otherwise,
    and has status CADASTRADO exactly when 'name' is present; no two merged rows are equal.
  */
  lemma MergedRows(rows: seq<NormRow>, results: seq<LookupResult>, hash: string -> string)
    ensures Distinct(Merged(rows, results, hash))
    ensures forall m :: m in Merged(rows, results, hash) ==>
      && m.row in rows
      && JoinedFrom(Joined(m.row, m.userId, m.name), results)
      && (m.accountId == None <==> m.userId == None)
      && (m.userId.Some? ==> m.accountId == Some(hash(m.userId.value)))
      && (m.status == Registered <==> m.name.Some?)
      && (m.status == NotRegistered <==> m.name == None)
  {
    var js := LeftJoin(rows, results);
    var ds := DeriveAll(js, hash);
    assert Merged(rows, results, hash) == DropDuplicates(ds);
    forall m | m in ds
      ensures && m.row in rows
              && JoinedFrom(Joined(m.row, m.userId, m.name), results)
              && (m.accountId == None <==> m.userId == None)
              && (m.userId.Some? ==> m.accountId == Some(hash(m.userId.value)))
              && (m.status == Registered <==> m.name.Some?)
              && (m.status == NotRegistered <==> m.name == None)
    {
      var i :| 0 <= i < |ds| && ds[i] == m;
      assert js[i] in js;
      assert m == Derive(js[i], hash);
    }
  }

  /** A merged row for every table row: the left join loses no row, whatever the results. */
  lemma MergedCoversRows(rows: seq<NormRow>, results: seq<LookupResult>, hash: string -> string, row: NormRow)
    requires row in rows
    ensures (forall r :: r in results ==> r.cpf != row.cpf) ==>
      MergedRow(row, None, None, None, NotRegistered) in Merged(rows, results, hash)
    ensures forall r :: r in results && r.cpf == row.cpf ==>
      MergedRow(row, r.userId, r.name, AccountId(r.userId, hash), Status(r.name)) in Merged(rows, results, hash)
  {
    var js := LeftJoin(rows, results);
    var ds := DeriveAll(js, hash);
    forall j | j in js ensures Derive(j, hash) in ds {
      var i :| 0 <= i < |js| && js[i] == j;
      assert ds[i] == Derive(j, hash);
    }
  }

  /**
    The exported table: every row of it keeps the columns of some table row, its 'account_id'
    follows 'userID', and its status is one of the two labels.
  */
  lemma MergeTableRows(rows: seq<NormRow>, results: seq<LookupResult>, hash: string -> string)
    ensures forall f :: f in MergeTable(rows, results, hash) ==>
      && (exists row :: row in rows && f.cpf == row.cpf && f.id == row.id && f.requestDate == row.requestDate
                        && f.resolutionDate == row.resolutionDate && f.ticketForm == row.ticketForm)
      && (f.accountId == None <==> f.userId == None)
      && (f.userId.Some? ==> f.accountId == Some(hash(f.userId.value)))
      && (f.status == Registered || f.status == NotRegistered)
  {
    var ms := Merged(rows, results, hash);
    var fs := MergeTable(rows, results, hash);
    MergedRows(rows, results, hash);
    forall f | f in fs
      ensures && (exists row :: row in rows && f.cpf == row.cpf && f.id == row.id && f.requestDate == row.requestDate
                                && f.resolutionDate == row.resolutionDate && f.ticketForm == row.ticketForm)
              && (f.accountId == None <==> f.userId == None)
              && (f.userId.Some? ==> f.accountId == Some(hash(f.userId.value)))
              && (f.status == Registered || f.status == NotRegistered)
    {
      var i :| 0 <= i < |fs| && fs[i] == f;
      var m := ms[i];
      assert m in ms && f == Project(m);
      assert m.row in rows;
    }
  }

  /** A table row with no matching result is exported with null 'userID' and 'account_id' and status SEM CADASTRO. */
  lemma MergeTableUnmatched(rows: seq<NormRow>, results: seq<LookupResult>, hash: string -> string, row: NormRow)
    requires row in rows && forall r :: r in results ==> r.cpf != row.cpf
    ensures FinalRow(row.cpf, None, None, NotRegistered, row.id, row.requestDate, row.resolutionDate, row.ticketForm)
      in MergeTable(rows, results, hash)
  {
    var ms := Merged(rows, results, hash);
    MergedCoversRows(rows, results, hash, row);
    var m := MergedRow(row, None, None, None, NotRegistered);
    var i :| 0 <= i < |ms| && ms[i] == m;
    assert MergeTable(rows, results, hash)[i] == Project(m);
  }

  /**
    With no lookup results the exported table is every table row unmatched: each row is exported
    with null 'userID' and 'account_id' and status SEM CADASTRO, and no exported row has anything else.
  */
  lemma UnmatchedTable(rows: seq<NormRow>, hash: string -> string)
    ensures forall f :: f in MergeTable(rows, [], hash) ==>
      f.userId == None && f.accountId == None && f.status == NotRegistered
    ensures forall row :: row in rows ==>
      FinalRow(row.cpf, None, None, NotRegistered, row.id, row.requestDate, row.resolutionDate, row.ticketForm)
        in MergeTable(rows, [], hash)
  {
    var ms := Merged(rows, [], hash);
    var fs := MergeTable(rows, [], hash);
    MergedRows(rows, [], hash);
    forall f | f in fs
      ensures f.userId == None && f.accountId == None && f.status == NotRegistered
    {
      var i :| 0 <= i < |fs| && fs[i] == f;
      var m := ms[i];
      assert m in ms && f == Project(m);
      assert JoinedFrom(Joined(m.row, m.userId, m.name), []);
    }
    forall row | row in rows
      ensures FinalRow(row.cpf, None, None, NotRegistered, row.id, row.requestDate, row.resolutionDate, row.ticketForm) in fs
    {
      MergeTableUnmatched(rows, [], hash, row);
    }
  }

  /** A table row with a matching result is exported with that result's id, its digest and its status. */
  lemma MergeTableMatched(rows: seq<NormRow>, results: seq<LookupResult>, hash: string -> string,
                          row: NormRow, r: LookupResult)
    requires row in rows && r in results && r.cpf == row.cpf
    ensures FinalRow(row.cpf, r.userId, AccountId(r.userId, hash), Status(r.name),
                     row.id, row.requestDate, row.resolutionDate, row.ticketForm) in MergeTable(rows, results, hash)
  {
    var ms := Merged(rows, results, hash);
    MergedCoversRows(rows, results, hash, row);
    var m := MergedRow(row, r.userId, r.name, AccountId(r.userId, hash), Status(r.name));
    var i :| 0 <= i < |ms| && ms[i] == m;
    assert MergeTable(rows, results, hash)[i] == Project(m);
  }

  predicate UniqueKeys(results: seq<LookupResult>) {
    forall i, j :: 0 <= i < j < |results| ==> results[i].cpf != results[j].cpf
  }

  lemma {:induction false} MatchesOfUnique(cpf: string, results: seq<LookupResult>)
    requires UniqueKeys(results)
    ensures |MatchesOf(cpf, results)| <= 1
  {
    if results != [] {
      MatchesOfUnique(cpf, results[1..]);
      if results[0].cpf == cpf {
        forall r | r in results[1..] ensures r.cpf != cpf {
          var k :| 0 <= k < |results[1..]| && results[1..][k] == r;
          assert results[k + 1] == r;
        }
        assert MatchesOf(cpf, results[1..]) == [];
      }
    }
  }

  /** With at most one result per CPF the left join keeps the table's rows one for one, in order. */
  lemma {:induction false} LeftJoinOneToOne(rows: seq<NormRow>, results: seq<LookupResult>)
    requires UniqueKeys(results)
    ensures |LeftJoin(rows, results)| == |rows|
    ensures forall i :: 0 <= i < |rows| ==> LeftJoin(rows, results)[i].row == rows[i]
  {
    if rows != [] {
      MatchesOfUnique(rows[0].cpf, results);
      LeftJoinOneToOne(rows[1..], results);
      var head := JoinRow(rows[0], results);
      var rest := LeftJoin(rows[1..], results);
      assert |head| == 1 && head[0].row == rows[0];
      KeepsRowsCons(rows[0], rows[1..], head, rest);
      assert [rows[0]] + rows[1..] == rows;
      assert LeftJoin(rows, results) == head + rest;
    }
  }

  /** One join row for the first table row, followed by rows kept one for one, keeps them one for one. */
  lemma KeepsRowsCons(row: NormRow, rows: seq<NormRow>, head: seq<Joined>, rest: seq<Joined>)
    requires |head| == 1 && head[0].row == row
    requires |rest| == |rows| && forall i :: 0 <= i < |rows| ==> rest[i].row == rows[i]
    ensures |head + rest| == |[row] + rows|
    ensures forall i :: 0 <= i < |rows| + 1 ==> (head + rest)[i].row == ([row] + rows)[i]
  {
  }

  /**
    Duplicates are dropped over the merged columns, 'name' included, before the projection:
    two results for one CPF with the same id and different names give two equal exported rows.
  */
  lemma ProjectionKeepsRepeats(row: NormRow, a: LookupResult, b: LookupResult, hash: string -> string)
    requires a.cpf == row.cpf && b.cpf == row.cpf && a.userId == b.userId
    requires a.name.Some? && b.name.Some? && a.name != b.name
    ensures var t := MergeTable([row], [a, b], hash);
      |t| == 2 && t[0] == t[1]
  {
    var m0, m1 := Derive(Joined(row, a.userId, a.name), hash), Derive(Joined(row, b.userId, b.name), hash);
    TwoMatchesMerged(row, a, b, hash);
    assert Project(m0) == Project(m1);
  }

  /** A row with two different matching results gives two merged rows, one for each. */
  lemma TwoMatchesMerged(row: NormRow, a: LookupResult, b: LookupResult, hash: string -> string)
    requires a.cpf == row.cpf && b.cpf == row.cpf && a.name != b.name
    ensures Merged([row], [a, b], hash) == [Derive(Joined(row, a.userId, a.name), hash), Derive(Joined(row, b.userId, b.name), hash)]
  {
    TwoMatchesJoin(row, a, b);
    var j0, j1 := Joined(row, a.userId, a.name), Joined(row, b.userId, b.name);
    var ds := [Derive(j0, hash), Derive(j1, hash)];
    assert DeriveAll([j0, j1], hash) == ds;
    assert Distinct(ds);
    DropDuplicatesOfDistinct(ds);
  }

  /** A row with two matching results joins twice, once with each, in the order of the results. */
  lemma TwoMatchesJoin(row: NormRow, a: LookupResult, b: LookupResult)
    requires a.cpf == row.cpf && b.cpf == row.cpf
    ensures LeftJoin([row], [a, b]) == [Joined(row, a.userId, a.name), Joined(row, b.userId, b.name)]
  {
    var results := [a, b];
    assert MatchesOf(row.cpf, results[1..]) == [b];
    assert MatchesOf(row.cpf, results) == results;
    assert [row][1..] == [] && LeftJoin([], results) == [];
    assert LeftJoin([row], results) == JoinRow(row, results) + LeftJoin([row][1..], results);
  }
}
