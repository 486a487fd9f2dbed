/** The scraped, added-history and do-not-add tables of db.py, with the counter that drives the purge. */
module Database {
  import opened Common

  datatype Row = Row(username: string, firstName: string, lastName: string, phone: string, groupId: int,
                     groupName: string)

  const ADD_PURGE_EVERY: nat := 300
  const PAGE: nat := 500

  /** The tables as values: history is keyed by group and user, the other two by user. */
  datatype Tables = Tables(
    scraped: map<int, Row>,
    history: map<(int, int), string>,
    doNotAdd: map<int, string>,
    purgeCount: nat)
  {
    function AddedIds(): set<int> { set k | k in history :: k.1 }

    function Blocked(): set<int> { AddedIds() + doNotAdd.Keys }

    /** Users still in the scraped table although they have been added somewhere. */
    function Overlap(): set<int> { scraped.Keys * AddedIds() }
  }

  // ---------------------------------------------------------------- each function of db.py on values

  /** INSERT .. ON CONFLICT (user_id) DO UPDATE of the three name columns. */
  function Upsert(scraped: map<int, Row>, uid: int, row: Row): map<int, Row> {
    if uid in scraped then
      scraped[uid := scraped[uid].(username := row.username, firstName := row.firstName, lastName := row.lastName)]
    else scraped[uid := row]
  }

  /** The bulk form also replaces the phone, but never by an empty one. */
  function UpsertBulk(scraped: map<int, Row>, uid: int, row: Row): map<int, Row> {
    if uid in scraped then
      var kept := if row.phone == "" then scraped[uid].phone else row.phone;
      scraped[uid := scraped[uid].(username := row.username, firstName := row.firstName,
                                   lastName := row.lastName, phone := kept)]
    else scraped[uid := row]
  }

  function SaveUser(t: Tables, uid: int, row: Row): Tables {
    if uid in t.Blocked() then t else t.(scraped := Upsert(t.scraped, uid, row))
  }

  /** The rows that survive the blocked filter, in order. */
  function Admissible(users: seq<(int, Row)>, blocked: set<int>): seq<(int, Row)> {
    if users == [] then []
    else (if users[0].0 in blocked then [] else [users[0]]) + Admissible(users[1..], blocked)
  }

  function InsertRows(scraped: map<int, Row>, rows: seq<(int, Row)>): map<int, Row>
    decreases |rows|
  {
    if rows == [] then scraped else InsertRows(UpsertBulk(scraped, rows[0].0, rows[0].1), rows[1..])
  }

  /** How many rows the next statement of a bulk insert carries, of n that are left. */
  function PageSize(n: nat): nat { if n < PAGE then n else PAGE }

  /** The server refuses a statement that names one user twice: a conflict may update no row a second time. */
  predicate NoRepeats(page: seq<(int, Row)>) {
    forall i, j :: 0 <= i < j < |page| ==> page[i].0 != page[j].0
  }

  /**
   * How many of the rows land.  Each page is one statement, committed by itself, and lands whole or not at
   * all; the first that fails ends the insert.  statements is how many the server carries out before a
   * fault of its own.
   */
  function Landed(rows: seq<(int, Row)>, statements: nat): (n: nat)
    ensures n <= |rows|
    decreases |rows|
  {
    var n := PageSize(|rows|);
    if rows == [] || statements == 0 || !NoRepeats(rows[..n]) then 0
    else n + Landed(rows[n..], statements - 1)
  }

  /** The rows of a bulk insert that reach the table. */
  function Landing(t: Tables, users: seq<(int, Row)>, statements: nat): seq<(int, Row)> {
    var rows := Admissible(users, t.Blocked());
    rows[..Landed(rows, statements)]
  }

  function BulkSave(t: Tables, users: seq<(int, Row)>, statements: nat): Tables {
    t.(scraped := InsertRows(t.scraped, Landing(t, users, statements)))
  }

  function PurgeAdded(t: Tables): Tables {
    t.(scraped := t.scraped - t.AddedIds())
  }

  function PurgeDoNotAdd(t: Tables): Tables {
    t.(scraped := t.scraped - t.doNotAdd.Keys)
  }

  function AutoPurge(t: Tables): Tables {
    if t.purgeCount + 1 >= ADD_PURGE_EVERY then PurgeAdded(t.(purgeCount := 0))
    else t.(purgeCount := t.purgeCount + 1)
  }

  function MarkAdded(t: Tables, group: int, uid: int, phone: string): Tables {
    AutoPurge(if (group, uid) in t.history then t else t.(history := t.history[(group, uid) := phone]))
  }

  function ListDoNotAdd(t: Tables, uid: int, reason: string): Tables {
    t.(doNotAdd := t.doNotAdd[uid := reason])
  }

  function DeleteUsers(t: Tables, uids: set<int>): Tables {
    t.(scraped := t.scraped - uids)
  }

  /** never_add_again of add_engine.py: list the user as do-not-add, then delete the scraped row. */
  function NeverAddAgain(t: Tables, uid: int, reason: string): Tables {
    DeleteUsers(ListDoNotAdd(t, uid, reason), {uid})
  }

  // ---------------------------------------------------------------- histories

  /** Everything the program does to these tables; Restart loses the in-memory purge counter. */
  datatype Op =
    | OpSave(uid: int, row: Row)
    | OpBulkSave(users: seq<(int, Row)>, statements: nat)
    | OpMarkAdded(group: int, uid: int, phone: string)
    | OpNeverAddAgain(uid: int, reason: string)
    | OpDelete(uids: set<int>)
    | OpPurgeAdded
    | OpPurgeDoNotAdd
    | OpRestart

  function Do(t: Tables, op: Op): Tables {
    match op
    case OpSave(uid, row) => SaveUser(t, uid, row)
    case OpBulkSave(users, statements) => BulkSave(t, users, statements)
    case OpMarkAdded(group, uid, phone) => MarkAdded(t, group, uid, phone)
    case OpNeverAddAgain(uid, reason) => NeverAddAgain(t, uid, reason)
    case OpDelete(uids) => DeleteUsers(t, uids)
    case OpPurgeAdded => PurgeAdded(t)
    case OpPurgeDoNotAdd => PurgeDoNotAdd(t)
    case OpRestart => t.(purgeCount := 0)
  }

  function After(t: Tables, ops: seq<Op>): Tables
    decreases |ops|
  {
    if ops == [] then t else After(Do(t, ops[0]), ops[1..])
  }

  function Restarts(ops: seq<Op>): nat {
    if ops == [] then 0 else (if ops[0].OpRestart? then 1 else 0) + Restarts(ops[1..])
  }

  lemma {:induction false} AdmissibleIds(users: seq<(int, Row)>, blocked: set<int>)
    ensures forall r :: r in Admissible(users, blocked) ==> r.0 !in blocked
  {
    if users != [] {
      AdmissibleIds(users[1..], blocked);
    }
  }

  lemma {:induction false} InsertRowsKeys(scraped: map<int, Row>, rows: seq<(int, Row)>)
    ensures InsertRows(scraped, rows).Keys == scraped.Keys + (set r | r in rows :: r.0)
    decreases |rows|
  {
    if rows != [] {
      InsertRowsKeys(UpsertBulk(scraped, rows[0].0, rows[0].1), rows[1..]);
      assert rows == [rows[0]] + rows[1..];
      assert (set r | r in rows :: r.0) == {rows[0].0} + (set r | r in rows[1..] :: r.0);
    }
  }

  /** Saving, one by one or in bulk, only ever brings in users that are not blocked. */
  lemma SavesAdmitOnlyUnblocked(t: Tables, op: Op)
    requires op.OpSave? || op.OpBulkSave?
    ensures Do(t, op) == t.(scraped := Do(t, op).scraped)
    ensures t.scraped.Keys <= Do(t, op).scraped.Keys
    ensures forall uid :: uid in Do(t, op).scraped && uid !in t.scraped ==> uid !in t.Blocked()
  {
    if op.OpBulkSave? {
      AdmissibleIds(op.users, t.Blocked());
      InsertRowsKeys(t.scraped, Landing(t, op.users, op.statements));
    }
  }

  lemma {:induction false} AdmissibleKeeps(users: seq<(int, Row)>, blocked: set<int>)
    ensures forall u :: u in users && u.0 !in blocked ==> u in Admissible(users, blocked)
    ensures forall u :: u in Admissible(users, blocked) ==> u in users
  {
    if users != [] {
      AdmissibleKeeps(users[1..], blocked);
      assert forall u :: u in users ==> u == users[0] || u in users[1..];
    }
  }

  // ---------------------------------------------------------------- what a bulk insert leaves

  function Statements(n: nat): nat { (n + PAGE - 1) / PAGE }

  /** No page of the insert names a user twice. */
  ghost predicate PagesClean(rows: seq<(int, Row)>) {
    forall i, j :: 0 <= i < j < |rows| && i / PAGE == j / PAGE ==> rows[i].0 != rows[j].0
  }

  lemma PagesCleanSplit(rows: seq<(int, Row)>)
    requires rows != []
    ensures var n := PageSize(|rows|); PagesClean(rows) <==> NoRepeats(rows[..n]) && PagesClean(rows[n..])
  {
    var n := PageSize(|rows|);
    if PagesClean(rows) {
      forall i, j | 0 <= i < j < |rows[n..]| && i / PAGE == j / PAGE ensures rows[n..][i].0 != rows[n..][j].0 {
        assert (i + n) / PAGE == (j + n) / PAGE;
        assert rows[i + n].0 != rows[j + n].0;
      }
    }
    if NoRepeats(rows[..n]) && PagesClean(rows[n..]) {
      forall i, j | 0 <= i < j < |rows| && i / PAGE == j / PAGE ensures rows[i].0 != rows[j].0 {
        if j < n {
          assert rows[..n][i].0 != rows[..n][j].0;
        } else {
          assert i >= n;
          assert (i - n) / PAGE == (j - n) / PAGE;
          assert rows[n..][i - n].0 != rows[n..][j - n].0;
        }
      }
    }
  }

  /** Everything lands exactly when the server carries out every page and no page names a user twice. */
  lemma {:induction false} AllLandIff(rows: seq<(int, Row)>, statements: nat)
    ensures Landed(rows, statements) == |rows| <==> statements >= Statements(|rows|) && PagesClean(rows)
    decreases |rows|
  {
    if rows != [] {
      var n := PageSize(|rows|);
      PagesCleanSplit(rows);
      if statements > 0 {
        AllLandIff(rows[n..], statements - 1);
        assert Statements(|rows|) == 1 + Statements(|rows[n..]|);
      }
    }
  }

  lemma PageAhead(rows: seq<(int, Row)>, n: nat, l: nat)
    requires n == PageSize(|rows|) && 0 < n <= l <= |rows|
    requires NoRepeats(rows[..n]) && PagesClean(rows[n..][..l - n])
    ensures PagesClean(rows[..l])
  {
    assert rows[..l][..n] == rows[..n] && rows[..l][n..] == rows[n..][..l - n];
    PagesCleanSplit(rows[..l]);
  }

  /** What lands is a number of whole pages, none of which names a user twice. */
  lemma {:induction false} LandedPagesAreClean(rows: seq<(int, Row)>, statements: nat)
    ensures var n := Landed(rows, statements); PagesClean(rows[..n]) && (n == |rows| || n % PAGE == 0)
    decreases |rows|
  {
    var n, l := PageSize(|rows|), Landed(rows, statements);
    if l != 0 {
      var rest := rows[n..];
      LandedPagesAreClean(rest, statements - 1);
      PageAhead(rows, n, l);
    }
  }

  /**
   * A bulk insert stores exactly the users of the rows that land beside those already there; when no page
   * names a user twice and the server does not fail, those are all the users that are not blocked.
   */
  lemma BulkSaveStoresAll(t: Tables, users: seq<(int, Row)>, statements: nat)
    ensures BulkSave(t, users, statements).scraped.Keys
         == t.scraped.Keys + (set r | r in Landing(t, users, statements) :: r.0)
    ensures var rows := Admissible(users, t.Blocked());
            PagesClean(rows) && statements >= Statements(|rows|) ==>
              BulkSave(t, users, statements).scraped.Keys
              == t.scraped.Keys + ((set u | u in users :: u.0) - t.Blocked())
  {
    var rows := Admissible(users, t.Blocked());
    InsertRowsKeys(t.scraped, Landing(t, users, statements));
    AllLandIff(rows, statements);
    if Landed(rows, statements) == |rows| {
      AdmissibleIds(users, t.Blocked());
      AdmissibleKeeps(users, t.Blocked());
      assert rows[..|rows|] == rows;
      assert (set r | r in rows :: r.0) == (set u | u in users :: u.0) - t.Blocked();
    }
  }

  /** One user given twice among the first 500 rows, and nobody at all is saved. */
  lemma RepeatLosesThePage(t: Tables, users: seq<(int, Row)>, statements: nat)
    requires var rows := Admissible(users, t.Blocked()); !NoRepeats(rows[..PageSize(|rows|)])
    ensures BulkSave(t, users, statements) == t
  {
    var rows := Admissible(users, t.Blocked());
    assert Landed(rows, statements) == 0;
    assert rows[..0] == [];
  }

  lemma {:induction false} OthersUntouched(scraped: map<int, Row>, rows: seq<(int, Row)>, uid: int)
    requires forall i :: 0 <= i < |rows| ==> rows[i].0 != uid
    ensures uid in InsertRows(scraped, rows) <==> uid in scraped
    ensures uid in scraped ==> InsertRows(scraped, rows)[uid] == scraped[uid]
    decreases |rows|
  {
    if rows != [] {
      OthersUntouched(UpsertBulk(scraped, rows[0].0, rows[0].1), rows[1..], uid);
    }
  }

  /** A page is one statement: each of its rows meets the table as it was before, and their order is no matter. */
  lemma {:induction false} PageIsOneStatement(scraped: map<int, Row>, page: seq<(int, Row)>, j: nat)
    requires NoRepeats(page) && j < |page|
    ensures page[j].0 in InsertRows(scraped, page)
    ensures InsertRows(scraped, page)[page[j].0] == UpsertBulk(scraped, page[j].0, page[j].1)[page[j].0]
    decreases |page|
  {
    var next := UpsertBulk(scraped, page[0].0, page[0].1);
    if j == 0 {
      OthersUntouched(next, page[1..], page[0].0);
    } else {
      PageIsOneStatement(next, page[1..], j - 1);
    }
  }

  lemma {:induction false} InsertOneMore(scraped: map<int, Row>, rows: seq<(int, Row)>, uid: int, row: Row)
    ensures InsertRows(scraped, rows + [(uid, row)]) == UpsertBulk(InsertRows(scraped, rows), uid, row)
    decreases |rows|
  {
    if rows == [] {
      assert rows + [(uid, row)] == [(uid, row)];
      assert InsertRows(scraped, [(uid, row)]) == InsertRows(UpsertBulk(scraped, uid, row), []);
    } else {
      assert (rows + [(uid, row)])[1..] == rows[1..] + [(uid, row)];
      InsertOneMore(UpsertBulk(scraped, rows[0].0, rows[0].1), rows[1..], uid, row);
    }
  }

  /** The last phone that rows gives for uid and that is not empty, or else the one there was. */
  function PhoneAfter(rows: seq<(int, Row)>, uid: int, was: string): string {
    if rows == [] then was
    else
      var (u, r) := rows[|rows| - 1];
      if u == uid && r.phone != "" then r.phone else PhoneAfter(rows[..|rows| - 1], uid, was)
  }

  /** rows[j] is the last row for uid. */
  ghost predicate LastFor(rows: seq<(int, Row)>, j: nat, uid: int) {
    j < |rows| && rows[j].0 == uid && forall i :: j < i < |rows| ==> rows[i].0 != uid
  }

  predicate SameNames(a: Row, b: Row) {
    a.username == b.username && a.firstName == b.firstName && a.lastName == b.lastName
  }

  /** Inserting rows leaves a user the names of the last row for it. */
  lemma {:induction false} NamesAfterInserts(scraped: map<int, Row>, rows: seq<(int, Row)>, uid: int, j: nat)
    requires LastFor(rows, j, uid)
    ensures uid in InsertRows(scraped, rows) && SameNames(InsertRows(scraped, rows)[uid], rows[j].1)
    decreases |rows|
  {
    var k := |rows| - 1;
    var (u, row) := rows[k];
    assert rows == rows[..k] + [(u, row)];
    InsertOneMore(scraped, rows[..k], u, row);
    if j < k {
      assert rows[k].0 != uid;
      assert LastFor(rows[..k], j, uid);
      NamesAfterInserts(scraped, rows[..k], uid, j);
    }
  }

  /** And the last phone that is not empty, and the group it was first seen in. */
  lemma {:induction false} PhoneAfterInserts(scraped: map<int, Row>, rows: seq<(int, Row)>, uid: int)
    requires uid in InsertRows(scraped, rows)
    ensures InsertRows(scraped, rows)[uid].phone
         == PhoneAfter(rows, uid, if uid in scraped then scraped[uid].phone else "")
    ensures uid in scraped ==>
              && InsertRows(scraped, rows)[uid].groupId == scraped[uid].groupId
              && InsertRows(scraped, rows)[uid].groupName == scraped[uid].groupName
    decreases |rows|
  {
    if rows != [] {
      var k := |rows| - 1;
      var (u, row) := rows[k];
      assert rows == rows[..k] + [(u, row)];
      InsertOneMore(scraped, rows[..k], u, row);
      if uid in InsertRows(scraped, rows[..k]) {
        PhoneAfterInserts(scraped, rows[..k], uid);
      } else {
        InsertRowsKeys(scraped, rows[..k]);
        NoPhoneWithoutRow(rows[..k], uid, "");
      }
    }
  }

  /**
   * What a bulk insert leaves for a user, which occurs at most once in each page that lands: the last phone
   * that is not empty, the group it was first seen in, and the names of the last row that landed for it.
   */
  lemma RowAfterBulkSave(t: Tables, users: seq<(int, Row)>, statements: nat, uid: int)
    requires uid in BulkSave(t, users, statements).scraped
    ensures var rows, row := Landing(t, users, statements), BulkSave(t, users, statements).scraped[uid];
            && PagesClean(rows)
            && row.phone == PhoneAfter(rows, uid, if uid in t.scraped then t.scraped[uid].phone else "")
            && (uid in t.scraped ==> row.groupId == t.scraped[uid].groupId && row.groupName == t.scraped[uid].groupName)
            && (forall j: nat :: LastFor(rows, j, uid) ==> SameNames(row, rows[j].1))
  {
    LandedPagesAreClean(Admissible(users, t.Blocked()), statements);
    var rows := Landing(t, users, statements);
    PhoneAfterInserts(t.scraped, rows, uid);
    forall j: nat | LastFor(rows, j, uid) ensures SameNames(InsertRows(t.scraped, rows)[uid], rows[j].1) {
      NamesAfterInserts(t.scraped, rows, uid, j);
    }
  }

  lemma {:induction false} NoPhoneWithoutRow(rows: seq<(int, Row)>, uid: int, was: string)
    requires forall r :: r in rows ==> r.0 != uid
    ensures PhoneAfter(rows, uid, was) == was
  {
    if rows != [] {
      assert rows[|rows| - 1] in rows;
      NoPhoneWithoutRow(rows[..|rows| - 1], uid, was);
    }
  }

  /** Marking adds one id to the history; nothing is ever removed from it. */
  lemma MarkAddedIds(t: Tables, group: int, uid: int, phone: string)
    ensures MarkAdded(t, group, uid, phone).AddedIds() == t.AddedIds() + {uid}
    ensures MarkAdded(t, group, uid, phone).doNotAdd == t.doNotAdd
    ensures MarkAdded(t, group, uid, phone).scraped.Keys <= t.scraped.Keys
  {
    var t' := if (group, uid) in t.history then t else t.(history := t.history[(group, uid) := phone]);
    assert t'.AddedIds() == t.AddedIds() + {uid} by {
      assert (group, uid) in t'.history;
      forall x | x in t.AddedIds() + {uid} ensures x in t'.AddedIds() {
        if x != uid {
          var k :| k in t.history && k.1 == x;
          assert k in t'.history;
        }
      }
    }
  }

  /** No operation removes anybody from the blocked ids. */
  lemma BlockedGrows(t: Tables, op: Op)
    ensures t.Blocked() <= Do(t, op).Blocked()
  {
    match op
    case OpSave(_, _) => SavesAdmitOnlyUnblocked(t, op);
    case OpBulkSave(_, _) => SavesAdmitOnlyUnblocked(t, op);
    case OpMarkAdded(group, uid, phone) => MarkAddedIds(t, group, uid, phone);
    case _ =>
  }

  /** A user is never both scraped and listed as do-not-add, and the purge counter bounds the overlap. */
  ghost predicate Clean(t: Tables, restarts: nat) {
    && (forall uid :: uid in t.scraped ==> uid !in t.doNotAdd)
    && t.purgeCount < ADD_PURGE_EVERY
    && |t.Overlap()| <= t.purgeCount + (ADD_PURGE_EVERY - 1) * restarts
  }

  lemma SubsetSize(a: set<int>, b: set<int>)
    requires a <= b
    ensures |a| <= |b|
  {
    assert b == a + (b - a);
  }

  lemma DoKeepsClean(t: Tables, op: Op, restarts: nat)
    requires Clean(t, restarts)
    ensures Clean(Do(t, op), restarts + (if op.OpRestart? then 1 else 0))
  {
    match op
    case OpSave(_, _) => SaveKeepsClean(t, op, restarts);
    case OpBulkSave(_, _) => SaveKeepsClean(t, op, restarts);
    case OpMarkAdded(group, uid, phone) => MarkKeepsClean(t, group, uid, phone, restarts);
    case OpRestart => assert Do(t, op).Overlap() == t.Overlap();
    case OpNeverAddAgain(uid, reason) => RemovalKeepsClean(t, Do(t, op), restarts);
    case _ => RemovalKeepsClean(t, Do(t, op), restarts);
  }

  lemma SaveKeepsClean(t: Tables, op: Op, restarts: nat)
    requires Clean(t, restarts) && (op.OpSave? || op.OpBulkSave?)
    ensures Clean(Do(t, op), restarts)
  {
    SavesAdmitOnlyUnblocked(t, op);
    GrowthKeepsClean(t, Do(t, op), restarts);
  }

  lemma GrowthKeepsClean(t: Tables, t': Tables, restarts: nat)
    requires Clean(t, restarts)
    requires t' == t.(scraped := t'.scraped) && t.scraped.Keys <= t'.scraped.Keys
    requires forall uid :: uid in t'.scraped && uid !in t.scraped ==> uid !in t.Blocked()
    ensures Clean(t', restarts)
  {
    assert t'.AddedIds() == t.AddedIds();
    forall uid | uid in t'.Overlap() ensures uid in t.Overlap() {
      assert uid in t.Blocked();
    }
    SubsetSize(t'.Overlap(), t.Overlap());
  }

  lemma RemovalKeepsClean(t: Tables, t': Tables, restarts: nat)
    requires Clean(t, restarts)
    requires t'.history == t.history && t'.purgeCount == t.purgeCount && t'.scraped.Keys <= t.scraped.Keys
    requires forall uid :: uid in t'.scraped && uid in t'.doNotAdd ==> uid in t.doNotAdd
    ensures Clean(t', restarts)
  {
    assert t'.Overlap() <= t.Overlap();
    SubsetSize(t'.Overlap(), t.Overlap());
  }

  lemma MarkKeepsClean(t: Tables, group: int, uid: int, phone: string, restarts: nat)
    requires Clean(t, restarts)
    ensures Clean(MarkAdded(t, group, uid, phone), restarts)
  {
    var t' := MarkAdded(t, group, uid, phone);
    MarkAddedIds(t, group, uid, phone);
    if t.purgeCount + 1 >= ADD_PURGE_EVERY {
      assert t'.Overlap() == {};
    } else {
      assert t'.Overlap() <= t.Overlap() + {uid};
      SubsetSize(t'.Overlap(), t.Overlap() + {uid});
    }
  }

  /**
   * Over every history: no user is in both the scraped and the do-not-add table, and at most 299 users
   * per life of the process are in both the scraped table and the added history.
   */
  lemma {:induction false} TablesStayClean(t: Tables, ops: seq<Op>, restarts: nat)
    requires Clean(t, restarts)
    ensures Clean(After(t, ops), restarts + Restarts(ops))
    ensures forall uid :: uid in After(t, ops).scraped ==> uid !in After(t, ops).doNotAdd
    ensures |After(t, ops).Overlap()| <= 299 * (restarts + Restarts(ops) + 1)
    decreases |ops|
  {
    if ops != [] {
      DoKeepsClean(t, ops[0], restarts);
      TablesStayClean(Do(t, ops[0]), ops[1..], restarts + (if ops[0].OpRestart? then 1 else 0));
    }
  }

  /** Starting with no overlap and a fresh counter, a process that is not restarted never exceeds 299. */
  lemma OverlapBelowPurgePeriod(t: Tables, ops: seq<Op>)
    requires (forall uid :: uid in t.scraped ==> uid !in t.doNotAdd) && t.Overlap() == {} && t.purgeCount == 0
    requires Restarts(ops) == 0
    ensures |After(t, ops).Overlap()| <= 299
  {
    TablesStayClean(t, ops, 0);
  }

  const EMPTY := Tables(map[], map[], map[], 0)

  lemma {:induction false} AfterAppend(t: Tables, ops: seq<Op>, op: Op)
    ensures After(t, ops + [op]) == Do(After(t, ops), op)
    ensures Restarts(ops + [op]) == Restarts(ops) + Restarts([op])
    decreases |ops|
  {
    if ops == [] {
      assert ops + [op] == [op];
      assert After(t, [op]) == After(Do(t, op), []);
    } else {
      assert (ops + [op])[1..] == ops[1..] + [op];
      AfterAppend(Do(t, ops[0]), ops[1..], op);
    }
  }

  /** The bound is reached: every overlap up to 299 comes about by scraping and then adding that many users. */
  lemma {:induction false} OverlapIsReached(k: nat) returns (ops: seq<Op>)
    requires k <= 299
    ensures Restarts(ops) == 0
    ensures var t := After(EMPTY, ops);
            && |t.Overlap()| == k && t.purgeCount == k && t.doNotAdd == map[]
            && (forall uid :: uid in t.AddedIds() ==> uid < k)
  {
    if k == 0 {
      ops := [];
      assert EMPTY.Overlap() == {};
    } else {
      var before := OverlapIsReached(k - 1);
      var row := Row("u", "", "", "", 0, "");
      var save, mark := OpSave(k - 1, row), OpMarkAdded(0, k - 1, "");
      ops := before + [save] + [mark];
      AfterAppend(EMPTY, before, save);
      AfterAppend(EMPTY, before + [save], mark);
      OneMoreOverlap(After(EMPTY, before), k - 1, row);
    }
  }

  lemma OneMoreOverlap(t: Tables, uid: nat, row: Row)
    requires t.doNotAdd == map[] && t.purgeCount == uid < 299
    requires forall u :: u in t.AddedIds() ==> u < uid
    ensures var t' := Do(Do(t, OpSave(uid, row)), OpMarkAdded(0, uid, ""));
            && t'.Overlap() == t.Overlap() + {uid} && uid !in t.Overlap()
            && t'.purgeCount == uid + 1 && t'.doNotAdd == map[] && t'.AddedIds() == t.AddedIds() + {uid}
  {
    var u := SaveUser(t, uid, row);
    assert uid !in t.Blocked();
    assert u.AddedIds() == t.AddedIds();
    MarkAddedIds(u, 0, uid, "");
  }

  /** A blocked user that is out of the scraped table stays out of it, and stays blocked, for ever. */
  lemma {:induction false} BlockedNeverReturns(t: Tables, ops: seq<Op>, uid: int)
    requires uid in t.Blocked() && uid !in t.scraped
    ensures uid in After(t, ops).Blocked() && uid !in After(t, ops).scraped
    decreases |ops|
  {
    if ops != [] {
      BlockedGrows(t, ops[0]);
      match ops[0] {
        case OpSave(_, _) => SavesAdmitOnlyUnblocked(t, ops[0]);
        case OpBulkSave(_, _) => SavesAdmitOnlyUnblocked(t, ops[0]);
        case OpMarkAdded(group, u, phone) => MarkAddedIds(t, group, u, phone);
        case _ =>
      }
      BlockedNeverReturns(Do(t, ops[0]), ops[1..], uid);
    }
  }

  lemma {:induction false} AdmissibleAppend(users: seq<(int, Row)>, u: (int, Row), blocked: set<int>)
    ensures Admissible(users + [u], blocked) == Admissible(users, blocked) + (if u.0 in blocked then [] else [u])
  {
    if users == [] {
      assert (users + [u])[1..] == [];
    } else {
      assert (users + [u])[1..] == users[1..] + [u];
      AdmissibleAppend(users[1..], u, blocked);
      Regroup(if users[0].0 in blocked then [] else [users[0]], Admissible(users[1..], blocked),
              if u.0 in blocked then [] else [u]);
    }
  }

  lemma {:induction false} InsertConcat(scraped: map<int, Row>, xs: seq<(int, Row)>, ys: seq<(int, Row)>)
    ensures InsertRows(scraped, xs + ys) == InsertRows(InsertRows(scraped, xs), ys)
    decreases |xs|
  {
    if xs == [] {
      assert xs + ys == ys;
    } else {
      assert (xs + ys)[1..] == xs[1..] + ys;
      InsertConcat(UpsertBulk(scraped, xs[0].0, xs[0].1), xs[1..], ys);
    }
  }

  lemma LandPage(scraped: map<int, Row>, todo: seq<(int, Row)>, left: nat)
    requires todo != [] && left > 0 && NoRepeats(todo[..PageSize(|todo|)])
    ensures var n := PageSize(|todo|);
            InsertRows(scraped, todo[..Landed(todo, left)])
            == InsertRows(InsertRows(scraped, todo[..n]), todo[n..][..Landed(todo[n..], left - 1)])
  {
    var n := PageSize(|todo|);
    var l := Landed(todo[n..], left - 1);
    assert todo[..n + l] == todo[..n] + todo[n..][..l];
    InsertConcat(scraped, todo[..n], todo[n..][..l]);
  }

  // ---------------------------------------------------------------- who stays, who goes, and with which row

  ghost predicate EverAdded(t: Tables, uid: int) { exists g: int :: (g, uid) in t.history }

  lemma AddedMeansSomewhere(t: Tables, uid: int)
    ensures uid in t.AddedIds() <==> EverAdded(t, uid)
  {
    if uid in t.AddedIds() {
      var k :| k in t.history && k.1 == uid;
      var g := k.0;
      assert (g, uid) == k;
      assert EverAdded(t, uid);
    }
    if g: int :| (g, uid) in t.history {
      var k := (g, uid);
      assert k in t.history && k.1 == uid;
    }
  }

  /** An operation removes exactly these users from the scraped table. */
  ghost predicate Removes(t: Tables, op: Op, uid: int) {
    match op
    case OpDelete(uids) => uid in uids
    case OpNeverAddAgain(u, _) => uid == u
    case OpPurgeAdded => EverAdded(t, uid)
    case OpPurgeDoNotAdd => uid in t.doNotAdd
    case OpMarkAdded(_, u, _) => t.purgeCount + 1 >= 300 && (EverAdded(t, uid) || uid == u)
    case _ => false
  }

  /**
   * A user leaves the scraped table exactly if it is deleted, refused, purged as added anywhere, purged as
   * do-not-add, or in the history when the 300th mark purges; nothing else takes a row out.
   */
  lemma LeavesScrapedIff(t: Tables, op: Op, uid: int)
    requires uid in t.scraped
    ensures uid !in Do(t, op).scraped <==> Removes(t, op, uid)
  {
    match op
    case OpSave(_, _) => SavesAdmitOnlyUnblocked(t, op);
    case OpBulkSave(_, _) => SavesAdmitOnlyUnblocked(t, op);
    case OpMarkAdded(group, u, phone) =>
      MarkAddedIds(t, group, u, phone);
      AddedMeansSomewhere(t, uid);
    case _ => AddedMeansSomewhere(t, uid);
  }

  ghost predicate NoDelete(ops: seq<Op>, uid: int) {
    forall op :: op in ops && op.OpDelete? ==> uid !in op.uids
  }

  lemma {:induction false} BlockedGrowsOver(t: Tables, ops: seq<Op>)
    ensures t.Blocked() <= After(t, ops).Blocked()
    decreases |ops|
  {
    if ops != [] {
      BlockedGrows(t, ops[0]);
      BlockedGrowsOver(Do(t, ops[0]), ops[1..]);
    }
  }

  /** What removes a user, other than a deletion, also blocks it or found it blocked. */
  lemma RemovedAreBlocked(t: Tables, op: Op, uid: int)
    requires Removes(t, op, uid) && !op.OpDelete?
    ensures uid in Do(t, op).Blocked()
  {
    AddedMeansSomewhere(t, uid);
    BlockedGrows(t, op);
    match op
    case OpMarkAdded(group, u, phone) => MarkAddedIds(t, group, u, phone);
    case _ =>
  }

  /** Over every history: a scraped user that nobody deletes, and that is not blocked at the end, is still there. */
  lemma {:induction false} UnblockedStay(t: Tables, ops: seq<Op>, uid: int)
    requires uid in t.scraped && NoDelete(ops, uid) && uid !in After(t, ops).Blocked()
    ensures uid in After(t, ops).scraped
    decreases |ops|
  {
    if ops != [] {
      assert ops[0] in ops && forall op :: op in ops[1..] ==> op in ops;
      BlockedGrowsOver(Do(t, ops[0]), ops[1..]);
      LeavesScrapedIff(t, ops[0], uid);
      if Removes(t, ops[0], uid) {
        RemovedAreBlocked(t, ops[0], uid);
        assert false;
      }
      UnblockedStay(Do(t, ops[0]), ops[1..], uid);
    }
  }

  /** No save names the user. */
  predicate Names(op: Op, uid: int) {
    (op.OpSave? && op.uid == uid) || (op.OpBulkSave? && exists i :: 0 <= i < |op.users| && op.users[i].0 == uid)
  }

  lemma UnnamedKeepsRow(t: Tables, op: Op, uid: int)
    requires uid in t.scraped && uid in Do(t, op).scraped && !Names(op, uid)
    ensures Do(t, op).scraped[uid] == t.scraped[uid]
  {
    if op.OpBulkSave? {
      var rows := Admissible(op.users, t.Blocked());
      AdmissibleKeeps(op.users, t.Blocked());
      var landing := Landing(t, op.users, op.statements);
      forall i | 0 <= i < |landing| ensures landing[i].0 != uid {
        assert landing[i] == rows[i] && rows[i] in rows;
      }
      OthersUntouched(t.scraped, landing, uid);
    }
  }

  lemma UnnamedStaysOut(t: Tables, op: Op, uid: int)
    requires uid !in t.scraped && !Names(op, uid)
    ensures uid !in Do(t, op).scraped
  {
    if op.OpBulkSave? {
      var rows := Admissible(op.users, t.Blocked());
      AdmissibleKeeps(op.users, t.Blocked());
      var landing := Landing(t, op.users, op.statements);
      forall i | 0 <= i < |landing| ensures landing[i].0 != uid {
        assert landing[i] == rows[i] && rows[i] in rows;
      }
      OthersUntouched(t.scraped, landing, uid);
    }
  }

  /** Over every history: a user that no save names comes in never, and while it is there keeps its row. */
  lemma {:induction false} RowsChangeOnlyByName(t: Tables, ops: seq<Op>, uid: int)
    requires forall op :: op in ops ==> !Names(op, uid)
    ensures uid in After(t, ops).scraped ==> uid in t.scraped && After(t, ops).scraped[uid] == t.scraped[uid]
    decreases |ops|
  {
    if ops != [] {
      assert ops[0] in ops && forall op :: op in ops[1..] ==> op in ops;
      if uid !in t.scraped {
        UnnamedStaysOut(t, ops[0], uid);
      } else if uid in Do(t, ops[0]).scraped {
        UnnamedKeepsRow(t, ops[0], uid);
      }
      RowsChangeOnlyByName(Do(t, ops[0]), ops[1..], uid);
    }
  }

  /**
   * Saving one user that is not blocked: a new one is stored as given; one already there gets the new names
   * and keeps its phone and group.  A blocked one changes nothing.
   */
  lemma SaveStores(t: Tables, uid: int, row: Row)
    ensures var t' := Do(t, OpSave(uid, row));
            if uid in t.doNotAdd || EverAdded(t, uid) then t' == t
            else
              && uid in t'.scraped
              && (uid !in t.scraped ==> t'.scraped[uid] == row)
              && (uid in t.scraped ==>
                    && SameNames(t'.scraped[uid], row)
                    && t'.scraped[uid].phone == t.scraped[uid].phone
                    && t'.scraped[uid].groupId == t.scraped[uid].groupId
                    && t'.scraped[uid].groupName == t.scraped[uid].groupName)
  {
    AddedMeansSomewhere(t, uid);
  }

  /** rows[j] is the first row for uid. */
  ghost predicate FirstFor(rows: seq<(int, Row)>, j: nat, uid: int) {
    j < |rows| && rows[j].0 == uid && forall i :: 0 <= i < j ==> rows[i].0 != uid
  }

  /** A user that a bulk insert brings in gets the group of its first row. */
  lemma {:induction false} NewRowHasFirstGroup(scraped: map<int, Row>, rows: seq<(int, Row)>, uid: int, j: nat)
    requires uid !in scraped && FirstFor(rows, j, uid)
    ensures uid in InsertRows(scraped, rows)
    ensures InsertRows(scraped, rows)[uid].groupId == rows[j].1.groupId
    ensures InsertRows(scraped, rows)[uid].groupName == rows[j].1.groupName
    decreases |rows|
  {
    var next := UpsertBulk(scraped, rows[0].0, rows[0].1);
    if j == 0 {
      InsertRowsKeys(next, rows[1..]);
      PhoneAfterInserts(next, rows[1..], uid);
    } else {
      NewRowHasFirstGroup(next, rows[1..], uid, j - 1);
    }
  }

  /** The history keeps the first phone for each group and user, and gains exactly the pair marked. */
  lemma MarkStores(t: Tables, group: int, uid: int, phone: string)
    ensures var h := Do(t, OpMarkAdded(group, uid, phone)).history;
            && (group, uid) in h
            && h[(group, uid)] == (if (group, uid) in t.history then t.history[(group, uid)] else phone)
            && (forall k :: k != (group, uid) ==> (k in h <==> k in t.history))
            && (forall k :: k in t.history ==> k in h && h[k] == t.history[k])
    ensures Do(t, OpMarkAdded(group, uid, phone)).purgeCount == if t.purgeCount + 1 >= 300 then 0 else t.purgeCount + 1
  {
  }

  /** A refusal is listed under its latest reason, takes the user's row away, and touches nothing else. */
  lemma RefusalStores(t: Tables, uid: int, reason: string)
    ensures var t' := Do(t, OpNeverAddAgain(uid, reason));
            && t'.history == t.history && t'.purgeCount == t.purgeCount
            && uid in t'.doNotAdd && t'.doNotAdd[uid] == reason && uid !in t'.scraped
            && (forall u :: u != uid ==> (u in t'.doNotAdd <==> u in t.doNotAdd))
            && (forall u :: u != uid ==> (u in t'.scraped <==> u in t.scraped))
            && (forall u :: u != uid && u in t.doNotAdd ==> t'.doNotAdd[u] == t.doNotAdd[u])
            && (forall u :: u != uid && u in t.scraped ==> t'.scraped[u] == t.scraped[u])
  {
  }

  // ---------------------------------------------------------------- the tables as updated in place

  class Database {
    var scraped: map<int, Row>
    var history: map<(int, int), string>
    var doNotAdd: map<int, string>
    var purgeCount: nat

    ghost function Value(): Tables
      reads this
    {
      Tables(scraped, history, doNotAdd, purgeCount)
    }

    method SaveUser(uid: int, row: Row)
      modifies this
      ensures Value() == Do(old(Value()), OpSave(uid, row))
    {
      var dna := IsDoNotAdd(uid);
      var added := IsAddedAnywhere(uid);
      if dna || added {
        return;
      }
      if uid in scraped {
        var r := scraped[uid];
        scraped := scraped[uid := r.(username := row.username, firstName := row.firstName, lastName := row.lastName)];
      } else {
        scraped := scraped[uid := row];
      }
    }

    method IsDoNotAdd(uid: int) returns (r: bool)
      ensures r == (uid in doNotAdd)
    {
      r := uid in doNotAdd;
    }

    method IsAddedAnywhere(uid: int) returns (r: bool)
      ensures r == (uid in Value().AddedIds())
    {
      r := exists k :: k in history && k.1 == uid;
    }

    /** The rows that survive the filter, blocked ids being asked for only among the users given. */
    method FilterBlocked(users: seq<(int, Row)>) returns (rows: seq<(int, Row)>)
      ensures rows == Admissible(users, Value().Blocked())
    {
      var blocked := (set u | u in users && u.0 in doNotAdd :: u.0) + (set k | k in history :: k.1);
      assert forall u :: u in users ==> (u.0 in blocked <==> u.0 in Value().Blocked());
      ghost var all := Value().Blocked();
      rows := [];
      var i := 0;
      while i < |users|
        invariant 0 <= i <= |users|
        invariant rows == Admissible(users[..i], all)
      {
        AdmissibleAppend(users[..i], users[i], all);
        assert users[..i + 1] == users[..i] + [users[i]];
        if users[i].0 !in blocked {
          rows := rows + [users[i]];
        }
        i := i + 1;
      }
      assert users[..i] == users;
    }

    /** The rows that are not blocked, page by page until a statement fails. */
    method BulkSaveUsers(users: seq<(int, Row)>, statements: nat)
      modifies this
      ensures Value() == Do(old(Value()), OpBulkSave(users, statements))
    {
      var rows := FilterBlocked(users);
      ExecuteValues(rows, statements);
    }

    /** execute_values: the rows in pages, one statement each, until one fails. */
    method ExecuteValues(rows: seq<(int, Row)>, statements: nat)
      modifies this`scraped
      ensures scraped == InsertRows(old(scraped), rows[..Landed(rows, statements)])
    {
      var todo, left := rows, statements;
      while todo != []
        invariant InsertRows(scraped, todo[..Landed(todo, left)])
               == InsertRows(old(scraped), rows[..Landed(rows, statements)])
        decreases |todo|
      {
        var n := PageSize(|todo|);
        if left == 0 || !NoRepeats(todo[..n]) {
          return;
        }
        LandPage(scraped, todo, left);
        InsertPage(todo[..n]);
        todo, left := todo[n..], left - 1;
      }
    }

    /** One statement. */
    method InsertPage(page: seq<(int, Row)>)
      requires NoRepeats(page)
      modifies this`scraped
      ensures scraped == InsertRows(old(scraped), page)
    {
      var i := 0;
      while i < |page|
        invariant 0 <= i <= |page|
        invariant InsertRows(scraped, page[i..]) == InsertRows(old(scraped), page)
      {
        var (uid, row) := page[i];
        assert page[i..][0] == page[i] && page[i..][1..] == page[i + 1..];
        if uid in scraped {
          var r := scraped[uid];
          scraped := scraped[uid := r.(username := row.username, firstName := row.firstName, lastName := row.lastName,
                                       phone := if row.phone == "" then r.phone else row.phone)];
        } else {
          scraped := scraped[uid := row];
        }
        i := i + 1;
      }
      assert page[i..] == [];
    }

    /** The blocked ids by two queries, as get_blocked_user_ids runs them. */
    method GetBlockedUserIds() returns (r: set<int>)
      ensures r == Value().Blocked()
    {
      r := set k | k in history :: k.1;
      r := r + doNotAdd.Keys;
    }

    method MarkAdded(group: int, uid: int, phone: string)
      modifies this
      ensures Value() == Do(old(Value()), OpMarkAdded(group, uid, phone))
    {
      if (group, uid) !in history {
        history := history[(group, uid) := phone];
      }
      MaybeAutopurge();
    }

    method MaybeAutopurge()
      modifies this
      ensures Value() == AutoPurge(old(Value()))
    {
      purgeCount := purgeCount + 1;
      if purgeCount >= ADD_PURGE_EVERY {
        purgeCount := 0;
        PurgeAddedUsers();
      }
    }

    method PurgeAddedUsers()
      modifies this
      ensures Value() == PurgeAdded(old(Value()))
      ensures forall uid :: uid in scraped <==> uid in old(scraped) && !exists g: int :: (g, uid) in history
      ensures forall uid :: uid in scraped ==> scraped[uid] == old(scraped)[uid]
    {
      forall uid ensures uid in Value().AddedIds() <==> exists g: int :: (g, uid) in history {
        AddedMeansSomewhere(Value(), uid);
      }
      scraped := map uid | uid in scraped && !(exists k :: k in history && k.1 == uid) :: scraped[uid];
    }

    method AddDoNotAdd(uid: int, reason: string)
      modifies this
      ensures Value() == ListDoNotAdd(old(Value()), uid, reason)
    {
      doNotAdd := doNotAdd[uid := reason];
    }

    method DeleteUsersBulk(uids: set<int>)
      modifies this
      ensures Value() == DeleteUsers(old(Value()), uids)
    {
      scraped := scraped - uids;
    }

    method PurgeDoNotAddUsers()
      modifies this
      ensures Value() == PurgeDoNotAdd(old(Value()))
    {
      scraped := map uid | uid in scraped && uid !in doNotAdd :: scraped[uid];
    }

    /** A new life of the process: the counter of the purge starts again. */
    method Restart()
      modifies this
      ensures Value() == Do(old(Value()), OpRestart)
    {
      purgeCount := 0;
    }

    /** Whether a row was there to delete, as the row count of the statement tells. */
    method DeleteUser(uid: int) returns (deleted: bool)
      modifies this
      ensures Value() == DeleteUsers(old(Value()), {uid})
      ensures deleted == (uid in old(scraped))
    {
      deleted := uid in scraped;
      scraped := scraped - {uid};
    }
  }
}
