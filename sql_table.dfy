/** What the create and list routes rely on from the database: a table whose rows
    are column maps, an `INSERT` with named parameters that fails when a parameter
    is missing or a NOT NULL column gets null, the `AUTOINCREMENT` row id, the
    lookup of a row by id, and `ORDER BY created_at DESC`. */
module SqlTable {
  import opened Common
  import opened Sorting
  import opened StringOrder

  /** A row, or a JSON object body, as a map from column (or key) to value. */
  type Row = map<string, Value>

  /** `{ ...defaults, ...data }`: every key of either object, the caller's value
      winning over the default. */
  function Merge(defaults: Row, data: Row): (params: Row)
    ensures forall k :: k in params <==> k in defaults || k in data
    ensures forall k :: k in data ==> params[k] == data[k]
    ensures forall k :: k in defaults && k !in data ==> params[k] == defaults[k]
  {
    defaults + data
  }

  /** Every named parameter of the statement has a value. */
  predicate Binds(params: Row, columns: seq<string>) {
    forall c :: c in columns ==> c in params
  }

  /** The statement runs: no parameter is missing and no NOT NULL column is bound
      to null. */
  predicate Accepts(params: Row, columns: seq<string>, notNull: set<string>) {
    Binds(params, columns) && forall c :: c in notNull && c in columns ==> params[c] != Null
  }

  /** The row the statement stores: the named columns with their parameters, the
      time-stamp columns with the current time, and the new row id. */
  function Stored(params: Row, columns: seq<string>, stamps: seq<string>, id: int, now: string): (row: Row)
    requires Binds(params, columns)
    ensures forall c :: c in row <==> c in columns || c in stamps || c == "id"
    ensures row["id"] == Int(id)
    ensures forall c :: c in columns && c !in stamps && c != "id" ==> row[c] == params[c]
    ensures forall c :: c in stamps && c != "id" ==> row[c] == Text(now)
  {
    var named := map c | c in columns :: params[c];
    var stamped := map c | c in stamps :: Text(now);
    (named + stamped)["id" := Int(id)]
  }

  /** `SELECT * FROM t WHERE id = ?` with `.get`: the first row with that id. */
  function FindById(rows: seq<Row>, id: int): (r: Option<Row>)
    ensures r.Some? <==> exists i :: 0 <= i < |rows| && "id" in rows[i] && rows[i]["id"] == Int(id)
    ensures r.Some? ==> r.value in rows && "id" in r.value && r.value["id"] == Int(id)
  {
    if rows == [] then None
    else if "id" in rows[0] && rows[0]["id"] == Int(id) then Some(rows[0])
    else
      var r := FindById(rows[1..], id);
      assert forall i :: 1 <= i < |rows| ==> rows[i] == rows[1..][i - 1];
      r
  }

  /** Ids of stored rows never exceed the last id handed out. */
  predicate IdsBelow(rows: seq<Row>, last: int) {
    forall i :: 0 <= i < |rows| ==> "id" in rows[i] && rows[i]["id"].Int? && rows[i]["id"].i <= last
  }

  /** A row appended with an id above every earlier id is the one found by it. */
  lemma {:induction false} FindAppended(rows: seq<Row>, row: Row, last: int)
    requires IdsBelow(rows, last)
    requires "id" in row && row["id"] == Int(last + 1)
    ensures FindById(rows + [row], last + 1) == Some(row)
  {
    if rows != [] {
      assert (rows + [row])[1..] == rows[1..] + [row];
      assert IdsBelow(rows[1..], last) by {
        forall i | 0 <= i < |rows[1..]| ensures "id" in rows[1..][i] && rows[1..][i]["id"].Int? && rows[1..][i]["id"].i <= last {
          assert rows[1..][i] == rows[i + 1];
        }
      }
      FindAppended(rows[1..], row, last);
    }
  }

  /** One table: its columns fixed by the `INSERT` statement, the columns the
      database stamps with the current time, its NOT NULL columns, its rows and the
      `AUTOINCREMENT` counter. */
  class Table {
    const columns: seq<string>
    const stamps: seq<string>
    const notNull: set<string>
    var rows: seq<Row>
    var lastRowId: nat

    predicate Valid()
      reads this
    {
      IdsBelow(rows, lastRowId)
    }

    constructor (columns: seq<string>, stamps: seq<string>, notNull: set<string>)
      ensures Valid()
      ensures this.columns == columns && this.stamps == stamps && this.notNull == notNull
      ensures rows == [] && lastRowId == 0
    {
      this.columns := columns;
      this.stamps := stamps;
      this.notNull := notNull;
      rows := [];
      lastRowId := 0;
    }

    /** `stmt.run(params)`: stores one row under the next id and returns that id,
        or throws (`None`) and stores nothing. */
    method Run(params: Row, now: string) returns (id: Option<int>)
      requires Valid()
      modifies this
      ensures Valid()
      ensures Accepts(params, columns, notNull) ==>
                && lastRowId == old(lastRowId) + 1 && id == Some(lastRowId)
                && rows == old(rows) + [Stored(params, columns, stamps, lastRowId, now)]
      ensures !Accepts(params, columns, notNull) ==>
                id == None && rows == old(rows) && lastRowId == old(lastRowId)
    {
      if !Accepts(params, columns, notNull) {
        return None;
      }
      var row := Stored(params, columns, stamps, lastRowId + 1, now);
      rows := rows + [row];
      lastRowId := lastRowId + 1;
      id := Some(lastRowId);
    }

    /** `db.prepare("SELECT * FROM t WHERE id = ?").get(id)`. */
    function Get(id: int): (r: Option<Row>)
      reads this
      ensures r.Some? <==> exists i :: 0 <= i < |rows| && "id" in rows[i] && rows[i]["id"] == Int(id)
      ensures r.Some? ==> r.value in rows && "id" in r.value && r.value["id"] == Int(id)
    {
      FindById(rows, id)
    }
  }

  /** Insert `params`, then read back the row under the new id: the stored row is
      the one returned. */
  method InsertAndFetch(t: Table, params: Row, now: string) returns (row: Option<Row>)
    requires t.Valid()
    modifies t
    ensures t.Valid()
    ensures Accepts(params, t.columns, t.notNull) ==>
              && t.lastRowId == old(t.lastRowId) + 1
              && row == Some(Stored(params, t.columns, t.stamps, t.lastRowId, now))
              && t.rows == old(t.rows) + [row.value]
    ensures !Accepts(params, t.columns, t.notNull) ==>
              row == None && t.rows == old(t.rows) && t.lastRowId == old(t.lastRowId)
  {
    ghost var before := t.rows;
    var id := t.Run(params, now);
    if id.None? {
      return None;
    }
    FindAppended(before, t.rows[|t.rows| - 1], id.value - 1);
    assert before + [t.rows[|t.rows| - 1]] == t.rows;
    row := t.Get(id.value);
  }

  // ---------------------------------------------------------------------------
  // ORDER BY created_at DESC

  /** `a` was created no earlier than `b` (time stamps compare as text). */
  function NewerOrSame<T(!new)>(created: T -> string): (le: (T, T) -> bool)
    ensures forall a, b :: le(a, b) == LexLe(created(b), created(a))
  {
    (a: T, b: T) => LexLe(created(b), created(a))
  }

  lemma NewerOrSameIsTotalPreorder<T(!new)>(created: T -> string)
    ensures TotalPreorder(NewerOrSame(created))
  {
    var le := NewerOrSame(created);
    forall a: T, b: T ensures le(a, b) || le(b, a) {
      LexLeTotal(created(a), created(b));
    }
    forall a: T, b: T, c: T | le(a, b) && le(b, c) ensures le(a, c) {
      LexLeTransitive(created(c), created(b), created(a));
    }
  }

  /** The rows, newest first. */
  function NewestFirst<T(!new)>(rows: seq<T>, created: T -> string): (r: seq<T>)
    ensures multiset(r) == multiset(rows)
    ensures forall i, j :: 0 <= i < j < |r| ==> LexLe(created(r[j]), created(r[i]))
  {
    NewerOrSameIsTotalPreorder(created);
    var r := Sort(NewerOrSame(created), rows);
    assert SortedBy(NewerOrSame(created), r);
    r
  }
}
