/** `GET /api/pens` (every pen, newest first) and `POST /api/pens` (insert the
    posted pen, filling three late-added columns with defaults, and return the
    stored row). */
module PensRoute {
  import opened Common
  import opened StringOrder
  import opened SqlTable

  const FetchPensError := "Failed to fetch pens"
  const CreatePenError := "Failed to create pen"

  /** The named parameters of the `INSERT`, in statement order. */
  const PenColumns: seq<string> := [
    "brand", "model", "color", "nib_size", "nib_material", "nib_type", "fill_system",
    "date_purchased", "purchase_price", "purchase_location", "current_ink",
    "condition", "notes", "image_url", "rating", "is_daily_carry", "provenance", "storage_location"]

  /** Columns the database fills with `CURRENT_TIMESTAMP`. */
  const PenStamps: seq<string> := ["created_at", "updated_at"]

  /** `brand TEXT NOT NULL`. */
  const PenNotNull: set<string> := {"brand"}

  const PenDefaults: Row := map["is_daily_carry" := Int(0), "provenance" := Text(""), "storage_location" := Text("")]

  datatype ListReply = Listed(pens: seq<Pen>) | ListFailed(status: int, error: string)

  datatype CreateReply = Created(status: int, row: Row) | CreateFailed(status: int, error: string)

  /** `GET`: `None` stands for a query that throws. */
  function List(db: Option<seq<Pen>>): (r: ListReply)
    ensures db.None? <==> r.ListFailed?
    ensures r.ListFailed? ==> r.status == 500 && r.error == FetchPensError
    ensures r.Listed? ==> multiset(r.pens) == multiset(db.value)
    ensures r.Listed? ==> forall i, j :: 0 <= i < j < |r.pens| ==> LexLe(r.pens[j].created_at, r.pens[i].created_at)
  {
    match db
    case None => ListFailed(500, FetchPensError)
    case Some(pens) => Listed(NewestFirst(pens, (p: Pen) => p.created_at))
  }

  /** `{ is_daily_carry: 0, provenance: "", storage_location: "", ...data }`. */
  function Params(body: Row): (params: Row)
    ensures forall k :: k in body ==> k in params && params[k] == body[k]
    ensures "is_daily_carry" !in body ==> "is_daily_carry" in params && params["is_daily_carry"] == Int(0)
    ensures "provenance" !in body ==> "provenance" in params && params["provenance"] == Text("")
    ensures "storage_location" !in body ==> "storage_location" in params && params["storage_location"] == Text("")
    ensures forall k :: k !in PenDefaults ==> (k in params <==> k in body)
  {
    Merge(PenDefaults, body)
  }

  /** The insert succeeds: the body parsed, binds every column but the three
      defaulted ones, and has a brand that is not null. */
  predicate Creates(body: Option<Row>) {
    body.Some? && Accepts(Params(body.value), PenColumns, PenNotNull)
  }

  /** A body is accepted exactly when it names every column without a default and
      its brand is not null. */
  lemma AcceptedBodies(body: Row)
    ensures Accepts(Params(body), PenColumns, PenNotNull)
            <==> (forall c :: c in PenColumns && c !in PenDefaults ==> c in body)
                 && "brand" in body && body["brand"] != Null
  {
    var params := Params(body);
    assert "brand" in PenColumns && "brand" !in PenDefaults;
    if (forall c :: c in PenColumns && c !in PenDefaults ==> c in body) {
      forall c | c in PenColumns ensures c in params {
        if c !in PenDefaults {
          assert c in body;
        }
      }
    }
  }

  /** The stored row holds every posted column value unchanged, and the default of
      each defaulted column the body leaves out. */
  lemma StoredRowKeepsBody(body: Row, id: int, now: string)
    requires Accepts(Params(body), PenColumns, PenNotNull)
    ensures var row := Stored(Params(body), PenColumns, PenStamps, id, now);
            && (forall c :: c in PenColumns && c in body ==> c in row && row[c] == body[c])
            && (forall c :: c in PenDefaults && c !in body ==> c in row && row[c] == PenDefaults[c])
            && row["id"] == Int(id) && "created_at" in row && row["created_at"] == Text(now)
  {
    var params := Params(body);
    var row := Stored(params, PenColumns, PenStamps, id, now);
    ColumnsAreNotStamped();
    DefaultsAreColumns();
    forall c | c in PenColumns && c in body ensures c in row && row[c] == body[c] {
      assert row[c] == params[c];
    }
    forall c | c in PenDefaults && c !in body ensures c in row && row[c] == PenDefaults[c] {
      assert c in PenColumns;
      assert row[c] == params[c];
    }
    assert "created_at" in PenStamps;
  }

  /** Every defaulted column is one of the named columns. */
  lemma DefaultsAreColumns()
    ensures forall c :: c in PenDefaults ==> c in PenColumns
  {
    assert PenColumns[15] == "is_daily_carry" && PenColumns[16] == "provenance"
           && PenColumns[17] == "storage_location";
  }

  /** No named column is a time-stamp column or the id. */
  lemma ColumnsAreNotStamped()
    ensures forall c :: c in PenColumns ==> c !in PenStamps && c != "id"
  {
    forall i | 0 <= i < |PenColumns| ensures PenColumns[i] != "created_at" && PenColumns[i] != "updated_at" && PenColumns[i] != "id" {
    }
  }

  /** `POST`: `body` is `None` when the request body is not JSON. The reply is the
      row read back under the new id, with status 201; every failure leaves the
      table as it was and answers 500. */
  method Post(t: Table, body: Option<Row>, now: string) returns (r: CreateReply)
    requires t.Valid()
    requires t.columns == PenColumns && t.stamps == PenStamps && t.notNull == PenNotNull
    modifies t
    ensures t.Valid()
    ensures Creates(body) ==>
              && t.lastRowId == old(t.lastRowId) + 1
              && r == Created(201, Stored(Params(body.value), PenColumns, PenStamps, t.lastRowId, now))
              && t.rows == old(t.rows) + [r.row]
    ensures !Creates(body) ==>
              r == CreateFailed(500, CreatePenError) && t.rows == old(t.rows) && t.lastRowId == old(t.lastRowId)
  {
    if body.None? {
      return CreateFailed(500, CreatePenError);
    }
    var row := InsertAndFetch(t, Params(body.value), now);
    if row.None? {
      return CreateFailed(500, CreatePenError);
    }
    r := Created(201, row.value);
  }
}
