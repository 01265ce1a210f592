/** `GET /api/wishlist` (every item, newest first) and `POST /api/wishlist`
    (insert the posted item, `acquired` defaulting to 0, and return the stored
    row). */
module WishlistRoute {
  import opened Common
  import opened StringOrder
  import opened SqlTable

  const FetchWishlistError := "Failed to fetch wishlist"
  const CreateItemError := "Failed to create wishlist item"

  /** The named parameters of the `INSERT`, in statement order. */
  const ItemColumns: seq<string> := ["brand", "model", "notes", "url", "estimated_price", "priority", "acquired"]

  /** The column ordered by in `GET`, filled by the database on insert. */
  const ItemStamps: seq<string> := ["created_at"]

  const ItemDefaults: Row := map["acquired" := Int(0)]

  datatype ListReply = Listed(items: seq<WishlistItem>) | ListFailed(status: int, error: string)

  datatype CreateReply = Created(status: int, row: Row) | CreateFailed(status: int, error: string)

  /** `GET`: `None` stands for a query that throws. */
  function List(db: Option<seq<WishlistItem>>): (r: ListReply)
    ensures db.None? <==> r.ListFailed?
    ensures r.ListFailed? ==> r.status == 500 && r.error == FetchWishlistError
    ensures r.Listed? ==> multiset(r.items) == multiset(db.value)
    ensures r.Listed? ==> forall i, j :: 0 <= i < j < |r.items| ==> LexLe(r.items[j].created_at, r.items[i].created_at)
  {
    match db
    case None => ListFailed(500, FetchWishlistError)
    case Some(items) => Listed(NewestFirst(items, (x: WishlistItem) => x.created_at))
  }

  /** `{ acquired: 0, ...data }`. */
  function Params(body: Row): (params: Row)
    ensures forall k :: k in body ==> k in params && params[k] == body[k]
    ensures "acquired" !in body ==> "acquired" in params && params["acquired"] == Int(0)
    ensures forall k :: k != "acquired" ==> (k in params <==> k in body)
  {
    Merge(ItemDefaults, body)
  }

  /** The insert succeeds: the body parsed and binds every column but `acquired`.
      The table's constraints are not among the statements shown, so none is
      assumed. */
  predicate Creates(body: Option<Row>) {
    body.Some? && Accepts(Params(body.value), ItemColumns, {})
  }

  /** A body is accepted exactly when it names the six columns other than
      `acquired`. */
  lemma AcceptedBodies(body: Row)
    ensures Accepts(Params(body), ItemColumns, {})
            <==> forall c :: c in ItemColumns && c != "acquired" ==> c in body
  {
    var params := Params(body);
    if forall c :: c in ItemColumns && c != "acquired" ==> c in body {
      forall c | c in ItemColumns ensures c in params {
        if c != "acquired" {
          assert c in body;
        }
      }
    }
  }

  /** The stored row holds every posted column value unchanged, and `acquired` is
      0 when the body leaves it out. */
  lemma StoredRowKeepsBody(body: Row, id: int, now: string)
    requires Accepts(Params(body), ItemColumns, {})
    ensures var row := Stored(Params(body), ItemColumns, ItemStamps, id, now);
            && (forall c :: c in ItemColumns && c in body ==> row[c] == body[c])
            && ("acquired" !in body ==> row["acquired"] == Int(0))
            && row["id"] == Int(id) && "created_at" in row && row["created_at"] == Text(now)
  {
    ColumnsAreNotStamped();
    assert "acquired" in ItemColumns && "created_at" in ItemStamps;
  }

  /** No named column is the time-stamp column or the id. */
  lemma ColumnsAreNotStamped()
    ensures forall c :: c in ItemColumns ==> c !in ItemStamps && c != "id"
  {
    forall i | 0 <= i < |ItemColumns| ensures ItemColumns[i] != "created_at" && ItemColumns[i] != "id" {
    }
  }

  /** `POST`: `body` is `None` when the request body is not JSON. The reply is the
      row read back under the new id, with status 201; every failure leaves the
      table as it was and answers 500. */
  method Post(t: Table, body: Option<Row>, now: string) returns (r: CreateReply)
    requires t.Valid()
    requires t.columns == ItemColumns && t.stamps == ItemStamps && t.notNull == {}
    modifies t
    ensures t.Valid()
    ensures Creates(body) ==>
              && t.lastRowId == old(t.lastRowId) + 1
              && r == Created(201, Stored(Params(body.value), ItemColumns, ItemStamps, t.lastRowId, now))
              && t.rows == old(t.rows) + [r.row]
    ensures !Creates(body) ==>
              r == CreateFailed(500, CreateItemError) && t.rows == old(t.rows) && t.lastRowId == old(t.lastRowId)
  {
    if body.None? {
      return CreateFailed(500, CreateItemError);
    }
    var row := InsertAndFetch(t, Params(body.value), now);
    if row.None? {
      return CreateFailed(500, CreateItemError);
    }
    r := Created(201, row.value);
  }
}
