/** `GET /api/export`: every pen as one CSV line under a fixed header, in brand then
    model order. Fields are quoted as in section 2 of RFC 4180 (items 6 and 7) with two
    departures: lines are separated by LF rather than CRLF (item 1), and a bare CR does
    not cause quoting. The lemmas at the end read the document back with an RFC 4180
    reader and recover every rendered value. */
module CsvExport {
  import opened Common
  import opened Sorting
  import opened StringOrder

  /** The 19 exported columns, in output order. */
  const Headers: seq<string> := [
    "id", "brand", "model", "color", "nib_size", "nib_material", "nib_type",
    "fill_system", "date_purchased", "purchase_price", "purchase_location",
    "current_ink", "condition", "rating", "is_daily_carry", "provenance",
    "storage_location", "notes", "created_at"]

  const Quote: char := '"'

  /** `pen[h]`: the value of column `h`; a column the row lacks reads as undefined. */
  function Column(p: Pen, h: string): Value {
    match h
    case "id" => Int(p.id)
    case "brand" => Text(p.brand)
    case "model" => Text(p.model)
    case "color" => Text(p.color)
    case "nib_size" => Text(p.nib_size)
    case "nib_material" => Text(p.nib_material)
    case "nib_type" => Text(p.nib_type)
    case "fill_system" => Text(p.fill_system)
    case "date_purchased" => Text(p.date_purchased)
    case "purchase_price" => if p.purchase_price.Some? then Money(p.purchase_price.value) else Null
    case "purchase_location" => Text(p.purchase_location)
    case "current_ink" => Text(p.current_ink)
    case "condition" => Text(p.condition)
    case "rating" => Int(p.rating)
    case "is_daily_carry" => if p.is_daily_carry.Some? then Int(p.is_daily_carry.value) else Null
    case "provenance" => if p.provenance.Some? then Text(p.provenance.value) else Null
    case "storage_location" => if p.storage_location.Some? then Text(p.storage_location.value) else Null
    case "notes" => Text(p.notes)
    case "created_at" => Text(p.created_at)
    case _ => Null
  }

  /** The text a value stands for in the document: `String(val)`, and the empty
      string for null or undefined. */
  function Render(v: Value): string {
    match v
    case Null => ""
    case Text(s) => s
    case Int(i) => IntToString(i)
    case Money(c) => MoneyToString(c)
  }

  /** The characters that make `escape` quote a field: comma, double quote, LF. */
  predicate NeedsQuotes(s: string) {
    ',' in s || Quote in s || '\n' in s
  }

  /** `str.replace(/"/g, '""')`. */
  function DoubleQuotes(s: string): (r: string)
    ensures |r| >= |s|
  {
    if s == [] then []
    else if s[0] == Quote then [Quote, Quote] + DoubleQuotes(s[1..])
    else [s[0]] + DoubleQuotes(s[1..])
  }

  /** The `escape` helper of the export route. */
  function Escape(v: Value): (r: string)
    ensures v.Null? ==> r == ""
    ensures NeedsQuotes(Render(v)) ==> |r| >= 2 && r[0] == Quote && r[|r| - 1] == Quote
    ensures !NeedsQuotes(Render(v)) ==> r == Render(v)
  {
    var s := Render(v);
    if NeedsQuotes(s) then [Quote] + DoubleQuotes(s) + [Quote] else s
  }

  /** `xs.join(sep)`. */
  function Join(xs: seq<string>, sep: char): (r: string)
  {
    if xs == [] then ""
    else if |xs| == 1 then xs[0]
    else xs[0] + [sep] + Join(xs[1..], sep)
  }

  /** The order of `ORDER BY brand, model`. */
  predicate BrandThenModel(a: Pen, b: Pen) {
    LexLt(a.brand, b.brand) || (a.brand == b.brand && LexLe(a.model, b.model))
  }

  lemma BrandThenModelIsTotalPreorder()
    ensures TotalPreorder(BrandThenModel)
  {
    forall a: Pen, b: Pen ensures BrandThenModel(a, b) || BrandThenModel(b, a) {
      LexLeTotal(a.brand, b.brand);
      LexLeTotal(a.model, b.model);
    }
    forall a: Pen, b: Pen, c: Pen | BrandThenModel(a, b) && BrandThenModel(b, c)
      ensures BrandThenModel(a, c)
    {
      if a.brand == b.brand && b.brand == c.brand {
        LexLeTransitive(a.model, b.model, c.model);
      } else {
        LexLeReflexive(b.brand);
        LexLeTransitive(a.brand, b.brand, c.brand);
        if a.brand == c.brand {
          LexLeAntisymmetric(a.brand, b.brand);
        }
      }
    }
  }

  /** The pens in export order. */
  function Ordered(pens: seq<Pen>): (r: seq<Pen>)
    ensures multiset(r) == multiset(pens)
    ensures SortedBy(BrandThenModel, r)
    ensures |r| == |pens|
  {
    BrandThenModelIsTotalPreorder();
    SortKeepsLength(BrandThenModel, pens);
    Sort(BrandThenModel, pens)
  }

  function HeaderLine(): string {
    Join(Headers, ',')
  }

  /** The values of one pen, column by column. */
  function Values(p: Pen): (r: seq<Value>)
    ensures |r| == |Headers|
    ensures forall j :: 0 <= j < |Headers| ==> r[j] == Column(p, Headers[j])
  {
    seq(|Headers|, j requires 0 <= j < |Headers| => Column(p, Headers[j]))
  }

  function EscapeAll(vs: seq<Value>): (r: seq<string>)
    ensures |r| == |vs|
    ensures forall j :: 0 <= j < |vs| ==> r[j] == Escape(vs[j])
  {
    seq(|vs|, j requires 0 <= j < |vs| => Escape(vs[j]))
  }

  /** One data line. */
  function Row(p: Pen): string {
    Join(EscapeAll(Values(p)), ',')
  }

  function Rows(pens: seq<Pen>): (r: seq<string>)
    ensures |r| == |pens|
    ensures forall i :: 0 <= i < |pens| ==> r[i] == Row(pens[i])
  {
    seq(|pens|, i requires 0 <= i < |pens| => Row(pens[i]))
  }

  /** The whole document: the header line and one line per pen, joined by LF, with
      no line break at the end. */
  function Export(pens: seq<Pen>): string {
    Join([HeaderLine()] + Rows(Ordered(pens)), '\n')
  }

  /** The reply: the CSV document, or a 500 reply when the query throws. */
  datatype Reply = CsvFile(body: string) | ExportFailed(status: int, error: string)

  const ExportError: string := "Failed to export"

  /** The route handler; `None` stands for a database whose query throws. */
  function Get(db: Option<seq<Pen>>): (r: Reply)
    ensures db.None? <==> r.ExportFailed?
    ensures r.ExportFailed? ==> r.status == 500 && r.error == ExportError
    ensures r.CsvFile? ==> r.body == Export(db.value)
  {
    match db
    case None => ExportFailed(500, ExportError)
    case Some(pens) => CsvFile(Export(pens))
  }

  // ---------------------------------------------------------------------------
  // Reading the document back

  /** Undoes the quoting of one field: strips the outer quotes of a quoted field and
      turns each `""` inside back into `"`. */
  function Unescape(f: string): string {
    if |f| >= 2 && f[0] == Quote && f[|f| - 1] == Quote then UndoubleQuotes(f[1..|f| - 1]) else f
  }

  function UndoubleQuotes(s: string): string {
    if s == [] then []
    else if |s| >= 2 && s[0] == Quote && s[1] == Quote then [Quote] + UndoubleQuotes(s[2..])
    else [s[0]] + UndoubleQuotes(s[1..])
  }

  /** The reader's state after `s`, starting inside quotes iff `inQuotes`: `None` if a
      `sep` outside quotes was met, otherwise whether it ends inside quotes. */
  function Scan(s: string, sep: char, inQuotes: bool): Option<bool> {
    if s == [] then Some(inQuotes)
    else if s[0] == sep && !inQuotes then None
    else Scan(s[1..], sep, if s[0] == Quote then !inQuotes else inQuotes)
  }

  /** `s` is one whole piece with respect to `sep`: no `sep` outside quotes, and the
      quotes are closed at its end. */
  predicate Piece(s: string, sep: char) {
    Scan(s, sep, false) == Some(false)
  }

  /** The length of the first piece: the position of the first `sep` outside quotes. */
  function PieceEnd(s: string, sep: char, inQuotes: bool): (n: nat)
    ensures n <= |s|
  {
    if s == [] then 0
    else if s[0] == sep && !inQuotes then 0
    else 1 + PieceEnd(s[1..], sep, if s[0] == Quote then !inQuotes else inQuotes)
  }

  /** The reader of RFC 4180: splits `s` at every `sep` outside quotes. */
  function Split(s: string, sep: char): (r: seq<string>)
    ensures |r| >= 1
    decreases |s|
  {
    var k := PieceEnd(s, sep, false);
    if k == |s| then [s] else [s[..k]] + Split(s[k + 1..], sep)
  }

  lemma {:induction false} ScanThenEnd(a: string, b: string, sep: char, q: bool, q': bool)
    requires Scan(a, sep, q) == Some(q')
    ensures PieceEnd(a + b, sep, q) == |a| + PieceEnd(b, sep, q')
  {
    if a == [] {
      assert a + b == b;
    } else {
      assert (a + b)[0] == a[0] && (a + b)[1..] == a[1..] + b;
      ScanThenEnd(a[1..], b, sep, if a[0] == Quote then !q else q, q');
    }
  }

  lemma {:induction false} ScanConcat(a: string, b: string, sep: char, q: bool, q': bool)
    requires Scan(a, sep, q) == Some(q')
    ensures Scan(a + b, sep, q) == Scan(b, sep, q')
  {
    if a == [] {
      assert a + b == b;
    } else {
      assert (a + b)[0] == a[0] && (a + b)[1..] == a[1..] + b;
      ScanConcat(a[1..], b, sep, if a[0] == Quote then !q else q, q');
    }
  }

  /** Text without quotes and without `sep` is read unchanged. */
  lemma {:induction false} ScanPlain(s: string, sep: char, q: bool)
    requires Quote !in s && (q || sep !in s)
    ensures Scan(s, sep, q) == Some(q)
  {
    if s != [] {
      assert s[0] in s && forall c :: c in s[1..] ==> c in s;
      ScanPlain(s[1..], sep, q);
    }
  }

  /** Inside quotes, a text whose quotes are doubled leaves the reader inside quotes. */
  lemma {:induction false} ScanDoubled(s: string, sep: char)
    requires sep != Quote
    ensures Scan(DoubleQuotes(s), sep, true) == Some(true)
  {
    if s != [] {
      ScanDoubled(s[1..], sep);
      if s[0] == Quote {
        assert [Quote, Quote][1..] == [Quote];
        assert Scan([Quote], sep, false) == Scan([], sep, true);
        ScanConcat([Quote, Quote], DoubleQuotes(s[1..]), sep, true, true);
      } else {
        ScanConcat([s[0]], DoubleQuotes(s[1..]), sep, true, true);
      }
    }
  }

  /** Every escaped field is one whole piece, both for the field separator and for
      the line separator. */
  lemma EscapedIsPiece(v: Value, sep: char)
    requires sep == ',' || sep == '\n'
    ensures Piece(Escape(v), sep)
  {
    var s := Render(v);
    if NeedsQuotes(s) {
      ScanDoubled(s, sep);
      ScanConcat([Quote], DoubleQuotes(s) + [Quote], sep, false, true);
      ScanConcat(DoubleQuotes(s), [Quote], sep, true, true);
      assert [Quote] + DoubleQuotes(s) + [Quote] == [Quote] + (DoubleQuotes(s) + [Quote]);
    } else {
      ScanPlain(s, sep, false);
    }
  }

  lemma {:induction false} SplitJoin(xs: seq<string>, sep: char)
    requires xs != []
    requires forall j :: 0 <= j < |xs| ==> Piece(xs[j], sep)
    ensures Split(Join(xs, sep), sep) == xs
  {
    if |xs| == 1 {
      ScanThenEnd(xs[0], [], sep, false, false);
      assert xs[0] + [] == xs[0];
    } else {
      var rest := Join(xs[1..], sep);
      var s := xs[0] + [sep] + rest;
      ScanThenEnd(xs[0], [sep] + rest, sep, false, false);
      assert s == xs[0] + ([sep] + rest);
      assert PieceEnd(s, sep, false) == |xs[0]|;
      assert s[..|xs[0]|] == xs[0] && s[|xs[0]| + 1..] == rest;
      SplitJoin(xs[1..], sep);
    }
  }

  /** Pieces for `sep`, joined by a character that is neither `sep` nor a quote, make
      a piece for `sep`. */
  lemma {:induction false} JoinIsPiece(xs: seq<string>, glue: char, sep: char)
    requires glue != sep && glue != Quote
    requires forall j :: 0 <= j < |xs| ==> Piece(xs[j], sep)
    ensures Piece(Join(xs, glue), sep)
  {
    if |xs| > 1 {
      JoinIsPiece(xs[1..], glue, sep);
      ScanConcat(xs[0], [glue] + Join(xs[1..], glue), sep, false, false);
      ScanConcat([glue], Join(xs[1..], glue), sep, false, false);
      assert xs[0] + [glue] + Join(xs[1..], glue) == xs[0] + ([glue] + Join(xs[1..], glue));
    }
  }

  lemma {:induction false} UndoubleDouble(s: string)
    ensures UndoubleQuotes(DoubleQuotes(s)) == s
  {
    if s != [] {
      UndoubleDouble(s[1..]);
      if s[0] == Quote {
        assert DoubleQuotes(s)[2..] == DoubleQuotes(s[1..]);
      } else {
        assert DoubleQuotes(s)[1..] == DoubleQuotes(s[1..]);
      }
    }
  }

  /** Round trip of one field: unquoting an escaped field gives back the rendered value. */
  lemma EscapeRoundTrip(v: Value)
    ensures Unescape(Escape(v)) == Render(v)
  {
    var s := Render(v);
    if NeedsQuotes(s) {
      var e := [Quote] + DoubleQuotes(s) + [Quote];
      assert e[1..|e| - 1] == DoubleQuotes(s);
      UndoubleDouble(s);
    } else if |s| >= 2 {
      assert s[0] in s;
    }
  }

  lemma HeaderNamesArePlain()
    ensures forall j :: 0 <= j < |Headers| ==> !NeedsQuotes(Headers[j])
  {
    FirstHeaderNamesArePlain();
    LastHeaderNamesArePlain();
  }

  lemma FirstHeaderNamesArePlain()
    ensures forall j :: 0 <= j < 10 ==> !NeedsQuotes(Headers[j])
  {
  }

  lemma LastHeaderNamesArePlain()
    ensures forall j :: 10 <= j < |Headers| ==> !NeedsQuotes(Headers[j])
  {
  }

  lemma RowIsPiece(p: Pen)
    ensures Piece(Row(p), '\n')
  {
    var fields := EscapeAll(Values(p));
    forall j | 0 <= j < |fields| ensures Piece(fields[j], '\n') {
      EscapedIsPiece(Values(p)[j], '\n');
    }
    JoinIsPiece(fields, ',', '\n');
  }

  /** Every data line splits into exactly one field per header, and field `j`
      unescapes to the rendered value of column `Headers[j]`. */
  lemma RowFields(p: Pen)
    ensures |Split(Row(p), ',')| == |Headers| == 19
    ensures forall j :: 0 <= j < |Headers| ==>
              Unescape(Split(Row(p), ',')[j]) == Render(Column(p, Headers[j]))
  {
    var fields := EscapeAll(Values(p));
    forall j | 0 <= j < |fields| ensures Piece(fields[j], ',') {
      EscapedIsPiece(Values(p)[j], ',');
    }
    SplitJoin(fields, ',');
    forall j | 0 <= j < |Headers|
      ensures Unescape(Split(Row(p), ',')[j]) == Render(Column(p, Headers[j]))
    {
      EscapeRoundTrip(Values(p)[j]);
    }
  }

  lemma HeaderNamesArePieces(sep: char)
    requires sep == ',' || sep == '\n'
    ensures forall j :: 0 <= j < |Headers| ==> Piece(Headers[j], sep)
  {
    HeaderNamesArePlain();
    forall j | 0 <= j < |Headers| ensures Piece(Headers[j], sep) {
      ScanPlain(Headers[j], sep, false);
    }
  }

  /** The header line reads back as the header names. */
  lemma HeaderFields()
    ensures Split(HeaderLine(), ',') == Headers
  {
    HeaderNamesArePieces(',');
    SplitJoin(Headers, ',');
  }

  lemma HeaderIsPiece()
    ensures Piece(HeaderLine(), '\n')
  {
    HeaderNamesArePieces('\n');
    JoinIsPiece(Headers, ',', '\n');
  }

  lemma RowsArePieces(pens: seq<Pen>)
    ensures forall i :: 0 <= i < |Rows(pens)| ==> Piece(Rows(pens)[i], '\n')
  {
    forall i | 0 <= i < |Rows(pens)| ensures Piece(Rows(pens)[i], '\n') {
      RowIsPiece(pens[i]);
    }
  }

  /** A header line and data lines, none of which holds a line break outside
      quotes, read back as themselves. */
  lemma LinesReadBack(header: string, rows: seq<string>)
    requires Piece(header, '\n')
    requires forall i :: 0 <= i < |rows| ==> Piece(rows[i], '\n')
    ensures Split(Join([header] + rows, '\n'), '\n') == [header] + rows
  {
    var lines := [header] + rows;
    forall i | 0 <= i < |lines| ensures Piece(lines[i], '\n') {
      if i > 0 {
        assert lines[i] == rows[i - 1];
      }
    }
    SplitJoin(lines, '\n');
  }

  lemma ExportLines(pens: seq<Pen>)
    ensures Split(Export(pens), '\n') == [HeaderLine()] + Rows(Ordered(pens))
  {
    HeaderIsPiece();
    RowsArePieces(Ordered(pens));
    LinesReadBack(HeaderLine(), Rows(Ordered(pens)));
  }

  /** The document reads back as the header line followed by one line per pen in
      brand-then-model order, each line holding that pen's 19 values. */
  lemma ExportReadsBack(pens: seq<Pen>)
    ensures |Split(Export(pens), '\n')| == |pens| + 1
    ensures Split(Export(pens), '\n')[0] == HeaderLine()
    ensures forall i :: 0 <= i < |pens| ==> Split(Export(pens), '\n')[i + 1] == Row(Ordered(pens)[i])
  {
    ExportLines(pens);
  }

  /** A number never needs quoting. */
  lemma NumbersAreNeverQuoted(v: Value)
    requires v.Int? || v.Money?
    ensures Escape(v) == Render(v)
  {
    var s := Render(v);
    if NeedsQuotes(s) {
      var k :| 0 <= k < |s| && (s[k] == ',' || s[k] == Quote || s[k] == '\n');
    }
  }

  lemma {:induction false} DoubleQuotesOfPlain(s: string)
    requires Quote !in s
    ensures DoubleQuotes(s) == s
  {
    if s != [] {
      assert s[0] in s && forall c :: c in s[1..] ==> c in s;
      DoubleQuotesOfPlain(s[1..]);
    }
  }

  /** A text with a comma or LF and no quote is emitted between quotes, otherwise
      unchanged (the scenario of a note with a comma in it). */
  lemma SeparatorIsQuoted(s: string)
    requires ',' in s || '\n' in s
    requires Quote !in s
    ensures Escape(Text(s)) == [Quote] + s + [Quote]
  {
    DoubleQuotesOfPlain(s);
  }

  /** A bare CR does not cause quoting, unlike item 6 of section 2 of RFC 4180. */
  lemma BareCarriageReturnIsNotQuoted()
    ensures Escape(Text("a\rb")) == "a\rb"
  {
    assert !NeedsQuotes("a\rb");
  }

  /** A lone double quote becomes four: the outer pair and the doubled one (item 7). */
  lemma LoneQuoteIsDoubled()
    ensures Escape(Text([Quote])) == [Quote, Quote, Quote, Quote]
  {
    assert NeedsQuotes([Quote]);
    assert DoubleQuotes([Quote]) == [Quote, Quote] + DoubleQuotes([]);
  }

  /** Inside a quoted field every quote is doubled (item 7): the field holds exactly
      twice as many quotes as the text, plus the outer pair. */
  lemma {:induction false} QuotesAreDoubled(s: string)
    ensures Count(DoubleQuotes(s), Quote) == 2 * Count(s, Quote)
  {
    if s != [] {
      QuotesAreDoubled(s[1..]);
      CountConcat([s[0]], s[1..], Quote);
      assert s == [s[0]] + s[1..];
      if s[0] == Quote {
        CountConcat([Quote, Quote], DoubleQuotes(s[1..]), Quote);
      } else {
        CountConcat([s[0]], DoubleQuotes(s[1..]), Quote);
      }
    }
  }

  lemma {:induction false} CountConcat(a: string, b: string, c: char)
    ensures Count(a + b, c) == Count(a, c) + Count(b, c)
  {
    if a == [] {
      assert a + b == b;
    } else {
      CountConcat(a[1..], b, c);
      assert (a + b)[1..] == a[1..] + b;
    }
  }
}
