/** Shared vocabulary of the pen catalogue: optional values, the cell values that
    travel through JSON bodies and SQL rows, the table records, and the string
    helpers (JavaScript `trim`, `toLowerCase`, `\s`) that several components use. */
module Common {

  datatype Option<T> = None | Some(value: T)

  /** A cell of a SQL row or a JSON body. Money is kept in integer cents, so that
      sums of prices are exact. */
  datatype Value = Null | Text(s: string) | Int(i: int) | Money(cents: int)

  /** A row of the `pens` table. Columns that later schema patches added
      (`is_daily_carry`, `provenance`, `storage_location`) and the owner column may be
      missing from a row, hence `Option`. `purchase_price` is nullable. */
  datatype Pen = Pen(
    id: int,
    brand: string, model: string, color: string,
    nib_size: string, nib_material: string, nib_type: string, fill_system: string,
    date_purchased: string, purchase_price: Option<int>, purchase_location: string,
    current_ink: string, condition: string, notes: string, image_url: string,
    rating: int,
    is_daily_carry: Option<int>, provenance: Option<string>, storage_location: Option<string>,
    created_at: string, updated_at: string,
    user_id: Option<string>)

  /** A row of `ink_history`. */
  datatype InkEntry = InkEntry(id: int, pen_id: int, ink_name: string, inked_date: string,
                               notes: string, created_at: string)

  /** A row of `maintenance_log` (`type` is written `kind`). */
  datatype MaintenanceEntry = MaintenanceEntry(id: int, pen_id: int, kind: string, notes: string,
                                               date: string, created_at: string)

  /** A row of `writing_samples`. */
  datatype WritingSample = WritingSample(id: int, pen_id: int, ink_name: string, paper: string,
                                         notes: string, image_url: string, created_at: string)

  /** A row of `ink_bottles` (`type` is written `kind`). */
  datatype InkBottle = InkBottle(id: int, name: string, brand: string, color_description: string,
                                 kind: string, bottle_size_ml: Option<int>, remaining_pct: int,
                                 notes: string, swatch_url: string)

  /** A row of `wishlist`; `acquired` is 0 or 1. */
  datatype WishlistItem = WishlistItem(id: int, brand: string, model: string, notes: string,
                                       url: string, estimated_price: Option<int>, priority: string,
                                       acquired: int, created_at: string)

  /** A row of `pen_tags`. */
  datatype PenTag = PenTag(pen_id: int, tag: string)

  /** The signed-in user of a session, as far as the routes look at it. */
  datatype SessionUser = SessionUser(id: Option<string>)

  /** A session; `user` is absent when nobody is signed in. */
  datatype Session = Session(user: Option<SessionUser>)

  /** The result of a `fetch` that posts a new record: the returned record, or any
      failure (network error, a status that is not ok, a body that is not JSON). */
  datatype AddOutcome<T> = AddFailed | Added(record: T)

  /** The result of uploading a photo: a failed request, or the returned image URL
      ("" when the reply holds none). */
  datatype Upload = UploadFailed | Uploaded(imageUrl: string)

  /** The result of a `fetch` that deletes: a rejected promise, or a response. */
  datatype DeleteOutcome = NetworkFailure | Responded(ok: bool)

  // ---------------------------------------------------------------------------
  // Characters and strings

  /** JavaScript's `\s` and `trim`, restricted to the ASCII white space, the
      no-break space and the byte-order mark. */
  predicate IsSpace(c: char) {
    c == ' ' || c == '\t' || c == '\n' || c == '\r' || c == '\U{000B}' || c == '\U{000C}'
    || c == '\U{00A0}' || c == '\U{FEFF}'
  }

  predicate IsUpper(c: char) {
    'A' <= c <= 'Z'
  }

  /** `toLowerCase` on one character, for ASCII letters. */
  function LowerChar(c: char): (r: char)
    ensures !IsUpper(r)
    ensures IsSpace(r) <==> IsSpace(c)
    ensures !IsUpper(c) ==> r == c
  {
    if IsUpper(c) then (c as int + 32) as char else c
  }

  function Lower(s: string): (r: string)
    ensures |r| == |s|
    ensures forall i :: 0 <= i < |s| ==> r[i] == LowerChar(s[i])
  {
    if s == [] then [] else [LowerChar(s[0])] + Lower(s[1..])
  }

  predicate NoUpper(s: string) {
    forall i :: 0 <= i < |s| ==> !IsUpper(s[i])
  }

  predicate NoSpace(s: string) {
    forall i :: 0 <= i < |s| ==> !IsSpace(s[i])
  }

  function TrimStart(s: string): (r: string)
    ensures |r| <= |s| && r == s[|s| - |r|..]
    ensures r == [] || !IsSpace(r[0])
    ensures forall i :: 0 <= i < |s| - |r| ==> IsSpace(s[i])
  {
    if s != [] && IsSpace(s[0]) then TrimStart(s[1..]) else s
  }

  function TrimEnd(s: string): (r: string)
    ensures |r| <= |s| && r == s[..|r|]
    ensures r == [] || !IsSpace(r[|r| - 1])
    ensures forall i :: |r| <= i < |s| ==> IsSpace(s[i])
  {
    if s != [] && IsSpace(s[|s| - 1]) then TrimEnd(s[..|s| - 1]) else s
  }

  /** The number of white-space characters at the front of `s`. */
  function LeadingSpace(s: string): (n: nat)
    ensures n <= |s| && AllSpace(s[..n])
    ensures n == |s| || !IsSpace(s[n])
  {
    |s| - |TrimStart(s)|
  }

  /** `String.prototype.trim`. */
  function Trim(s: string): (r: string)
    ensures r == [] || (!IsSpace(r[0]) && !IsSpace(r[|r| - 1]))
    ensures |r| <= |s|
    ensures s == [] || (!IsSpace(s[0]) && !IsSpace(s[|s| - 1])) ==> r == s
  {
    TrimEnd(TrimStart(s))
  }

  /** `trim` keeps the slice of `s` after its leading white space, and what it
      drops at the end is white space too. */
  lemma TrimSlice(s: string)
    ensures var r := Trim(s);
            && LeadingSpace(s) + |r| <= |s| && r == s[LeadingSpace(s)..LeadingSpace(s) + |r|]
            && AllSpace(s[LeadingSpace(s) + |r|..])
  {
    var t := TrimStart(s);
    var r := TrimEnd(t);
    assert LeadingSpace(s) == |s| - |t| && Trim(s) == r;
    SliceOfSlice(s, |s| - |t|, t, r);
  }

  /** A prefix `r` of the suffix `t` of `s` that starts at `k`, followed in `t`
      only by white space. */
  lemma SliceOfSlice(s: string, k: nat, t: string, r: string)
    requires k <= |s| && t == s[k..] && |r| <= |t| && r == t[..|r|]
    requires forall i :: |r| <= i < |t| ==> IsSpace(t[i])
    ensures k + |r| <= |s| && r == s[k..k + |r|] && AllSpace(s[k + |r|..])
  {
    var tail := s[k + |r|..];
    forall i | 0 <= i < |tail| ensures IsSpace(tail[i]) {
      assert tail[i] == t[|r| + i];
    }
  }

  /** A JavaScript string is falsy after `trim` exactly when it is all white space. */
  lemma {:induction false} TrimEmptyIffAllSpace(s: string)
    ensures Trim(s) == [] <==> forall i :: 0 <= i < |s| ==> IsSpace(s[i])
  {
    var t := TrimStart(s);
    if t != [] {
      assert !IsSpace(t[0]) && TrimEnd(t) != [];
      assert !IsSpace(s[|s| - |t|]);
    }
  }

  lemma LowerOfNoUpper(s: string)
    requires NoUpper(s)
    ensures Lower(s) == s
  {
  }

  lemma {:induction false} LowerConcat(a: string, b: string)
    ensures Lower(a + b) == Lower(a) + Lower(b)
  {
    assert forall i :: 0 <= i < |a + b| ==> Lower(a + b)[i] == (Lower(a) + Lower(b))[i];
  }

  predicate AllSpace(w: string) {
    forall i :: 0 <= i < |w| ==> IsSpace(w[i])
  }

  lemma {:induction false} TrimStartSkipsSpace(w: string, x: string)
    requires AllSpace(w)
    ensures TrimStart(w + x) == TrimStart(x)
  {
    if w != [] {
      var s := w + x;
      assert s[0] == w[0] && s[1..] == w[1..] + x;
      assert TrimStart(s) == TrimStart(s[1..]);
      TrimStartSkipsSpace(w[1..], x);
    } else {
      assert w + x == x;
    }
  }

  lemma {:induction false} TrimEndSkipsSpace(x: string, w: string)
    requires AllSpace(w)
    ensures TrimEnd(x + w) == TrimEnd(x)
  {
    if w != [] {
      var v := w[..|w| - 1];
      var s := x + w;
      assert s[|s| - 1] == w[|w| - 1] && s[..|s| - 1] == x + v;
      assert TrimEnd(s) == TrimEnd(s[..|s| - 1]);
      TrimEndSkipsSpace(x, v);
    } else {
      assert x + w == x;
    }
  }

  lemma {:induction false} TrimSkipsTrailingSpace(x: string, w: string)
    requires AllSpace(w)
    ensures Trim(x + w) == Trim(x)
  {
    if x == [] {
      assert x + w == w;
      TrimStartSkipsSpace(w, []);
    } else if IsSpace(x[0]) {
      assert (x + w)[1..] == x[1..] + w;
      TrimSkipsTrailingSpace(x[1..], w);
    } else {
      TrimEndSkipsSpace(x, w);
    }
  }

  /** White space around a text does not change its trimmed form. */
  lemma TrimSkipsSurroundingSpace(w1: string, x: string, w2: string)
    requires AllSpace(w1) && AllSpace(w2)
    ensures Trim(w1 + x + w2) == Trim(x)
  {
    calc {
      Trim(w1 + x + w2);
    ==  { assert w1 + x + w2 == w1 + (x + w2); }
      TrimEnd(TrimStart(w1 + (x + w2)));
    ==  { TrimStartSkipsSpace(w1, x + w2); }
      TrimEnd(TrimStart(x + w2));
    ==  { TrimSkipsTrailingSpace(x, w2); }
      Trim(x);
    }
  }

  predicate StartsWith(s: string, prefix: string) {
    |prefix| <= |s| && s[..|prefix|] == prefix
  }

  // ---------------------------------------------------------------------------
  // Sequences

  /** `Array.prototype.filter`. */
  function Filter<T(!new)>(s: seq<T>, keep: T -> bool): (r: seq<T>)
    ensures |r| <= |s|
    ensures forall x :: x in r <==> x in s && keep(x)
    ensures IsSubsequence(r, s)
    ensures forall x :: multiset(r)[x] == if keep(x) then multiset(s)[x] else 0
  {
    if s == [] then []
    else
      assert s == [s[0]] + s[1..];
      if keep(s[0]) then [s[0]] + Filter(s[1..], keep)
      else Filter(s[1..], keep)
  }

  /** A filter that keeps every element returns the sequence itself. */
  lemma {:induction false} FilterKeepsAll<T(!new)>(s: seq<T>, keep: T -> bool)
    requires forall x :: x in s ==> keep(x)
    ensures Filter(s, keep) == s
  {
    if s != [] {
      assert s[0] in s;
      assert forall x :: x in s[1..] ==> x in s;
      FilterKeepsAll(s[1..], keep);
      assert s == [s[0]] + s[1..];
    }
  }

  /** `r` is `s` with some elements dropped and the rest in their original order. */
  predicate IsSubsequence<T(==)>(r: seq<T>, s: seq<T>) {
    if r == [] then true
    else if s == [] then false
    else if r[0] == s[0] then IsSubsequence(r[1..], s[1..])
    else IsSubsequence(r, s[1..])
  }

  predicate NoDuplicates<T(==)>(s: seq<T>) {
    forall i, j :: 0 <= i < j < |s| ==> s[i] != s[j]
  }

  /** The number of elements of `s` equal to `x`. */
  function Count<T(==)>(s: seq<T>, x: T): (n: nat)
    ensures n <= |s|
    ensures n == 0 <==> x !in s
  {
    if s == [] then 0 else (if s[0] == x then 1 else 0) + Count(s[1..], x)
  }

  lemma {:induction false} NoDuplicatesOccurOnce<T>(s: seq<T>, x: T)
    requires NoDuplicates(s)
    ensures multiset(s)[x] <= 1
  {
    if s != [] {
      assert s == [s[0]] + s[1..];
      NoDuplicatesOccurOnce(s[1..], x);
      if s[0] == x {
        assert x !in s[1..] by {
          forall k | 0 <= k < |s[1..]| ensures s[1..][k] != x {
            assert s[1..][k] == s[k + 1];
          }
        }
      }
    }
  }

  /** A rearrangement of a sequence without duplicates has none either. */
  lemma PermutationNoDuplicates<T>(s: seq<T>, t: seq<T>)
    requires multiset(s) == multiset(t) && NoDuplicates(s)
    ensures NoDuplicates(t)
  {
    forall i, j | 0 <= i < j < |t| ensures t[i] != t[j] {
      if t[i] == t[j] {
        var x := t[i];
        assert t == t[..j] + t[j..];
        assert x in t[..j] && x in t[j..] by {
          assert t[..j][i] == x && t[j..][0] == x;
        }
        assert multiset(t)[x] == multiset(t[..j])[x] + multiset(t[j..])[x];
        NoDuplicatesOccurOnce(s, x);
      }
    }
  }

  /** The number of elements of `s` that satisfy `p`. */
  function CountWhere<T(!new)>(s: seq<T>, p: T -> bool): (n: nat)
    ensures n <= |s|
    ensures n == 0 <==> forall x :: x in s ==> !p(x)
  {
    if s == [] then 0 else (if p(s[0]) then 1 else 0) + CountWhere(s[1..], p)
  }

  /** The first `n` elements (SQL `LIMIT n`). */
  function Take<T>(s: seq<T>, n: nat): (r: seq<T>)
    ensures |r| <= n && |r| <= |s|
    ensures |s| <= n ==> r == s
    ensures |s| > n ==> |r| == n
    ensures r == s[..|r|]
  {
    if |s| <= n then s else s[..n]
  }

  // ---------------------------------------------------------------------------
  // Decimal text of numbers (`String(n)`)

  function DigitChar(d: nat): (c: char)
    requires d < 10
    ensures '0' <= c <= '9'
  {
    ('0' as int + d) as char
  }

  function NatToString(n: nat): (r: string)
    ensures |r| >= 1
    ensures forall i :: 0 <= i < |r| ==> '0' <= r[i] <= '9'
  {
    if n < 10 then [DigitChar(n)] else NatToString(n / 10) + [DigitChar(n % 10)]
  }

  function IntToString(i: int): (r: string)
    ensures |r| >= 1
    ensures forall k :: 0 <= k < |r| ==> r[k] == '-' || '0' <= r[k] <= '9'
  {
    if i < 0 then "-" + NatToString(-i) else NatToString(i)
  }

  /** `String(cents / 100)`: the shortest decimal text of an amount of money, with
      the trailing zeros of the fraction dropped (`12`, `12.5`, `12.05`). */
  function MoneyToString(cents: int): (r: string)
    ensures |r| >= 1
    ensures forall k :: 0 <= k < |r| ==> r[k] == '-' || r[k] == '.' || '0' <= r[k] <= '9'
  {
    var sign := if cents < 0 then "-" else "";
    var m: nat := if cents < 0 then -cents else cents;
    var whole := NatToString(m / 100);
    var frac := m % 100;
    sign + whole +
      (if frac == 0 then ""
       else if frac % 10 == 0 then "." + [DigitChar(frac / 10)]
       else "." + [DigitChar(frac / 10), DigitChar(frac % 10)])
  }
}
