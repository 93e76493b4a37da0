/** The PurchasedItem table of the cart store, as values: the row record, the
    selections the store builds (a conjunction of column equalities), and what
    a query, a delete, an update and a price sum do with a sequence of rows. */
module PurchasedItems {

  datatype Option<T> = None | Some(value: T) {
    function GetOr(default: T): T {
      if Some? then value else default
    }
  }

  /** A product record, as far as the cart logic reads it. A product that the
      product table does not hold is the absent key of a `map<string, Product>`. */
  datatype Product = Product(
    id: string,
    nameEnglish: string,
    price: int,
    minimumVolume: int,
    maximumVolume: int,
    volumeSet: int)

  /** One row of the PurchasedItem table. The record and the column values
      written from it and read back into it are the same value here. */
  datatype PurchasedItem = PurchasedItem(
    purchaseId: string,
    productId: string,
    userId: string,
    volume: int,
    accepted: bool,
    completed: bool,
    dateRequested: int,
    dateAccepted: int,
    totalPrice: int)

  /** A freshly constructed item: every field at its default value. */
  const Blank := PurchasedItem("", "", "", 0, false, false, 0, 0, 0)

  /** A new item for a user and a product; every other field at its default. */
  function NewItem(userId: string, productId: string): PurchasedItem {
    Blank.(userId := userId, productId := productId)
  }

  /** The WHERE clause of a query: `None` leaves a column unconstrained,
      `Some(v)` demands that the column equal `v`. */
  datatype Selection = Selection(
    productId: Option<string>,
    accepted: Option<bool>,
    dateRequested: Option<int>,
    userId: Option<string>,
    purchaseId: Option<string>)

  const Everything := Selection(None, None, None, None, None)

  predicate Holds<T(==)>(column: Option<T>, v: T) {
    column.None? || column.value == v
  }

  predicate Matches(sel: Selection, r: PurchasedItem) {
    && Holds(sel.productId, r.productId)
    && Holds(sel.accepted, r.accepted)
    && Holds(sel.dateRequested, r.dateRequested)
    && Holds(sel.userId, r.userId)
    && Holds(sel.purchaseId, r.purchaseId)
  }

  /** `accepted = b` */
  function AcceptedIs(b: bool): Selection {
    Everything.(accepted := Some(b))
  }

  /** `productId = p AND accepted = false`: the cart line of a product. */
  function CartLineOf(productId: string): Selection {
    Everything.(productId := Some(productId), accepted := Some(false))
  }

  /** `dateRequested = d` */
  function RequestedOn(d: int): Selection {
    Everything.(dateRequested := Some(d))
  }

  /** Reference definition of "the product is in the cart": some row of the
      table is an unaccepted line for it. */
  ghost predicate InCart(rows: seq<PurchasedItem>, productId: string) {
    exists i :: 0 <= i < |rows| && rows[i].productId == productId && !rows[i].accepted
  }

  /** The columns an UPDATE writes; `None` leaves a column as it is. */
  datatype ContentValues = ContentValues(volume: Option<int>, totalPrice: Option<int>)

  function Apply(r: PurchasedItem, cv: ContentValues): PurchasedItem {
    r.(volume := cv.volume.GetOr(r.volume), totalPrice := cv.totalPrice.GetOr(r.totalPrice))
  }

  /** The rows a query returns, in table order. */
  function Select(rows: seq<PurchasedItem>, sel: Selection): (r: seq<PurchasedItem>)
    ensures |r| <= |rows|
  {
    if rows == [] then []
    else
      var init := rows[..|rows| - 1];
      var last := rows[|rows| - 1];
      Select(init, sel) + (if Matches(sel, last) then [last] else [])
  }

  /** The rows a DELETE leaves behind, in table order. */
  function Delete(rows: seq<PurchasedItem>, sel: Selection): (r: seq<PurchasedItem>)
    ensures |r| <= |rows|
  {
    if rows == [] then []
    else
      var init := rows[..|rows| - 1];
      var last := rows[|rows| - 1];
      Delete(init, sel) + (if Matches(sel, last) then [] else [last])
  }

  /** The table after an UPDATE: each selected row gets the new values. */
  function Update(rows: seq<PurchasedItem>, sel: Selection, cv: ContentValues): (r: seq<PurchasedItem>)
    ensures |r| == |rows|
    ensures forall i :: 0 <= i < |rows| ==>
      r[i] == if Matches(sel, rows[i]) then Apply(rows[i], cv) else rows[i]
  {
    if rows == [] then []
    else
      var init := rows[..|rows| - 1];
      var last := rows[|rows| - 1];
      Update(init, sel, cv) + [if Matches(sel, last) then Apply(last, cv) else last]
  }

  /** The sum of the totalPrice column. */
  function SumPrices(rows: seq<PurchasedItem>): int {
    if rows == [] then 0 else SumPrices(rows[..|rows| - 1]) + rows[|rows| - 1].totalPrice
  }

  /** The product ids of a list of rows, in order. */
  function ProductIds(rows: seq<PurchasedItem>): seq<string> {
    seq(|rows|, i requires 0 <= i < |rows| => rows[i].productId)
  }

  /** Every product has at most one unaccepted line in the table. */
  ghost predicate CartLinesUnique(rows: seq<PurchasedItem>) {
    forall p :: |Select(rows, CartLineOf(p))| <= 1
  }

  // ---------------------------------------------------------------------------
  // Lemmas about queries, deletes and updates

  lemma SelectSnoc(rows: seq<PurchasedItem>, x: PurchasedItem, sel: Selection)
    ensures Select(rows + [x], sel) == Select(rows, sel) + (if Matches(sel, x) then [x] else [])
  {
    assert (rows + [x])[..|rows|] == rows;
  }

  lemma DeleteSnoc(rows: seq<PurchasedItem>, x: PurchasedItem, sel: Selection)
    ensures Delete(rows + [x], sel) == Delete(rows, sel) + (if Matches(sel, x) then [] else [x])
  {
    assert (rows + [x])[..|rows|] == rows;
  }

  lemma SumSnoc(rows: seq<PurchasedItem>, x: PurchasedItem)
    ensures SumPrices(rows + [x]) == SumPrices(rows) + x.totalPrice
  {
    assert (rows + [x])[..|rows|] == rows;
  }

  /** A query returns exactly the rows of the table that match it. */
  lemma {:induction false} SelectMembers(rows: seq<PurchasedItem>, sel: Selection)
    ensures forall x :: x in Select(rows, sel) <==> x in rows && Matches(sel, x)
  {
    if rows != [] {
      var init, last := rows[..|rows| - 1], rows[|rows| - 1];
      assert rows == init + [last];
      SelectMembers(init, sel);
    }
  }

  /** A delete keeps exactly the rows of the table that do not match it. */
  lemma {:induction false} DeleteMembers(rows: seq<PurchasedItem>, sel: Selection)
    ensures forall x :: x in Delete(rows, sel) <==> x in rows && !Matches(sel, x)
  {
    if rows != [] {
      var init, last := rows[..|rows| - 1], rows[|rows| - 1];
      assert rows == init + [last];
      DeleteMembers(init, sel);
    }
  }

  /** A product id is listed by a query exactly when some matching row of the
      table carries it. */
  lemma ProductIdsMembers(rows: seq<PurchasedItem>, sel: Selection)
    ensures forall p :: p in ProductIds(Select(rows, sel)) <==>
      exists r :: r in rows && Matches(sel, r) && r.productId == p
  {
    var found := Select(rows, sel);
    SelectMembers(rows, sel);
    forall p ensures p in ProductIds(found) <==> exists r :: r in rows && Matches(sel, r) && r.productId == p {
      if p in ProductIds(found) {
        var i :| 0 <= i < |found| && ProductIds(found)[i] == p;
        assert found[i] in found;
      }
      if exists r :: r in rows && Matches(sel, r) && r.productId == p {
        var r :| r in rows && Matches(sel, r) && r.productId == p;
        assert r in found;
        var i :| 0 <= i < |found| && found[i] == r;
        assert ProductIds(found)[i] == p;
      }
    }
  }

  /** A query returns some row exactly when some row of the table matches. */
  lemma SelectNonEmpty(rows: seq<PurchasedItem>, sel: Selection)
    ensures |Select(rows, sel)| > 0 <==> exists i :: 0 <= i < |rows| && Matches(sel, rows[i])
  {
    SelectMembers(rows, sel);
    if |Select(rows, sel)| > 0 {
      var x := Select(rows, sel)[0];
      assert x in Select(rows, sel);
      var i :| 0 <= i < |rows| && rows[i] == x;
    }
    if i :| 0 <= i < |rows| && Matches(sel, rows[i]) {
      assert rows[i] in Select(rows, sel);
    }
  }

  /** A query that no row matches returns nothing. */
  lemma {:induction false} SelectNone(rows: seq<PurchasedItem>, sel: Selection)
    requires forall x :: x in rows ==> !Matches(sel, x)
    ensures Select(rows, sel) == []
  {
    if rows != [] {
      var init, last := rows[..|rows| - 1], rows[|rows| - 1];
      assert rows == init + [last];
      assert forall x :: x in init ==> x in rows;
      SelectNone(init, sel);
    }
  }

  /** The query for a product's cart line is non-empty exactly when the
      product is in the cart. */
  lemma CartLineQueryIff(rows: seq<PurchasedItem>, productId: string)
    ensures |Select(rows, CartLineOf(productId))| > 0 <==> InCart(rows, productId)
  {
    SelectNonEmpty(rows, CartLineOf(productId));
  }

  /** Query and delete cut the table into two parts: the rows a DELETE removes
      are exactly the rows the same query returns, so the counts add up and no
      row is lost or duplicated. */
  lemma {:induction false} Partition(rows: seq<PurchasedItem>, sel: Selection)
    ensures multiset(rows) == multiset(Select(rows, sel)) + multiset(Delete(rows, sel))
    ensures |Select(rows, sel)| + |Delete(rows, sel)| == |rows|
  {
    if rows != [] {
      var init, last := rows[..|rows| - 1], rows[|rows| - 1];
      assert rows == init + [last];
      Partition(init, sel);
      SelectSnoc(init, last, sel);
      DeleteSnoc(init, last, sel);
    }
  }

  /** Deleting keeps the surviving rows in their old order: a DELETE over two
      stretches of the table is the two DELETEs side by side. */
  lemma {:induction false} DeleteAppend(a: seq<PurchasedItem>, b: seq<PurchasedItem>, sel: Selection)
    ensures Delete(a + b, sel) == Delete(a, sel) + Delete(b, sel)
  {
    if b == [] {
      assert a + b == a;
    } else {
      var init, last := b[..|b| - 1], b[|b| - 1];
      assert b == init + [last];
      assert a + b == (a + init) + [last];
      DeleteAppend(a, init, sel);
      DeleteSnoc(a + init, last, sel);
      DeleteSnoc(init, last, sel);
    }
  }

  /** The same for queries. */
  lemma {:induction false} SelectAppend(a: seq<PurchasedItem>, b: seq<PurchasedItem>, sel: Selection)
    ensures Select(a + b, sel) == Select(a, sel) + Select(b, sel)
  {
    if b == [] {
      assert a + b == a;
    } else {
      var init, last := b[..|b| - 1], b[|b| - 1];
      assert b == init + [last];
      assert a + b == (a + init) + [last];
      SelectAppend(a, init, sel);
      SelectSnoc(a + init, last, sel);
      SelectSnoc(init, last, sel);
    }
  }

  /** The sum of prices is additive over stretches of the table. */
  lemma {:induction false} SumAppend(a: seq<PurchasedItem>, b: seq<PurchasedItem>)
    ensures SumPrices(a + b) == SumPrices(a) + SumPrices(b)
  {
    if b == [] {
      assert a + b == a;
    } else {
      var init, last := b[..|b| - 1], b[|b| - 1];
      assert b == init + [last];
      assert a + b == (a + init) + [last];
      SumAppend(a, init);
      SumSnoc(a + init, last);
      SumSnoc(init, last);
    }
  }

  /** Deleting the rows with `accepted = b` leaves exactly the rows with
      `accepted = !b`, in order. */
  lemma {:induction false} DeleteAcceptedIs(rows: seq<PurchasedItem>, b: bool)
    ensures Delete(rows, AcceptedIs(b)) == Select(rows, AcceptedIs(!b))
  {
    if rows != [] {
      var init, last := rows[..|rows| - 1], rows[|rows| - 1];
      assert rows == init + [last];
      DeleteAcceptedIs(init, b);
      DeleteSnoc(init, last, AcceptedIs(b));
      SelectSnoc(init, last, AcceptedIs(!b));
    }
  }

  /** An update only writes volume and totalPrice, which no selection reads, so
      querying the updated table is the same as updating the query's rows. */
  lemma {:induction false} SelectUpdate(rows: seq<PurchasedItem>, sel: Selection, cv: ContentValues, query: Selection)
    ensures Select(Update(rows, sel, cv), query) == Update(Select(rows, query), sel, cv)
  {
    if rows != [] {
      var init, last := rows[..|rows| - 1], rows[|rows| - 1];
      var last' := if Matches(sel, last) then Apply(last, cv) else last;
      var updated := Update(init, sel, cv);
      assert rows == init + [last];
      assert Update(rows, sel, cv) == updated + [last'];
      assert Matches(query, last') == Matches(query, last);
      SelectUpdate(init, sel, cv, query);
      SelectSnoc(updated, last', query);
      SelectSnoc(init, last, query);
      if Matches(query, last) {
        UpdateSnoc(Select(init, query), last, sel, cv);
      }
    }
  }

  lemma UpdateSnoc(rows: seq<PurchasedItem>, x: PurchasedItem, sel: Selection, cv: ContentValues)
    ensures Update(rows + [x], sel, cv) == Update(rows, sel, cv) + [if Matches(sel, x) then Apply(x, cv) else x]
  {
    assert (rows + [x])[..|rows|] == rows;
  }

  /** After deleting a product's cart line, no product has more cart lines
      than before, and that product has none. */
  lemma {:induction false} DeleteCartLine(rows: seq<PurchasedItem>, q: string, p: string)
    ensures Select(Delete(rows, CartLineOf(q)), CartLineOf(p)) ==
            if p == q then [] else Select(rows, CartLineOf(p))
  {
    if rows != [] {
      var init, last := rows[..|rows| - 1], rows[|rows| - 1];
      assert rows == init + [last];
      var kept := Delete(init, CartLineOf(q));
      DeleteCartLine(init, q, p);
      DeleteSnoc(init, last, CartLineOf(q));
      SelectSnoc(init, last, CartLineOf(p));
      if Matches(CartLineOf(q), last) {
        assert Delete(rows, CartLineOf(q)) == kept;
        assert p != q ==> !Matches(CartLineOf(p), last);
      } else {
        assert Delete(rows, CartLineOf(q)) == kept + [last];
        SelectSnoc(kept, last, CartLineOf(p));
        assert p == q ==> !Matches(CartLineOf(p), last);
      }
    }
  }

  /** After an UPDATE, every row its selection finds holds the volume it wrote. */
  lemma UpdatedVolume(rows: seq<PurchasedItem>, sel: Selection, v: int, price: Option<int>)
    ensures forall r :: r in Select(Update(rows, sel, ContentValues(Some(v), price)), sel) ==> r.volume == v
  {
    var cv := ContentValues(Some(v), price);
    var found := Select(rows, sel);
    var written := Update(found, sel, cv);
    SelectUpdate(rows, sel, cv, sel);
    forall r | r in written
      ensures r.volume == v
    {
      var i :| 0 <= i < |found| && written[i] == r;
      assert found[i] in found;
      SelectMembers(rows, sel);
      assert Matches(sel, found[i]);
      assert r == Apply(found[i], cv);
    }
  }

  /** Adding a line for a product that is not in the cart keeps every product
      at one cart line at most. */
  lemma AddKeepsUnique(rows: seq<PurchasedItem>, x: PurchasedItem)
    requires CartLinesUnique(rows)
    requires !InCart(rows, x.productId)
    ensures CartLinesUnique(rows + [x])
  {
    forall p
      ensures |Select(rows + [x], CartLineOf(p))| <= 1
    {
      SelectSnoc(rows, x, CartLineOf(p));
      if Matches(CartLineOf(p), x) {
        CartLineQueryIff(rows, p);
      }
    }
  }

  /** Deleting a product's cart line keeps every product at one cart line at most. */
  lemma DeleteKeepsUnique(rows: seq<PurchasedItem>, q: string)
    requires CartLinesUnique(rows)
    ensures CartLinesUnique(Delete(rows, CartLineOf(q)))
  {
    forall p
      ensures |Select(Delete(rows, CartLineOf(q)), CartLineOf(p))| <= 1
    {
      DeleteCartLine(rows, q, p);
    }
  }

  /** An update keeps every product at one cart line at most. */
  lemma UpdateKeepsUnique(rows: seq<PurchasedItem>, sel: Selection, cv: ContentValues)
    requires CartLinesUnique(rows)
    ensures CartLinesUnique(Update(rows, sel, cv))
  {
    forall p
      ensures |Select(Update(rows, sel, cv), CartLineOf(p))| <= 1
    {
      SelectUpdate(rows, sel, cv, CartLineOf(p));
    }
  }

  // ---------------------------------------------------------------------------
  // Lemmas about price sums

  /** Adding a cart line raises the cart subtotal by the line's price. */
  lemma SubtotalAfterAdd(rows: seq<PurchasedItem>, x: PurchasedItem)
    requires !x.accepted
    ensures SumPrices(Select(rows + [x], AcceptedIs(false))) == SumPrices(Select(rows, AcceptedIs(false))) + x.totalPrice
  {
    SelectSnoc(rows, x, AcceptedIs(false));
    SumSnoc(Select(rows, AcceptedIs(false)), x);
  }

  /** A query and a delete on the same selection split the price sum. */
  lemma {:induction false} SumSplit(rows: seq<PurchasedItem>, sel: Selection)
    ensures SumPrices(rows) == SumPrices(Select(rows, sel)) + SumPrices(Delete(rows, sel))
  {
    if rows != [] {
      var init, last := rows[..|rows| - 1], rows[|rows| - 1];
      var s, d := Select(init, sel), Delete(init, sel);
      assert rows == init + [last];
      SumSplit(init, sel);
      SumSnoc(init, last);
      SelectSnoc(init, last, sel);
      DeleteSnoc(init, last, sel);
      if Matches(sel, last) {
        assert Select(rows, sel) == s + [last];
        assert Delete(rows, sel) == d + [] == d;
        SumSnoc(s, last);
      } else {
        assert Select(rows, sel) == s + [] == s;
        assert Delete(rows, sel) == d + [last];
        SumSnoc(d, last);
      }
    }
  }

  /** The prices of the whole table are the cart subtotal plus the orders' total. */
  lemma PriceSplit(rows: seq<PurchasedItem>)
    ensures SumPrices(rows) == SumPrices(Select(rows, AcceptedIs(false))) + SumPrices(Select(rows, AcceptedIs(true)))
  {
    SumSplit(rows, AcceptedIs(false));
    DeleteAcceptedIs(rows, false);
  }

  /** A query and a delete on two selections commute. */
  lemma {:induction false} SelectDelete(rows: seq<PurchasedItem>, query: Selection, del: Selection)
    ensures Select(Delete(rows, del), query) == Delete(Select(rows, query), del)
  {
    if rows != [] {
      var init, last := rows[..|rows| - 1], rows[|rows| - 1];
      var d, s := Delete(init, del), Select(init, query);
      assert rows == init + [last];
      SelectDelete(init, query, del);
      DeleteSnoc(init, last, del);
      SelectSnoc(init, last, query);
      if Matches(query, last) {
        assert Select(rows, query) == s + [last];
        DeleteSnoc(s, last, del);
        if Matches(del, last) {
          assert Delete(rows, del) == d + [] == d;
          assert Delete(s + [last], del) == Delete(s, del) + [] == Delete(s, del);
        } else {
          assert Delete(rows, del) == d + [last];
          SelectSnoc(d, last, query);
          assert Select(d + [last], query) == Select(d, query) + [last];
        }
      } else {
        assert Select(rows, query) == s + [] == s;
        if Matches(del, last) {
          assert Delete(rows, del) == d + [] == d;
        } else {
          assert Delete(rows, del) == d + [last];
          SelectSnoc(d, last, query);
          assert Select(d + [last], query) == Select(d, query) + [] == Select(d, query);
        }
      }
    }
  }

  /** Narrowing a query's rows by a stricter selection is the stricter query. */
  lemma {:induction false} SelectNarrower(rows: seq<PurchasedItem>, wide: Selection, narrow: Selection)
    requires forall x :: Matches(narrow, x) ==> Matches(wide, x)
    ensures Select(Select(rows, wide), narrow) == Select(rows, narrow)
  {
    if rows != [] {
      var init, last := rows[..|rows| - 1], rows[|rows| - 1];
      var w := Select(init, wide);
      assert rows == init + [last];
      SelectNarrower(init, wide, narrow);
      SelectSnoc(init, last, wide);
      SelectSnoc(init, last, narrow);
      if Matches(wide, last) {
        assert Select(rows, wide) == w + [last];
        SelectSnoc(w, last, narrow);
      } else {
        assert Select(rows, wide) == w + [] == w;
        assert !Matches(narrow, last);
        assert Select(rows, narrow) == Select(init, narrow) + [] == Select(init, narrow);
      }
    }
  }

  /** Removing a product's cart line lowers the cart subtotal by exactly the
      price of that line. */
  lemma SubtotalAfterRemove(rows: seq<PurchasedItem>, p: string)
    ensures SumPrices(Select(Delete(rows, CartLineOf(p)), AcceptedIs(false))) + SumPrices(Select(rows, CartLineOf(p)))
         == SumPrices(Select(rows, AcceptedIs(false)))
  {
    var cart := Select(rows, AcceptedIs(false));
    SelectDelete(rows, AcceptedIs(false), CartLineOf(p));
    SelectNarrower(rows, AcceptedIs(false), CartLineOf(p));
    SumSplit(cart, CartLineOf(p));
  }
}
