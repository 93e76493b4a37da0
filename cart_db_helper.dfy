/** The cart store: the PurchasedItem table held by `CartDbHelper`, with the
    product table and the signed-in user it consults. */
module CartDb {
  import opened PurchasedItems

  class CartDbHelper {
    /** The PurchasedItem table, in insertion order. */
    var rows: seq<PurchasedItem>
    /** The id the next insert into the table returns. */
    var nextId: int
    /** The product table, by product id (read only here). */
    var products: map<string, Product>
    /** The email of the signed-in user. */
    var signedUser: string
    /** `calculatePrice(price, minimumVolume, volume)`: its body is not part of this model. */
    const calculatePrice: (int, int, int) -> int
    /** The product table's lookup of a list of ids: its body is not part of this model. */
    const getProducts: seq<string> -> seq<Product>

    /** Opens the app's PurchasedItem table as it stands: the rows and the next
        insert id left by earlier sessions. */
    constructor (rows: seq<PurchasedItem>, nextId: int, products: map<string, Product>, signedUser: string,
                 calculatePrice: (int, int, int) -> int, getProducts: seq<string> -> seq<Product>)
      ensures this.rows == rows && this.nextId == nextId
      ensures this.products == products && this.signedUser == signedUser
      ensures this.calculatePrice == calculatePrice && this.getProducts == getProducts
    {
      this.rows := rows;
      this.nextId := nextId;
      this.products := products;
      this.signedUser := signedUser;
      this.calculatePrice := calculatePrice;
      this.getProducts := getProducts;
    }

    /** The totalPrice a write for `productId` at `volume` stores: the computed
        price when the product is known, none otherwise. */
    function PriceFor(productId: string, volume: int): Option<int>
      reads this
    {
      if productId in products then
        var product := products[productId];
        Some(calculatePrice(product.price, product.minimumVolume, volume))
      else None
    }

    /** The table after `updateVolume(productId, volume)`. */
    function VolumeUpdated(table: seq<PurchasedItem>, productId: string, volume: int): seq<PurchasedItem>
      reads this
    {
      Update(table, CartLineOf(productId), ContentValues(Some(volume), PriceFor(productId, volume)))
    }

    // -------------------------------------------------------------------------
    // The content resolver's insert, delete and update on the table

    /** Appends one row and returns its id. */
    method Insert(item: PurchasedItem) returns (id: int)
      modifies this`rows, this`nextId
      ensures rows == old(rows) + [item]
      ensures id == old(nextId) && nextId == id + 1
    {
      rows := rows + [item];
      id := nextId;
      nextId := nextId + 1;
    }

    /** Deletes the selected rows and returns how many there were. */
    method DeleteWhere(sel: Selection) returns (n: int)
      modifies this`rows
      ensures rows == Delete(old(rows), sel)
      ensures n == |Select(old(rows), sel)| == |old(rows)| - |rows|
    {
      Partition(rows, sel);
      n := |Select(rows, sel)|;
      rows := Delete(rows, sel);
    }

    /** Writes the given columns into the selected rows and returns how many
        there were. */
    method UpdateWhere(sel: Selection, cv: ContentValues) returns (n: int)
      modifies this`rows
      ensures rows == Update(old(rows), sel, cv)
      ensures n == |Select(old(rows), sel)|
    {
      n := |Select(rows, sel)|;
      rows := Update(rows, sel, cv);
    }

    // -------------------------------------------------------------------------
    // CartDbHelper's public operations

    method AddProductToCart(productId: string, volume: int) returns (id: int)
      modifies this`rows, this`nextId
      ensures id == old(nextId) && nextId == id + 1
      ensures |rows| == |old(rows)| + 1 && rows[..|old(rows)|] == old(rows)
      ensures rows[|rows| - 1] ==
        NewItem(signedUser, productId).(volume := volume, totalPrice := PriceFor(productId, volume).GetOr(Blank.totalPrice))
      ensures var line := rows[|rows| - 1];
        && line.productId == productId && line.volume == volume
        && line.userId == signedUser && !line.accepted
        && (productId in products ==>
              line.totalPrice == calculatePrice(products[productId].price, products[productId].minimumVolume, volume))
        && (productId !in products ==> line.totalPrice == Blank.totalPrice)
      ensures InCart(rows, productId)
    {
      var item := NewItem(signedUser, productId).(volume := volume);
      if productId in products {
        var product := products[productId];
        var price := calculatePrice(product.price, product.minimumVolume, item.volume);
        item := item.(totalPrice := price);
      }
      id := Insert(item);
      assert rows[|rows| - 1] == item;
    }

    method RemoveProductFromCart(productId: string) returns (n: int)
      modifies this`rows
      ensures rows == Delete(old(rows), CartLineOf(productId))
      ensures forall r :: r in rows <==> r in old(rows) && !(r.productId == productId && !r.accepted)
      ensures n == |Select(old(rows), CartLineOf(productId))| == |old(rows)| - |rows|
      ensures !InCart(rows, productId)
    {
      n := DeleteWhere(CartLineOf(productId));
      DeleteMembers(old(rows), CartLineOf(productId));
      CartLineQueryIff(rows, productId);
      DeleteCartLine(old(rows), productId, productId);
    }

    method IsProductAddedToCart(productId: string) returns (isAdded: bool)
      ensures isAdded <==> InCart(rows, productId)
    {
      var cursor := Select(rows, CartLineOf(productId));
      isAdded := false;
      if |cursor| > 0 {
        isAdded := true;
      }
      CartLineQueryIff(rows, productId);
    }

    /** The selection `getProductIdsFromCart` and `getPurchasedItemList` build:
        the acceptance flag, and the request date only when it is positive. */
    static function ListSelection(acceptedBySeller: bool, dateRequested: int): Selection {
      if dateRequested > 0 then AcceptedIs(acceptedBySeller).(dateRequested := Some(dateRequested))
      else AcceptedIs(acceptedBySeller)
    }

    method GetProductIdsFromCartOn(acceptedBySeller: bool, dateRequested: int) returns (list: seq<string>)
      ensures list == ProductIds(Select(rows, ListSelection(acceptedBySeller, dateRequested)))
      ensures forall p :: p in list <==>
        exists r :: r in rows && Matches(ListSelection(acceptedBySeller, dateRequested), r) && r.productId == p
    {
      var cursor := Select(rows, ListSelection(acceptedBySeller, dateRequested));
      list := [];
      var i := 0;
      while i < |cursor|
        invariant 0 <= i <= |cursor|
        invariant |list| == i
        invariant forall k :: 0 <= k < i ==> list[k] == cursor[k].productId
      {
        list := list + [cursor[i].productId];
        i := i + 1;
      }
      assert list == ProductIds(cursor);
      ProductIdsMembers(rows, ListSelection(acceptedBySeller, dateRequested));
    }

    method GetProductIdsFromCart(acceptedBySeller: bool) returns (list: seq<string>)
      ensures list == ProductIds(Select(rows, AcceptedIs(acceptedBySeller)))
    {
      list := GetProductIdsFromCartOn(acceptedBySeller, 0);
    }

    method GetProductsFromCartOn(acceptedBySeller: bool, dateRequested: int) returns (ps: seq<Product>)
      ensures ps == getProducts(ProductIds(Select(rows, ListSelection(acceptedBySeller, dateRequested))))
    {
      var ids := GetProductIdsFromCartOn(acceptedBySeller, dateRequested);
      ps := getProducts(ids);
    }

    method GetProductsFromCart(acceptedBySeller: bool) returns (ps: seq<Product>)
      ensures ps == getProducts(ProductIds(Select(rows, AcceptedIs(acceptedBySeller))))
    {
      ps := GetProductsFromCartOn(acceptedBySeller, 0);
    }

    method GetPurchasedItemListOn(acceptedBySeller: bool, dateRequested: int) returns (items: seq<PurchasedItem>)
      ensures items == Select(rows, ListSelection(acceptedBySeller, dateRequested))
      ensures forall r :: r in items <==>
        r in rows && r.accepted == acceptedBySeller && (dateRequested > 0 ==> r.dateRequested == dateRequested)
    {
      var cursor := Select(rows, ListSelection(acceptedBySeller, dateRequested));
      items := [];
      var i := 0;
      while i < |cursor|
        invariant 0 <= i <= |cursor|
        invariant items == cursor[..i]
      {
        items := items + [cursor[i]];
        i := i + 1;
      }
      assert cursor[..|cursor|] == cursor;
      SelectMembers(rows, ListSelection(acceptedBySeller, dateRequested));
    }

    method GetPurchasedItemList(acceptedBySeller: bool) returns (items: seq<PurchasedItem>)
      ensures items == Select(rows, AcceptedIs(acceptedBySeller))
    {
      items := GetPurchasedItemListOn(acceptedBySeller, 0);
    }

    /** The selection `getCartItem` builds: the request date counts only for
        accepted rows and a positive date. */
    static function ItemSelection(productId: string, acceptedBySeller: bool, dateRequested: int): Selection {
      var sel := Everything.(productId := Some(productId), accepted := Some(acceptedBySeller));
      if acceptedBySeller && dateRequested > 0 then sel.(dateRequested := Some(dateRequested)) else sel
    }

    /** The last row the selection finds, or a blank item when it finds none. */
    method GetCartItemOn(productId: string, acceptedBySeller: bool, dateRequested: int) returns (item: PurchasedItem)
      ensures var selected := Select(rows, ItemSelection(productId, acceptedBySeller, dateRequested));
        item == if selected == [] then Blank else selected[|selected| - 1]
      ensures item == Blank || (item in rows && item.productId == productId && item.accepted == acceptedBySeller)
    {
      var cursor := Select(rows, ItemSelection(productId, acceptedBySeller, dateRequested));
      item := Blank;
      var i := 0;
      while i < |cursor|
        invariant 0 <= i <= |cursor|
        invariant item == if i == 0 then Blank else cursor[i - 1]
      {
        item := cursor[i];
        i := i + 1;
      }
      if cursor != [] {
        SelectMembers(rows, ItemSelection(productId, acceptedBySeller, dateRequested));
        assert cursor[|cursor| - 1] in cursor;
      }
    }

    method GetCartItem(productId: string, acceptedBySeller: bool) returns (item: PurchasedItem)
      ensures var selected := Select(rows, ItemSelection(productId, acceptedBySeller, 0));
        item == if selected == [] then Blank else selected[|selected| - 1]
    {
      item := GetCartItemOn(productId, acceptedBySeller, 0);
    }

    /** The sum of totalPrice over the cart's (unaccepted) rows. */
    method GetCartSubtotal() returns (totalOrderPrice: int)
      ensures totalOrderPrice == SumPrices(Select(rows, AcceptedIs(false)))
      ensures (forall r :: r in rows ==> r.accepted) ==> totalOrderPrice == 0
    {
      var purchasedItems := GetPurchasedItemList(false);
      totalOrderPrice := 0;
      for i := 0 to |purchasedItems|
        invariant totalOrderPrice == SumPrices(purchasedItems[..i])
      {
        assert purchasedItems[..i + 1][..i] == purchasedItems[..i];
        totalOrderPrice := totalOrderPrice + purchasedItems[i].totalPrice;
      }
      assert purchasedItems[..|purchasedItems|] == purchasedItems;
      if purchasedItems != [] {
        SelectMembers(rows, AcceptedIs(false));
        assert purchasedItems[0] in purchasedItems;
        assert purchasedItems[0] in rows && !purchasedItems[0].accepted;
      }
    }

    /** The number of accepted rows and the sum of their totalPrice, narrowed
        to one request date when the date is positive. */
    method GetOrderSubtotal(dateOfOrder: int) returns (count: int, totalOrderPrice: int)
      ensures var selected := Select(rows, ListSelection(true, dateOfOrder));
        count == |selected| && totalOrderPrice == SumPrices(selected)
      ensures dateOfOrder <= 0 ==>
        var orders := Select(rows, AcceptedIs(true));
        count == |orders| && totalOrderPrice == SumPrices(orders)
    {
      var purchasedItems := GetPurchasedItemListOn(true, dateOfOrder);
      totalOrderPrice := 0;
      for i := 0 to |purchasedItems|
        invariant totalOrderPrice == SumPrices(purchasedItems[..i])
      {
        assert purchasedItems[..i + 1][..i] == purchasedItems[..i];
        totalOrderPrice := totalOrderPrice + purchasedItems[i].totalPrice;
      }
      assert purchasedItems[..|purchasedItems|] == purchasedItems;
      count := |purchasedItems|;
    }

    /** Replaces every accepted row by the given order history. */
    method StoreOrderHistory(purchasedItems: seq<PurchasedItem>)
      modifies this`rows, this`nextId
      ensures rows == Select(old(rows), AcceptedIs(false)) + purchasedItems
      ensures nextId == old(nextId) + |purchasedItems|
      ensures forall r :: r in rows && r.accepted ==> r in purchasedItems
    {
      var _ := DeleteWhere(AcceptedIs(true));
      DeleteAcceptedIs(old(rows), true);
      ghost var cart := rows;
      for i := 0 to |purchasedItems|
        invariant rows == cart + purchasedItems[..i]
        invariant nextId == old(nextId) + i
      {
        var _ := Insert(purchasedItems[i]);
        assert purchasedItems[..i + 1] == purchasedItems[..i] + [purchasedItems[i]];
      }
      assert purchasedItems[..|purchasedItems|] == purchasedItems;
      SelectMembers(old(rows), AcceptedIs(false));
    }

    method UpdateVolume(productId: string, updatedVolume: int) returns (n: int)
      modifies this`rows
      ensures rows == VolumeUpdated(old(rows), productId, updatedVolume)
      ensures |rows| == |old(rows)|
      ensures forall i :: 0 <= i < |rows| ==>
        if old(rows[i]).productId == productId && !old(rows[i]).accepted then
          && rows[i].volume == updatedVolume
          && rows[i].totalPrice == PriceFor(productId, updatedVolume).GetOr(old(rows[i]).totalPrice)
          && rows[i].(volume := old(rows[i]).volume, totalPrice := old(rows[i]).totalPrice) == old(rows[i])
        else rows[i] == old(rows[i])
      ensures n == |Select(old(rows), CartLineOf(productId))|
    {
      var values := ContentValues(Some(updatedVolume), None);
      if productId in products {
        var product := products[productId];
        var price := calculatePrice(product.price, product.minimumVolume, updatedVolume);
        values := values.(totalPrice := Some(price));
      }
      n := UpdateWhere(CartLineOf(productId), values);
    }

    method ClearCartItems() returns (n: int)
      modifies this`rows
      ensures rows == Select(old(rows), AcceptedIs(true))
      ensures n == |Select(old(rows), AcceptedIs(false))| == |old(rows)| - |rows|
    {
      n := DeleteWhere(AcceptedIs(false));
      DeleteAcceptedIs(old(rows), false);
    }

    method RemoveCartItem(id: string) returns (n: int)
      modifies this`rows
      ensures rows == Delete(old(rows), Everything.(purchaseId := Some(id), accepted := Some(false)))
      ensures forall r :: r in rows <==> r in old(rows) && !(r.purchaseId == id && !r.accepted)
      ensures n == |old(rows)| - |rows|
    {
      n := DeleteWhere(Everything.(purchaseId := Some(id), accepted := Some(false)));
      DeleteMembers(old(rows), Everything.(purchaseId := Some(id), accepted := Some(false)));
    }

    /** For the user's accepted rows: one entry per request date, holding the
        sum of totalPrice of that date's rows. */
    method GetOrderHistoryDates(userId: string) returns (pair: map<int, int>)
      ensures var history := Select(rows, AcceptedIs(true).(userId := Some(userId)));
        && pair.Keys == DatesOf(history)
        && forall d :: d in pair ==> pair[d] == SumPrices(Select(history, RequestedOn(d)))
      ensures pair.Keys == (set r | r in rows && r.accepted && r.userId == userId :: r.dateRequested)
      ensures forall d :: d in pair ==>
        pair[d] == SumPrices(Select(rows, Everything.(accepted := Some(true), userId := Some(userId), dateRequested := Some(d))))
    {
      var cursor := Select(rows, AcceptedIs(true).(userId := Some(userId)));
      var list: seq<PurchasedItem> := [];
      var j := 0;
      while j < |cursor|
        invariant 0 <= j <= |cursor|
        invariant list == cursor[..j]
      {
        list := list + [cursor[j]];
        j := j + 1;
      }
      assert cursor[..|cursor|] == cursor;
      assert list == cursor;

      pair := map[];
      for i := 0 to |list|
        invariant pair == DateTotals(list[..i])
      {
        var item := list[i];
        var dateRequested := item.dateRequested;
        var price := item.totalPrice;
        ghost var before := pair;
        if dateRequested in pair {
          var priceSum := pair[dateRequested] + price;
          pair := pair[dateRequested := priceSum];
        } else {
          pair := pair[dateRequested := price];
        }
        assert pair == AddToDate(before, item);
        assert list[..i + 1][..i] == list[..i];
      }
      assert list[..|list|] == list;
      DateTotalsMeaning(list);
      HistoryDates(rows, userId);
      forall d | d in pair
        ensures pair[d] == SumPrices(Select(rows, Everything.(accepted := Some(true), userId := Some(userId), dateRequested := Some(d))))
      {
        HistoryOnDate(rows, userId, d);
      }
    }
  }

  /** Reading a cart line back after a volume write: when the product is in
      the cart, the query `getCartItem(p, false)` builds finds a line in the
      updated table, and its last line is the old last line with the written
      volume and, when one was written, the written price. */
  lemma CartItemAfterUpdate(rows: seq<PurchasedItem>, p: string, v: int, price: Option<int>)
    requires InCart(rows, p)
    ensures var lines := Select(rows, CartLineOf(p));
      var found := Select(Update(rows, CartLineOf(p), ContentValues(Some(v), price)), CartDbHelper.ItemSelection(p, false, 0));
      && lines != [] && found != []
      && found[|found| - 1] == lines[|lines| - 1].(volume := v, totalPrice := price.GetOr(lines[|lines| - 1].totalPrice))
      && found[|found| - 1].volume == v
      && (price.Some? ==> found[|found| - 1].totalPrice == price.value)
  {
    var sel, cv := CartLineOf(p), ContentValues(Some(v), price);
    var lines := Select(rows, sel);
    assert CartDbHelper.ItemSelection(p, false, 0) == sel;
    CartLineQueryIff(rows, p);
    SelectUpdate(rows, sel, cv, sel);
    SelectMembers(rows, sel);
    assert lines[|lines| - 1] in lines;
  }

  /** The request dates of a list of rows. */
  ghost function DatesOf(list: seq<PurchasedItem>): set<int> {
    set r | r in list :: r.dateRequested
  }

  /** The request dates of a user's order history are those of the user's
      accepted rows. */
  lemma HistoryDates(rows: seq<PurchasedItem>, userId: string)
    ensures DatesOf(Select(rows, AcceptedIs(true).(userId := Some(userId))))
         == (set r | r in rows && r.accepted && r.userId == userId :: r.dateRequested)
  {
    SelectMembers(rows, AcceptedIs(true).(userId := Some(userId)));
  }

  lemma DatesSnoc(list: seq<PurchasedItem>, item: PurchasedItem)
    ensures DatesOf(list + [item]) == DatesOf(list) + {item.dateRequested}
  {
    forall d | d in DatesOf(list + [item])
      ensures d in DatesOf(list) + {item.dateRequested}
    {
      var r :| r in list + [item] && r.dateRequested == d;
      if r != item {
        assert r in list;
      }
    }
  }

  /** Adds a row's price to the sum of its request date, starting that sum
      when the date has none yet. */
  function AddToDate(totals: map<int, int>, item: PurchasedItem): map<int, int> {
    var d := item.dateRequested;
    totals[d := if d in totals then totals[d] + item.totalPrice else item.totalPrice]
  }

  /** The per-date sums of a list of rows, accumulated row by row. */
  ghost function DateTotals(list: seq<PurchasedItem>): map<int, int> {
    if list == [] then map[] else AddToDate(DateTotals(list[..|list| - 1]), list[|list| - 1])
  }

  /** The accumulated sums hold one key per request date, and under each key
      the sum of totalPrice of the rows requested on that date. */
  lemma {:induction false} DateTotalsMeaning(list: seq<PurchasedItem>)
    ensures DateTotals(list).Keys == DatesOf(list)
    ensures forall d :: d in DateTotals(list) ==> DateTotals(list)[d] == SumPrices(Select(list, RequestedOn(d)))
  {
    if list != [] {
      var init, item := list[..|list| - 1], list[|list| - 1];
      assert list == init + [item];
      DateTotalsMeaning(init);
      DatesSnoc(init, item);
      forall d | d in DateTotals(list)
        ensures DateTotals(list)[d] == SumPrices(Select(list, RequestedOn(d)))
      {
        DateSumSnoc(init, item, d);
        if d !in DatesOf(init) {
          NoRowsOnDate(init, d);
        }
      }
    }
  }

  /** Adding a row changes only its own date's sum, by its price. */
  lemma DateSumSnoc(list: seq<PurchasedItem>, item: PurchasedItem, d: int)
    ensures SumPrices(Select(list + [item], RequestedOn(d))) ==
      SumPrices(Select(list, RequestedOn(d))) + (if d == item.dateRequested then item.totalPrice else 0)
  {
    var s := Select(list, RequestedOn(d));
    SelectSnoc(list, item, RequestedOn(d));
    if d == item.dateRequested {
      SumSnoc(s, item);
    } else {
      assert s + [] == s;
    }
  }

  /** A date no row was requested on sums to nothing. */
  lemma NoRowsOnDate(list: seq<PurchasedItem>, d: int)
    requires d !in DatesOf(list)
    ensures Select(list, RequestedOn(d)) == []
  {
    forall x | x in list
      ensures !Matches(RequestedOn(d), x)
    {
      assert x.dateRequested in DatesOf(list);
    }
    SelectNone(list, RequestedOn(d));
  }

  /** Narrowing the user's order history to one date is the query for the
      user's accepted rows of that date. */
  lemma {:induction false} HistoryOnDate(rows: seq<PurchasedItem>, userId: string, d: int)
    ensures Select(Select(rows, AcceptedIs(true).(userId := Some(userId))), RequestedOn(d))
         == Select(rows, Everything.(accepted := Some(true), userId := Some(userId), dateRequested := Some(d)))
  {
    if rows != [] {
      var init, last := rows[..|rows| - 1], rows[|rows| - 1];
      var history := AcceptedIs(true).(userId := Some(userId));
      var onDate := Everything.(accepted := Some(true), userId := Some(userId), dateRequested := Some(d));
      assert rows == init + [last];
      HistoryOnDate(init, userId, d);
      SelectSnoc(init, last, history);
      SelectSnoc(init, last, onDate);
      assert Matches(onDate, last) == (Matches(history, last) && Matches(RequestedOn(d), last));
      if Matches(history, last) {
        SelectSnoc(Select(init, history), last, RequestedOn(d));
      } else {
        assert Select(rows, history) == Select(init, history);
      }
    }
  }
}
