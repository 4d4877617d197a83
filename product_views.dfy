/**
 * The product endpoints. Both views sit behind the IsAdminOrReadOnly class
 * gate: reads are open to every caller, writes need a staff user. Deletion
 * is a hard delete. The server's clock is the `now` parameter.
 */
module ProductViews {
  import opened Wrappers
  import opened Tables
  import opened Http
  import opened Models
  import opened Permissions
  import opened Validation
  import opened Store

  /** ProductListView.get: every product, in key order, for any caller. */
  method ListGet(db: Db, c: Caller) returns (status: int, data: seq<Row<Product>>)
    requires db.Valid()
    ensures IsAdminOrReadOnly(c, GET)
    ensures status == OK && data == db.state.products
  {
    return OK, db.state.products;
  }

  /**
   * ProductListView.post: the class gate refuses non-staff callers; invalid
   * data gives 400; otherwise exactly one product is added under the next key.
   */
  method ListPost(db: Db, c: Caller, d: ProductInput, now: Stamp) returns (status: int, data: Option<Row<Product>>)
    requires db.Valid()
    modifies db
    ensures db.Valid()
    ensures !IsStaff(c) ==> status == DeniedStatus(c)
    ensures IsStaff(c) ==> (status == CREATED <==> ProductErrors(d, false) == {})
    ensures IsStaff(c) && status != CREATED ==> status == BAD_REQUEST
    ensures status != CREATED ==> data.None? && db.state == old(db.state)
    ensures status == CREATED ==>
              && data == Some(Row(old(db.state.nextProduct), NewProduct(d, now)))
              && db.state == old(db.state).(products := old(db.state.products) + [data.value], nextProduct := data.value.id + 1)
  {
    if !IsAdminOrReadOnly(c, POST) {
      return DeniedStatus(c), None;
    }
    if ProductErrors(d, false) != {} {
      return BAD_REQUEST, None;
    }
    var p := NewProduct(d, now);
    var id := db.InsertProduct(p);
    return CREATED, Some(Row(id, p));
  }

  /** ProductDetailView.get: the product with that key, or 404; any caller. */
  method DetailGet(db: Db, c: Caller, pk: Id) returns (status: int, data: Option<Product>)
    requires db.Valid()
    ensures status == OK || status == NOT_FOUND
    ensures status == OK <==> pk in Ids(db.state.products)
    ensures status == OK <==> data.Some?
    ensures data.Some? ==> Row(pk, data.value) in db.state.products
    ensures IsAdminOrReadOnly(c, GET)
  {
    var found := Find(db.state.products, pk);
    if found.None? {
      return NOT_FOUND, None;
    }
    return OK, found;
  }

  /**
   * ProductDetailView.put: staff only; a partial update in which the key and
   * `created_at` never change and `updated_at` is the server's. An absent
   * key gives 404 and invalid data 400, both with the table unchanged.
   */
  method DetailPut(db: Db, c: Caller, pk: Id, d: ProductInput, now: Stamp) returns (status: int, data: Option<Product>)
    requires db.Valid()
    modifies db
    ensures db.Valid()
    ensures !IsStaff(c) ==> status == DeniedStatus(c)
    ensures IsStaff(c) && pk !in old(Ids(db.state.products)) ==> status == NOT_FOUND
    ensures IsStaff(c) && pk in old(Ids(db.state.products)) ==>
              (status == OK <==> ProductErrors(d, true) == {}) && (status != OK ==> status == BAD_REQUEST)
    ensures status != OK ==> data.None? && db.state == old(db.state)
    ensures status == OK ==>
              && data == Some(ApplyProduct(old(Find(db.state.products, pk)).value, d, now))
              && db.state == old(db.state).(products := Replace(old(db.state.products), pk, data.value))
  {
    if !IsAdminOrReadOnly(c, PUT) {
      return DeniedStatus(c), None;
    }
    var found := Find(db.state.products, pk);
    if found.None? {
      return NOT_FOUND, None;
    }
    if ProductErrors(d, true) != {} {
      return BAD_REQUEST, None;
    }
    var updated := ApplyProduct(found.value, d, now);
    db.UpdateProduct(pk, updated);
    return OK, Some(updated);
  }

  /**
   * ProductDetailView.delete: staff only; the row is removed outright, so a
   * later lookup of the key finds nothing. An absent key gives 404.
   */
  method DetailDelete(db: Db, c: Caller, pk: Id) returns (status: int)
    requires db.Valid()
    modifies db
    ensures db.Valid()
    ensures !IsStaff(c) ==> status == DeniedStatus(c)
    ensures IsStaff(c) ==> (status == NO_CONTENT <==> pk in old(Ids(db.state.products)))
    ensures IsStaff(c) && status != NO_CONTENT ==> status == NOT_FOUND
    ensures status != NO_CONTENT ==> db.state == old(db.state)
    ensures status == NO_CONTENT ==>
              && db.state == old(db.state).(products := Remove(old(db.state.products), pk))
              && Ids(db.state.products) == old(Ids(db.state.products)) - {pk}
              && Find(db.state.products, pk).None?
  {
    if !IsAdminOrReadOnly(c, DELETE) {
      return DeniedStatus(c);
    }
    if Find(db.state.products, pk).None? {
      return NOT_FOUND;
    }
    RemoveIds(db.state.products, pk, db.state.nextProduct);
    db.DeleteProduct(pk);
    return NO_CONTENT;
  }
}
