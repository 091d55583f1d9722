/**
 * Orders and the order store. The store's own code is not part of this model;
 * it is modelled as an in-memory table that assigns identifiers from a counter.
 */
module Orders {
  import opened Wrappers

  /** The persisted form of an order: the row the store holds. */
  datatype OrderRecord = OrderRecord(
    id: int,
    productId: int,
    quantity: int,
    totalPrice: Option<real>)

  /**
   * An order as the caller builds it: a product id and a quantity. The id is
   * filled in by the store and the total price by the placement workflow.
   */
  class Order {
    var id: Option<int>
    var productId: int
    var quantity: int
    var totalPrice: Option<real>

    constructor (productId: int, quantity: int)
      ensures this.id == None && this.totalPrice == None
      ensures this.productId == productId && this.quantity == quantity
    {
      this.id := None;
      this.productId := productId;
      this.quantity := quantity;
      this.totalPrice := None;
    }
  }

  /** The first row of `rows` whose id is `id`, if there is one. */
  function Lookup(rows: seq<OrderRecord>, id: int): (r: Option<OrderRecord>)
    ensures r.Some? ==> r.value in rows && r.value.id == id
    ensures r.None? <==> forall i :: 0 <= i < |rows| ==> rows[i].id != id
    ensures r.Some? ==> exists k :: 0 <= k < |rows| && rows[k] == r.value &&
                                    forall i :: 0 <= i < k ==> rows[i].id != id
  {
    if rows == [] then None
    else if rows[0].id == id then Some(rows[0])
    else Lookup(rows[1..], id)
  }

  /** Appending a row with a new id makes that row the one found for its id. */
  lemma {:induction false} LookupAppendNew(rows: seq<OrderRecord>, rec: OrderRecord)
    requires forall i :: 0 <= i < |rows| ==> rows[i].id != rec.id
    ensures Lookup(rows + [rec], rec.id) == Some(rec)
  {
    if rows != [] {
      assert (rows + [rec])[1..] == rows[1..] + [rec];
      LookupAppendNew(rows[1..], rec);
    }
  }

  /** Appending a row leaves what is found for every other id as it was. */
  lemma {:induction false} LookupAppendOther(rows: seq<OrderRecord>, rec: OrderRecord, id: int)
    requires id != rec.id
    ensures Lookup(rows + [rec], id) == Lookup(rows, id)
  {
    if rows != [] {
      assert (rows + [rec])[1..] == rows[1..] + [rec];
      LookupAppendOther(rows[1..], rec, id);
    }
  }

  /**
   * The order store: the saved rows in the order they were saved, and the
   * next identifier it will assign.
   */
  class OrderRepository {
    var rows: seq<OrderRecord>
    var nextId: int

    /** Ids increase strictly along the table and stay below the next id. */
    ghost predicate Valid()
      reads this
    {
      (forall i :: 0 <= i < |rows| ==> rows[i].id < nextId) &&
      (forall i, j :: 0 <= i < j < |rows| ==> rows[i].id < rows[j].id)
    }

    constructor ()
      ensures Valid()
      ensures rows == [] && nextId == 1
    {
      rows := [];
      nextId := 1;
    }

    /**
     * Persists `o` under a fresh id, writes that id back onto `o`, and returns
     * `o` itself. The new row is then what `FindById` gives for the new id;
     * every other id finds what it found before.
     */
    method Save(o: Order) returns (saved: Order)
      requires Valid()
      modifies this, o
      ensures Valid()
      ensures saved == o
      ensures o.id == Some(old(nextId))
      ensures o.productId == old(o.productId) && o.quantity == old(o.quantity)
      ensures o.totalPrice == old(o.totalPrice)
      ensures rows == old(rows) + [OrderRecord(old(nextId), o.productId, o.quantity, o.totalPrice)]
      ensures nextId == old(nextId) + 1
      ensures FindById(old(nextId)) == Some(rows[|rows| - 1])
      ensures forall id :: id != old(nextId) ==> FindById(id) == old(FindById(id))
    {
      var rec := OrderRecord(nextId, o.productId, o.quantity, o.totalPrice);
      LookupAppendNew(rows, rec);
      forall id | id != rec.id
        ensures Lookup(rows + [rec], id) == Lookup(rows, id)
      {
        LookupAppendOther(rows, rec, id);
      }
      rows := rows + [rec];
      o.id := Some(nextId);
      nextId := nextId + 1;
      saved := o;
    }

    /** The saved row with the given id, or `None` when no row has it. */
    function FindById(id: int): (r: Option<OrderRecord>)
      reads this
      ensures r.Some? ==> r.value in rows && r.value.id == id
      ensures r.None? <==> forall i :: 0 <= i < |rows| ==> rows[i].id != id
    {
      Lookup(rows, id)
    }

    /** Every saved row, in save order; each of them is what `FindById` gives for its id. */
    function FindAll(): (r: seq<OrderRecord>)
      requires Valid()
      reads this
      ensures |r| == |rows|
      ensures forall k :: 0 <= k < |r| ==> r[k] == rows[k] && FindById(r[k].id) == Some(r[k])
    {
      ForallLookupFindsRow(rows);
      rows
    }
  }

  /** Every row of an id-ordered table is found by its own id. */
  lemma ForallLookupFindsRow(rows: seq<OrderRecord>)
    requires forall i, j :: 0 <= i < j < |rows| ==> rows[i].id < rows[j].id
    ensures forall k :: 0 <= k < |rows| ==> Lookup(rows, rows[k].id) == Some(rows[k])
  {
  }
}
