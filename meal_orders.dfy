/** The meal-order mock backend: meal counts per cabin keyed by master flight
    id, found by a first-match search. */
module MealOrders {

  /** Meal counts for the four cabins (first, business, premium economy,
      economy) of one flight. */
  datatype MealOrder = MealOrder(mflId: int, f: int, j: int, w: int, y: int)

  datatype MealOrderLookup = FoundOrder(order: MealOrder) | OrderMessage(message: string)

  const ProvideMflIdMessage := "Please provide mflId"
  const NotFoundMessage := "Meal order details not found"

  const Order1 := MealOrder(1, 10, 20, 0, 44)
  const Order2 := MealOrder(2, 2, 20, 0, 55)
  const Order3 := MealOrder(4, 12, 20, 0, 66)

  /** The seed list: orders for master flight ids 1, 2 and 4. */
  function SeedOrders(): (orders: seq<MealOrder>)
    ensures |orders| == 3
    ensures forall o :: o in orders ==> o.mflId in {1, 2, 4}
  {
    [Order1, Order2, Order3]
  }

  class MealOrderModule {
    /** The source names this list `flightList` as well. */
    var flightList: seq<MealOrder>

    constructor ()
      ensures flightList == SeedOrders()
    {
      flightList := [];
      flightList := flightList + [Order1];
      flightList := flightList + [Order2];
      flightList := flightList + [Order3];
    }

    /** The first order with the given id. The id 0 is Python-falsy and is
        refused; an id no order has gives the not-found message. */
    method GetMealOrderDetails(mflId: int) returns (r: MealOrderLookup)
      ensures mflId == 0 ==> r == OrderMessage(ProvideMflIdMessage)
      ensures mflId != 0 ==>
                (r.OrderMessage? <==> forall i :: 0 <= i < |flightList| ==> flightList[i].mflId != mflId)
      ensures mflId != 0 && r.OrderMessage? ==> r.message == NotFoundMessage
      ensures r.FoundOrder? ==>
                exists i :: 0 <= i < |flightList| && flightList[i] == r.order
                  && r.order.mflId == mflId
                  && forall j :: 0 <= j < i ==> flightList[j].mflId != mflId
    {
      if mflId == 0 {
        return OrderMessage(ProvideMflIdMessage);
      }
      for i := 0 to |flightList|
        invariant forall j :: 0 <= j < i ==> flightList[j].mflId != mflId
      {
        if flightList[i].mflId == mflId {
          return FoundOrder(flightList[i]);
        }
      }
      return OrderMessage(NotFoundMessage);
    }
  }

  /** On the seed data, id 2 finds the second order and id 3 finds nothing. */
  method LookUpSeededOrders() returns (two: MealOrderLookup, three: MealOrderLookup)
    ensures two == FoundOrder(Order2) && two.order.y == 55
    ensures three == OrderMessage(NotFoundMessage)
  {
    var orders := new MealOrderModule();
    two := orders.GetMealOrderDetails(2);
    var list := orders.flightList;
    assert list[1].mflId == 2;
    var i :| 0 <= i < |list| && list[i] == two.order && two.order.mflId == 2
             && forall j :: 0 <= j < i ==> list[j].mflId != 2;
    assert i == 1;
    three := orders.GetMealOrderDetails(3);
  }
}
