/**
  The inventory rule evaluator: every item of an order is checked against the
  product catalog and yields at most one issue; the order is approved exactly
  when no item yields one.
 */
module Inventory {
  import opened CommonModel

  /**
    A catalog entry. Dates are days counted from 1970-01-01; an absent
    expiration date is Java's null.
   */
  datatype ProductDetails = ProductDetails(
    productId: string,
    category: Category,
    availableQuantity: int,
    expirationDate: Option<int>)

  type Catalog = map<string, ProductDetails>

  /** The argument check that refuses an order without items. */
  datatype CheckError = ItemsCannotBeEmpty

  function BuildRejectedItem(productId: string, reason: InventoryCheckReason): (issue: InventoryIssue)
    ensures issue.productId == productId && issue.reason == reason
  {
    InventoryIssue(productId, reason)
  }

  /** Expired from the expiration day on; a product without one never expires. */
  predicate IsExpired(product: ProductDetails, today: int)
  {
    product.expirationDate.Some? && !(today < product.expirationDate.value)
  }

  predicate HasSufficientQuantity(product: ProductDetails, quantityRequested: int)
  {
    product.availableQuantity >= quantityRequested
  }

  /**
    The issue one item raises, if any. The checks run in a fixed order: the
    product must be in the catalog, the item's own category must be known, and
    then the catalog's category decides which quantity and expiry rules apply.
   */
  function ItemIssue(item: OrderItem, catalog: Catalog, today: int): Option<InventoryIssue>
  {
    var productId := item.productId;
    if productId !in catalog then Some(BuildRejectedItem(productId, UNKNOWN_PRODUCT))
    else if item.category == UNKNOWN then Some(BuildRejectedItem(productId, UNKNOWN_CATEGORY))
    else
      var fromCatalog := catalog[productId];
      var sufficient := HasSufficientQuantity(fromCatalog, item.quantity);
      match fromCatalog.category
      case STANDARD =>
        if !sufficient then Some(BuildRejectedItem(productId, INSUFFICIENT_QUANTITY)) else None
      case PERISHABLE =>
        if IsExpired(fromCatalog, today) then Some(BuildRejectedItem(productId, EXPIRED))
        else if !sufficient then Some(BuildRejectedItem(productId, INSUFFICIENT_QUANTITY))
        else None
      case DIGITAL => None
      case UNKNOWN => None
  }

  function AsSeq<T>(o: Option<T>): seq<T>
  {
    match o
    case None => []
    case Some(x) => [x]
  }

  /** The issues of a list of items, in item order. */
  function Issues(items: seq<OrderItem>, catalog: Catalog, today: int): seq<InventoryIssue>
  {
    if items == [] then []
    else AsSeq(ItemIssue(items[0], catalog, today)) + Issues(items[1..], catalog, today)
  }

  /**
    `checkOrder`: refuses an order without items; otherwise the result it
    publishes carries the order's id, the collected issues, and APPROVED exactly
    when there are none.
   */
  method CheckOrder(orderEvent: OrderEvent, catalog: Catalog, today: int)
    returns (published: Result<InventoryCheckResultEvent, CheckError>)
    ensures published.Failure? <==> orderEvent.items == []
    ensures published.Success? ==>
      && published.value.orderId == orderEvent.orderId
      && published.value.issues == Issues(orderEvent.items, catalog, today)
      && (published.value.status == APPROVED <==> published.value.issues == [])
      && (published.value.status == REJECTED <==> published.value.issues != [])
  {
    if orderEvent.items == [] {
      return Failure(ItemsCannotBeEmpty);
    }
    var items := orderEvent.items;
    var missingItems: seq<InventoryIssue> := [];
    for i := 0 to |items|
      invariant missingItems == Issues(items[..i], catalog, today)
    {
      var item := items[i];
      var productId := item.productId;
      if productId !in catalog {
        missingItems := missingItems + [BuildRejectedItem(productId, UNKNOWN_PRODUCT)];
      } else if item.category == UNKNOWN {
        missingItems := missingItems + [BuildRejectedItem(productId, UNKNOWN_CATEGORY)];
      } else {
        var fromCatalog := catalog[productId];
        var sufficient := HasSufficientQuantity(fromCatalog, item.quantity);
        match fromCatalog.category {
          case STANDARD =>
            if !sufficient {
              missingItems := missingItems + [BuildRejectedItem(productId, INSUFFICIENT_QUANTITY)];
            }
          case PERISHABLE =>
            if IsExpired(fromCatalog, today) {
              missingItems := missingItems + [BuildRejectedItem(productId, EXPIRED)];
            } else if !sufficient {
              missingItems := missingItems + [BuildRejectedItem(productId, INSUFFICIENT_QUANTITY)];
            }
          case DIGITAL =>
          case UNKNOWN =>
        }
      }
      IssuesAppend(items[..i], [item], catalog, today);
      assert items[..i + 1] == items[..i] + [item];
    }
    assert items[..|items|] == items;
    var status := if missingItems == [] then APPROVED else REJECTED;
    published := Success(InventoryCheckResultEvent(orderEvent.orderId, status, missingItems));
  }

  /** The issues of two lists of items, one after the other. */
  lemma {:induction false} IssuesAppend(xs: seq<OrderItem>, ys: seq<OrderItem>, catalog: Catalog, today: int)
    ensures Issues(xs + ys, catalog, today) == Issues(xs, catalog, today) + Issues(ys, catalog, today)
  {
    if xs == [] {
      assert xs + ys == ys;
    } else {
      assert (xs + ys)[1..] == xs[1..] + ys;
      IssuesAppend(xs[1..], ys, catalog, today);
    }
  }

  /** No more issues than items. */
  lemma {:induction false} IssuesBounded(items: seq<OrderItem>, catalog: Catalog, today: int)
    ensures |Issues(items, catalog, today)| <= |items|
  {
    if items != [] {
      IssuesBounded(items[1..], catalog, today);
    }
  }

  /**
    Each issue comes from its own item, in item order: `source` sends issue j to
    the item that raised it, and is strictly increasing. IssuesComplete gives the
    converse: every issue an item raises is in the list.
   */
  lemma {:induction false} IssueSources(items: seq<OrderItem>, catalog: Catalog, today: int)
    returns (source: seq<nat>)
    ensures |source| == |Issues(items, catalog, today)|
    ensures forall j :: 0 <= j < |source| ==>
      source[j] < |items| && ItemIssue(items[source[j]], catalog, today) == Some(Issues(items, catalog, today)[j])
    ensures forall j, k :: 0 <= j < k < |source| ==> source[j] < source[k]
  {
    if items == [] {
      source := [];
    } else {
      var rest := IssueSources(items[1..], catalog, today);
      source := IssueSourcesCons(items, rest, catalog, today);
    }
  }

  /** The sources of the issues of a non-empty list, from those of its tail. */
  lemma IssueSourcesCons(items: seq<OrderItem>, rest: seq<nat>, catalog: Catalog, today: int)
    returns (source: seq<nat>)
    requires items != []
    requires |rest| == |Issues(items[1..], catalog, today)|
    requires forall j :: 0 <= j < |rest| ==>
      rest[j] < |items[1..]| && ItemIssue(items[1..][rest[j]], catalog, today) == Some(Issues(items[1..], catalog, today)[j])
    requires forall j, k :: 0 <= j < k < |rest| ==> rest[j] < rest[k]
    ensures |source| == |Issues(items, catalog, today)|
    ensures forall j :: 0 <= j < |source| ==>
      source[j] < |items| && ItemIssue(items[source[j]], catalog, today) == Some(Issues(items, catalog, today)[j])
    ensures forall j, k :: 0 <= j < k < |source| ==> source[j] < source[k]
  {
    var head := AsSeq(ItemIssue(items[0], catalog, today));
    var lead: seq<nat> := if head == [] then [] else [0];
    var shifted := Shift(rest);
    source := lead + shifted;
    IssueSourcesMatch(items, rest, head, source, catalog, today);
    ShiftedIncreasing(rest, lead, shifted);
  }

  /** Issue j of a non-empty list is raised by item `source[j]`, given the same of its tail. */
  lemma IssueSourcesMatch(items: seq<OrderItem>, rest: seq<nat>, head: seq<InventoryIssue>, source: seq<nat>,
                          catalog: Catalog, today: int)
    requires items != [] && head == AsSeq(ItemIssue(items[0], catalog, today))
    requires |rest| == |Issues(items[1..], catalog, today)| && |source| == |head| + |rest|
    requires head != [] ==> source[0] == 0
    requires forall i :: 0 <= i < |rest| ==> source[|head| + i] == rest[i] + 1
    requires forall j :: 0 <= j < |rest| ==>
      rest[j] < |items[1..]| && ItemIssue(items[1..][rest[j]], catalog, today) == Some(Issues(items[1..], catalog, today)[j])
    ensures |source| == |Issues(items, catalog, today)|
    ensures forall j :: 0 <= j < |source| ==>
      source[j] < |items| && ItemIssue(items[source[j]], catalog, today) == Some(Issues(items, catalog, today)[j])
  {
    var all := Issues(items, catalog, today);
    assert all == head + Issues(items[1..], catalog, today);
    assert all[|head|..] == Issues(items[1..], catalog, today);
    forall j | 0 <= j < |source|
      ensures source[j] < |items| && ItemIssue(items[source[j]], catalog, today) == Some(all[j])
    {
      if j >= |head| {
        IssueSourceShifted(items, rest, |head|, source, all, catalog, today, j);
      }
    }
  }

  /** Every index one further on. */
  function Shift(xs: seq<nat>): (r: seq<nat>)
    ensures |r| == |xs|
    ensures forall i :: 0 <= i < |xs| ==> r[i] == xs[i] + 1
  {
    if xs == [] then [] else [xs[0] + 1] + Shift(xs[1..])
  }

  /** Putting index 0 or nothing in front of a strictly increasing list shifted by one keeps it strictly increasing. */
  lemma ShiftedIncreasing(rest: seq<nat>, lead: seq<nat>, shifted: seq<nat>)
    requires lead == [] || lead == [0]
    requires |shifted| == |rest| && forall i :: 0 <= i < |rest| ==> shifted[i] == rest[i] + 1
    requires forall j, k :: 0 <= j < k < |rest| ==> rest[j] < rest[k]
    ensures forall j, k :: 0 <= j < k < |lead + shifted| ==> (lead + shifted)[j] < (lead + shifted)[k]
  {
  }

  /** Issue j past the first `off` issues is issue j - off of the tail, raised one item further on. */
  lemma IssueSourceShifted(items: seq<OrderItem>, rest: seq<nat>, off: nat, source: seq<nat>,
                           all: seq<InventoryIssue>, catalog: Catalog, today: int, j: nat)
    requires items != [] && off <= j < |source| && off <= |all|
    requires |rest| == |source| - off == |all| - off
    requires forall i :: 0 <= i < |rest| ==> source[off + i] == rest[i] + 1
    requires all[off..] == Issues(items[1..], catalog, today)
    requires forall i :: 0 <= i < |rest| ==>
      rest[i] < |items[1..]| && ItemIssue(items[1..][rest[i]], catalog, today) == Some(all[off..][i])
    ensures source[j] < |items| && ItemIssue(items[source[j]], catalog, today) == Some(all[j])
  {
    var i := j - off;
    assert source[j] == rest[i] + 1;
    assert all[j] == all[off..][i];
    assert items[rest[i] + 1] == items[1..][rest[i]];
  }

  /** No issue is lost: the issue of every item that raises one is in the list. */
  lemma {:induction false} IssuesComplete(items: seq<OrderItem>, catalog: Catalog, today: int)
    ensures forall i :: 0 <= i < |items| && ItemIssue(items[i], catalog, today).Some? ==>
      ItemIssue(items[i], catalog, today).value in Issues(items, catalog, today)
  {
    if items != [] {
      IssuesComplete(items[1..], catalog, today);
      assert forall i :: 1 <= i < |items| ==> items[i] == items[1..][i - 1];
    }
  }

  /** The issue list is empty exactly when no item raises an issue. */
  lemma {:induction false} IssuesEmptyIff(items: seq<OrderItem>, catalog: Catalog, today: int)
    ensures Issues(items, catalog, today) == [] <==>
      forall i :: 0 <= i < |items| ==> ItemIssue(items[i], catalog, today) == None
  {
    if items != [] {
      IssuesEmptyIff(items[1..], catalog, today);
      assert forall i :: 1 <= i < |items| ==> items[i] == items[1..][i - 1];
    }
  }

  /** The rule table, check by check, in its order of priority. */
  lemma ItemIssueRules(item: OrderItem, catalog: Catalog, today: int)
    ensures var issue := ItemIssue(item, catalog, today);
      && (issue.Some? ==> issue.value.productId == item.productId)
      && (item.productId !in catalog ==> issue.Some? && issue.value.reason == UNKNOWN_PRODUCT)
      && (item.productId in catalog && item.category == UNKNOWN ==>
            issue.Some? && issue.value.reason == UNKNOWN_CATEGORY)
      && (item.productId in catalog && item.category != UNKNOWN ==>
            var product := catalog[item.productId];
            && (product.category == STANDARD ==>
                  (issue.Some? <==> product.availableQuantity < item.quantity)
                  && (issue.Some? ==> issue.value.reason == INSUFFICIENT_QUANTITY))
            && (product.category == PERISHABLE && IsExpired(product, today) ==>
                  issue.Some? && issue.value.reason == EXPIRED)
            && (product.category == PERISHABLE && !IsExpired(product, today) ==>
                  (issue.Some? <==> product.availableQuantity < item.quantity)
                  && (issue.Some? ==> issue.value.reason == INSUFFICIENT_QUANTITY))
            && (product.category == DIGITAL ==> issue.None?)
            && (product.category == UNKNOWN ==> issue.None?))
  {
  }

  /** Expired means an expiration day that is today or earlier. */
  lemma IsExpiredIff(product: ProductDetails, today: int)
    ensures IsExpired(product, today) <==>
      product.expirationDate.Some? && today >= product.expirationDate.value
    ensures product.expirationDate.None? ==> !IsExpired(product, today)
  {
  }

  /** 2025-09-01, the fixed expiration day of product P1002. */
  const P1002_EXPIRES: int := 20332

  /**
    The demonstration catalog, for an order checked on day `today`, with the
    extra perishable product the unit tests add.
   */
  function DemoCatalog(today: int): Catalog
  {
    map[
      "P1001" := ProductDetails("P1001", STANDARD, 10, None),
      "P1002" := ProductDetails("P1002", PERISHABLE, 3, Some(P1002_EXPIRES)),
      "P1003" := ProductDetails("P1003", DIGITAL, 0, None),
      "P1005" := ProductDetails("P1005", PERISHABLE, 5, Some(today + 10)),
      "P1006" := ProductDetails("P1006", PERISHABLE, 2, Some(today - 2)),
      "P1007" := ProductDetails("P1007", DIGITAL, 9999, None),
      "P1008" := ProductDetails("P1008", STANDARD, 0, None),
      "P2001" := ProductDetails("P2001", PERISHABLE, 2, None)]
  }

  /** The outcomes the service's unit tests expect of the demonstration catalog. */
  lemma DemoCatalogOutcomes(today: int)
    ensures var c := DemoCatalog(today);
      && Issues([OrderItem(PERISHABLE, "P1006", 1)], c, today) == [InventoryIssue("P1006", EXPIRED)]
      && Issues([OrderItem(STANDARD, "P1001", 2), OrderItem(DIGITAL, "P1003", 1)], c, today) == []
      && Issues([OrderItem(STANDARD, "P1001", 999)], c, today) == [InventoryIssue("P1001", INSUFFICIENT_QUANTITY)]
      && Issues([OrderItem(UNKNOWN, "P1001", 1)], c, today) == [InventoryIssue("P1001", UNKNOWN_CATEGORY)]
      && Issues([OrderItem(STANDARD, "PX404", 1)], c, today) == [InventoryIssue("PX404", UNKNOWN_PRODUCT)]
      && Issues([OrderItem(PERISHABLE, "P2001", 5)], c, today) == [InventoryIssue("P2001", INSUFFICIENT_QUANTITY)]
  {
    var both := [OrderItem(STANDARD, "P1001", 2), OrderItem(DIGITAL, "P1003", 1)];
    var c := DemoCatalog(today);
    assert both[1..] == [OrderItem(DIGITAL, "P1003", 1)];
    assert c["P1001"].availableQuantity == 10 && c["P1003"].category == DIGITAL;
    assert ItemIssue(both[0], c, today) == None;
    assert Issues(both[1..], c, today) == [];
  }
}
