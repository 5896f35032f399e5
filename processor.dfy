/** JsonFileProcessor: reads the orders of one file, hands each selected
    attribute value to the counter, and returns how many orders it read. */
module Processor {
  import opened Wrappers
  import opened Exceptions
  import opened Strings
  import opened Model
  import opened Config
  import opened Statistics

  /** What the decoder yields for one file: the orders it decodes, in file
      order, and whether it then fails on a malformed record (true) or reaches
      the end of the input (false). */
  datatype OrderStream = OrderStream(orders: seq<Order>, malformed: bool)

  /** One value processOrder hands to incrementAttributeCount, or a null
      reference met on the way to it (a null list, burger, ingredient or unit
      price), which throws NullPointerException before the counter is called. */
  datatype Item = Value(name: Option<string>) | NullReference

  /** burger.name(), for a list element that may be null. */
  function BurgerNameItem(burger: Option<Burger>): Item
  {
    match burger
    case None => NullReference
    case Some(b) => Value(b.name)
  }

  /** Ingredient::name, for a list element that may be null. */
  function IngredientNameItem(ingredient: Option<Ingredient>): Item
  {
    match ingredient
    case None => NullReference
    case Some(g) => Value(g.name)
  }

  /** Ingredient::unitPrice followed by BigDecimal::toString; a null price
      throws in toString. */
  function IngredientPriceItem(ingredient: Option<Ingredient>): Item
  {
    match ingredient
    case None => NullReference
    case Some(g) =>
      match g.unitPrice
      case None => NullReference
      case Some(p) => Value(Some(PriceToString(p)))
  }

  // ---- Attribute extraction ----

  /** burger.ingredients().stream() inside flatMap. A null burger or a null
      ingredient list throws when the stream reaches it; it stands here as a
      single null ingredient, which throws at that same point of the stream. */
  function BurgerIngredients(burger: Option<Burger>): seq<Option<Ingredient>>
  {
    match burger
    case None => [None]
    case Some(b) =>
      match b.ingredients
      case None => [None]
      case Some(ingredients) => ingredients
  }

  /** flatMap(burger -> burger.ingredients().stream()): the ingredients of all
      burgers, burger by burger, each burger's in its own order. */
  function IngredientsOf(burgers: seq<Option<Burger>>): seq<Option<Ingredient>>
  {
    if burgers == [] then [] else BurgerIngredients(burgers[0]) + IngredientsOf(burgers[1..])
  }

  /** Flattening distributes over concatenation of burger lists... */
  lemma {:induction false} IngredientsOfConcat(a: seq<Option<Burger>>, b: seq<Option<Burger>>)
    ensures IngredientsOf(a + b) == IngredientsOf(a) + IngredientsOf(b)
    decreases |a|
  {
    if a != [] {
      assert (a + b)[0] == a[0] && (a + b)[1..] == a[1..] + b;
      IngredientsOfConcat(a[1..], b);
    } else {
      assert a + b == b;
    }
  }

  /** ...so ingredient j of burger n sits right after the ingredients of the
      burgers before n: the order is burger first, then ingredient. */
  lemma IngredientPosition(burgers: seq<Option<Burger>>, n: nat, j: nat)
    requires n < |burgers| && burgers[n].Some? && burgers[n].value.ingredients.Some?
    requires j < |burgers[n].value.ingredients.value|
    ensures |IngredientsOf(burgers[..n])| + j < |IngredientsOf(burgers)|
    ensures IngredientsOf(burgers)[|IngredientsOf(burgers[..n])| + j] == burgers[n].value.ingredients.value[j]
  {
    assert burgers == burgers[..n] + [burgers[n]] + burgers[n + 1..];
    IngredientsOfConcat(burgers[..n] + [burgers[n]], burgers[n + 1..]);
    IngredientsOfConcat(burgers[..n], [burgers[n]]);
    assert IngredientsOf([burgers[n]]) == BurgerIngredients(burgers[n]) + IngredientsOf([]);
  }

  /** A null burger, or a burger with a null ingredient list, appears in the
      flattened stream as a null ingredient right after the ingredients of the
      burgers before it. */
  lemma NullBurgerPosition(burgers: seq<Option<Burger>>, n: nat)
    requires n < |burgers| && (burgers[n].None? || burgers[n].value.ingredients.None?)
    ensures |IngredientsOf(burgers[..n])| < |IngredientsOf(burgers)|
    ensures IngredientsOf(burgers)[|IngredientsOf(burgers[..n])|] == None
  {
    assert burgers == burgers[..n] + [burgers[n]] + burgers[n + 1..];
    IngredientsOfConcat(burgers[..n] + [burgers[n]], burgers[n + 1..]);
    IngredientsOfConcat(burgers[..n], [burgers[n]]);
    assert IngredientsOf([burgers[n]]) == [None] + IngredientsOf([]);
  }

  /** order.burgers().forEach(burger -> ...burger.name()): one value per burger. */
  function BurgerNameItems(burgers: JavaList<Burger>): seq<Item>
  {
    match burgers
    case None => [NullReference]
    case Some(bs) => seq(|bs|, i requires 0 <= i < |bs| => BurgerNameItem(bs[i]))
  }

  /** The flattened ingredients, as names or as price texts; a null burger list
      throws at once. */
  function IngredientItems(burgers: JavaList<Burger>, price: bool): seq<Item>
  {
    match burgers
    case None => [NullReference]
    case Some(bs) =>
      var ingredients := IngredientsOf(bs);
      seq(|ingredients|, i requires 0 <= i < |ingredients| =>
        if price then IngredientPriceItem(ingredients[i]) else IngredientNameItem(ingredients[i]))
  }

  /** processOrder's switch on the lower-cased attribute name: the values it
      hands to the counter, in order. A null burger list throws at once. */
  function Extract(order: Order, attributeName: string): seq<Item>
  {
    match Lower(attributeName)
    case "burger-name" => BurgerNameItems(order.burgers)
    case "ingredient-name" => IngredientItems(order.burgers, false)
    case "ingredient-price" => IngredientItems(order.burgers, true)
    case _ => []
  }

  /** The switch selects, whatever the case of the name: the burgers' names;
      the ingredients' names, burger by burger; the ingredients' prices as
      text; and for any other name, nothing. For the three known names a null
      burger list throws before anything is counted. */
  lemma ExtractSelects(order: Order, attributeName: string)
    ensures Lower(attributeName) in AvailableAttributeNames() && order.burgers.None? ==>
      Extract(order, attributeName) == [NullReference]
    ensures Lower(attributeName) == BurgerName && order.burgers.Some? ==>
      var burgers := order.burgers.value;
      |Extract(order, attributeName)| == |burgers| &&
      forall i :: 0 <= i < |burgers| ==> Extract(order, attributeName)[i] == BurgerNameItem(burgers[i])
    ensures Lower(attributeName) == IngredientName && order.burgers.Some? ==>
      var ingredients := IngredientsOf(order.burgers.value);
      |Extract(order, attributeName)| == |ingredients| &&
      forall i :: 0 <= i < |ingredients| ==> Extract(order, attributeName)[i] == IngredientNameItem(ingredients[i])
    ensures Lower(attributeName) == IngredientPrice && order.burgers.Some? ==>
      var ingredients := IngredientsOf(order.burgers.value);
      |Extract(order, attributeName)| == |ingredients| &&
      forall i :: 0 <= i < |ingredients| ==> Extract(order, attributeName)[i] == IngredientPriceItem(ingredients[i])
    ensures Lower(attributeName) !in AvailableAttributeNames() ==> Extract(order, attributeName) == []
  {
  }

  /** The values of a sequence of orders, order by order. */
  function AllItems(orders: seq<Order>, attributeName: string): seq<Item>
  {
    if orders == [] then []
    else AllItems(orders[..|orders| - 1], attributeName) + Extract(orders[|orders| - 1], attributeName)
  }

  lemma {:induction false} AllItemsConcat(a: seq<Order>, b: seq<Order>, attributeName: string)
    ensures AllItems(a + b, attributeName) == AllItems(a, attributeName) + AllItems(b, attributeName)
    decreases |b|
  {
    if b != [] {
      var b', last := b[..|b| - 1], b[|b| - 1];
      var ab := a + b;
      var e := Extract(last, attributeName);
      assert ab[..|ab| - 1] == a + b' && ab[|ab| - 1] == last;
      assert AllItems(ab, attributeName) == AllItems(a + b', attributeName) + e;
      AllItemsConcat(a, b', attributeName);
      assert AllItems(b, attributeName) == AllItems(b', attributeName) + e;
      assert AllItems(a, attributeName) + AllItems(b', attributeName) + e ==
        AllItems(a, attributeName) + (AllItems(b', attributeName) + e);
    } else {
      assert a + b == a;
    }
  }

  // ---- Feeding the counter ----

  /** The counter accepts a value that is present and not blank. */
  predicate Accepts(item: Item)
  {
    item.Value? && !IsNullOrBlank(item.name)
  }

  predicate AllAccepted(items: seq<Item>)
  {
    forall i :: 0 <= i < |items| ==> Accepts(items[i])
  }

  /** The effect of a list of increments on the table, and the exception that
      stopped it, if any. */
  datatype Tally = Tally(table: Table, failure: Option<Error>)

  /** One step: a null reference on the way to the value (a null list, burger,
      ingredient or unit price) throws before the counter is called; otherwise the
      counter's incrementAttributeCount decides. */
  function Feed(t: Table, item: Item): Result<Table, Error>
  {
    match item
    case NullReference => Failure(NullPointer)
    case Value(name) =>
      if IsNullOrBlank(name) then Failure(IllegalArgument(EmptyNameMessage))
      else Success(Incremented(t, name.value))
  }

  /** The items fed in order until the first one that throws; what was counted
      before it stays counted. */
  function ApplyItems(t: Table, items: seq<Item>): Tally
    decreases |items|
  {
    if items == [] then Tally(t, None)
    else match Feed(t, items[0])
      case Failure(e) => Tally(t, Some(e))
      case Success(t') => ApplyItems(t', items[1..])
  }

  /** The exception a rejected item raises. */
  function Rejection(item: Item): Error
  {
    if item.NullReference? then NullPointer else IllegalArgument(EmptyNameMessage)
  }

  /** The values counted before the first rejected item: every item of the
      prefix is accepted and gives its value, and the item after it, if any,
      is rejected. */
  function AcceptedPrefix(items: seq<Item>): (accepted: seq<string>)
    ensures |accepted| <= |items|
    ensures forall i :: 0 <= i < |accepted| ==> Accepts(items[i]) && items[i].name == Some(accepted[i])
    ensures |accepted| < |items| ==> !Accepts(items[|accepted|])
    decreases |items|
  {
    if items == [] || !Accepts(items[0]) then [] else [items[0].name.value] + AcceptedPrefix(items[1..])
  }

  lemma {:induction false} ApplyItemsConcat(t: Table, a: seq<Item>, b: seq<Item>)
    ensures ApplyItems(t, a + b) ==
      (var x := ApplyItems(t, a); if x.failure.Some? then x else ApplyItems(x.table, b))
    decreases |a|
  {
    if a != [] {
      assert (a + b)[0] == a[0] && (a + b)[1..] == a[1..] + b;
      if Feed(t, a[0]).Success? {
        ApplyItemsConcat(Feed(t, a[0]).value, a[1..], b);
      }
    } else {
      assert a + b == b;
    }
  }

  /** One more item of a list: fed after the items before it, and a failure
      there is the failure of the whole list. */
  lemma ApplyItemsPrefixStep(t: Table, items: seq<Item>, i: nat)
    requires i < |items|
    ensures ApplyItems(t, items[..i + 1]) ==
      (var x := ApplyItems(t, items[..i]); if x.failure.Some? then x else ApplyItems(x.table, [items[i]]))
    ensures ApplyItems(t, items[..i + 1]).failure.Some? ==> ApplyItems(t, items) == ApplyItems(t, items[..i + 1])
  {
    assert items[..i + 1] == items[..i] + [items[i]];
    ApplyItemsConcat(t, items[..i], [items[i]]);
    assert items[..i + 1] + items[i + 1..] == items;
    ApplyItemsConcat(t, items[..i + 1], items[i + 1..]);
  }

  lemma {:induction false} ApplyItemsTable(t: Table, items: seq<Item>)
    ensures ApplyItems(t, items).table == AddAll(t, AcceptedPrefix(items))
    decreases |items|
  {
    if items != [] && Accepts(items[0]) {
      var name := items[0].name.value;
      var rest := AcceptedPrefix(items[1..]);
      ApplyItemsTable(Incremented(t, name), items[1..]);
      assert AcceptedPrefix(items) == [name] + rest;
      assert ([name] + rest)[1..] == rest;
    }
  }

  lemma {:induction false} ApplyItemsFailure(t: Table, items: seq<Item>)
    ensures ApplyItems(t, items).failure.None? <==> AllAccepted(items)
    ensures ApplyItems(t, items).failure.None? <==> |AcceptedPrefix(items)| == |items|
    ensures |AcceptedPrefix(items)| < |items| ==>
      ApplyItems(t, items).failure == Some(Rejection(items[|AcceptedPrefix(items)|]))
    decreases |items|
  {
    if items != [] && Accepts(items[0]) {
      var rest := items[1..];
      ApplyItemsFailure(Incremented(t, items[0].name.value), rest);
      assert AllAccepted(items) <==> AllAccepted(rest) by {
        assert forall i :: 1 <= i < |items| ==> items[i] == rest[i - 1];
      }
    }
  }

  /** What feeding a list of items does, stated without the fold: the table
      gains exactly the accepted prefix, and the run fails exactly when some
      item is rejected, with that item's exception. */
  lemma ApplyItemsMeaning(t: Table, items: seq<Item>)
    ensures ApplyItems(t, items).table == AddAll(t, AcceptedPrefix(items))
    ensures ApplyItems(t, items).failure.None? <==> AllAccepted(items)
    ensures ApplyItems(t, items).failure.None? <==> |AcceptedPrefix(items)| == |items|
    ensures |AcceptedPrefix(items)| < |items| ==>
      ApplyItems(t, items).failure == Some(Rejection(items[|AcceptedPrefix(items)|]))
    ensures forall k :: Get(ApplyItems(t, items).table, k) == Get(t, k) + multiset(AcceptedPrefix(items))[k]
  {
    ApplyItemsTable(t, items);
    ApplyItemsFailure(t, items);
    AddAllCounts(t, AcceptedPrefix(items));
  }

  /** A null burger in the middle of an order, under `burger-name`: the names
      of the burgers before it are counted, then NullPointerException ends the
      order; nothing after it is counted. */
  lemma NullBurgerKeepsEarlierNames(t: Table, order: Order, attributeName: string, n: nat)
    requires Lower(attributeName) == BurgerName && order.burgers.Some?
    requires n < |order.burgers.value| && order.burgers.value[n].None?
    requires forall i :: 0 <= i < n ==> Accepts(BurgerNameItem(order.burgers.value[i]))
    ensures ApplyItems(t, Extract(order, attributeName)).failure == Some(NullPointer)
    ensures var counted := AcceptedPrefix(Extract(order, attributeName));
      ApplyItems(t, Extract(order, attributeName)).table == AddAll(t, counted) &&
      |counted| == n &&
      forall i :: 0 <= i < n ==> BurgerNameItem(order.burgers.value[i]) == Value(Some(counted[i]))
  {
    var burgers := order.burgers.value;
    var items := Extract(order, attributeName);
    ExtractSelects(order, attributeName);
    var accepted := AcceptedPrefix(items);
    assert !Accepts(items[n]);
    assert forall i :: 0 <= i < n ==> Accepts(items[i]);
    assert |accepted| == n;
    forall i | 0 <= i < n ensures BurgerNameItem(burgers[i]) == Value(Some(accepted[i])) {
      assert items[i] == BurgerNameItem(burgers[i]);
    }
    ApplyItemsMeaning(t, items);
  }

  /** A null on the way to an ingredient value, under `ingredient-name` or
      `ingredient-price`: a null burger or ingredient list (which flattens to a
      null ingredient), a null ingredient or, for prices, a null unit price at
      flattened position m. The values before it are counted, then
      NullPointerException ends the order; nothing after it is counted. */
  lemma NullIngredientKeepsEarlierValues(t: Table, order: Order, attributeName: string, m: nat)
    requires Lower(attributeName) == IngredientName || Lower(attributeName) == IngredientPrice
    requires order.burgers.Some? && m < |IngredientsOf(order.burgers.value)|
    requires var ingredient := IngredientsOf(order.burgers.value)[m];
      ingredient.None? || (Lower(attributeName) == IngredientPrice && ingredient.value.unitPrice.None?)
    requires forall i :: 0 <= i < m ==>
      var ingredient := IngredientsOf(order.burgers.value)[i];
      Accepts(if Lower(attributeName) == IngredientName then IngredientNameItem(ingredient) else IngredientPriceItem(ingredient))
    ensures ApplyItems(t, Extract(order, attributeName)).failure == Some(NullPointer)
    ensures var counted := AcceptedPrefix(Extract(order, attributeName));
      ApplyItems(t, Extract(order, attributeName)).table == AddAll(t, counted) && |counted| == m
  {
    var ingredients := IngredientsOf(order.burgers.value);
    var items := Extract(order, attributeName);
    ExtractSelects(order, attributeName);
    var accepted := AcceptedPrefix(items);
    assert items[m] == NullReference;
    assert forall i :: 0 <= i < m ==> Accepts(items[i]);
    assert |accepted| == m;
    ApplyItemsMeaning(t, items);
  }

  // ---- The specification of call() ----

  /** The table after call() and what call() returns. */
  datatype FileOutcome = FileOutcome(table: Table, result: Result<nat, Error>)

  /** call(): every order of the stream is fed to the counter in turn; the first
      exception, from a value or from the decoder, ends the call; otherwise the
      number of orders read is returned. */
  function CallSpec(t: Table, input: OrderStream, attributeName: string): FileOutcome
  {
    var tally := ApplyItems(t, AllItems(input.orders, attributeName));
    if tally.failure.Some? then FileOutcome(tally.table, Failure(tally.failure.value))
    else if input.malformed then FileOutcome(tally.table, Failure(MalformedRecord))
    else FileOutcome(tally.table, Success(|input.orders|))
  }

  /** call() returns a count exactly when the whole file decodes and every value
      is accepted, and the count is the number of orders, whatever they hold. */
  lemma CallSucceedsIff(t: Table, input: OrderStream, attributeName: string)
    ensures CallSpec(t, input, attributeName).result.Success? <==>
      !input.malformed && AllAccepted(AllItems(input.orders, attributeName))
    ensures CallSpec(t, input, attributeName).result.Success? ==>
      CallSpec(t, input, attributeName).result.value == |input.orders|
  {
    var items := AllItems(input.orders, attributeName);
    ApplyItemsMeaning(t, items);
    if ApplyItems(t, items).failure.Some? {
      assert !Accepts(items[|AcceptedPrefix(items)|]);
    }
  }

  /** Whatever the outcome, the increments made before the exception stay:
      every value gains the number of times it occurs in the accepted prefix. */
  lemma CallKeepsEarlierIncrements(t: Table, input: OrderStream, attributeName: string)
    ensures CallSpec(t, input, attributeName).table == AddAll(t, AcceptedPrefix(AllItems(input.orders, attributeName)))
    ensures forall k ::
      Get(CallSpec(t, input, attributeName).table, k) ==
      Get(t, k) + multiset(AcceptedPrefix(AllItems(input.orders, attributeName)))[k]
  {
    ApplyItemsMeaning(t, AllItems(input.orders, attributeName));
  }

  /** A decode failure after k good orders fails the call and leaves exactly
      the increments of those k orders. */
  lemma DecodeFailureAfterOrders(t: Table, orders: seq<Order>, attributeName: string)
    requires AllAccepted(AllItems(orders, attributeName))
    ensures CallSpec(t, OrderStream(orders, true), attributeName) ==
      FileOutcome(ApplyItems(t, AllItems(orders, attributeName)).table, Failure(MalformedRecord))
    ensures |AcceptedPrefix(AllItems(orders, attributeName))| == |AllItems(orders, attributeName)|
  {
    ApplyItemsMeaning(t, AllItems(orders, attributeName));
  }

  /** An attribute name the switch does not know counts nothing, but the
      orders are still read and counted. */
  lemma {:induction false} UnknownAttributeOnlyCountsOrders(t: Table, input: OrderStream, attributeName: string)
    requires Lower(attributeName) !in AvailableAttributeNames()
    ensures CallSpec(t, input, attributeName) ==
      FileOutcome(t, if input.malformed then Failure(MalformedRecord) else Success(|input.orders|))
  {
    NoItemsWithoutAttribute(input.orders, attributeName);
  }

  lemma {:induction false} NoItemsWithoutAttribute(orders: seq<Order>, attributeName: string)
    requires Lower(attributeName) !in AvailableAttributeNames()
    ensures AllItems(orders, attributeName) == []
    decreases |orders|
  {
    if orders != [] {
      NoItemsWithoutAttribute(orders[..|orders| - 1], attributeName);
      ExtractSelects(orders[|orders| - 1], attributeName);
    }
  }

  /** Orders without burgers contribute no value but are counted. */
  lemma {:induction false} OrdersWithoutBurgersAreCounted(t: Table, orders: seq<Order>, attributeName: string)
    requires forall i :: 0 <= i < |orders| ==> orders[i].burgers == Some([])
    ensures CallSpec(t, OrderStream(orders, false), attributeName) == FileOutcome(t, Success(|orders|))
  {
    NoItemsWithoutBurgers(orders, attributeName);
  }

  lemma {:induction false} NoItemsWithoutBurgers(orders: seq<Order>, attributeName: string)
    requires forall i :: 0 <= i < |orders| ==> orders[i].burgers == Some([])
    ensures AllItems(orders, attributeName) == []
    decreases |orders|
  {
    if orders != [] {
      NoItemsWithoutBurgers(orders[..|orders| - 1], attributeName);
      assert IngredientsOf(orders[|orders| - 1].burgers.value) == [];
      ExtractSelects(orders[|orders| - 1], attributeName);
    }
  }

  /** One more order in the loop of call(): its values follow those of the
      orders before it, and a failure among them is the failure of the whole. */
  lemma AllItemsStep(t: Table, orders: seq<Order>, i: nat, attributeName: string)
    requires i < |orders|
    ensures var prefix := AllItems(orders[..i], attributeName);
      var step := Extract(orders[i], attributeName);
      ApplyItems(t, prefix + step) ==
        (var x := ApplyItems(t, prefix); if x.failure.Some? then x else ApplyItems(x.table, step))
    ensures AllItems(orders[..i + 1], attributeName) == AllItems(orders[..i], attributeName) + Extract(orders[i], attributeName)
    ensures var x := ApplyItems(t, AllItems(orders[..i + 1], attributeName));
      x.failure.Some? ==> ApplyItems(t, AllItems(orders, attributeName)) == x
  {
    var prefix := AllItems(orders[..i], attributeName);
    assert orders[..i + 1][..i] == orders[..i];
    ApplyItemsConcat(t, prefix, Extract(orders[i], attributeName));
    AllItemsConcat(orders[..i + 1], orders[i + 1..], attributeName);
    assert orders[..i + 1] + orders[i + 1..] == orders;
    ApplyItemsConcat(t, AllItems(orders[..i + 1], attributeName), AllItems(orders[i + 1..], attributeName));
  }

  /** The processor of one file: a record of the configuration, the file and
      the shared counter. Only the counter changes. */
  class JsonFileProcessor {
    const config: ApplicationConfig
    const file: string
    const statisticService: StatisticCalculatorService

    constructor (config: ApplicationConfig, file: string, statisticService: StatisticCalculatorService)
      ensures this.config == config && this.file == file && this.statisticService == statisticService
    {
      this.config := config;
      this.file := file;
      this.statisticService := statisticService;
    }

    /** processOrder: each extracted value goes to incrementAttributeCount in
        turn; the first one that throws ends the order, and the increments
        before it stay. */
    method ProcessOrder(order: Order) returns (outcome: Outcome<Error>)
      modifies statisticService
      ensures var x := ApplyItems(old(statisticService.attributeCountStatistic), Extract(order, config.attributeName));
        statisticService.attributeCountStatistic == x.table &&
        outcome == (if x.failure.Some? then Fail(x.failure.value) else Pass)
    {
      ghost var t0 := statisticService.attributeCountStatistic;
      var items := Extract(order, config.attributeName);
      var i := 0;
      while i < |items|
        invariant 0 <= i <= |items|
        invariant ApplyItems(t0, items[..i]) == Tally(statisticService.attributeCountStatistic, None)
      {
        ApplyItemsPrefixStep(t0, items, i);
        match items[i]
        case NullReference =>
          return Fail(NullPointer);
        case Value(name) =>
          var o := statisticService.IncrementAttributeCount(name);
          if o.Fail? {
            return o;
          }
        i := i + 1;
      }
      assert items[..i] == items;
      outcome := Pass;
    }

    /** call(): reads the orders one by one, counting each before its values
        are processed; an exception from a value or from the decoder ends the
        call and discards the count. */
    method Call(input: OrderStream) returns (r: Result<nat, Error>)
      modifies statisticService
      ensures var spec := CallSpec(old(statisticService.attributeCountStatistic), input, config.attributeName);
        statisticService.attributeCountStatistic == spec.table && r == spec.result
    {
      ghost var t0 := statisticService.attributeCountStatistic;
      ghost var all := AllItems(input.orders, config.attributeName);
      var processedOrders := 0;
      var i := 0;
      while i < |input.orders|
        invariant 0 <= i <= |input.orders| && processedOrders == i
        invariant ApplyItems(t0, AllItems(input.orders[..i], config.attributeName)) ==
          Tally(statisticService.attributeCountStatistic, None)
      {
        var order := input.orders[i];
        processedOrders := processedOrders + 1;
        AllItemsStep(t0, input.orders, i, config.attributeName);
        var outcome := ProcessOrder(order);
        if outcome.Fail? {
          return Failure(outcome.error);
        }
        i := i + 1;
      }
      assert input.orders[..i] == input.orders;
      if input.malformed {
        return Failure(MalformedRecord);
      }
      r := Success(processedOrders);
    }
  }
}
