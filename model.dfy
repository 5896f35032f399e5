/** The decoded order records (com.fransua.model): Order, Burger and
    Ingredient, whose equals and hashCode look at the identifier only. */
module Model {
  import opened Wrappers
  import opened Strings

  /** java.util.UUID: two 64-bit halves. */
  datatype Uuid = Uuid(mostSigBits: bv64, leastSigBits: bv64)

  /** java.time.Instant: seconds since the epoch and a nanosecond part. */
  datatype Instant = Instant(epochSecond: int, nano: nat)

  /** The text BigDecimal.toString gives for a price. The arithmetic of
      BigDecimal plays no part in the pipeline, so a price is represented by
      that text alone. BigDecimal.toString starts with a minus sign or a digit. */
  type DecimalText = s: string | |s| > 0 && (s[0] == '-' || '0' <= s[0] <= '9') witness "0"

  datatype Decimal = Decimal(text: DecimalText)

  /** BigDecimal.toString, which is never blank. */
  function PriceToString(p: Decimal): (s: string)
    ensures !IsBlank(s)
  {
    assert !IsWhitespace(p.text[0]);
    p.text
  }

  /** An argument of equals(Object): a reference of one of the three record
      classes, or of any other class. A null argument is `None`. */
  datatype JavaObject =
    | OrderObject(order: Order)
    | BurgerObject(burger: Burger)
    | IngredientObject(ingredient: Ingredient)
    | OtherObject

  /** UUID.hashCode: the two halves folded onto 32 bits. */
  function UuidHashCode(u: Uuid): bv32
  {
    var hilo := u.mostSigBits ^ u.leastSigBits;
    (((hilo >> 32) ^ hilo) & 0xFFFF_FFFF) as bv32
  }

  /** Objects.hashCode: 0 for null. */
  function IdHashCode(id: Option<Uuid>): bv32
  {
    match id
    case None => 0
    case Some(u) => UuidHashCode(u)
  }

  /** A java.util.List field as Jackson fills it: the list itself may be null
      (`None`), and so may each of its elements. */
  type JavaList<T> = Option<seq<Option<T>>>

  // A null String, BigDecimal or List field is `None`.
  datatype Ingredient = Ingredient(id: Option<Uuid>, name: Option<string>, unitPrice: Option<Decimal>)
  {
    /** Ingredient.equals: another Ingredient whose id is Objects.equals to this one's. */
    predicate Equals(o: Option<JavaObject>)
    {
      o.Some? && o.value.IngredientObject? && o.value.ingredient.id == id
    }

    function HashCode(): bv32
    {
      IdHashCode(id)
    }
  }

  datatype Burger = Burger(id: Option<Uuid>, name: Option<string>, ingredients: JavaList<Ingredient>)
  {
    /** Burger.equals: another Burger whose id is Objects.equals to this one's. */
    predicate Equals(o: Option<JavaObject>)
    {
      o.Some? && o.value.BurgerObject? && o.value.burger.id == id
    }

    function HashCode(): bv32
    {
      IdHashCode(id)
    }
  }

  datatype Order = Order(id: Option<Uuid>, createdAt: Option<Instant>, burgers: JavaList<Burger>)
  {
    /** Order.equals: another Order whose id is Objects.equals to this one's. */
    predicate Equals(o: Option<JavaObject>)
    {
      o.Some? && o.value.OrderObject? && o.value.order.id == id
    }

    function HashCode(): bv32
    {
      IdHashCode(id)
    }
  }

  // ---- Order ----

  /** Two orders are equal exactly when their ids are, two null ids included;
      the creation time and the burgers play no part. */
  lemma OrderEqualsIffSameId(a: Order, b: Order)
    ensures a.Equals(Some(OrderObject(b))) <==> a.id == b.id
    ensures a.Equals(Some(OrderObject(b))) ==>
      a.Equals(Some(OrderObject(Order(b.id, a.createdAt, a.burgers))))
  {
  }

  lemma OrderNeverEqualsNullOrOtherClass(a: Order, o: Option<JavaObject>)
    requires o.None? || !o.value.OrderObject?
    ensures !a.Equals(o)
  {
  }

  /** equals is an equivalence relation on orders. */
  lemma OrderEqualsIsEquivalence(a: Order, b: Order, c: Order)
    ensures a.Equals(Some(OrderObject(a)))
    ensures a.Equals(Some(OrderObject(b))) ==> b.Equals(Some(OrderObject(a)))
    ensures a.Equals(Some(OrderObject(b))) && b.Equals(Some(OrderObject(c))) ==> a.Equals(Some(OrderObject(c)))
  {
  }

  /** Equal orders have equal hashes, and the hash ignores everything but the id. */
  lemma OrderHashConsistent(a: Order, b: Order)
    requires a.Equals(Some(OrderObject(b)))
    ensures a.HashCode() == b.HashCode()
  {
  }

  // ---- Burger ----

  lemma BurgerEqualsIffSameId(a: Burger, b: Burger)
    ensures a.Equals(Some(BurgerObject(b))) <==> a.id == b.id
    ensures a.Equals(Some(BurgerObject(b))) ==>
      a.Equals(Some(BurgerObject(Burger(b.id, a.name, a.ingredients))))
  {
  }

  lemma BurgerNeverEqualsNullOrOtherClass(a: Burger, o: Option<JavaObject>)
    requires o.None? || !o.value.BurgerObject?
    ensures !a.Equals(o)
  {
  }

  lemma BurgerEqualsIsEquivalence(a: Burger, b: Burger, c: Burger)
    ensures a.Equals(Some(BurgerObject(a)))
    ensures a.Equals(Some(BurgerObject(b))) ==> b.Equals(Some(BurgerObject(a)))
    ensures a.Equals(Some(BurgerObject(b))) && b.Equals(Some(BurgerObject(c))) ==> a.Equals(Some(BurgerObject(c)))
  {
  }

  lemma BurgerHashConsistent(a: Burger, b: Burger)
    requires a.Equals(Some(BurgerObject(b)))
    ensures a.HashCode() == b.HashCode()
  {
  }

  // ---- Ingredient ----

  lemma IngredientEqualsIffSameId(a: Ingredient, b: Ingredient)
    ensures a.Equals(Some(IngredientObject(b))) <==> a.id == b.id
    ensures a.Equals(Some(IngredientObject(b))) ==>
      a.Equals(Some(IngredientObject(Ingredient(b.id, a.name, a.unitPrice))))
  {
  }

  lemma IngredientNeverEqualsNullOrOtherClass(a: Ingredient, o: Option<JavaObject>)
    requires o.None? || !o.value.IngredientObject?
    ensures !a.Equals(o)
  {
  }

  lemma IngredientEqualsIsEquivalence(a: Ingredient, b: Ingredient, c: Ingredient)
    ensures a.Equals(Some(IngredientObject(a)))
    ensures a.Equals(Some(IngredientObject(b))) ==> b.Equals(Some(IngredientObject(a)))
    ensures a.Equals(Some(IngredientObject(b))) && b.Equals(Some(IngredientObject(c))) ==> a.Equals(Some(IngredientObject(c)))
  {
  }

  lemma IngredientHashConsistent(a: Ingredient, b: Ingredient)
    requires a.Equals(Some(IngredientObject(b)))
    ensures a.HashCode() == b.HashCode()
  {
  }

  /** The null id hashes to 0, as Objects.hashCode(null) does. */
  lemma NullIdHashesToZero(o: Order, b: Burger, i: Ingredient)
    requires o.id.None? && b.id.None? && i.id.None?
    ensures o.HashCode() == 0 && b.HashCode() == 0 && i.HashCode() == 0
  {
  }
}
