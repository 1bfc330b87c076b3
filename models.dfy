/**
 * The persistent entities of the collection app: card sets, cards, import
 * batches, collection rows with their stock counters, and orders.
 */
module Models {
  import opened Common
  import opened Payload

  /** The two stock columns of a `CollectionCard` row. */
  datatype Stock = Stock(quantity: int, reserved: int)

  /** `CollectionCard.available`: the units neither sold nor held. */
  function Available(s: Stock): (a: int)
    ensures a + s.reserved == s.quantity
  {
    s.quantity - s.reserved
  }

  const DefaultEdition: string := "Unlimited"
  const DefaultQuantity: int := 1
  const DefaultReserved: int := 0

  /** `CardSet`; `code` is nullable and blank-able. */
  datatype CardSet = CardSet(id: nat, name: string, code: Option<string>, releaseDate: Option<string>)

  /** `CardSet.__str__`: "name (code)" when the code is non-empty, else the name. */
  function CardSetLabel(s: CardSet): (r: string)
    ensures |s.name| <= |r| && r[..|s.name|] == s.name
    ensures r == s.name <==> !TruthyText(s.code)
    ensures TruthyText(s.code) ==> r[|s.name|..] == " (" + s.code.value + ")"
  {
    if TruthyText(s.code) then s.name + " (" + s.code.value + ")" else s.name
  }

  /** `Card`: a card name with an optional Konami id. */
  datatype Card = Card(id: nat, name: string, konamiId: Option<int>)

  // `ImportBatch.mode` is a text column whose form choices are these two.
  const MergeMode: string := "merge"
  const ReplaceMode: string := "replace"
  const ModeChoices: seq<string> := [MergeMode, ReplaceMode]
  const DefaultMode: string := MergeMode

  datatype ImportBatch = ImportBatch(id: nat, name: string, mode: string)

  datatype ImportMode = Merge | Replace

  /**
   * How the import code reads `mode`: it only ever compares it with
   * 'replace', so every other value behaves as merge.
   */
  function ModeOf(mode: string): (m: ImportMode)
    ensures m == Replace <==> mode == ReplaceMode
  {
    if mode == ReplaceMode then Replace else Merge
  }

  /** A new `ImportBatch` gets the default mode, which reads as merge. */
  function NewImportBatch(id: nat, name: string): (b: ImportBatch)
    ensures b.id == id && b.name == name
    ensures b.mode in ModeChoices && ModeOf(b.mode) == Merge
  {
    ImportBatch(id, name, DefaultMode)
  }

  /** The two choices are told apart by `ModeOf` and nothing else reads as replace. */
  lemma ModeChoicesAreDistinct(mode: string)
    ensures ModeOf(ModeChoices[0]) == Merge && ModeOf(ModeChoices[1]) == Replace
    ensures mode !in ModeChoices ==> ModeOf(mode) == Merge
  {
  }

  /** A `CollectionCard` row; `card`, `cardSet` and `importBatch` are ids. */
  datatype CollectionCard = CollectionCard(
    id: nat,
    card: nat,
    cardSet: Option<nat>,
    edition: Option<string>,
    condition: Option<string>,
    quantity: int,
    reserved: int,
    misprint: Option<Loose>,
    psa: Option<Loose>,
    notes: Option<string>,
    valueLow: Option<real>,
    valueMid: Option<real>,
    valueHigh: Option<real>,
    effectiveMid: Option<real>,
    pricingSource: Option<string>,
    importBatch: Option<nat>,
    exportedId: Option<int>)

  function StockOf(c: CollectionCard): Stock {
    Stock(c.quantity, c.reserved)
  }

  /**
   * A `CollectionCard` created with every column at its declared default:
   * one unit, none reserved, edition 'Unlimited', blank condition, the
   * nullable columns null.
   */
  function NewCollectionCard(id: nat, card: nat): (r: CollectionCard)
    ensures r.id == id && r.card == card
    ensures StockOf(r) == Stock(DefaultQuantity, DefaultReserved) && Available(StockOf(r)) == 1
    ensures r.edition == Some(DefaultEdition) && r.condition == Some("")
    ensures r.cardSet.None? && r.importBatch.None? && r.exportedId.None?
  {
    CollectionCard(id, card, None, Some(DefaultEdition), Some(""), DefaultQuantity, DefaultReserved,
                   None, None, None, None, None, None, None, None, None, None)
  }

  /**
   * The columns an import writes from one card record: everything but the
   * row id, the card, the set, the reservation count and the batch.
   */
  datatype RowValues = RowValues(
    edition: Option<string>,
    condition: Option<string>,
    quantity: int,
    misprint: Option<Loose>,
    psa: Option<Loose>,
    notes: Option<string>,
    valueLow: Option<real>,
    valueMid: Option<real>,
    valueHigh: Option<real>,
    effectiveMid: Option<real>,
    pricingSource: Option<string>,
    exportedId: Option<int>)

  function ValuesOf(c: CollectionCard): RowValues {
    RowValues(c.edition, c.condition, c.quantity, c.misprint, c.psa, c.notes,
              c.valueLow, c.valueMid, c.valueHigh, c.effectiveMid, c.pricingSource, c.exportedId)
  }

  /**
   * `CollectionCard.objects.create(card=…, card_set=…, <values>, import_batch=…)`:
   * the given columns as given, `reserved` at its default of 0.
   */
  function CreatedRow(id: nat, card: nat, cardSet: Option<nat>, v: RowValues, batch: nat): (r: CollectionCard)
    ensures r.id == id && r.card == card && r.cardSet == cardSet && r.importBatch == Some(batch)
    ensures ValuesOf(r) == v && r.reserved == DefaultReserved
    ensures Available(StockOf(r)) == v.quantity
  {
    NewCollectionCard(id, card).(cardSet := cardSet, edition := v.edition, condition := v.condition,
      quantity := v.quantity, misprint := v.misprint, psa := v.psa, notes := v.notes,
      valueLow := v.valueLow, valueMid := v.valueMid, valueHigh := v.valueHigh,
      effectiveMid := v.effectiveMid, pricingSource := v.pricingSource,
      importBatch := Some(batch), exportedId := v.exportedId)
  }

  /** `Order`; the JSON columns (address, items) are not modelled. */
  datatype Order = Order(stripeOrderId: string, email: string, status: string,
                         shippingName: string, trackingNumber: Option<string>)

  const DefaultOrderStatus: string := "paid"

  /** The `unique=True` constraint on `stripe_order_id`. */
  predicate UniqueOrderIds(orders: seq<Order>) {
    forall i, j :: 0 <= i < j < |orders| ==> orders[i].stripeOrderId != orders[j].stripeOrderId
  }

  predicate HasOrderId(orders: seq<Order>, id: string) {
    exists i :: 0 <= i < |orders| && orders[i].stripeOrderId == id
  }

  /**
   * Inserting an `Order` row: the unique index refuses (None) an id that is
   * already stored, so a table that satisfies the constraint keeps it.
   */
  function InsertOrder(orders: seq<Order>, o: Order): (r: Option<seq<Order>>)
    ensures r.None? <==> HasOrderId(orders, o.stripeOrderId)
    ensures r.Some? ==> r.value == orders + [o]
    ensures UniqueOrderIds(orders) && r.Some? ==> UniqueOrderIds(r.value)
  {
    if HasOrderId(orders, o.stripeOrderId) then None else Some(orders + [o])
  }

  /** Under the constraint there is at most one `Order` per Stripe id. */
  lemma AtMostOneOrderPerId(orders: seq<Order>, id: string)
    requires UniqueOrderIds(orders)
    ensures |set i | 0 <= i < |orders| && orders[i].stripeOrderId == id| <= 1
  {
    var hits := set i | 0 <= i < |orders| && orders[i].stripeOrderId == id;
    if hits != {} {
      var i0 :| i0 in hits;
      assert hits == {i0};
    }
  }
}
