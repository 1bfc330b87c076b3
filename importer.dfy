/**
 * The JSON collection importer: for each card record it finds or creates the
 * card and the set, looks for a matching collection row, and either updates
 * that row (merge or replace rules) or creates a new one. A replace-mode
 * import first deletes every collection row and ends with a pass meant to
 * delete the rows of earlier batches of the same name.
 */
module Importer {
  import opened Common
  import opened Text
  import opened Payload
  import opened Models
  import opened Database

  // The value of a column type that equals '' (none for numeric columns).
  const EmptyText: Option<string> := Some("")
  const EmptyLoose: Option<Loose> := Some(Text(""))
  const NoEmptyReal: Option<real> := None

  /** `_is_empty(val)`: `val is None or val == ''`. */
  predicate IsEmpty<T(==)>(val: Option<T>, emptyText: Option<T>) {
    val.None? || (emptyText.Some? && val == emptyText)
  }

  /**
   * `_merge(existing, field, new_val)`: the field takes `newVal` only when
   * it is empty and `newVal` is not None; otherwise it is unchanged.
   */
  function MergeField<T(==)>(current: Option<T>, newVal: Option<T>, emptyText: Option<T>): (r: Option<T>)
    ensures IsEmpty(current, emptyText) && newVal.Some? ==> r == newVal
    ensures !IsEmpty(current, emptyText) || newVal.None? ==> r == current
  {
    if IsEmpty(current, emptyText) && newVal.Some? then newVal else current
  }

  /** Merging the same value twice is merging it once. */
  lemma MergeFieldIdempotent<T>(current: Option<T>, newVal: Option<T>, emptyText: Option<T>)
    ensures MergeField(MergeField(current, newVal, emptyText), newVal, emptyText) == MergeField(current, newVal, emptyText)
  {
  }

  /** Once a merge filled a field with a non-empty value, later merges keep it. */
  lemma MergeFieldFirstFillWins<T>(current: Option<T>, first: Option<T>, later: Option<T>, emptyText: Option<T>)
    requires !IsEmpty(first, emptyText)
    ensures MergeField(MergeField(current, first, emptyText), later, emptyText) == MergeField(current, first, emptyText)
  {
  }

  /** The column values the importer derives from one record. */
  function ImporterValues(p: CardPayload): (v: RowValues)
    ensures v.edition == Some(TextOr(Get(p.edition), DefaultEdition)) && v.edition.value != ""
    ensures v.quantity == (if TruthyInt(p.quantity) then p.quantity.value else DefaultQuantity) && v.quantity != 0
    ensures v.misprint == (if TruthyLoose(p.misprint) then p.misprint else p.misprints)
    ensures v.effectiveMid == (if TruthyReal(PricingOf(p).effectiveMid) then PricingOf(p).effectiveMid else PricingOf(p).mid)
    ensures v.condition == p.condition && v.psa == p.psa && v.notes == p.notes && v.exportedId == p.id
    ensures v.valueLow == PricingOf(p).low && v.valueMid == PricingOf(p).mid && v.valueHigh == PricingOf(p).high
    ensures v.pricingSource == PricingOf(p).source
  {
    var pricing := PricingOf(p);
    RowValues(
      Some(TextOr(Get(p.edition), DefaultEdition)),
      p.condition,
      if TruthyInt(p.quantity) then p.quantity.value else DefaultQuantity,
      if TruthyLoose(p.misprint) then p.misprint else p.misprints,
      p.psa,
      p.notes,
      pricing.low, pricing.mid, pricing.high,
      if TruthyReal(pricing.effectiveMid) then pricing.effectiveMid else pricing.mid,
      pricing.source,
      p.id)
  }

  /**
   * Replace rules for a matched row: the 13 imported columns (the values,
   * the set and the exported id) are all overwritten; the card and the
   * reservation count stay.
   */
  function ReplacedRow(row: CollectionCard, v: RowValues, cardSet: Option<nat>, batch: nat): (r: CollectionCard)
    ensures ValuesOf(r) == v && r.cardSet == cardSet && r.importBatch == Some(batch)
    ensures r.id == row.id && r.card == row.card && r.reserved == row.reserved
  {
    row.(edition := v.edition, condition := v.condition, quantity := v.quantity, misprint := v.misprint,
         psa := v.psa, notes := v.notes, valueLow := v.valueLow, valueMid := v.valueMid,
         valueHigh := v.valueHigh, effectiveMid := v.effectiveMid, pricingSource := v.pricingSource,
         cardSet := cardSet, exportedId := v.exportedId, importBatch := Some(batch))
  }

  /**
   * Merge rules for a matched row: edition, set, card and reservation count
   * stay; nine columns are merged field by field; the quantity is written
   * only over 0 and the exported id only over an unset one.
   */
  function MergedRow(row: CollectionCard, v: RowValues, batch: nat): (r: CollectionCard)
    ensures r.id == row.id && r.card == row.card && r.cardSet == row.cardSet && r.edition == row.edition
    ensures r.reserved == row.reserved && r.importBatch == Some(batch)
    ensures r.condition == MergeField(row.condition, v.condition, EmptyText)
    ensures r.misprint == MergeField(row.misprint, v.misprint, EmptyLoose)
    ensures r.psa == MergeField(row.psa, v.psa, EmptyLoose)
    ensures r.notes == MergeField(row.notes, v.notes, EmptyText)
    ensures r.valueLow == MergeField(row.valueLow, v.valueLow, NoEmptyReal)
    ensures r.valueMid == MergeField(row.valueMid, v.valueMid, NoEmptyReal)
    ensures r.valueHigh == MergeField(row.valueHigh, v.valueHigh, NoEmptyReal)
    ensures r.effectiveMid == MergeField(row.effectiveMid, v.effectiveMid, NoEmptyReal)
    ensures r.pricingSource == MergeField(row.pricingSource, v.pricingSource, EmptyText)
    ensures r.quantity == (if row.quantity == 0 then v.quantity else row.quantity)
    ensures r.exportedId == (if !TruthyInt(row.exportedId) && TruthyInt(v.exportedId) then v.exportedId else row.exportedId)
  {
    row.(condition := MergeField(row.condition, v.condition, EmptyText),
         misprint := MergeField(row.misprint, v.misprint, EmptyLoose),
         psa := MergeField(row.psa, v.psa, EmptyLoose),
         notes := MergeField(row.notes, v.notes, EmptyText),
         valueLow := MergeField(row.valueLow, v.valueLow, NoEmptyReal),
         valueMid := MergeField(row.valueMid, v.valueMid, NoEmptyReal),
         valueHigh := MergeField(row.valueHigh, v.valueHigh, NoEmptyReal),
         effectiveMid := MergeField(row.effectiveMid, v.effectiveMid, NoEmptyReal),
         pricingSource := MergeField(row.pricingSource, v.pricingSource, EmptyText),
         quantity := if row.quantity == 0 then v.quantity else row.quantity,
         exportedId := if !TruthyInt(row.exportedId) && TruthyInt(v.exportedId) then v.exportedId else row.exportedId,
         importBatch := Some(batch))
  }

  /** Importing the same record twice in merge mode changes nothing the second time. */
  lemma MergedRowIdempotent(row: CollectionCard, v: RowValues, batch: nat)
    ensures MergedRow(MergedRow(row, v, batch), v, batch) == MergedRow(row, v, batch)
  {
    MergeFieldIdempotent(row.condition, v.condition, EmptyText);
    MergeFieldIdempotent(row.misprint, v.misprint, EmptyLoose);
    MergeFieldIdempotent(row.psa, v.psa, EmptyLoose);
    MergeFieldIdempotent(row.notes, v.notes, EmptyText);
    MergeFieldIdempotent(row.pricingSource, v.pricingSource, EmptyText);
  }

  /** A replaced row no longer depends on what the row held before. */
  lemma ReplacedRowForgetsOldValues(a: CollectionCard, b: CollectionCard, v: RowValues, cardSet: Option<nat>, batch: nat)
    requires a.id == b.id && a.card == b.card && a.reserved == b.reserved
    ensures ReplacedRow(a, v, cardSet, batch) == ReplacedRow(b, v, cardSet, batch)
  {
  }

  /** The set code and name a record is resolved with: `_normalize`d, '' when missing. */
  function SetCode(p: CardPayload): string { Normalize(SetOf(p).code) }

  function SetName(p: CardPayload): string { Normalize(SetOf(p).name) }

  /** The release date stored for a created set; its parsing is not modelled. */
  function ReleaseDateOf(sp: SetPayload): Option<string> {
    if TruthyText(sp.releaseDate) then sp.releaseDate else None
  }

  /**
   * `_find_or_create_card_and_set`: the set (always one: a record without a
   * set resolves to, or creates, a set with an empty name and no code) and
   * the card, each by its lookup chain.
   */
  method FindOrCreateCardAndSet(store: Store, p: CardPayload) returns (card: nat, cardSet: nat)
    requires store.Valid()
    modifies store`sets, store`nextSetId, store`cards, store`nextCardId
    ensures store.Valid()
    ensures |old(store.sets)| <= |store.sets| && store.sets[..|old(store.sets)|] == old(store.sets)
    ensures |old(store.cards)| <= |store.cards| && store.cards[..|old(store.cards)|] == old(store.cards)
    ensures exists i :: 0 <= i < |store.sets| && store.sets[i].id == cardSet
    ensures exists i :: 0 <= i < |store.cards| && store.cards[i].id == card
    ensures FindSet(old(store.sets), SetCode(p), SetName(p)).Some? ==>
              store.sets == old(store.sets) && cardSet == old(store.sets)[FindSet(old(store.sets), SetCode(p), SetName(p)).value].id
    ensures FindSet(old(store.sets), SetCode(p), SetName(p)).None? ==>
              store.sets == old(store.sets) + [CardSet(cardSet, SetName(p), if SetCode(p) == "" then None else Some(SetCode(p)), ReleaseDateOf(SetOf(p)))]
    ensures FindCard(old(store.cards), p.konamiId, Normalize(p.name)).Some? ==>
              store.cards == old(store.cards) && card == old(store.cards)[FindCard(old(store.cards), p.konamiId, Normalize(p.name)).value].id
    ensures FindCard(old(store.cards), p.konamiId, Normalize(p.name)).None? ==>
              store.cards == old(store.cards) + [Card(card, Normalize(p.name), p.konamiId)]
  {
    cardSet := store.FindOrCreateSet(SetCode(p), SetName(p), ReleaseDateOf(SetOf(p)));
    card := store.FindOrCreateCard(p.konamiId, Normalize(p.name));
  }

  /**
   * The set and card tables before (`sets`, `cards`) and after (`sets'`,
   * `cards'`) record `p` is resolved to `card` and `cardSet`: each is the
   * first one its lookup chain finds, with the table unchanged, or a new
   * one appended when the chain finds none.
   */
  ghost predicate Resolved(sets: seq<CardSet>, sets': seq<CardSet>, cards: seq<Card>, cards': seq<Card>,
                           p: CardPayload, card: nat, cardSet: nat)
  {
    && (FindSet(sets, SetCode(p), SetName(p)).Some? ==>
          sets' == sets && cardSet == sets[FindSet(sets, SetCode(p), SetName(p)).value].id)
    && (FindSet(sets, SetCode(p), SetName(p)).None? ==>
          sets' == sets + [CardSet(cardSet, SetName(p), if SetCode(p) == "" then None else Some(SetCode(p)), ReleaseDateOf(SetOf(p)))])
    && (FindCard(cards, p.konamiId, Normalize(p.name)).Some? ==>
          cards' == cards && card == cards[FindCard(cards, p.konamiId, Normalize(p.name)).value].id)
    && (FindCard(cards, p.konamiId, Normalize(p.name)).None? ==>
          cards' == cards + [Card(card, Normalize(p.name), p.konamiId)])
  }

  /** `FindOrCreateCardAndSet` as the import loop sees it: only sets and cards change. */
  method ResolveCardAndSet(store: Store, p: CardPayload) returns (card: nat, cardSet: nat)
    requires store.Valid()
    modifies store`sets, store`nextSetId, store`cards, store`nextCardId
    ensures store.Valid()
    ensures |old(store.sets)| <= |store.sets| && store.sets[..|old(store.sets)|] == old(store.sets)
    ensures |old(store.cards)| <= |store.cards| && store.cards[..|old(store.cards)|] == old(store.cards)
    ensures exists i :: 0 <= i < |store.sets| && store.sets[i].id == cardSet
    ensures exists i :: 0 <= i < |store.cards| && store.cards[i].id == card
    ensures Resolved(old(store.sets), store.sets, old(store.cards), store.cards, p, card, cardSet)
  {
    card, cardSet := FindOrCreateCardAndSet(store, p);
  }

  /**
   * The text a non-null text column holds: a number is stored as its decimal
   * text; an object is stored as its Python rendering, which is not modelled.
   */
  function StoredText(v: Option<Loose>): (r: Option<string>)
    ensures v.Some? && v.value.Text? ==> r == Some(v.value.text)
    ensures v.Some? && v.value.Number? ==> r == Some(DecimalText(v.value.value))
    ensures v.None? || v.value.Object? ==> r.None?
  {
    match v
    case Some(Text(s)) => Some(s)
    case Some(Number(n)) => Some(DecimalText(n))
    case _ => None
  }

  function Lookup(m: map<string, string>, key: string): Option<string> {
    if key in m then Some(m[key]) else None
  }

  /**
   * The psa text a record is matched on: a non-empty string as it is, a
   * non-zero number as `str()` renders it; for an object its `company`, else
   * its `cert`; nothing when that is empty.
   */
  function PsaFilter(psa: Option<Loose>): (r: Option<string>)
    ensures r.Some? ==> r.value != "" && TruthyLoose(psa)
    ensures psa.Some? && psa.value.Text? ==> r == (if psa.value.text != "" then Some(psa.value.text) else None)
    ensures psa.Some? && psa.value.Number? ==> r == (if psa.value.value != 0 then Some(DecimalText(psa.value.value)) else None)
    ensures psa.Some? && psa.value.Object? ==>
              r == (if TruthyText(Lookup(psa.value.entries, "company")) then Lookup(psa.value.entries, "company")
                    else if TruthyText(Lookup(psa.value.entries, "cert")) then Lookup(psa.value.entries, "cert")
                    else None)
  {
    match psa
    case None => None
    case Some(Text(s)) => if s != "" then Some(s) else None
    case Some(Number(n)) => if n != 0 then Some(DecimalText(n)) else None
    case Some(Object(m)) =>
      var company := Lookup(m, "company");
      var chosen := if TruthyText(company) then company else Lookup(m, "cert");
      if TruthyText(chosen) then chosen else None
  }

  /** The filter on card, set (when given), edition and psa (when given). */
  predicate RowMatches(row: CollectionCard, card: nat, cardSet: Option<nat>, edition: string, psa: Option<string>) {
    && row.card == card
    && (cardSet.Some? ==> row.cardSet == cardSet)
    && row.edition.Some? && IEquals(row.edition.value, edition)
    && (psa.Some? ==> StoredText(row.psa).Some? && IEquals(StoredText(row.psa).value, psa.value))
  }

  predicate ExportedIdIs(row: CollectionCard, id: int) {
    row.exportedId == Some(id)
  }

  /** The edition a record is matched and created with. */
  function MatchEdition(p: CardPayload): string {
    TextOr(Get(p.edition), DefaultEdition)
  }

  predicate HasExportedHit(rows: seq<CollectionCard>, p: CardPayload) {
    TruthyInt(p.id) && exists i :: 0 <= i < |rows| && ExportedIdIs(rows[i], p.id.value)
  }

  /**
   * `_identify_collection_card`: a row with the record's (non-zero) exported
   * id wins; otherwise the first row that matches on card, set, edition and
   * psa; None when neither exists.
   */
  function IdentifyCollectionCard(rows: seq<CollectionCard>, card: nat, cardSet: Option<nat>, p: CardPayload): (r: Option<nat>)
    ensures r.Some? ==> r.value < |rows|
    ensures HasExportedHit(rows, p) ==>
              r.Some? && ExportedIdIs(rows[r.value], p.id.value)
              && forall j :: 0 <= j < r.value ==> !ExportedIdIs(rows[j], p.id.value)
    ensures !HasExportedHit(rows, p) ==>
              && (r.Some? <==> exists i :: 0 <= i < |rows| && RowMatches(rows[i], card, cardSet, MatchEdition(p), PsaFilter(p.psa)))
              && (r.Some? ==> RowMatches(rows[r.value], card, cardSet, MatchEdition(p), PsaFilter(p.psa)))
              && (r.Some? ==> forall j :: 0 <= j < r.value ==> !RowMatches(rows[j], card, cardSet, MatchEdition(p), PsaFilter(p.psa)))
  {
    var byId := if TruthyInt(p.id) then FirstIndex(rows, row => ExportedIdIs(row, p.id.value)) else None;
    if byId.Some? then byId
    else
      var edition := MatchEdition(p);
      var psa := PsaFilter(p.psa);
      FirstIndex(rows, row => RowMatches(row, card, cardSet, edition, psa))
  }

  /** The exported ids (`new_ids`) of the records that have a non-zero one. */
  function ExportedIds(cards: seq<CardPayload>): (r: set<int>)
    ensures forall i :: 0 <= i < |cards| && TruthyInt(cards[i].id) ==> cards[i].id.value in r
    ensures forall x :: x in r ==> exists i :: 0 <= i < |cards| && TruthyInt(cards[i].id) && cards[i].id.value == x
    decreases |cards|
  {
    if cards == [] then {}
    else
      var last := cards[|cards| - 1];
      assert forall i :: 0 <= i < |cards| - 1 ==> cards[i] == cards[..|cards| - 1][i];
      ExportedIds(cards[..|cards| - 1]) + (if TruthyInt(last.id) then {last.id.value} else {})
  }

  /**
   * What merge mode never changes in a saved row: its edition and set, every
   * merged column that is not empty, a non-zero quantity and a non-zero
   * exported id.
   */
  predicate MergeKeeps(before: CollectionCard, after: CollectionCard) {
    && after.edition == before.edition && after.cardSet == before.cardSet
    && (!IsEmpty(before.condition, EmptyText) ==> after.condition == before.condition)
    && (!IsEmpty(before.misprint, EmptyLoose) ==> after.misprint == before.misprint)
    && (!IsEmpty(before.psa, EmptyLoose) ==> after.psa == before.psa)
    && (!IsEmpty(before.notes, EmptyText) ==> after.notes == before.notes)
    && (!IsEmpty(before.valueLow, NoEmptyReal) ==> after.valueLow == before.valueLow)
    && (!IsEmpty(before.valueMid, NoEmptyReal) ==> after.valueMid == before.valueMid)
    && (!IsEmpty(before.valueHigh, NoEmptyReal) ==> after.valueHigh == before.valueHigh)
    && (!IsEmpty(before.effectiveMid, NoEmptyReal) ==> after.effectiveMid == before.effectiveMid)
    && (!IsEmpty(before.pricingSource, EmptyText) ==> after.pricingSource == before.pricingSource)
    && (before.quantity != 0 ==> after.quantity == before.quantity)
    && (TruthyInt(before.exportedId) ==> after.exportedId == before.exportedId)
  }

  /**
   * How a row present before an import can have changed: not at all, or
   * saved with this batch, keeping its id, card and reservation count (and,
   * in merge mode, whatever `MergeKeeps` keeps).
   */
  predicate Kept(before: CollectionCard, after: CollectionCard, batch: nat, mode: ImportMode) {
    before == after
    || (&& after.id == before.id && after.card == before.card && after.reserved == before.reserved
        && after.importBatch == Some(batch)
        && (mode == Merge ==> MergeKeeps(before, after)))
  }

  /** A row this import created: it carries the batch, an id allocated during the import and no reservation. */
  predicate CreatedBy(row: CollectionCard, batch: nat, firstId: nat) {
    row.importBatch == Some(batch) && row.id >= firstId && row.reserved == 0
  }

  /** The row a matched record is saved as, by the batch's mode. */
  function SavedRow(row: CollectionCard, v: RowValues, cardSet: nat, batch: nat, mode: ImportMode): (r: CollectionCard)
    ensures mode == Replace ==> r == ReplacedRow(row, v, Some(cardSet), batch)
    ensures mode == Merge ==> r == MergedRow(row, v, batch)
    ensures r.importBatch == Some(batch)
    ensures Kept(row, r, batch, mode)
  {
    if mode == Replace then ReplacedRow(row, v, Some(cardSet), batch) else MergedRow(row, v, batch)
  }

  /**
   * One record, once its card and set are resolved: the identified row is
   * saved by the mode's rules, or a new row is created.
   */
  method ApplyRecord(store: Store, batch: nat, mode: ImportMode, card: nat, cardSet: nat, p: CardPayload)
    returns (wasCreated: bool)
    requires store.Valid()
    modifies store`rows, store`nextRowId
    ensures store.Valid() && store.nextRowId == old(store.nextRowId) + (if wasCreated then 1 else 0)
    ensures wasCreated <==> IdentifyCollectionCard(old(store.rows), card, Some(cardSet), p).None?
    ensures wasCreated ==>
              store.rows == old(store.rows) + [CreatedRow(old(store.nextRowId), card, Some(cardSet), ImporterValues(p), batch)]
    ensures !wasCreated ==>
              var k := IdentifyCollectionCard(old(store.rows), card, Some(cardSet), p).value;
              store.rows == old(store.rows)[k := SavedRow(old(store.rows)[k], ImporterValues(p), cardSet, batch, mode)]
  {
    var existing := IdentifyCollectionCard(store.rows, card, Some(cardSet), p);
    var v := ImporterValues(p);
    if existing.Some? {
      store.SaveRow(existing.value, SavedRow(store.rows[existing.value], v, cardSet, batch, mode));
      wasCreated := false;
    } else {
      var _ := store.InsertRow(CreatedRow(store.nextRowId, card, Some(cardSet), v, batch));
      wasCreated := true;
    }
  }

  /**
   * What one record does to the rows, as `ApplyRecord` states it: `at` is
   * the row it saved or created. It creates a row exactly when
   * `IdentifyCollectionCard` finds none; otherwise it saves the identified
   * row by the mode's rules and changes no other row.
   */
  predicate Applied(before: seq<CollectionCard>, after: seq<CollectionCard>, next: nat, card: nat, cardSet: nat,
                    p: CardPayload, batch: nat, mode: ImportMode, created: bool, at: nat)
  {
    var found := IdentifyCollectionCard(before, card, Some(cardSet), p);
    && (created <==> found.None?)
    && (created ==> at == |before| && after == before + [CreatedRow(next, card, Some(cardSet), ImporterValues(p), batch)])
    && (!created ==> at == found.value && after == before[at := SavedRow(before[at], ImporterValues(p), cardSet, batch, mode)])
  }

  /** `ApplyRecord`, with `at` the row the record was saved into or created as. */
  method ImportRecord(store: Store, batch: nat, mode: ImportMode, card: nat, cardSet: nat, p: CardPayload)
    returns (wasCreated: bool, ghost at: nat)
    requires store.Valid()
    modifies store`rows, store`nextRowId
    ensures store.Valid()
    ensures store.nextRowId == old(store.nextRowId) + (if wasCreated then 1 else 0)
    ensures Applied(old(store.rows), store.rows, old(store.nextRowId), card, cardSet, p, batch, mode, wasCreated, at)
  {
    ghost var found := IdentifyCollectionCard(store.rows, card, Some(cardSet), p);
    wasCreated := ApplyRecord(store, batch, mode, card, cardSet, p);
    at := if wasCreated then |old(store.rows)| else found.value;
  }

  /**
   * What applying a record keeps, in the terms the import loop keeps. On an
   * empty table nothing can be identified, so the record creates a row.
   */
  lemma AppliedFacts(before: seq<CollectionCard>, after: seq<CollectionCard>, next: nat, card: nat, cardSet: nat,
                     p: CardPayload, batch: nat, mode: ImportMode, created: bool, at: nat)
    requires Applied(before, after, next, card, cardSet, p, batch, mode, created, at)
    ensures |after| == |before| + (if created then 1 else 0)
    ensures forall j :: 0 <= j < |before| ==> Kept(before[j], after[j], batch, mode)
    ensures created ==> CreatedBy(after[|before|], batch, next)
    ensures forall j :: 0 <= j < |before| && before[j].importBatch == Some(batch) ==> after[j].importBatch == Some(batch)
    ensures at < |after| && after[at].importBatch == Some(batch)
    ensures created ==> at == |before|
    ensures !created ==> at < |before|
    ensures before == [] ==> created
  {
    if created {
      assert after[|before|] == CreatedRow(next, card, Some(cardSet), ImporterValues(p), batch);
    }
  }

  /** Resolving a record only appends to the set and card tables. */
  lemma ResolvedGrows(sets: seq<CardSet>, sets': seq<CardSet>, cards: seq<Card>, cards': seq<Card>,
                      p: CardPayload, card: nat, cardSet: nat)
    requires Resolved(sets, sets', cards, cards', p, card, cardSet)
    ensures |sets| <= |sets'| && sets'[..|sets|] == sets
    ensures |cards| <= |cards'| && cards'[..|cards|] == cards
  {
  }

  /** The tables and the row id counter at one point of an import. */
  datatype Snapshot = Snapshot(sets: seq<CardSet>, cards: seq<Card>, rows: seq<CollectionCard>, nextRowId: nat)

  /** What one record resolved to, whether it created its row, and which row that is. */
  datatype Choice = Choice(card: nat, cardSet: nat, created: bool, at: nat)

  /**
   * One record taking the store from `s` to `s'`: its card and set are
   * `Resolved`, its row is `Applied`, and a created row uses up one id.
   */
  ghost predicate Step(s: Snapshot, s': Snapshot, p: CardPayload, c: Choice, batch: nat, mode: ImportMode) {
    && Resolved(s.sets, s'.sets, s.cards, s'.cards, p, c.card, c.cardSet)
    && Applied(s.rows, s'.rows, s.nextRowId, c.card, c.cardSet, p, batch, mode, c.created, c.at)
    && s'.nextRowId == s.nextRowId + (if c.created then 1 else 0)
  }

  /**
   * The first `|choices|` records of `ps`, taken in order: record `k` takes
   * the store from snapshot `k` to snapshot `k + 1`, as `choices[k]` says.
   */
  ghost predicate Trail(ps: seq<CardPayload>, snaps: seq<Snapshot>, choices: seq<Choice>, batch: nat, mode: ImportMode) {
    && |choices| <= |ps| && |snaps| == |choices| + 1
    && forall k {:trigger Step(snaps[k], snaps[k + 1], ps[k], choices[k], batch, mode)} :: 0 <= k < |choices| ==>
         Step(snaps[k], snaps[k + 1], ps[k], choices[k], batch, mode)
  }

  /** The next record extends a trail. */
  lemma TrailStep(ps: seq<CardPayload>, snaps: seq<Snapshot>, choices: seq<Choice>, batch: nat, mode: ImportMode,
                  s': Snapshot, c: Choice)
    requires Trail(ps, snaps, choices, batch, mode) && |choices| < |ps|
    requires Step(snaps[|choices|], s', ps[|choices|], c, batch, mode)
    ensures Trail(ps, snaps + [s'], choices + [c], batch, mode)
  {
    forall k | 0 <= k < |choices| + 1
      ensures Step((snaps + [s'])[k], (snaps + [s'])[k + 1], ps[k], (choices + [c])[k], batch, mode)
    {
      if k < |choices| {
        assert (snaps + [s'])[k] == snaps[k] && (snaps + [s'])[k + 1] == snaps[k + 1] && (choices + [c])[k] == choices[k];
      } else {
        assert (snaps + [s'])[k] == snaps[k] && (snaps + [s'])[k + 1] == s' && (choices + [c])[k] == c;
      }
    }
  }

  /**
   * Record `k` of a trail creates a row exactly when, in the table it
   * finds, no row carries its non-zero exported id and no row matches it
   * on card, set, edition and psa.
   */
  lemma TrailCreatesIff(ps: seq<CardPayload>, snaps: seq<Snapshot>, choices: seq<Choice>, batch: nat, mode: ImportMode, k: nat)
    requires Trail(ps, snaps, choices, batch, mode) && k < |choices|
    ensures choices[k].created <==>
              && !HasExportedHit(snaps[k].rows, ps[k])
              && !exists i :: 0 <= i < |snaps[k].rows| &&
                   RowMatches(snaps[k].rows[i], choices[k].card, Some(choices[k].cardSet), MatchEdition(ps[k]), PsaFilter(ps[k].psa))
  {
    assert Step(snaps[k], snaps[k + 1], ps[k], choices[k], batch, mode);
  }

  /**
   * Record `k` of a trail, when some row of the table it finds carries its
   * exported id, updates the first such row by the mode's rules and adds
   * nothing: re-importing an exported row never duplicates it.
   */
  lemma TrailUpdatesExportedRow(ps: seq<CardPayload>, snaps: seq<Snapshot>, choices: seq<Choice>, batch: nat, mode: ImportMode, k: nat)
    requires Trail(ps, snaps, choices, batch, mode) && k < |choices|
    requires HasExportedHit(snaps[k].rows, ps[k])
    ensures !choices[k].created && choices[k].at < |snaps[k].rows| && ExportedIdIs(snaps[k].rows[choices[k].at], ps[k].id.value)
    ensures forall j :: 0 <= j < choices[k].at ==> !ExportedIdIs(snaps[k].rows[j], ps[k].id.value)
    ensures snaps[k + 1].rows ==
            snaps[k].rows[choices[k].at := SavedRow(snaps[k].rows[choices[k].at], ImporterValues(ps[k]), choices[k].cardSet, batch, mode)]
  {
    assert Step(snaps[k], snaps[k + 1], ps[k], choices[k], batch, mode);
  }

  /**
   * Record `k` of a trail resolves its set and card as `FindOrCreateCardAndSet`
   * does: the set `FindSet` finds, or a new one appended; the card `FindCard`
   * finds, or a new one appended.
   */
  lemma TrailResolves(ps: seq<CardPayload>, snaps: seq<Snapshot>, choices: seq<Choice>, batch: nat, mode: ImportMode, k: nat)
    requires Trail(ps, snaps, choices, batch, mode) && k < |choices|
    ensures Resolved(snaps[k].sets, snaps[k + 1].sets, snaps[k].cards, snaps[k + 1].cards, ps[k], choices[k].card, choices[k].cardSet)
  {
    assert Step(snaps[k], snaps[k + 1], ps[k], choices[k], batch, mode);
  }

  /** The number of `true`s: how many records created a row. */
  function Trues(bs: seq<bool>): (n: nat)
    ensures n <= |bs|
    decreases |bs|
  {
    if bs == [] then 0 else Trues(bs[..|bs| - 1]) + (if bs[|bs| - 1] then 1 else 0)
  }

  /**
   * What the import did with each record, read off the table `rows`: record
   * `k` touched row `touched[k]`, which now carries the batch. When
   * `news[k]` holds it created that row, the next one after the `n0` rows
   * there were and the rows earlier records created; otherwise it saved a
   * row that already existed when it came.
   */
  predicate Traced(rows: seq<CollectionCard>, n0: nat, touched: seq<nat>, news: seq<bool>, batch: nat) {
    && |touched| == |news|
    && forall k :: 0 <= k < |touched| ==>
         && touched[k] < |rows| && rows[touched[k]].importBatch == Some(batch)
         && (news[k] ==> touched[k] == n0 + Trues(news[..k]))
         && (!news[k] ==> touched[k] < n0 + Trues(news[..k]))
  }

  /** One more record extends the trace. */
  lemma TracedStep(rows: seq<CollectionCard>, rows': seq<CollectionCard>, n0: nat, touched: seq<nat>, news: seq<bool>,
                   batch: nat, at: nat, w: bool)
    requires Traced(rows, n0, touched, news, batch)
    requires |rows| == n0 + Trues(news) && |rows| <= |rows'|
    requires forall j :: 0 <= j < |rows| && rows[j].importBatch == Some(batch) ==> rows'[j].importBatch == Some(batch)
    requires at < |rows'| && rows'[at].importBatch == Some(batch)
    requires w ==> at == |rows|
    requires !w ==> at < |rows|
    ensures Traced(rows', n0, touched + [at], news + [w], batch)
    ensures Trues(news + [w]) == Trues(news) + (if w then 1 else 0)
  {
    var news' := news + [w];
    assert news'[..|news|] == news;
    forall k | 0 <= k < |news| ensures news'[..k] == news[..k] {
      assert news'[..k] == news'[..|news|][..k];
    }
  }

  /**
   * Imports the records in order. The trail `snaps` records the tables
   * before and after every record and `choices` what each record did:
   * record `k` resolves its card and set and then saves the row
   * `IdentifyCollectionCard` finds, or creates one when it finds none
   * (`Step`). Every record is counted once, as created or as updated; rows
   * are added at the end and never removed; a row that changes carries
   * this batch.
   */
  method ImportCards(store: Store, batch: ImportBatch, cards: seq<CardPayload>)
    returns (created: nat, updated: nat, newIds: set<int>, ghost snaps: seq<Snapshot>, ghost choices: seq<Choice>,
             ghost touched: seq<nat>, ghost news: seq<bool>)
    requires store.Valid()
    modifies store`sets, store`nextSetId, store`cards, store`nextCardId, store`rows, store`nextRowId
    ensures store.Valid()
    ensures created + updated == |cards|
    ensures newIds == ExportedIds(cards)
    ensures |store.rows| == |old(store.rows)| + created
    ensures store.nextRowId >= old(store.nextRowId)
    ensures forall j :: 0 <= j < |old(store.rows)| ==> Kept(old(store.rows)[j], store.rows[j], batch.id, ModeOf(batch.mode))
    ensures forall j :: |old(store.rows)| <= j < |store.rows| ==> CreatedBy(store.rows[j], batch.id, old(store.nextRowId))
    ensures |news| == |cards| && created == Trues(news)
    ensures Traced(store.rows, |old(store.rows)|, touched, news, batch.id)
    ensures old(store.rows) == [] && cards != [] ==> news[0] && created >= 1
    ensures |old(store.sets)| <= |store.sets| && store.sets[..|old(store.sets)|] == old(store.sets)
    ensures |old(store.cards)| <= |store.cards| && store.cards[..|old(store.cards)|] == old(store.cards)
    ensures |choices| == |cards| && Trail(cards, snaps, choices, batch.id, ModeOf(batch.mode))
    ensures snaps[0] == Snapshot(old(store.sets), old(store.cards), old(store.rows), old(store.nextRowId))
    ensures snaps[|cards|] == Snapshot(store.sets, store.cards, store.rows, store.nextRowId)
    ensures forall k :: 0 <= k < |cards| ==> choices[k].created == news[k] && choices[k].at == touched[k]
  {
    ghost var rows0, next0, sets0, cards0 := store.rows, store.nextRowId, store.sets, store.cards;
    created, updated, newIds, snaps, choices, touched, news := ImportLoop(store, batch, cards, rows0, next0, sets0, cards0);
    ProgressEnds(store.rows, store.sets, store.cards, store.nextRowId, rows0, next0, sets0, cards0,
                 cards, snaps, choices, touched, news, batch.id, ModeOf(batch.mode));
  }

  /**
   * The loop of `ImportCards`, stated through `Progress` from the tables
   * `rows0`, `sets0` and `cards0` it starts on.
   */
  method ImportLoop(store: Store, batch: ImportBatch, cards: seq<CardPayload>,
                    ghost rows0: seq<CollectionCard>, ghost next0: nat, ghost sets0: seq<CardSet>, ghost cards0: seq<Card>)
    returns (created: nat, updated: nat, newIds: set<int>, ghost snaps: seq<Snapshot>, ghost choices: seq<Choice>,
             ghost touched: seq<nat>, ghost news: seq<bool>)
    requires store.Valid()
    requires store.rows == rows0 && store.nextRowId == next0 && store.sets == sets0 && store.cards == cards0
    modifies store`sets, store`nextSetId, store`cards, store`nextCardId, store`rows, store`nextRowId
    ensures store.Valid() && store.nextRowId >= next0
    ensures created + updated == |cards|
    ensures newIds == ExportedIds(cards)
    ensures |news| == |cards| && created == Trues(news)
    ensures Progress(store.rows, store.sets, store.cards, store.nextRowId, rows0, next0, sets0,
                     cards0, cards, snaps, choices, touched, news, batch.id, ModeOf(batch.mode))
  {
    created, updated, newIds := 0, 0, {};
    touched, news := [], [];
    snaps, choices := [Snapshot(store.sets, store.cards, store.rows, store.nextRowId)], [];
    var i := 0;
    while i < |cards|
      invariant 0 <= i <= |cards|
      invariant store.Valid() && store.nextRowId >= next0
      invariant created + updated == i
      invariant newIds == ExportedIds(cards[..i])
      invariant |news| == i && created == Trues(news)
      invariant Progress(store.rows, store.sets, store.cards, store.nextRowId, rows0, next0, sets0, cards0,
                         cards, snaps, choices, touched, news, batch.id, ModeOf(batch.mode))
    {
      created, updated, newIds, snaps, choices, touched, news :=
        ImportStep(store, batch.id, ModeOf(batch.mode), cards, i, created, updated, newIds, rows0, next0, sets0, cards0,
                   snaps, choices, touched, news);
      i := i + 1;
    }
    assert cards[..i] == cards;
  }

  /**
   * What the import loop keeps about the tables after some records: the
   * rows that were there are `Kept`, those after them were created by this
   * batch, one per created record, the trace accounts for every record,
   * the trail of snapshots leads from the first state to this one record by
   * record, and the card and set tables only grew.
   */
  ghost predicate Progress(rows: seq<CollectionCard>, sets: seq<CardSet>, cards: seq<Card>, next: nat,
                           rows0: seq<CollectionCard>, next0: nat, sets0: seq<CardSet>, cards0: seq<Card>,
                           ps: seq<CardPayload>, snaps: seq<Snapshot>, choices: seq<Choice>,
                           touched: seq<nat>, news: seq<bool>, batch: nat, mode: ImportMode)
  {
    && Linked(ps, snaps, choices, touched, news, Snapshot(sets0, cards0, rows0, next0), Snapshot(sets, cards, rows, next), batch, mode)
    && Grown(rows, sets, cards, rows0, next0, sets0, cards0, touched, news, batch, mode)
  }

  /** The trail runs from the first tables to the current ones, and agrees with the trace. */
  ghost predicate Linked(ps: seq<CardPayload>, snaps: seq<Snapshot>, choices: seq<Choice>,
                         touched: seq<nat>, news: seq<bool>, first: Snapshot, last: Snapshot, batch: nat, mode: ImportMode)
  {
    && Trail(ps, snaps, choices, batch, mode)
    && snaps[0] == first
    && snaps[|choices|] == last
    && |choices| == |news| == |touched|
    && (forall k :: 0 <= k < |choices| ==> choices[k].created == news[k] && choices[k].at == touched[k])
  }

  /** What the records so far did to the tables, in terms of the trace. */
  ghost predicate Grown(rows: seq<CollectionCard>, sets: seq<CardSet>, cards: seq<Card>,
                        rows0: seq<CollectionCard>, next0: nat, sets0: seq<CardSet>, cards0: seq<Card>,
                        touched: seq<nat>, news: seq<bool>, batch: nat, mode: ImportMode)
  {
    && |touched| == |news|
    && |rows| == |rows0| + Trues(news)
    && (forall j {:trigger Kept(rows0[j], rows[j], batch, mode)} :: 0 <= j < |rows0| ==> Kept(rows0[j], rows[j], batch, mode))
    && (forall j {:trigger CreatedBy(rows[j], batch, next0)} :: |rows0| <= j < |rows| ==> CreatedBy(rows[j], batch, next0))
    && Traced(rows, |rows0|, touched, news, batch)
    && (rows0 == [] && news != [] ==> news[0])
    && |sets0| <= |sets| && sets[..|sets0|] == sets0
    && |cards0| <= |cards| && cards[..|cards0|] == cards0
  }

  /** `Progress` spelled out, for the end of the loop. */
  lemma ProgressEnds(rows: seq<CollectionCard>, sets: seq<CardSet>, cards: seq<Card>, next: nat,
                     rows0: seq<CollectionCard>, next0: nat, sets0: seq<CardSet>, cards0: seq<Card>,
                     ps: seq<CardPayload>, snaps: seq<Snapshot>, choices: seq<Choice>,
                     touched: seq<nat>, news: seq<bool>, batch: nat, mode: ImportMode)
    requires Progress(rows, sets, cards, next, rows0, next0, sets0, cards0, ps, snaps, choices, touched, news, batch, mode)
    ensures Trail(ps, snaps, choices, batch, mode) && |choices| == |news|
    ensures snaps[0] == Snapshot(sets0, cards0, rows0, next0)
    ensures snaps[|choices|] == Snapshot(sets, cards, rows, next)
    ensures forall k :: 0 <= k < |choices| ==> choices[k].created == news[k] && choices[k].at == touched[k]
    ensures |rows| == |rows0| + Trues(news)
    ensures rows0 == [] && news != [] ==> news[0] && Trues(news) >= 1
    ensures forall j :: 0 <= j < |rows0| ==> Kept(rows0[j], rows[j], batch, mode)
    ensures forall j :: |rows0| <= j < |rows| ==> CreatedBy(rows[j], batch, next0)
    ensures Traced(rows, |rows0|, touched, news, batch)
    ensures |sets0| <= |sets| && sets[..|sets0|] == sets0
    ensures |cards0| <= |cards| && cards[..|cards0|] == cards0
  {
    if rows0 == [] && news != [] {
      FirstCounts(news);
    }
  }

  /** A trace whose first record created a row counts at least one. */
  lemma {:induction false} FirstCounts(news: seq<bool>)
    requires news != [] && news[0]
    ensures Trues(news) >= 1
    decreases |news|
  {
    if |news| > 1 {
      assert news[..|news| - 1][0] == news[0];
      FirstCounts(news[..|news| - 1]);
    }
  }

  /** Record `i` of the import loop: it is counted, and `Progress` extends to it. */
  method ImportStep(store: Store, batch: nat, mode: ImportMode, cards: seq<CardPayload>, i: nat,
                    created: nat, updated: nat, newIds: set<int>,
                    ghost rows0: seq<CollectionCard>, ghost next0: nat, ghost sets0: seq<CardSet>, ghost cards0: seq<Card>,
                    ghost snaps: seq<Snapshot>, ghost choices: seq<Choice>,
                    ghost touched: seq<nat>, ghost news: seq<bool>)
    returns (created': nat, updated': nat, newIds': set<int>, ghost snaps': seq<Snapshot>, ghost choices': seq<Choice>,
             ghost touched': seq<nat>, ghost news': seq<bool>)
    requires i < |cards|
    requires store.Valid() && store.nextRowId >= next0
    requires created + updated == i
    requires newIds == ExportedIds(cards[..i])
    requires |news| == i && created == Trues(news)
    requires Progress(store.rows, store.sets, store.cards, store.nextRowId, rows0, next0, sets0, cards0,
                      cards, snaps, choices, touched, news, batch, mode)
    modifies store`sets, store`nextSetId, store`cards, store`nextCardId, store`rows, store`nextRowId
    ensures store.Valid() && store.nextRowId >= next0
    ensures created' + updated' == i + 1
    ensures newIds' == ExportedIds(cards[..i + 1])
    ensures |news'| == i + 1 && created' == Trues(news')
    ensures Progress(store.rows, store.sets, store.cards, store.nextRowId, rows0, next0, sets0, cards0,
                     cards, snaps', choices', touched', news', batch, mode)
  {
    var p := cards[i];
    var wasCreated;
    ExportedIdsStep(cards, i);
    wasCreated, snaps', choices', touched', news' :=
      TrackedImport(store, batch, mode, cards, i, rows0, next0, sets0, cards0, snaps, choices, touched, news);
    if wasCreated {
      created', updated' := created + 1, updated;
    } else {
      created', updated' := created, updated + 1;
    }
    newIds' := if TruthyInt(p.id) then newIds + {p.id.value} else newIds;
  }

  /** One more record adds its id, when it has one. */
  lemma ExportedIdsStep(cards: seq<CardPayload>, i: nat)
    requires i < |cards|
    ensures cards[..i + 1] == cards[..i] + [cards[i]]
    ensures ExportedIds(cards[..i + 1]) ==
            ExportedIds(cards[..i]) + (if TruthyInt(cards[i].id) then {cards[i].id.value} else {})
  {
    assert cards[..i + 1][..i] == cards[..i];
  }

  /** One record: resolve its card and set, then apply it; `Progress` extends to it. */
  method TrackedImport(store: Store, batch: nat, mode: ImportMode, cards: seq<CardPayload>, i: nat,
                       ghost rows0: seq<CollectionCard>, ghost next0: nat, ghost sets0: seq<CardSet>, ghost cards0: seq<Card>,
                       ghost snaps: seq<Snapshot>, ghost choices: seq<Choice>,
                       ghost touched: seq<nat>, ghost news: seq<bool>)
    returns (wasCreated: bool, ghost snaps': seq<Snapshot>, ghost choices': seq<Choice>,
             ghost touched': seq<nat>, ghost news': seq<bool>)
    requires i == |news| < |cards|
    requires store.Valid() && store.nextRowId >= next0
    requires Progress(store.rows, store.sets, store.cards, store.nextRowId, rows0, next0, sets0, cards0,
                      cards, snaps, choices, touched, news, batch, mode)
    modifies store`sets, store`nextSetId, store`cards, store`nextCardId, store`rows, store`nextRowId
    ensures store.Valid() && store.nextRowId >= next0
    ensures Progress(store.rows, store.sets, store.cards, store.nextRowId, rows0, next0, sets0, cards0,
                     cards, snaps', choices', touched', news', batch, mode)
    ensures |news'| == |news| + 1 && Trues(news') == Trues(news) + (if wasCreated then 1 else 0)
  {
    var p := cards[i];
    ghost var s := Snapshot(store.sets, store.cards, store.rows, store.nextRowId);
    var card, cardSet := ResolveCardAndSet(store, p);
    ghost var at;
    wasCreated, at := ImportRecord(store, batch, mode, card, cardSet, p);
    ghost var c := Choice(card, cardSet, wasCreated, at);
    ghost var now := Snapshot(store.sets, store.cards, store.rows, store.nextRowId);
    ProgressStep(s, now, cards, i, c, rows0, next0, sets0, cards0, snaps, choices, touched, news, batch, mode);
    snaps', choices', touched', news' := snaps + [now], choices + [c], touched + [at], news + [wasCreated];
  }

  /** One step extends `Progress`: the table facts, the trace, the trail and the links between them. */
  lemma ProgressStep(s: Snapshot, s': Snapshot, ps: seq<CardPayload>, i: nat, c: Choice,
                     rows0: seq<CollectionCard>, next0: nat, sets0: seq<CardSet>, cards0: seq<Card>,
                     snaps: seq<Snapshot>, choices: seq<Choice>,
                     touched: seq<nat>, news: seq<bool>, batch: nat, mode: ImportMode)
    requires i == |news| < |ps| && s.nextRowId >= next0
    requires Progress(s.rows, s.sets, s.cards, s.nextRowId, rows0, next0, sets0, cards0, ps, snaps, choices, touched, news, batch, mode)
    requires Resolved(s.sets, s'.sets, s.cards, s'.cards, ps[i], c.card, c.cardSet)
    requires Applied(s.rows, s'.rows, s.nextRowId, c.card, c.cardSet, ps[i], batch, mode, c.created, c.at)
    requires s'.nextRowId == s.nextRowId + (if c.created then 1 else 0)
    ensures Progress(s'.rows, s'.sets, s'.cards, s'.nextRowId, rows0, next0, sets0, cards0,
                     ps, snaps + [s'], choices + [c], touched + [c.at], news + [c.created], batch, mode)
    ensures Trues(news + [c.created]) == Trues(news) + (if c.created then 1 else 0)
  {
    AppliedFacts(s.rows, s'.rows, s.nextRowId, c.card, c.cardSet, ps[i], batch, mode, c.created, c.at);
    ResolvedGrows(s.sets, s'.sets, s.cards, s'.cards, ps[i], c.card, c.cardSet);
    GrownStep(s.rows, s'.rows, s.sets, s'.sets, s.cards, s'.cards, s.nextRowId, c.at, c.created,
              rows0, next0, sets0, cards0, touched, news, batch, mode);
    LinkedStep(s, s', ps, i, c, snaps, choices, touched, news, Snapshot(sets0, cards0, rows0, next0), batch, mode);
  }

  /**
   * What one record did to the rows and to the card and set tables, as
   * `AppliedFacts` and `ResolvedGrows` state it: `at` is its row and
   * `created` says whether it created that row with id `next`.
   */
  predicate StepFacts(rows: seq<CollectionCard>, rows': seq<CollectionCard>, sets: seq<CardSet>, sets': seq<CardSet>,
                      cards: seq<Card>, cards': seq<Card>, next: nat, at: nat, created: bool, batch: nat, mode: ImportMode)
  {
    && |sets| <= |sets'| && sets'[..|sets|] == sets
    && |cards| <= |cards'| && cards'[..|cards|] == cards
    && |rows'| == |rows| + (if created then 1 else 0)
    && (forall j :: 0 <= j < |rows| ==> Kept(rows[j], rows'[j], batch, mode))
    && (created ==> CreatedBy(rows'[|rows|], batch, next))
    && (forall j :: 0 <= j < |rows| && rows[j].importBatch == Some(batch) ==> rows'[j].importBatch == Some(batch))
    && at < |rows'| && rows'[at].importBatch == Some(batch)
    && (created ==> at == |rows|)
    && (!created ==> at < |rows|)
    && (rows == [] ==> created)
  }

  /** One step extends `Grown`. */
  lemma GrownStep(rows: seq<CollectionCard>, rows': seq<CollectionCard>, sets: seq<CardSet>, sets': seq<CardSet>,
                  cards: seq<Card>, cards': seq<Card>, next: nat, at: nat, created: bool,
                  rows0: seq<CollectionCard>, next0: nat, sets0: seq<CardSet>, cards0: seq<Card>,
                  touched: seq<nat>, news: seq<bool>, batch: nat, mode: ImportMode)
    requires next >= next0
    requires Grown(rows, sets, cards, rows0, next0, sets0, cards0, touched, news, batch, mode)
    requires StepFacts(rows, rows', sets, sets', cards, cards', next, at, created, batch, mode)
    ensures Grown(rows', sets', cards', rows0, next0, sets0, cards0, touched + [at], news + [created], batch, mode)
    ensures Trues(news + [created]) == Trues(news) + (if created then 1 else 0)
  {
    GrownRowsStep(rows, rows', sets, sets', cards, cards', next, at, created, rows0, next0, sets0, cards0, touched, news, batch, mode);
    GrownTraceStep(rows, rows', sets, sets', cards, cards', next, at, created, rows0, next0, sets0, cards0, touched, news, batch, mode);
    GrownTablesStep(rows, rows', sets, sets', cards, cards', next, at, created, rows0, next0, sets0, cards0, touched, news, batch, mode);
  }

  /** The row facts of `Grown`, one step later. */
  lemma GrownRowsStep(rows: seq<CollectionCard>, rows': seq<CollectionCard>, sets: seq<CardSet>, sets': seq<CardSet>,
                      cards: seq<Card>, cards': seq<Card>, next: nat, at: nat, created: bool,
                      rows0: seq<CollectionCard>, next0: nat, sets0: seq<CardSet>, cards0: seq<Card>,
                      touched: seq<nat>, news: seq<bool>, batch: nat, mode: ImportMode)
    requires next >= next0
    requires Grown(rows, sets, cards, rows0, next0, sets0, cards0, touched, news, batch, mode)
    requires StepFacts(rows, rows', sets, sets', cards, cards', next, at, created, batch, mode)
    ensures forall j :: 0 <= j < |rows0| ==> Kept(rows0[j], rows'[j], batch, mode)
    ensures forall j :: |rows0| <= j < |rows'| ==> CreatedBy(rows'[j], batch, next0)
    ensures rows0 == [] ==> (news + [created])[0]
  {
    RowsStep(rows0, rows, rows', created, batch, next0, next, mode);
    assert (news + [created])[0] == if news == [] then created else news[0];
  }

  /** The trace facts of `Grown`, one step later. */
  lemma GrownTraceStep(rows: seq<CollectionCard>, rows': seq<CollectionCard>, sets: seq<CardSet>, sets': seq<CardSet>,
                       cards: seq<Card>, cards': seq<Card>, next: nat, at: nat, created: bool,
                       rows0: seq<CollectionCard>, next0: nat, sets0: seq<CardSet>, cards0: seq<Card>,
                       touched: seq<nat>, news: seq<bool>, batch: nat, mode: ImportMode)
    requires Grown(rows, sets, cards, rows0, next0, sets0, cards0, touched, news, batch, mode)
    requires StepFacts(rows, rows', sets, sets', cards, cards', next, at, created, batch, mode)
    ensures Traced(rows', |rows0|, touched + [at], news + [created], batch)
    ensures Trues(news + [created]) == Trues(news) + (if created then 1 else 0)
    ensures |rows'| == |rows0| + Trues(news + [created])
  {
    TracedStep(rows, rows', |rows0|, touched, news, batch, at, created);
  }

  /** The card and set table facts of `Grown`, one step later. */
  lemma GrownTablesStep(rows: seq<CollectionCard>, rows': seq<CollectionCard>, sets: seq<CardSet>, sets': seq<CardSet>,
                        cards: seq<Card>, cards': seq<Card>, next: nat, at: nat, created: bool,
                        rows0: seq<CollectionCard>, next0: nat, sets0: seq<CardSet>, cards0: seq<Card>,
                        touched: seq<nat>, news: seq<bool>, batch: nat, mode: ImportMode)
    requires Grown(rows, sets, cards, rows0, next0, sets0, cards0, touched, news, batch, mode)
    requires StepFacts(rows, rows', sets, sets', cards, cards', next, at, created, batch, mode)
    ensures |sets0| <= |sets'| && sets'[..|sets0|] == sets0
    ensures |cards0| <= |cards'| && cards'[..|cards0|] == cards0
  {
    PrefixTransitive(sets0, sets, sets');
    PrefixTransitive(cards0, cards, cards');
  }

  /** One step extends `Linked`. */
  lemma LinkedStep(s: Snapshot, s': Snapshot, ps: seq<CardPayload>, i: nat, c: Choice,
                   snaps: seq<Snapshot>, choices: seq<Choice>,
                   touched: seq<nat>, news: seq<bool>, first: Snapshot, batch: nat, mode: ImportMode)
    requires Linked(ps, snaps, choices, touched, news, first, s, batch, mode)
    requires i == |news| < |ps|
    requires Step(s, s', ps[i], c, batch, mode)
    ensures Linked(ps, snaps + [s'], choices + [c], touched + [c.at], news + [c.created], first, s', batch, mode)
  {
    LinkedTrailStep(s, s', ps, i, c, snaps, choices, touched, news, first, batch, mode);
    LinkedEnds(s', ps, i, c, snaps, choices, touched, news, first, batch, mode);
  }

  /** The trail part of `LinkedStep`. */
  lemma LinkedTrailStep(s: Snapshot, s': Snapshot, ps: seq<CardPayload>, i: nat, c: Choice,
                        snaps: seq<Snapshot>, choices: seq<Choice>,
                        touched: seq<nat>, news: seq<bool>, first: Snapshot, batch: nat, mode: ImportMode)
    requires Linked(ps, snaps, choices, touched, news, first, s, batch, mode)
    requires i == |news| < |ps|
    requires Step(s, s', ps[i], c, batch, mode)
    ensures Trail(ps, snaps + [s'], choices + [c], batch, mode)
  {
    TrailStep(ps, snaps, choices, batch, mode, s', c);
  }

  /** The ends and links of `LinkedStep`, once the trail is extended. */
  lemma LinkedEnds(s': Snapshot, ps: seq<CardPayload>, i: nat, c: Choice,
                   snaps: seq<Snapshot>, choices: seq<Choice>,
                   touched: seq<nat>, news: seq<bool>, first: Snapshot, batch: nat, mode: ImportMode)
    requires |choices| == |news| == |touched| && |snaps| == |choices| + 1 && snaps[0] == first
    requires forall k :: 0 <= k < |choices| ==> choices[k].created == news[k] && choices[k].at == touched[k]
    requires i == |news| < |ps|
    requires Trail(ps, snaps + [s'], choices + [c], batch, mode)
    ensures Linked(ps, snaps + [s'], choices + [c], touched + [c.at], news + [c.created], first, s', batch, mode)
  {
    LinksStep(choices, touched, news, c);
    assert (snaps + [s'])[0] == snaps[0];
    assert (snaps + [s'])[i + 1] == s';
  }

  /** Appending a choice and its two trace entries keeps them linked. */
  lemma LinksStep(choices: seq<Choice>, touched: seq<nat>, news: seq<bool>, c: Choice)
    requires |choices| == |news| == |touched|
    requires forall k :: 0 <= k < |choices| ==> choices[k].created == news[k] && choices[k].at == touched[k]
    ensures forall k :: 0 <= k < |choices| + 1 ==>
      (choices + [c])[k].created == (news + [c.created])[k] && (choices + [c])[k].at == (touched + [c.at])[k]
  {
  }

  /** The rows of the batch so far, one record later. */
  lemma RowsStep(rows0: seq<CollectionCard>, before: seq<CollectionCard>, after: seq<CollectionCard>, created: bool,
                 batch: nat, firstId: nat, next: nat, mode: ImportMode)
    requires |rows0| <= |before| && next >= firstId
    requires |after| == |before| + (if created then 1 else 0)
    requires forall j :: 0 <= j < |rows0| ==> Kept(rows0[j], before[j], batch, mode)
    requires forall j :: |rows0| <= j < |before| ==> CreatedBy(before[j], batch, firstId)
    requires forall j :: 0 <= j < |before| ==> Kept(before[j], after[j], batch, mode)
    requires created ==> CreatedBy(after[|before|], batch, next)
    ensures forall j :: 0 <= j < |rows0| ==> Kept(rows0[j], after[j], batch, mode)
    ensures forall j :: |rows0| <= j < |after| ==> CreatedBy(after[j], batch, firstId)
  {
    KeptChain(rows0, before, after, batch, firstId, mode);
  }

  /** Two rounds of `Kept` are one, and a created row stays created. */
  lemma KeptChain(rows0: seq<CollectionCard>, before: seq<CollectionCard>, after: seq<CollectionCard>,
                  batch: nat, firstId: nat, mode: ImportMode)
    requires |rows0| <= |before| <= |after|
    requires forall j :: 0 <= j < |rows0| ==> Kept(rows0[j], before[j], batch, mode)
    requires forall j :: |rows0| <= j < |before| ==> CreatedBy(before[j], batch, firstId)
    requires forall j :: 0 <= j < |before| ==> Kept(before[j], after[j], batch, mode)
    ensures forall j :: 0 <= j < |rows0| ==> Kept(rows0[j], after[j], batch, mode)
    ensures forall j :: |rows0| <= j < |before| ==> CreatedBy(after[j], batch, firstId)
  {
  }

  /** The entries of `new_keyset`: an exported id, or the fallback tuple. */
  datatype ImportKey =
    | ExportedKey(id: int)
    | FallbackKey(name: string, setCode: string, edition: string, psa: string)

  /** `(v or default).strip().lower()`. */
  function Folded(v: Option<string>, default: string): string {
    Lower(Strip(TextOr(v, default)))
  }

  /** A text as the fallback key holds it: no surrounding whitespace, and lower case. */
  predicate IsFolded(s: string) {
    Trimmed(s) && Lower(s) == s
  }

  /** Every folded field is folded. */
  lemma FoldedIsFolded(v: Option<string>, default: string)
    ensures IsFolded(Folded(v, default))
  {
    var t := Strip(TextOr(v, default));
    LowerKeepsTrimmed(t);
    LowerIdempotent(t);
  }

  /** Folding ignores case. */
  lemma FoldedIgnoresCase(s: string, default: string)
    ensures Folded(Some(Lower(s)), default) == Folded(Some(s), default)
  {
    if s != "" {
      assert Lower(s)[0] == LowerChar(s[0]);
      StripLower(s);
      LowerIdempotent(Strip(s));
    }
  }

  /** Folding ignores whitespace around a non-blank value. */
  lemma FoldedIgnoresPadding(pre: string, s: string, post: string, default: string)
    requires forall j :: 0 <= j < |pre| ==> IsSpace(pre[j])
    requires forall j :: 0 <= j < |post| ==> IsSpace(post[j])
    requires Trimmed(s) && s != ""
    ensures Folded(Some(pre + s + post), default) == Folded(Some(s), default)
  {
    assert (pre + s + post)[|pre|] == s[0];
    StripOfPadded(pre, s, post);
  }

  /** The psa text of a fallback key, `c.get('psa') or ''`, or None where its `strip` raises. */
  function KeyPsa(psa: Option<Loose>): (r: Option<string>)
    ensures r.None? <==> TruthyLoose(psa) && !psa.value.Text?
    ensures psa.Some? && psa.value.Text? ==> r == Some(psa.value.text)
    ensures !TruthyLoose(psa) ==> r == Some("")
  {
    match psa
    case None => Some("")
    case Some(Text(s)) => Some(s)
    case Some(Number(n)) => if n != 0 then None else Some("")
    case Some(Object(m)) => if |m| > 0 then None else Some("")
  }

  /**
   * The key of one record, or None where Python raises: for a record without
   * an id, a psa that is a non-zero number or a non-empty object has no
   * `strip`.
   */
  function RecordKey(p: CardPayload): (r: Option<ImportKey>)
    ensures r.None? <==> !TruthyInt(p.id) && TruthyLoose(p.psa) && !p.psa.value.Text?
    ensures TruthyInt(p.id) ==> r == Some(ExportedKey(p.id.value))
    ensures !TruthyInt(p.id) && r.Some? ==>
              r.value == FallbackKey(Folded(p.name, ""), Folded(SetOf(p).code, ""),
                                     Folded(Get(p.edition), DefaultEdition), Folded(KeyPsa(p.psa), ""))
  {
    if TruthyInt(p.id) then Some(ExportedKey(p.id.value))
    else
      var psa := KeyPsa(p.psa);
      if psa.None? then None
      else Some(FallbackKey(Folded(p.name, ""), Folded(SetOf(p).code, ""), Folded(Get(p.edition), DefaultEdition), Folded(psa, "")))
  }

  /** The four fields of a fallback key are stripped and lower-cased. */
  lemma FallbackKeyIsFolded(p: CardPayload)
    requires RecordKey(p).Some? && RecordKey(p).value.FallbackKey?
    ensures IsFolded(RecordKey(p).value.name) && IsFolded(RecordKey(p).value.setCode)
    ensures IsFolded(RecordKey(p).value.edition) && IsFolded(RecordKey(p).value.psa)
  {
    FoldedIsFolded(p.name, "");
    FoldedIsFolded(SetOf(p).code, "");
    FoldedIsFolded(Get(p.edition), DefaultEdition);
    FoldedIsFolded(KeyPsa(p.psa), "");
  }

  /**
   * Two records without an id whose name differs only in case and
   * surrounding whitespace have the same key.
   */
  lemma RecordKeyIgnoresNameCaseAndPadding(p: CardPayload, pre: string, post: string)
    requires !TruthyInt(p.id) && p.name.Some? && Trimmed(p.name.value) && p.name.value != ""
    requires forall j :: 0 <= j < |pre| ==> IsSpace(pre[j])
    requires forall j :: 0 <= j < |post| ==> IsSpace(post[j])
    ensures RecordKey(p.(name := Some(pre + Lower(p.name.value) + post))) == RecordKey(p)
  {
    var n := p.name.value;
    LowerKeepsTrimmed(n);
    assert Lower(n)[0] == LowerChar(n[0]);
    FoldedIgnoresPadding(pre, Lower(n), post, "");
    FoldedIgnoresCase(n, "");
  }

  /** The set of the values `f` gives on `xs`, built in order; None once `f` gives None. */
  function CollectAll<A, B(==)>(f: A -> Option<B>, xs: seq<A>): (r: Option<set<B>>)
    ensures r.None? <==> exists i :: 0 <= i < |xs| && f(xs[i]).None?
    ensures r.Some? ==> forall i :: 0 <= i < |xs| ==> f(xs[i]).value in r.value
    ensures r.Some? ==> forall k :: k in r.value ==> exists i :: 0 <= i < |xs| && f(xs[i]) == Some(k)
    decreases |xs|
  {
    if xs == [] then Some({})
    else
      var init := xs[..|xs| - 1];
      assert forall i :: 0 <= i < |xs| - 1 ==> xs[i] == init[i];
      var acc := CollectAll(f, init);
      var k := f(xs[|xs| - 1]);
      if acc.Some? && k.Some? then
        var r := acc.value + {k.value};
        assert forall x :: x in r ==> exists i :: 0 <= i < |xs| && f(xs[i]) == Some(x) by {
          forall x | x in r ensures exists i :: 0 <= i < |xs| && f(xs[i]) == Some(x) {
            if x != k.value {
              var i :| 0 <= i < |init| && f(init[i]) == Some(x);
              assert xs[i] == init[i];
            }
          }
        }
        Some(r)
      else None
  }

  /** The keys of the records in order; None once one of them raises. */
  function RecordKeys(cards: seq<CardPayload>): (r: Option<set<ImportKey>>)
    ensures r.None? <==> exists i :: 0 <= i < |cards| && RecordKey(cards[i]).None?
    ensures r.Some? ==> forall i :: 0 <= i < |cards| ==> RecordKey(cards[i]).value in r.value
    ensures r.Some? ==> forall k :: k in r.value ==> exists i :: 0 <= i < |cards| && RecordKey(cards[i]) == Some(k)
  {
    CollectAll(RecordKey, cards)
  }

  /** Builds `new_keyset`: the key of every record, or `None` when one raises. */
  method BuildKeyset(cards: seq<CardPayload>) returns (keys: Option<set<ImportKey>>)
    ensures keys == RecordKeys(cards)
  {
    var acc: set<ImportKey> := {};
    var i := 0;
    while i < |cards|
      invariant 0 <= i <= |cards|
      invariant RecordKeys(cards[..i]) == Some(acc)
    {
      assert cards[..i + 1][..i] == cards[..i];
      var k := RecordKey(cards[i]);
      if k.None? {
        assert RecordKeys(cards[..i + 1]).None?;
        RecordKeysNoneExtends(cards, i + 1);
        return None;
      }
      acc := acc + {k.value};
      i := i + 1;
    }
    assert cards[..i] == cards;
    keys := Some(acc);
  }

  /** Once a prefix of the records raises, the whole list does. */
  lemma RecordKeysNoneExtends(cards: seq<CardPayload>, n: nat)
    requires n <= |cards| && RecordKeys(cards[..n]).None?
    ensures RecordKeys(cards).None?
  {
    var i :| 0 <= i < n && RecordKey(cards[..n][i]).None?;
    assert cards[..n][i] == cards[i];
  }

  /** The batches other than `batch` with the same name, case-insensitively. */
  function PreviousBatchIds(batches: seq<ImportBatch>, batch: ImportBatch): (r: set<nat>)
    ensures batch.id !in r
    ensures forall i :: 0 <= i < |batches| && IEquals(batches[i].name, batch.name) && batches[i].id != batch.id ==>
              batches[i].id in r
    ensures forall id :: id in r ==>
              exists i :: 0 <= i < |batches| && batches[i].id == id && IEquals(batches[i].name, batch.name)
  {
    set b | b in batches && IEquals(b.name, batch.name) && b.id != batch.id :: b.id
  }

  function CardNameOf(cards: seq<Card>, id: nat): Option<string> {
    match FirstIndex(cards, (c: Card) => c.id == id)
    case Some(i) => Some(cards[i].name)
    case None => None
  }

  function SetCodeOf(sets: seq<CardSet>, id: Option<nat>): Option<string> {
    if id.None? then None
    else match FirstIndex(sets, (s: CardSet) => s.id == id.value)
      case Some(i) => sets[i].code
      case None => None
  }

  /** The fallback key of a stored row, folded like a record's. */
  function RowKey(row: CollectionCard, cards: seq<Card>, sets: seq<CardSet>): ImportKey {
    FallbackKey(Folded(CardNameOf(cards, row.card), ""), Folded(SetCodeOf(sets, row.cardSet), ""),
                Folded(row.edition, DefaultEdition), Folded(StoredText(row.psa), ""))
  }

  /** A previous-batch row goes when neither its exported id nor its fallback key was imported. */
  predicate ShouldDelete(row: CollectionCard, newIds: set<int>, keys: set<ImportKey>, cards: seq<Card>, sets: seq<CardSet>) {
    if TruthyInt(row.exportedId) then row.exportedId.value !in newIds else RowKey(row, cards, sets) !in keys
  }

  /**
   * The replace-mode deletion pass over the rows of earlier batches with the
   * same name. When no row belongs to such a batch it deletes nothing.
   */
  method DeletePreviousBatchRows(store: Store, batch: ImportBatch, newIds: set<int>, keys: set<ImportKey>)
    returns (deleted: nat)
    requires store.Valid()
    modifies store`rows
    ensures store.Valid()
    ensures deleted <= |RowsOfBatches(old(store.rows), PreviousBatchIds(store.batches, batch))|
    ensures RowsOfBatches(old(store.rows), PreviousBatchIds(store.batches, batch)) == [] ==>
              deleted == 0 && store.rows == old(store.rows)
  {
    var previous := RowsOfBatches(store.rows, PreviousBatchIds(store.batches, batch));
    deleted := 0;
    var k := 0;
    while k < |previous|
      invariant 0 <= k <= |previous| && deleted <= k
      invariant store.Valid()
      invariant k == 0 ==> store.rows == old(store.rows)
    {
      var pc := previous[k];
      if ShouldDelete(pc, newIds, keys, store.cards, store.sets) {
        store.DeleteRow(pc.id);
        deleted := deleted + 1;
      }
      k := k + 1;
    }
  }

  datatype ImportOutcome = Imported(created: nat, updated: nat, deleted: nat) | Raised

  /**
   * `run_import_batch`. Every record is counted once. Merge mode deletes no
   * row. Replace mode deletes every row first, so afterwards each row is one
   * this batch created (or then updated), the deletion pass finds no row of
   * an earlier batch and the reported deleted count is 0. It raises only
   * when building the replace-mode key set fails.
   */
  method RunImportBatch(store: Store, batch: ImportBatch, cards: seq<CardPayload>)
    returns (outcome: ImportOutcome, ghost snaps: seq<Snapshot>, ghost choices: seq<Choice>,
             ghost touched: seq<nat>, ghost news: seq<bool>)
    requires store.Valid()
    modifies store`sets, store`nextSetId, store`cards, store`nextCardId, store`rows, store`nextRowId
    ensures store.Valid()
    ensures outcome.Imported? ==> outcome.created + outcome.updated == |cards| && outcome.deleted == 0
    ensures ModeOf(batch.mode) == Merge ==>
              && outcome.Imported?
              && |store.rows| == |old(store.rows)| + outcome.created
              && forall j :: 0 <= j < |old(store.rows)| ==> Kept(old(store.rows)[j], store.rows[j], batch.id, Merge)
    ensures ModeOf(batch.mode) == Replace ==>
              && (outcome.Imported? <==> RecordKeys(cards).Some?)
              && (outcome.Imported? ==> |store.rows| == outcome.created)
              && forall j :: 0 <= j < |store.rows| ==> CreatedBy(store.rows[j], batch.id, old(store.nextRowId))
    ensures |news| == |cards|
    ensures Traced(store.rows, if ModeOf(batch.mode) == Replace then 0 else |old(store.rows)|, touched, news, batch.id)
    ensures outcome.Imported? ==> outcome.created == Trues(news)
    ensures ModeOf(batch.mode) == Replace && cards != [] ==> news[0] && (outcome.Imported? ==> outcome.created >= 1)
    ensures |old(store.sets)| <= |store.sets| && store.sets[..|old(store.sets)|] == old(store.sets)
    ensures |old(store.cards)| <= |store.cards| && store.cards[..|old(store.cards)|] == old(store.cards)
    ensures |choices| == |cards| && Trail(cards, snaps, choices, batch.id, ModeOf(batch.mode))
    ensures snaps[0] == Snapshot(old(store.sets), old(store.cards),
                                 if ModeOf(batch.mode) == Replace then [] else old(store.rows), old(store.nextRowId))
    ensures snaps[|cards|] == Snapshot(store.sets, store.cards, store.rows, store.nextRowId)
    ensures forall k :: 0 <= k < |cards| ==> choices[k].created == news[k] && choices[k].at == touched[k]
  {
    var mode := ModeOf(batch.mode);
    if mode == Replace {
      var _ := store.DeleteAllRows();
    }
    var created, updated, newIds;
    created, updated, newIds, snaps, choices, touched, news := ImportCards(store, batch, cards);
    if mode == Replace {
      outcome := PruneReplaced(store, batch, cards, newIds, old(store.nextRowId), created, updated);
    } else {
      outcome := Imported(created, updated, 0);
    }
  }

  /**
   * The end of a replace-mode import: build the keyset, which raises on a
   * bad edition, then run the deletion pass. Every row left belongs to this
   * batch, so the pass finds no row of an earlier batch and deletes nothing.
   */
  method PruneReplaced(store: Store, batch: ImportBatch, cards: seq<CardPayload>, newIds: set<int>, ghost firstId: nat,
                       created: nat, updated: nat)
    returns (outcome: ImportOutcome)
    requires store.Valid()
    requires forall j :: 0 <= j < |store.rows| ==> CreatedBy(store.rows[j], batch.id, firstId)
    modifies store`rows
    ensures store.Valid() && store.rows == old(store.rows)
    ensures outcome.Imported? <==> RecordKeys(cards).Some?
    ensures outcome.Imported? ==> outcome == Imported(created, updated, 0)
  {
    var keys := BuildKeyset(cards);
    if keys.None? {
      return Raised;
    }
    var deleted := DeletePreviousBatchRows(store, batch, newIds, keys.value);
    outcome := Imported(created, updated, deleted);
  }
}
