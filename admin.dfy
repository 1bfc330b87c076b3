/**
 * The admin's zip import: a full table replace. Every collection row is
 * deleted, then one row is created per card record, with this import's own
 * defaulting rules, which differ from the JSON importer's.
 */
module Admin {
  import opened Common
  import opened Payload
  import opened Models
  import opened Database
  import Importer

  /** `misprint`: an object yields its `description`, anything else itself; empty values become None. */
  function AdminMisprint(misprint: Option<Loose>): (r: Option<Loose>)
    ensures r.Some? ==> TruthyLoose(r) && !r.value.Object?
    ensures misprint.Some? && misprint.value.Object? ==>
              r == (if TruthyText(Importer.Lookup(misprint.value.entries, "description"))
                    then Some(Text(Importer.Lookup(misprint.value.entries, "description").value)) else None)
    ensures !(misprint.Some? && misprint.value.Object?) ==> r == (if TruthyLoose(misprint) then misprint else None)
  {
    match misprint
    case Some(Object(m)) =>
      var description := Importer.Lookup(m, "description");
      if TruthyText(description) then Some(Text(description.value)) else None
    case _ => if TruthyLoose(misprint) then misprint else None
  }

  /** The column values the zip import derives from one record. */
  function AdminValues(p: CardPayload): (v: RowValues)
    ensures v.edition == (match p.edition case Missing => Some(DefaultEdition) case Null => None case Given(s) => Some(s))
    ensures v.condition == Some(TextOr(p.condition, ""))
    ensures v.quantity == (if TruthyInt(p.quantity) then p.quantity.value else DefaultQuantity) && v.quantity != 0
    ensures v.misprint == AdminMisprint(p.misprint)
    ensures v.psa == (if TruthyLoose(p.psa) then p.psa else None)
    ensures v.notes == (if TruthyText(p.notes) then p.notes else None)
    ensures v.valueLow == PricingOf(p).low && v.valueMid == PricingOf(p).mid && v.valueHigh == PricingOf(p).high
    ensures v.effectiveMid == PricingOf(p).effectiveMid && v.pricingSource == PricingOf(p).source
    ensures v.exportedId == p.id
  {
    var pricing := PricingOf(p);
    RowValues(
      match p.edition case Missing => Some(DefaultEdition) case Null => None case Given(s) => Some(s),
      Some(TextOr(p.condition, "")),
      if TruthyInt(p.quantity) then p.quantity.value else DefaultQuantity,
      AdminMisprint(p.misprint),
      if TruthyLoose(p.psa) then p.psa else None,
      if TruthyText(p.notes) then p.notes else None,
      pricing.low, pricing.mid, pricing.high, pricing.effectiveMid, pricing.source,
      p.id)
  }

  /**
   * The two importers disagree on an edition given as an empty string: the
   * zip import stores it as given, the JSON importer stores the default.
   */
  lemma EmptyEditionDiffers(p: CardPayload)
    requires p.edition == Given("")
    ensures AdminValues(p).edition == Some("")
    ensures Importer.ImporterValues(p).edition == Some(DefaultEdition)
  {
  }

  /** A card a record may resolve to: same non-zero Konami id, or the same name up to case. */
  predicate CardFits(c: Card, p: CardPayload) {
    (TruthyInt(p.konamiId) && c.konamiId == p.konamiId) || CardNameIs(c, TextOr(p.name, ""))
  }

  /**
   * A set a set object may resolve to: same non-empty code up to case, same
   * non-empty name up to case, or (both empty) a set with no name and no code.
   */
  predicate SetFits(s: CardSet, sp: SetPayload) {
    || (TruthyText(sp.code) && SetCodeIs(s, sp.code.value))
    || (TruthyText(sp.name) && SetNameIs(s, sp.name.value))
    || (!TruthyText(sp.code) && !TruthyText(sp.name) && s.name == "" && s.code == None)
  }

  /**
   * Row `row`, created for record `p`, refers to an existing card that fits
   * the record and, exactly when the record has a set object, to an existing
   * set that fits it.
   */
  predicate Refers(row: CollectionCard, p: CardPayload, cards: seq<Card>, sets: seq<CardSet>) {
    && (exists k :: 0 <= k < |cards| && cards[k].id == row.card && CardFits(cards[k], p))
    && (row.cardSet.None? <==> p.cardSet.None?)
    && (row.cardSet.Some? ==>
          exists k :: 0 <= k < |sets| && sets[k].id == row.cardSet.value && SetFits(sets[k], p.cardSet.value))
  }

  /**
   * `card` is the card record `p` resolves to, taking the table from
   * `cards` to `cards'`: the one `FindCard` finds (by Konami id first, then
   * by name), or else a new card appended.
   */
  predicate CardChosen(cards: seq<Card>, cards': seq<Card>, p: CardPayload, card: nat) {
    var found := FindCard(cards, p.konamiId, TextOr(p.name, ""));
    && (found.Some? ==> cards' == cards && card == cards[found.value].id)
    && (found.None? ==> cards' == cards + [Card(card, TextOr(p.name, ""), p.konamiId)])
  }

  /**
   * `cardSet` is the set record `p` resolves to, taking the table from
   * `sets` to `sets'`: none without a set object, else the one `FindSet`
   * finds (by code first, then by name), or else a new set appended.
   */
  predicate SetChosen(sets: seq<CardSet>, sets': seq<CardSet>, p: CardPayload, cardSet: Option<nat>) {
    if p.cardSet.None? then sets' == sets && cardSet.None?
    else
      var sp := p.cardSet.value;
      var found := FindSet(sets, TextOr(sp.code, ""), TextOr(sp.name, ""));
      && cardSet.Some?
      && (found.Some? ==> sets' == sets && cardSet.value == sets[found.value].id)
      && (found.None? ==>
            sets' == sets + [CardSet(cardSet.value, TextOr(sp.name, ""), if TruthyText(sp.code) then sp.code else None,
                                     Importer.ReleaseDateOf(sp))])
  }

  /** Row `row` holds the card and set record `p` resolves to, the tables going from `cards`, `sets` to `cards'`, `sets'`. */
  predicate Chosen(cards: seq<Card>, cards': seq<Card>, sets: seq<CardSet>, sets': seq<CardSet>, p: CardPayload, row: CollectionCard) {
    CardChosen(cards, cards', p, row.card) && SetChosen(sets, sets', p, row.cardSet)
  }

  /** The card of one record: by Konami id when non-zero, else by name, else created. */
  method AdminCard(store: Store, p: CardPayload) returns (card: nat)
    requires store.Valid()
    modifies store`cards, store`nextCardId
    ensures store.Valid()
    ensures |old(store.cards)| <= |store.cards| && store.cards[..|old(store.cards)|] == old(store.cards)
    ensures exists k :: 0 <= k < |store.cards| && store.cards[k].id == card && CardFits(store.cards[k], p)
    ensures CardChosen(old(store.cards), store.cards, p, card)
  {
    card := store.FindOrCreateCard(p.konamiId, TextOr(p.name, ""));
    var found := FindCard(old(store.cards), p.konamiId, TextOr(p.name, ""));
    if found.Some? {
      assert CardFits(store.cards[found.value], p);
    } else {
      assert CardFits(store.cards[|store.cards| - 1], p);
    }
  }

  /** The set of one record: none without a set object, else by code, by name, or created. */
  method AdminSet(store: Store, p: CardPayload) returns (cardSet: Option<nat>)
    requires store.Valid()
    modifies store`sets, store`nextSetId
    ensures store.Valid()
    ensures |old(store.sets)| <= |store.sets| && store.sets[..|old(store.sets)|] == old(store.sets)
    ensures cardSet.None? <==> p.cardSet.None?
    ensures cardSet.Some? ==>
              exists k :: 0 <= k < |store.sets| && store.sets[k].id == cardSet.value && SetFits(store.sets[k], p.cardSet.value)
    ensures SetChosen(old(store.sets), store.sets, p, cardSet)
  {
    cardSet := None;
    if p.cardSet.Some? {
      var sp := p.cardSet.value;
      var id := store.FindOrCreateSet(TextOr(sp.code, ""), TextOr(sp.name, ""), Importer.ReleaseDateOf(sp));
      cardSet := Some(id);
      var found := FindSet(old(store.sets), TextOr(sp.code, ""), TextOr(sp.name, ""));
      if found.Some? {
        assert SetFits(store.sets[found.value], sp);
      } else {
        assert SetFits(store.sets[|store.sets| - 1], sp);
      }
    }
  }

  /** Row `row` is the one the zip import creates for record `p` with id `id`. */
  predicate ZipRow(row: CollectionCard, p: CardPayload, batch: nat, id: nat) {
    && ValuesOf(row) == AdminValues(p)
    && row.id == id && row.importBatch == Some(batch) && row.reserved == 0
  }

  /** Tables that only grow keep every reference valid. */
  lemma RefersGrows(row: CollectionCard, p: CardPayload, cards: seq<Card>, sets: seq<CardSet>, cards': seq<Card>, sets': seq<CardSet>)
    requires Refers(row, p, cards, sets)
    requires |cards| <= |cards'| && cards'[..|cards|] == cards
    requires |sets| <= |sets'| && sets'[..|sets|] == sets
    ensures Refers(row, p, cards', sets')
  {
    var k :| 0 <= k < |cards| && cards[k].id == row.card && CardFits(cards[k], p);
    assert cards'[k] == cards'[..|cards|][k];
    if row.cardSet.Some? {
      var m :| 0 <= m < |sets| && sets[m].id == row.cardSet.value && SetFits(sets[m], p.cardSet.value);
      assert sets'[m] == sets'[..|sets|][m];
    }
  }

  /**
   * One record (its image files aside): resolve its card and set,
   * then append its row, which holds them.
   */
  method CreateZipRow(store: Store, batch: nat, p: CardPayload) returns (card: nat, cardSet: Option<nat>)
    requires store.Valid()
    modifies store`sets, store`nextSetId, store`cards, store`nextCardId, store`rows, store`nextRowId
    ensures store.Valid()
    ensures |old(store.cards)| <= |store.cards| && store.cards[..|old(store.cards)|] == old(store.cards)
    ensures |old(store.sets)| <= |store.sets| && store.sets[..|old(store.sets)|] == old(store.sets)
    ensures store.nextRowId == old(store.nextRowId) + 1
    ensures |store.rows| == |old(store.rows)| + 1 && store.rows[..|old(store.rows)|] == old(store.rows)
    ensures ZipRow(store.rows[|old(store.rows)|], p, batch, old(store.nextRowId))
    ensures store.rows[|old(store.rows)|].card == card && store.rows[|old(store.rows)|].cardSet == cardSet
    ensures Chosen(old(store.cards), store.cards, old(store.sets), store.sets, p, store.rows[|old(store.rows)|])
    ensures Refers(store.rows[|old(store.rows)|], p, store.cards, store.sets)
  {
    card, cardSet := ZipResolve(store, p);
    var row := CreatedRow(store.nextRowId, card, cardSet, AdminValues(p), batch);
    var _ := store.InsertRow(row);
    assert store.rows[|old(store.rows)|] == row;
  }

  /** `AdminCard`, then `AdminSet`: both resolve to entries that fit `p`. */
  method ZipResolve(store: Store, p: CardPayload) returns (card: nat, cardSet: Option<nat>)
    requires store.Valid()
    modifies store`sets, store`nextSetId, store`cards, store`nextCardId
    ensures store.Valid()
    ensures |old(store.cards)| <= |store.cards| && store.cards[..|old(store.cards)|] == old(store.cards)
    ensures |old(store.sets)| <= |store.sets| && store.sets[..|old(store.sets)|] == old(store.sets)
    ensures CardChosen(old(store.cards), store.cards, p, card) && SetChosen(old(store.sets), store.sets, p, cardSet)
    ensures exists k :: 0 <= k < |store.cards| && store.cards[k].id == card && CardFits(store.cards[k], p)
    ensures cardSet.None? <==> p.cardSet.None?
    ensures cardSet.Some? ==>
              exists k :: 0 <= k < |store.sets| && store.sets[k].id == cardSet.value && SetFits(store.sets[k], p.cardSet.value)
  {
    card := AdminCard(store, p);
    ghost var cards1 := store.cards;
    cardSet := AdminSet(store, p);
    ghost var k :| 0 <= k < |cards1| && cards1[k].id == card && CardFits(cards1[k], p);
    assert store.cards[k] == cards1[k];
  }

  /**
   * `import_zip_data`: reports as deleted every row there was, creates one
   * row per record in order (with this import's values, the batch, no
   * reservation and consecutive fresh ids), reports nothing updated, and
   * leaves every row referring to an existing card and set that fit its record.
   */
  method ImportZipData(store: Store, batch: ImportBatch, cards: seq<CardPayload>)
    returns (created: nat, updated: nat, deleted: nat, ghost cardsT: seq<seq<Card>>, ghost setsT: seq<seq<CardSet>>)
    requires store.Valid()
    modifies store`sets, store`nextSetId, store`cards, store`nextCardId, store`rows, store`nextRowId
    ensures store.Valid()
    ensures deleted == |old(store.rows)| && updated == 0
    ensures created == |cards| == |store.rows|
    ensures forall i :: 0 <= i < |cards| ==>
              ZipRow(store.rows[i], cards[i], batch.id, old(store.nextRowId) + i)
    ensures forall i :: 0 <= i < |cards| ==> Refers(store.rows[i], cards[i], store.cards, store.sets)
    ensures |old(store.cards)| <= |store.cards| && store.cards[..|old(store.cards)|] == old(store.cards)
    ensures |old(store.sets)| <= |store.sets| && store.sets[..|old(store.sets)|] == old(store.sets)
    ensures |cardsT| == |setsT| == |cards| + 1
    ensures cardsT[0] == old(store.cards) && setsT[0] == old(store.sets)
    ensures cardsT[|cards|] == store.cards && setsT[|cards|] == store.sets
    ensures forall i :: 0 <= i < |cards| ==> Chosen(cardsT[i], cardsT[i + 1], setsT[i], setsT[i + 1], cards[i], store.rows[i])
  {
    ghost var firstCards, firstSets := store.cards, store.sets;
    cardsT, setsT := [store.cards], [store.sets];
    created, updated := 0, 0;
    deleted := store.DeleteAllRows();
    ghost var next0 := store.nextRowId;
    var i := 0;
    while i < |cards|
      invariant 0 <= i <= |cards| && created == i
      invariant store.Valid()
      invariant ZipProgress(cards, i, store.rows, store.cards, store.sets, batch.id, store.nextRowId,
                            next0, firstCards, firstSets, cardsT, setsT)
    {
      cardsT, setsT := ZipStep(store, batch.id, cards, i, next0, firstCards, firstSets, cardsT, setsT);
      created := created + 1;
      i := i + 1;
    }
  }

  /** The loop of `ImportZipData` after `i` records, in terms of its trail of card and set tables. */
  ghost predicate ZipProgress(ps: seq<CardPayload>, i: nat, rows: seq<CollectionCard>, cards: seq<Card>, sets: seq<CardSet>,
                              batch: nat, next: nat, next0: nat, cards0: seq<Card>, sets0: seq<CardSet>,
                              cardsT: seq<seq<Card>>, setsT: seq<seq<CardSet>>)
  {
    && i <= |ps| && |rows| == i && next == next0 + i
    && (forall j :: 0 <= j < i ==> ZipRow(rows[j], ps[j], batch, next0 + j))
    && (forall j :: 0 <= j < i ==> Refers(rows[j], ps[j], cards, sets))
    && |cards0| <= |cards| && cards[..|cards0|] == cards0
    && |sets0| <= |sets| && sets[..|sets0|] == sets0
    && |cardsT| == |setsT| == i + 1
    && cardsT[0] == cards0 && setsT[0] == sets0
    && cardsT[i] == cards && setsT[i] == sets
    && (forall j :: 0 <= j < i ==> Chosen(cardsT[j], cardsT[j + 1], setsT[j], setsT[j + 1], ps[j], rows[j]))
  }

  /** Record `i` of the zip import: its row is created and `ZipProgress` extends to it. */
  method ZipStep(store: Store, batch: nat, ps: seq<CardPayload>, i: nat, ghost next0: nat,
                 ghost cards0: seq<Card>, ghost sets0: seq<CardSet>, ghost cardsT: seq<seq<Card>>, ghost setsT: seq<seq<CardSet>>)
    returns (ghost cardsT': seq<seq<Card>>, ghost setsT': seq<seq<CardSet>>)
    requires store.Valid() && i < |ps|
    requires ZipProgress(ps, i, store.rows, store.cards, store.sets, batch, store.nextRowId, next0, cards0, sets0, cardsT, setsT)
    modifies store`sets, store`nextSetId, store`cards, store`nextCardId, store`rows, store`nextRowId
    ensures store.Valid()
    ensures ZipProgress(ps, i + 1, store.rows, store.cards, store.sets, batch, store.nextRowId, next0, cards0, sets0, cardsT', setsT')
  {
    ghost var rows, cards, sets, next := store.rows, store.cards, store.sets, store.nextRowId;
    var _, _ := CreateZipRow(store, batch, ps[i]);
    ZipProgressStep(ps, i, rows, store.rows, cards, store.cards, sets, store.sets, batch, next, next0, cards0, sets0, cardsT, setsT);
    cardsT', setsT' := cardsT + [store.cards], setsT + [store.sets];
  }

  /** What `CreateZipRow` did for record `p`, as it states it. */
  predicate ZipStepFacts(rows: seq<CollectionCard>, rows': seq<CollectionCard>, cards: seq<Card>, cards': seq<Card>,
                         sets: seq<CardSet>, sets': seq<CardSet>, p: CardPayload, batch: nat, next: nat)
  {
    && |cards| <= |cards'| && cards'[..|cards|] == cards
    && |sets| <= |sets'| && sets'[..|sets|] == sets
    && |rows'| == |rows| + 1 && rows'[..|rows|] == rows
    && ZipRow(rows'[|rows|], p, batch, next)
    && Chosen(cards, cards', sets, sets', p, rows'[|rows|])
    && Refers(rows'[|rows|], p, cards', sets')
  }

  /** One created row extends `ZipProgress`. */
  lemma ZipProgressStep(ps: seq<CardPayload>, i: nat, rows: seq<CollectionCard>, rows': seq<CollectionCard>,
                    cards: seq<Card>, cards': seq<Card>, sets: seq<CardSet>, sets': seq<CardSet>,
                    batch: nat, next: nat, next0: nat, cards0: seq<Card>, sets0: seq<CardSet>,
                    cardsT: seq<seq<Card>>, setsT: seq<seq<CardSet>>)
    requires i < |ps|
    requires ZipProgress(ps, i, rows, cards, sets, batch, next, next0, cards0, sets0, cardsT, setsT)
    requires ZipStepFacts(rows, rows', cards, cards', sets, sets', ps[i], batch, next)
    ensures ZipProgress(ps, i + 1, rows', cards', sets', batch, next + 1, next0, cards0, sets0, cardsT + [cards'], setsT + [sets'])
  {
    ZipRowsStep(ps, i, rows, rows', cards, cards', sets, sets', batch, next, next0, cards0, sets0, cardsT, setsT);
    ZipRefersStep(ps, i, rows, rows', cards, cards', sets, sets', batch, next, next0, cards0, sets0, cardsT, setsT);
    ZipTablesStep(ps, i, rows, rows', cards, cards', sets, sets', batch, next, next0, cards0, sets0, cardsT, setsT);
  }

  /** The rows of `ZipProgress`, one record later. */
  lemma ZipRowsStep(ps: seq<CardPayload>, i: nat, rows: seq<CollectionCard>, rows': seq<CollectionCard>,
                    cards: seq<Card>, cards': seq<Card>, sets: seq<CardSet>, sets': seq<CardSet>,
                    batch: nat, next: nat, next0: nat, cards0: seq<Card>, sets0: seq<CardSet>,
                    cardsT: seq<seq<Card>>, setsT: seq<seq<CardSet>>)
    requires i < |ps|
    requires ZipProgress(ps, i, rows, cards, sets, batch, next, next0, cards0, sets0, cardsT, setsT)
    requires ZipStepFacts(rows, rows', cards, cards', sets, sets', ps[i], batch, next)
    ensures |rows'| == i + 1
    ensures forall j :: 0 <= j < i + 1 ==> ZipRow(rows'[j], ps[j], batch, next0 + j)
  {
    assert forall j :: 0 <= j < i ==> rows'[j] == rows[j];
  }

  /** Every row of `ZipProgress` still refers to fitting entries, one record later. */
  lemma ZipRefersStep(ps: seq<CardPayload>, i: nat, rows: seq<CollectionCard>, rows': seq<CollectionCard>,
                    cards: seq<Card>, cards': seq<Card>, sets: seq<CardSet>, sets': seq<CardSet>,
                    batch: nat, next: nat, next0: nat, cards0: seq<Card>, sets0: seq<CardSet>,
                    cardsT: seq<seq<Card>>, setsT: seq<seq<CardSet>>)
    requires i < |ps|
    requires ZipProgress(ps, i, rows, cards, sets, batch, next, next0, cards0, sets0, cardsT, setsT)
    requires ZipStepFacts(rows, rows', cards, cards', sets, sets', ps[i], batch, next)
    ensures forall j :: 0 <= j < i + 1 ==> Refers(rows'[j], ps[j], cards', sets')
  {
    forall j | 0 <= j < i
      ensures Refers(rows'[j], ps[j], cards', sets')
    {
      assert rows'[j] == rows[j];
      RefersGrows(rows[j], ps[j], cards, sets, cards', sets');
    }
  }

  /** The card and set tables and their trail in `ZipProgress`, one record later. */
  lemma ZipTablesStep(ps: seq<CardPayload>, i: nat, rows: seq<CollectionCard>, rows': seq<CollectionCard>,
                    cards: seq<Card>, cards': seq<Card>, sets: seq<CardSet>, sets': seq<CardSet>,
                    batch: nat, next: nat, next0: nat, cards0: seq<Card>, sets0: seq<CardSet>,
                    cardsT: seq<seq<Card>>, setsT: seq<seq<CardSet>>)
    requires i < |ps|
    requires ZipProgress(ps, i, rows, cards, sets, batch, next, next0, cards0, sets0, cardsT, setsT)
    requires ZipStepFacts(rows, rows', cards, cards', sets, sets', ps[i], batch, next)
    ensures |cards0| <= |cards'| && cards'[..|cards0|] == cards0
    ensures |sets0| <= |sets'| && sets'[..|sets0|] == sets0
    ensures |cardsT + [cards']| == |setsT + [sets']| == i + 2
    ensures (cardsT + [cards'])[0] == cards0 && (setsT + [sets'])[0] == sets0
    ensures (cardsT + [cards'])[i + 1] == cards' && (setsT + [sets'])[i + 1] == sets'
    ensures forall j :: 0 <= j < i + 1 ==>
              Chosen((cardsT + [cards'])[j], (cardsT + [cards'])[j + 1], (setsT + [sets'])[j], (setsT + [sets'])[j + 1], ps[j], rows'[j])
  {
    ChosenStep(ps, i, rows, rows', cardsT, setsT, cards', sets');
    PrefixTransitive(cards0, cards, cards');
    PrefixTransitive(sets0, sets, sets');
  }

  /** One more created row extends the per-record trail of the card and set tables. */
  lemma ChosenStep(ps: seq<CardPayload>, i: nat, rows: seq<CollectionCard>, rows': seq<CollectionCard>,
                   cardsT: seq<seq<Card>>, setsT: seq<seq<CardSet>>, cards': seq<Card>, sets': seq<CardSet>)
    requires i < |ps| && |cardsT| == |setsT| == i + 1 && |rows| == i
    requires |rows'| == i + 1 && rows'[..i] == rows
    requires forall j :: 0 <= j < i ==> Chosen(cardsT[j], cardsT[j + 1], setsT[j], setsT[j + 1], ps[j], rows[j])
    requires Chosen(cardsT[i], cards', setsT[i], sets', ps[i], rows'[i])
    ensures forall j :: 0 <= j < i + 1 ==>
              Chosen((cardsT + [cards'])[j], (cardsT + [cards'])[j + 1], (setsT + [sets'])[j], (setsT + [sets'])[j + 1], ps[j], rows'[j])
  {
    assert forall j :: 0 <= j < i ==> rows'[j] == rows[j];
  }
}
