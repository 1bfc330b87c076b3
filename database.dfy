/**
 * The database tables the importers read and write, and the ORM queries they
 * issue. `.first()` on an unordered query is the row with the lowest
 * position in the table (primary-key order).
 */
module Database {
  import opened Common
  import opened Text
  import opened Models

  /** The position of the first element satisfying `p`, if any. */
  function FirstIndex<T>(s: seq<T>, p: T -> bool): (r: Option<nat>)
    ensures r.Some? ==> r.value < |s| && p(s[r.value]) && forall j :: 0 <= j < r.value ==> !p(s[j])
    ensures r.None? <==> forall j :: 0 <= j < |s| ==> !p(s[j])
    decreases |s|
  {
    if s == [] then None
    else if p(s[0]) then Some(0)
    else match FirstIndex(s[1..], p)
      case None => None
      case Some(k) => Some(k + 1)
  }

  /** `code__iexact=code`: a null code matches nothing. */
  predicate SetCodeIs(s: CardSet, code: string) {
    s.code.Some? && IEquals(s.code.value, code)
  }

  predicate SetNameIs(s: CardSet, name: string) {
    IEquals(s.name, name)
  }

  predicate FirstSetWithCode(sets: seq<CardSet>, i: nat, code: string) {
    i < |sets| && SetCodeIs(sets[i], code) && forall j :: 0 <= j < i ==> !SetCodeIs(sets[j], code)
  }

  predicate FirstSetWithName(sets: seq<CardSet>, i: nat, name: string) {
    i < |sets| && SetNameIs(sets[i], name) && forall j :: 0 <= j < i ==> !SetNameIs(sets[j], name)
  }

  /**
   * The set lookup chain, given a code and a name ('' when falsy): the first
   * set whose code matches case-insensitively; failing that, the first whose
   * name does; None means a set is to be created.
   */
  function FindSet(sets: seq<CardSet>, code: string, name: string): (r: Option<nat>)
    ensures code != "" && (exists i :: 0 <= i < |sets| && SetCodeIs(sets[i], code)) ==>
              r.Some? && FirstSetWithCode(sets, r.value, code)
    ensures (code == "" || forall i :: 0 <= i < |sets| ==> !SetCodeIs(sets[i], code)) ==>
              && (r.Some? <==> name != "" && exists i :: 0 <= i < |sets| && SetNameIs(sets[i], name))
              && (r.Some? ==> FirstSetWithName(sets, r.value, name))
  {
    var byCode := if code != "" then FirstIndex(sets, s => SetCodeIs(s, code)) else None;
    if byCode.Some? then byCode
    else if name != "" then FirstIndex(sets, s => SetNameIs(s, name))
    else None
  }

  predicate CardKonamiIs(c: Card, konami: int) {
    c.konamiId == Some(konami)
  }

  predicate CardNameIs(c: Card, name: string) {
    IEquals(c.name, name)
  }

  predicate FirstCardWithKonami(cards: seq<Card>, i: nat, konami: int) {
    i < |cards| && CardKonamiIs(cards[i], konami) && forall j :: 0 <= j < i ==> !CardKonamiIs(cards[j], konami)
  }

  predicate FirstCardWithName(cards: seq<Card>, i: nat, name: string) {
    i < |cards| && CardNameIs(cards[i], name) && forall j :: 0 <= j < i ==> !CardNameIs(cards[j], name)
  }

  /**
   * The card lookup chain: the first card with the Konami id when one is
   * given (and non-zero); failing that, the first card whose name matches
   * case-insensitively (an empty name matches only empty names); None means
   * a card is to be created.
   */
  function FindCard(cards: seq<Card>, konami: Option<int>, name: string): (r: Option<nat>)
    ensures konami.Some? && konami.value != 0 && (exists i :: 0 <= i < |cards| && CardKonamiIs(cards[i], konami.value)) ==>
              r.Some? && FirstCardWithKonami(cards, r.value, konami.value)
    ensures (konami.None? || konami.value == 0 || forall i :: 0 <= i < |cards| ==> !CardKonamiIs(cards[i], konami.value)) ==>
              && (r.Some? <==> exists i :: 0 <= i < |cards| && CardNameIs(cards[i], name))
              && (r.Some? ==> FirstCardWithName(cards, r.value, name))
  {
    var byKonami := if konami.Some? && konami.value != 0 then FirstIndex(cards, c => CardKonamiIs(c, konami.value)) else None;
    if byKonami.Some? then byKonami else FirstIndex(cards, c => CardNameIs(c, name))
  }

  predicate InBatches(row: CollectionCard, batchIds: set<nat>) {
    row.importBatch.Some? && row.importBatch.value in batchIds
  }

  /** The rows of `rows` whose batch is one of `batchIds`, in table order. */
  function RowsOfBatches(rows: seq<CollectionCard>, batchIds: set<nat>): (r: seq<CollectionCard>)
    ensures Subsequence(r, rows)
    ensures forall i :: 0 <= i < |r| ==> InBatches(r[i], batchIds)
    ensures forall j :: 0 <= j < |rows| && InBatches(rows[j], batchIds) ==> rows[j] in r
    ensures r == [] <==> forall j :: 0 <= j < |rows| ==> !InBatches(rows[j], batchIds)
    decreases |rows|
  {
    if rows == [] then []
    else
      var rest := RowsOfBatches(rows[1..], batchIds);
      assert forall j :: 1 <= j < |rows| ==> rows[j] == rows[1..][j - 1];
      if InBatches(rows[0], batchIds) then [rows[0]] + rest else rest
  }

  /** Ids strictly increase along the table: primary-key order, no id twice. */
  predicate RowIdsIncreasing(rows: seq<CollectionCard>) {
    forall i, j :: 0 <= i < j < |rows| ==> rows[i].id < rows[j].id
  }

  /** The table without the row whose id is `id` (`row.delete()`); the other rows stay, in order. */
  function WithoutRow(rows: seq<CollectionCard>, id: nat): (r: seq<CollectionCard>)
    ensures Subsequence(r, rows)
    ensures forall i :: 0 <= i < |r| ==> r[i] in rows && r[i].id != id
    ensures forall j :: 0 <= j < |rows| && rows[j].id != id ==> rows[j] in r
    decreases |rows|
  {
    if rows == [] then []
    else
      var rest := WithoutRow(rows[1..], id);
      assert forall j :: 1 <= j < |rows| ==> rows[j] == rows[1..][j - 1];
      if rows[0].id == id then rest else [rows[0]] + rest
  }

  /** The tail of an increasing table is increasing, and every id in it is above the head's. */
  lemma IncreasingTail(rows: seq<CollectionCard>)
    requires rows != [] && RowIdsIncreasing(rows)
    ensures RowIdsIncreasing(rows[1..])
    ensures forall c :: c in rows[1..] ==> rows[0].id < c.id
  {
    forall i, j | 0 <= i < j < |rows[1..]| ensures rows[1..][i].id < rows[1..][j].id {
      assert rows[1..][i] == rows[i + 1] && rows[1..][j] == rows[j + 1];
    }
    forall c | c in rows[1..] ensures rows[0].id < c.id {
      var k :| 0 <= k < |rows[1..]| && rows[1..][k] == c;
      assert rows[1..][k] == rows[k + 1];
    }
  }

  /** A row below every id of an increasing table can be put in front of it. */
  lemma IncreasingCons(row: CollectionCard, rest: seq<CollectionCard>)
    requires RowIdsIncreasing(rest)
    requires forall c :: c in rest ==> row.id < c.id
    ensures RowIdsIncreasing([row] + rest)
  {
    var r := [row] + rest;
    forall i, j | 0 <= i < j < |r| ensures r[i].id < r[j].id {
      assert r[j] == rest[j - 1];
      if i > 0 {
        assert r[i] == rest[i - 1];
      }
    }
  }

  /** Deleting a row keeps the table in primary-key order. */
  lemma {:induction false} WithoutRowKeepsOrder(rows: seq<CollectionCard>, id: nat)
    requires RowIdsIncreasing(rows)
    ensures RowIdsIncreasing(WithoutRow(rows, id))
    decreases |rows|
  {
    if rows != [] {
      IncreasingTail(rows);
      WithoutRowKeepsOrder(rows[1..], id);
      var rest := WithoutRow(rows[1..], id);
      if rows[0].id != id {
        forall c | c in rest ensures rows[0].id < c.id {
          var i :| 0 <= i < |rest| && rest[i] == c;
        }
        IncreasingCons(rows[0], rest);
      }
    }
  }

  /** The tables, with the primary-key counters of the three tables that grow. */
  class Store {
    var sets: seq<CardSet>
    var cards: seq<Card>
    var rows: seq<CollectionCard>
    var batches: seq<ImportBatch>
    var nextSetId: nat
    var nextCardId: nat
    var nextRowId: nat

    /**
     * Every stored id is below its table's counter, so new ids are fresh,
     * and each table is in primary-key order, so the lowest index is the
     * lowest id.
     */
    ghost predicate Valid()
      reads this
    {
      && (forall i :: 0 <= i < |sets| ==> sets[i].id < nextSetId)
      && (forall i :: 0 <= i < |cards| ==> cards[i].id < nextCardId)
      && (forall i :: 0 <= i < |rows| ==> rows[i].id < nextRowId)
      && (forall i, j :: 0 <= i < j < |sets| ==> sets[i].id < sets[j].id)
      && (forall i, j :: 0 <= i < j < |cards| ==> cards[i].id < cards[j].id)
      && RowIdsIncreasing(rows)
    }

    constructor (batches: seq<ImportBatch>)
      ensures Valid()
      ensures sets == [] && cards == [] && rows == [] && this.batches == batches
    {
      sets, cards, rows, this.batches := [], [], [], batches;
      nextSetId, nextCardId, nextRowId := 1, 1, 1;
    }

    /**
     * The set lookup chain followed by `CardSet.objects.create(name=name,
     * code=code or None, release_date=releaseDate)` when nothing matched.
     */
    method FindOrCreateSet(code: string, name: string, releaseDate: Option<string>) returns (id: nat)
      requires Valid()
      modifies this`sets, this`nextSetId
      ensures Valid()
      ensures |old(sets)| <= |sets| && sets[..|old(sets)|] == old(sets)
      ensures exists k :: 0 <= k < |sets| && sets[k].id == id
      ensures FindSet(old(sets), code, name).Some? ==>
                sets == old(sets) && nextSetId == old(nextSetId) && id == old(sets)[FindSet(old(sets), code, name).value].id
      ensures FindSet(old(sets), code, name).None? ==>
                && id == old(nextSetId) && nextSetId == id + 1
                && sets == old(sets) + [CardSet(id, name, if code == "" then None else Some(code), releaseDate)]
    {
      var found := FindSet(sets, code, name);
      if found.Some? {
        id := sets[found.value].id;
      } else {
        id := nextSetId;
        sets := sets + [CardSet(id, name, if code == "" then None else Some(code), releaseDate)];
        nextSetId := nextSetId + 1;
        assert sets[|sets| - 1].id == id;
      }
    }

    /** The card lookup chain followed by `Card.objects.create(name=name, konami_id=konami)`. */
    method FindOrCreateCard(konami: Option<int>, name: string) returns (id: nat)
      requires Valid()
      modifies this`cards, this`nextCardId
      ensures Valid()
      ensures |old(cards)| <= |cards| && cards[..|old(cards)|] == old(cards)
      ensures exists k :: 0 <= k < |cards| && cards[k].id == id
      ensures FindCard(old(cards), konami, name).Some? ==>
                cards == old(cards) && nextCardId == old(nextCardId) && id == old(cards)[FindCard(old(cards), konami, name).value].id
      ensures FindCard(old(cards), konami, name).None? ==>
                id == old(nextCardId) && nextCardId == id + 1 && cards == old(cards) + [Card(id, name, konami)]
    {
      var found := FindCard(cards, konami, name);
      if found.Some? {
        id := cards[found.value].id;
      } else {
        id := nextCardId;
        cards := cards + [Card(id, name, konami)];
        nextCardId := nextCardId + 1;
        assert cards[|cards| - 1].id == id;
      }
    }

    /** `CollectionCard.objects.create(...)`: the row is stored under a fresh id. */
    method InsertRow(row: CollectionCard) returns (id: nat)
      requires Valid()
      modifies this`rows, this`nextRowId
      ensures Valid()
      ensures id == old(nextRowId) && nextRowId == id + 1
      ensures rows == old(rows) + [row.(id := id)]
    {
      id := nextRowId;
      rows := rows + [row.(id := id)];
      nextRowId := nextRowId + 1;
    }

    /** `row.save()` of a loaded row, kept under its id. */
    method SaveRow(i: nat, row: CollectionCard)
      requires Valid() && i < |rows| && row.id == rows[i].id
      modifies this`rows
      ensures Valid()
      ensures rows == old(rows)[i := row]
    {
      rows := rows[i := row];
    }

    /** `CollectionCard.objects.count()` followed by `.all().delete()`. */
    method DeleteAllRows() returns (count: nat)
      requires Valid()
      modifies this`rows
      ensures Valid()
      ensures count == |old(rows)| && rows == []
    {
      count := |rows|;
      rows := [];
    }

    /** `row.delete()`. */
    method DeleteRow(id: nat)
      requires Valid()
      modifies this`rows
      ensures Valid()
      ensures rows == WithoutRow(old(rows), id)
    {
      WithoutRowKeepsOrder(rows, id);
      rows := WithoutRow(rows, id);
    }
  }
}
