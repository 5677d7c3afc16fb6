/** `CardStore` (Models/CardStore.swift): the ordered list of cards, the
    colour filter, the "just added" marker, and the settings slot under the
    key "savedCards" that persistence reads and writes all at once. */
module Store {
  import opened Basics
  import opened Seqs
  import opened Cards

  /** What the settings store holds under "savedCards": an encoded array of
      card records, or bytes that do not parse as one. */
  datatype Blob = Encoded(records: seq<Record>) | Unreadable

  datatype CardStore = CardStore(
    cards: seq<Card>,
    selectedColorFilters: seq<string>,
    justAddedCardID: Option<Uuid>,
    savedCards: Option<Blob>)

  /** Where `addCard` places every new card: (0, 1.5, -1.6). */
  const NewCardPosition: Vec3 := Vec3(0x0000_0000, 0x3FC0_0000, 0xBFCC_CCCD)

  /** No two cards share an id. The source never checks it; the operations
      below keep it when new cards carry fresh ids. */
  predicate UniqueIds(cards: seq<Card>) {
    forall i, j :: 0 <= i < j < |cards| ==> cards[i].id != cards[j].id
  }

  predicate HasId(cards: seq<Card>, id: Uuid) {
    exists i :: 0 <= i < |cards| && cards[i].id == id
  }

  /** The shared store as first created, over whatever the slot already holds. */
  function Shared(slot: Option<Blob>): (s: CardStore)
    ensures s.cards == [] && s.selectedColorFilters == [] && s.justAddedCardID == None
    ensures s.savedCards == slot
  {
    CardStore([], [], None, slot)
  }

  /** The slot after a full write of `cards` over `before`: replaced by the
      encoding of the whole list, or untouched when encoding throws. */
  predicate WrittenOver(before: Option<Blob>, cards: seq<Card>, after: Option<Blob>) {
    if AllFinite(cards) then after == Some(Encoded(EncodeCards(cards).value))
    else after == before
  }

  /** `saveCards`: the in-memory store is never changed by saving. */
  function SaveCards(s: CardStore): (r: CardStore)
    ensures r.(savedCards := s.savedCards) == s
    ensures WrittenOver(s.savedCards, s.cards, r.savedCards)
  {
    match EncodeCards(s.cards)
    case Ok(records) => s.(savedCards := Some(Encoded(records)))
    case _ => s
  }

  /** `loadCards`: the list is replaced only when the slot holds data that
      decodes; a missing slot or a thrown decoding error leaves the store as
      it is. A rotation array shorter than four numbers traps. */
  function LoadCards(s: CardStore): (r: Run<CardStore>)
    ensures r.Ran? ==> r.state.(cards := s.cards) == s
    ensures r.Ran? && r.state.cards != s.cards ==>
      s.savedCards.Some? && s.savedCards.value.Encoded? && DecodeCards(s.savedCards.value.records) == Ok(r.state.cards)
    ensures r.Crashed? <==> s.savedCards.Some? && s.savedCards.value.Encoded? && DecodeCards(s.savedCards.value.records).Trap?
    ensures s.savedCards.Some? && s.savedCards.value.Encoded? && DecodeCards(s.savedCards.value.records).Ok? ==>
      r == Ran(s.(cards := DecodeCards(s.savedCards.value.records).value))
    ensures s.savedCards.None? || s.savedCards.value.Unreadable? || DecodeCards(s.savedCards.value.records).Err? ==>
      r == Ran(s)
  {
    match s.savedCards
    case None => Ran(s)
    case Some(Unreadable) => Ran(s)
    case Some(Encoded(records)) =>
      match DecodeCards(records)
      case Ok(loaded) => Ran(s.(cards := loaded))
      case Err(_) => Ran(s)
      case Trap => Crashed
  }

  /** `addCard`: appends the card at the fixed start position, marks it as
      just added, and writes the list. */
  function AddCard(s: CardStore, card: Card): (r: CardStore)
    ensures |r.cards| == |s.cards| + 1
    ensures r.cards[..|s.cards|] == s.cards
    ensures r.cards[|s.cards|] == card.(position := NewCardPosition)
    ensures r.justAddedCardID == Some(card.id)
    ensures r.selectedColorFilters == s.selectedColorFilters
    ensures WrittenOver(s.savedCards, r.cards, r.savedCards)
  {
    var cards := s.cards + [card.(position := NewCardPosition)];
    assert cards[..|s.cards|] == s.cards;
    SaveCards(s.(cards := cards, justAddedCardID := Some(card.id)))
  }

  /** `removeCard`: drops every card with the given card's id, keeps the
      rest in order, and writes the list. */
  function RemoveCard(s: CardStore, card: Card): (r: CardStore)
    ensures forall c :: c in r.cards <==> c in s.cards && c.id != card.id
    ensures IsSubsequence(r.cards, s.cards)
    ensures forall c: Card :: c.id != card.id ==> multiset(r.cards)[c] == multiset(s.cards)[c]
    ensures !HasId(s.cards, card.id) ==> r.cards == s.cards
    ensures r.justAddedCardID == s.justAddedCardID && r.selectedColorFilters == s.selectedColorFilters
    ensures WrittenOver(s.savedCards, r.cards, r.savedCards)
  {
    var keep := (c: Card) => c.id != card.id;
    SaveCards(s.(cards := Filter(s.cards, keep)))
  }

  /** `clearAllCards`: empties the list and writes the empty array. */
  function ClearAllCards(s: CardStore): (r: CardStore)
    ensures r.cards == []
    ensures r.savedCards == Some(Encoded([]))
    ensures r.justAddedCardID == s.justAddedCardID && r.selectedColorFilters == s.selectedColorFilters
  {
    SaveCards(s.(cards := []))
  }

  /** `firstIndex(where: { $0.id == id })`. */
  function IndexOfId(cards: seq<Card>, id: Uuid): (r: Option<nat>)
    ensures r.Some? ==> r.value < |cards| && cards[r.value].id == id
    ensures r.Some? ==> forall j :: 0 <= j < r.value ==> cards[j].id != id
    ensures r.None? <==> !HasId(cards, id)
  {
    if cards == [] then None
    else if cards[0].id == id then Some(0)
    else
      match IndexOfId(cards[1..], id)
      case Some(k) => Some(k + 1)
      case None =>
        assert forall i :: 1 <= i < |cards| ==> cards[i] == cards[1..][i - 1];
        None
  }

  /** The commit of a drag: the first card with the id takes the new
      position and the list is written; with no such card nothing happens. */
  function CommitPosition(s: CardStore, id: Uuid, position: Vec3): (r: CardStore)
    ensures !HasId(s.cards, id) ==> r == s
    ensures |r.cards| == |s.cards|
    ensures HasId(s.cards, id) ==> forall j :: 0 <= j < |s.cards| ==>
      r.cards[j] == (if j == IndexOfId(s.cards, id).value then s.cards[j].(position := position) else s.cards[j])
    ensures HasId(s.cards, id) ==> WrittenOver(s.savedCards, r.cards, r.savedCards)
    ensures r.justAddedCardID == s.justAddedCardID && r.selectedColorFilters == s.selectedColorFilters
  {
    match IndexOfId(s.cards, id)
    case None => s
    case Some(i) => SaveCards(s.(cards := s.cards[i := s.cards[i].(position := position)]))
  }

  /** The cards on show: all of them when no colour is selected, otherwise
      those whose colour name is selected, in their order. */
  function CardsToDisplay(cards: seq<Card>, filters: seq<string>): (r: seq<Card>)
    ensures filters == [] ==> r == cards
    ensures filters != [] ==> forall c :: c in r <==> c in cards && c.colorName in filters
    ensures filters != [] ==> forall c: Card :: c.colorName in filters ==> multiset(r)[c] == multiset(cards)[c]
    ensures IsSubsequence(r, cards)
  {
    if |filters| == 0 then
      SubsequenceReflexive(cards);
      cards
    else Filter(cards, (c: Card) => c.colorName in filters)
  }

  // ---------------------------------------------------------------------------
  // Properties over several calls

  /** What a later `loadCards` on a fresh store sees after a write: the
      written list, whenever it could be encoded. */
  lemma LoadAfterSave(s: CardStore)
    requires AllFinite(s.cards)
    ensures LoadCards(Shared(SaveCards(s).savedCards)) == Ran(Shared(SaveCards(s).savedCards).(cards := s.cards))
  {
    CardsRoundTrip(s.cards);
  }

  /** When encoding throws, the slot keeps the previous snapshot, so a later
      load sees the list as it was last written. */
  lemma FailedSaveKeepsSnapshot(s: CardStore)
    requires !AllFinite(s.cards)
    ensures SaveCards(s) == s
  {
  }

  /** After clearing, a fresh load finds the empty list. */
  lemma ClearedStoreReloadsEmpty(s: CardStore)
    ensures var slot := ClearAllCards(s).savedCards;
      LoadCards(Shared(slot)) == Ran(Shared(slot)) && Shared(slot).cards == []
  {
  }

  /** Adding a card and loading on a fresh store gives back the list with the
      new card at the end. */
  lemma {:induction false} AddedCardSurvivesReload(s: CardStore, card: Card)
    requires AllFinite(s.cards) && CardIsFinite(card)
    ensures var r := AddCard(s, card);
      LoadCards(Shared(r.savedCards)) == Ran(Shared(r.savedCards).(cards := s.cards + [card.(position := NewCardPosition)]))
  {
    var r := AddCard(s, card);
    assert r.cards == s.cards + [card.(position := NewCardPosition)];
    assert AllFinite(r.cards) by {
      assert forall i :: 0 <= i < |s.cards| ==> r.cards[i] == s.cards[i];
    }
    CardsRoundTrip(r.cards);
    assert r.savedCards == Some(Encoded(EncodeCards(r.cards).value));
    assert DecodeCards(r.savedCards.value.records) == Ok(r.cards);
  }

  /** After adding a card with a fresh id there is exactly one card with that id. */
  lemma AddKeepsIdsUnique(s: CardStore, card: Card)
    requires UniqueIds(s.cards) && !HasId(s.cards, card.id)
    ensures UniqueIds(AddCard(s, card).cards)
    ensures forall i :: 0 <= i < |AddCard(s, card).cards| && AddCard(s, card).cards[i].id == card.id ==>
      i == |s.cards|
  {
    var r := AddCard(s, card).cards;
    assert forall i :: 0 <= i < |s.cards| ==> r[i] == s.cards[i];
  }

  /** Removing keeps ids unique, and after removing no card has the id. */
  lemma RemoveKeepsIdsUnique(s: CardStore, card: Card)
    requires UniqueIds(s.cards)
    ensures UniqueIds(RemoveCard(s, card).cards)
    ensures !HasId(RemoveCard(s, card).cards, card.id)
  {
    var r := RemoveCard(s, card).cards;
    SubsequenceKeepsUnique(r, s.cards);
  }

  /** A subsequence of a list with unique ids has unique ids. */
  lemma {:induction false} SubsequenceKeepsUnique(sub: seq<Card>, s: seq<Card>)
    requires IsSubsequence(sub, s) && UniqueIds(s)
    ensures UniqueIds(sub)
    decreases |s|
  {
    if sub != [] && s != [] {
      assert UniqueIds(s[1..]) by {
        assert forall i :: 0 <= i < |s[1..]| ==> s[1..][i] == s[i + 1];
      }
      if sub[0] == s[0] && IsSubsequence(sub[1..], s[1..]) {
        SubsequenceKeepsUnique(sub[1..], s[1..]);
        forall j | 0 < j < |sub|
          ensures sub[0].id != sub[j].id
        {
          SubsequenceMember(sub[1..], s[1..], j - 1);
          var k :| 0 <= k < |s[1..]| && s[1..][k] == sub[1..][j - 1];
          assert s[k + 1] == sub[j];
        }
        assert forall i :: 0 <= i < |sub[1..]| ==> sub[1..][i] == sub[i + 1];
      } else {
        SubsequenceKeepsUnique(sub, s[1..]);
      }
    }
  }

  /** Every element of a subsequence occurs in the sequence. */
  lemma {:induction false} SubsequenceMember<T>(sub: seq<T>, s: seq<T>, j: nat)
    requires IsSubsequence(sub, s) && j < |sub|
    ensures exists k :: 0 <= k < |s| && s[k] == sub[j]
    decreases |s|
  {
    if sub[0] == s[0] && IsSubsequence(sub[1..], s[1..]) {
      if j == 0 {
        assert s[0] == sub[0];
      } else {
        SubsequenceMember(sub[1..], s[1..], j - 1);
        var k :| 0 <= k < |s[1..]| && s[1..][k] == sub[1..][j - 1];
        assert s[k + 1] == sub[j];
      }
    } else {
      SubsequenceMember(sub, s[1..], j);
      var k :| 0 <= k < |s[1..]| && s[1..][k] == sub[j];
      assert s[k + 1] == sub[j];
    }
  }

  /** Committing a position keeps ids unique and moves nothing but the one card. */
  lemma CommitKeepsIdsUnique(s: CardStore, id: Uuid, position: Vec3)
    requires UniqueIds(s.cards)
    ensures UniqueIds(CommitPosition(s, id, position).cards)
  {
  }
}
