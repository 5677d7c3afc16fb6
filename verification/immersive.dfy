/** `ImmersiveView` (AirNote-VisionPro2/ImmersiveView.swift): the immersive
    space that shows the filtered cards as modeled card entities and turns
    drags and taps on them into store updates. */
module Immersive {
  import opened Basics
  import opened Seqs
  import opened Cards
  import opened Store
  import opened Entities
  import ModeledCard

  datatype ImmersiveView = ImmersiveView(
    store: CardStore,
    cardEntities: seq<ModeledCardNode>,
    cardTemplateEntity: Option<Entity>,
    draggedEntity: Option<ModeledCardNode>)

  /** A hit chosen as drag target: a modeled card at or above the hit node,
      unless the hit node is the delete button. */
  function DragTargetOf(chain: seq<Entity>): (r: Option<ModeledCardNode>)
    ensures r.Some? <==> NearestFrom(chain, 0, ModeledNoteCardType).Some? && chain[0].name != DeleteButtonName
    ensures r.Some? ==> r.value == chain[NearestFrom(chain, 0, ModeledNoteCardType).value]
  {
    match NearestFrom(chain, 0, ModeledNoteCardType)
    case Some(i) => if chain[0].name != DeleteButtonName then Some(chain[i]) else None
    case None => None
  }

  /** The drag gesture's `onChanged`: a target is chosen only while nothing
      is dragged, and from then on every update moves that same entity to the
      converted location. The store is not touched while dragging. */
  function DragChanged(v: ImmersiveView, chain: seq<Entity>, location: Vec3): (r: ImmersiveView)
    ensures v.draggedEntity.Some? ==> r.draggedEntity.Some? && r.draggedEntity.value.kind == v.draggedEntity.value.kind
    ensures v.draggedEntity.None? ==> (r.draggedEntity.Some? <==> DragTargetOf(chain).Some?)
    ensures v.draggedEntity.None? && r.draggedEntity.Some? ==> r.draggedEntity.value.kind == DragTargetOf(chain).value.kind
    ensures r.draggedEntity.Some? ==> r.draggedEntity.value.transform.translation == location
    ensures r.draggedEntity.Some? ==>
      var moved := if v.draggedEntity.Some? then v.draggedEntity.value else DragTargetOf(chain).value;
      && r.draggedEntity.value.(transform := moved.transform) == moved
      && r.draggedEntity.value.transform.(translation := moved.transform.translation) == moved.transform
    ensures r.(draggedEntity := v.draggedEntity) == v
  {
    var target := if v.draggedEntity.None? then DragTargetOf(chain) else v.draggedEntity;
    match target
    case Some(d) => v.(draggedEntity := Some(d.(transform := d.transform.(translation := location))))
    case None => v
  }

  /** The drag gesture's `onEnded`: the first card with the dragged card's id
      takes the entity's position (nothing else about it, and no other card,
      changes); a missing id changes no card; the drag ends in every case. */
  function DragEnded(v: ImmersiveView): (r: ImmersiveView)
    ensures r.draggedEntity.None?
    ensures r.cardEntities == v.cardEntities && r.cardTemplateEntity == v.cardTemplateEntity
    ensures v.draggedEntity.None? ==> r.store == v.store
    ensures v.draggedEntity.Some? ==>
      r.store == CommitPosition(v.store, v.draggedEntity.value.kind.card.id, v.draggedEntity.value.transform.translation)
  {
    match v.draggedEntity
    case Some(d) => v.(store := CommitPosition(v.store, d.kind.card.id, d.transform.translation), draggedEntity := None)
    case None => v
  }

  datatype TapAction = Ignored | DeleteCard(card: Card) | FlipCard(entity: ModeledCardNode)

  /** The tap gesture's decision: nothing while a drag is active; otherwise,
      for a hit under a modeled card, the delete button removes that card and
      any other node flips it. */
  function TapDecision(dragging: bool, chain: seq<Entity>): (a: TapAction)
    ensures dragging ==> a == Ignored
    ensures NearestFrom(chain, 0, ModeledNoteCardType).None? ==> a == Ignored
    ensures !dragging && NearestFrom(chain, 0, ModeledNoteCardType).Some? ==>
      var card := chain[NearestFrom(chain, 0, ModeledNoteCardType).value];
      if chain[0].name == DeleteButtonName then a == DeleteCard(card.kind.card) else a == FlipCard(card)
  {
    if dragging then Ignored
    else match NearestFrom(chain, 0, ModeledNoteCardType)
      case None => Ignored
      case Some(i) =>
        var card: ModeledCardNode := chain[i];
        if chain[0].name == DeleteButtonName then DeleteCard(card.kind.card) else FlipCard(card)
  }

  /** The tap's effect on the view: a delete goes to the store; a flip only
      plays an animation (see `ModeledCard.Flip`) and changes no state here. */
  function Tap(v: ImmersiveView, chain: seq<Entity>): (r: ImmersiveView)
    ensures v.draggedEntity.Some? ==> r == v
    ensures r.(store := v.store) == v
    ensures TapDecision(v.draggedEntity.Some?, chain).DeleteCard? ==>
      var gone := TapDecision(v.draggedEntity.Some?, chain).card;
      && r.store == RemoveCard(v.store, gone)
      && !HasId(r.store.cards, gone.id)
      && IsSubsequence(r.store.cards, v.store.cards)
      && (forall c :: c in v.store.cards && c.id != gone.id ==> c in r.store.cards)
    ensures !TapDecision(v.draggedEntity.Some?, chain).DeleteCard? ==> r == v
  {
    match TapDecision(v.draggedEntity.Some?, chain)
    case DeleteCard(card) => v.(store := RemoveCard(v.store, card))
    case _ => v
  }

  /** One modeled card per displayed card, placed at the card's stored pose.
      Building traps, like the entity initializer, when the template has no
      "_default" node and there is at least one card to build. */
  function BuildEntities(cards: seq<Card>, template: Entity): (r: Run<seq<ModeledCardNode>>)
    ensures r.Crashed? <==> cards != [] && FindEntity(template, ModeledCard.DefaultModelName).None?
    ensures r.Ran? ==> |r.state| == |cards|
    ensures r.Ran? ==> forall i :: 0 <= i < |cards| ==>
      r.state[i].kind.card == cards[i] &&
      r.state[i].transform.translation == cards[i].position &&
      r.state[i].transform.rotation == Quaternion(cards[i].rotation)
    ensures r.Ran? ==> forall i :: 0 <= i < |cards| ==>
      ModeledCard.Make(cards[i], template).Ran? &&
      r.state[i] == PlacedAt(ModeledCard.Make(cards[i], template).state, cards[i])
  {
    if cards == [] then Ran([])
    else
      match ModeledCard.Make(cards[0], template)
      case Crashed => Crashed
      case Ran(first) =>
        match BuildEntities(cards[1..], template)
        case Crashed => Crashed
        case Ran(rest) =>
          var placed: ModeledCardNode := PlacedAt(first, cards[0]);
          BuiltCons(cards, template, first, rest);
          Ran([placed] + rest)
  }

  /** The step of `BuildEntities`: the first card's entity in front of the
      rest keeps every entity the one built from its card. */
  lemma BuiltCons(cards: seq<Card>, template: Entity, first: ModeledCardNode, rest: seq<ModeledCardNode>)
    ensures (cards != [] && ModeledCard.Make(cards[0], template) == Ran(first) && |rest| == |cards| - 1 &&
             (forall i :: 0 <= i < |rest| ==>
               ModeledCard.Make(cards[1..][i], template).Ran? &&
               rest[i] == PlacedAt(ModeledCard.Make(cards[1..][i], template).state, cards[1..][i]))) ==>
      var built := [PlacedAt(first, cards[0])] + rest;
      forall i :: 0 <= i < |cards| ==>
        ModeledCard.Make(cards[i], template).Ran? &&
        built[i] == PlacedAt(ModeledCard.Make(cards[i], template).state, cards[i]) &&
        built[i].kind.card == cards[i]
  {
    if cards != [] && ModeledCard.Make(cards[0], template) == Ran(first) && |rest| == |cards| - 1 {
      var built := [PlacedAt(first, cards[0])] + rest;
      forall i | 0 <= i < |cards| && i > 0
        ensures cards[i] == cards[1..][i - 1] && built[i] == rest[i - 1]
      {
      }
    }
  }

  /** `updateCardEntities`: nothing while a drag is active or before the
      template has loaded; otherwise the displayed cards are rebuilt and the
      "just added" marker is cleared. */
  function UpdateCardEntities(v: ImmersiveView): (r: Run<ImmersiveView>)
    ensures v.draggedEntity.Some? || v.cardTemplateEntity.None? ==> r == Ran(v)
    ensures r.Crashed? <==>
      && v.draggedEntity.None? && v.cardTemplateEntity.Some?
      && CardsToDisplay(v.store.cards, v.store.selectedColorFilters) != []
      && FindEntity(v.cardTemplateEntity.value, ModeledCard.DefaultModelName).None?
    ensures r.Ran? ==> r.state.(cardEntities := v.cardEntities, store := v.store) == v
    ensures r.Ran? && v.draggedEntity.None? && v.cardTemplateEntity.Some? ==>
      var shown := CardsToDisplay(v.store.cards, v.store.selectedColorFilters);
      && r.state.store == v.store.(justAddedCardID := None)
      && |r.state.cardEntities| == |shown|
      && (forall i :: 0 <= i < |shown| ==>
            r.state.cardEntities[i].kind.card == shown[i] &&
            r.state.cardEntities[i].transform.translation == shown[i].position &&
            r.state.cardEntities[i].transform.rotation == Quaternion(shown[i].rotation))
    ensures r.Ran? && v.draggedEntity.None? && v.cardTemplateEntity.Some? ==>
      var shown := CardsToDisplay(v.store.cards, v.store.selectedColorFilters);
      forall i :: 0 <= i < |shown| ==>
        ModeledCard.Make(shown[i], v.cardTemplateEntity.value).Ran? &&
        r.state.cardEntities[i] == PlacedAt(ModeledCard.Make(shown[i], v.cardTemplateEntity.value).state, shown[i])
  {
    if v.draggedEntity.Some? then Ran(v)
    else match v.cardTemplateEntity
      case None => Ran(v)
      case Some(template) =>
        match BuildEntities(CardsToDisplay(v.store.cards, v.store.selectedColorFilters), template)
        case Crashed => Crashed
        case Ran(entities) => Ran(v.(cardEntities := entities, store := v.store.(justAddedCardID := None)))
  }

  /** The view's `update` pass: the scene's content is replaced by the
      built entities, except while a drag is active. */
  function RefreshContent(v: ImmersiveView, content: seq<ModeledCardNode>): (r: seq<ModeledCardNode>)
    ensures v.draggedEntity.Some? ==> r == content
    ensures v.draggedEntity.None? ==> r == v.cardEntities
  {
    if v.draggedEntity.Some? then content else v.cardEntities
  }

  /** Once a drag has started, neither a rebuild nor a content refresh
      changes anything until the drag ends. */
  lemma DragFreezesScene(v: ImmersiveView, chain: seq<Entity>, location: Vec3, content: seq<ModeledCardNode>)
    requires v.draggedEntity.Some? || DragTargetOf(chain).Some?
    ensures var w := DragChanged(v, chain, location);
      UpdateCardEntities(w) == Ran(w) && RefreshContent(w, content) == content
  {
  }

  // ---------------------------------------------------------------------------
  // Scenarios on a card built from a template

  /** Dragging from a card's delete button never starts a drag, while
      dragging from its drag handle picks that card. */
  lemma DeleteButtonNeverStartsDrag(card: Card, flipAnimation: Option<string>, baseModel: Entity, above: seq<Entity>)
    ensures var e := ModeledCard.Assemble(card, flipAnimation, baseModel);
      DragTargetOf([e.children[1], e] + above).None? &&
      DragTargetOf([e.children[2], e] + above) == Some(e)
  {
    var e := ModeledCard.Assemble(card, flipAnimation, baseModel);
    assert NearestFrom([e.children[1], e] + above, 0, ModeledNoteCardType) == Some(1);
    assert NearestFrom([e.children[2], e] + above, 0, ModeledNoteCardType) == Some(1);
  }

  /** Tapping a card's delete button when no drag is active removes every
      card with that card's id from the store. */
  lemma TapOnDeleteButtonRemovesCard(v: ImmersiveView, card: Card, flipAnimation: Option<string>, baseModel: Entity, above: seq<Entity>)
    requires v.draggedEntity.None?
    ensures var e := ModeledCard.Assemble(card, flipAnimation, baseModel);
      var r := Tap(v, [e.children[1], e] + above);
      !HasId(r.store.cards, card.id) && r.store == RemoveCard(v.store, card)
  {
    var e := ModeledCard.Assemble(card, flipAnimation, baseModel);
    assert NearestFrom([e.children[1], e] + above, 0, ModeledNoteCardType) == Some(1);
  }

  /** The same holds for every card the rebuild places in the scene, and
      outside a drag a tap on its delete button removes that card. */
  lemma BuiltCardsHaveWorkingControls(v: ImmersiveView, cards: seq<Card>, template: Entity, i: int, above: seq<Entity>)
    ensures BuildEntities(cards, template).Ran? && 0 <= i < |cards| ==>
      var e := BuildEntities(cards, template).state[i];
      && e.kind == ModeledNoteCardEntity(cards[i], ModeledCard.FlipAnimationOf(template))
      && DragTargetOf([e.children[1], e] + above).None?
      && DragTargetOf([e.children[2], e] + above) == Some(e)
      && (v.draggedEntity.None? ==> Tap(v, [e.children[1], e] + above).store == RemoveCard(v.store, cards[i]))
  {
    if BuildEntities(cards, template).Ran? && 0 <= i < |cards| {
      var e := BuildEntities(cards, template).state[i];
      var made := ModeledCard.Make(cards[i], template).state;
      assert e == PlacedAt(made, cards[i]);
      assert e.children == made.children && e.kind == made.kind;
      ControlsAct(v, e, above);
    }
  }

  /** The controls of any card node whose second and third children are the
      delete button and the drag handle. */
  lemma ControlsAct(v: ImmersiveView, e: ModeledCardNode, above: seq<Entity>)
    requires |e.children| == 3
    requires e.children[1] == ModeledCard.Control(DeleteButtonName) && e.children[2] == ModeledCard.Control(DragHandleName)
    ensures DragTargetOf([e.children[1], e] + above).None?
    ensures DragTargetOf([e.children[2], e] + above) == Some(e)
    ensures v.draggedEntity.None? ==> Tap(v, [e.children[1], e] + above).store == RemoveCard(v.store, e.kind.card)
  {
    assert NearestFrom([e.children[1], e] + above, 0, ModeledNoteCardType) == Some(1);
    assert NearestFrom([e.children[2], e] + above, 0, ModeledNoteCardType) == Some(1);
  }

  /** A whole drag session over a stored card: the card ends at the last
      location the drag reported, and no other card moves. */
  lemma DragSessionMovesOnlyThatCard(v: ImmersiveView, chain: seq<Entity>, location: Vec3)
    requires v.draggedEntity.None?
    requires DragTargetOf(chain).Some?
    requires HasId(v.store.cards, DragTargetOf(chain).value.kind.card.id)
    ensures var r := DragEnded(DragChanged(v, chain, location));
      var i := IndexOfId(v.store.cards, DragTargetOf(chain).value.kind.card.id).value;
      && r.draggedEntity.None?
      && |r.store.cards| == |v.store.cards|
      && r.store.cards[i] == v.store.cards[i].(position := location)
      && (forall j :: 0 <= j < |v.store.cards| && j != i ==> r.store.cards[j] == v.store.cards[j])
  {
  }
}
