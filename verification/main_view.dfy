/** `ContentView` (AirNote-VisionPro2/ContentView.swift): the main window's
    scene of hand-built cards, one per stored card, with a tap gesture that
    deletes, starts moving or flips a card, and the commit that stores a
    moved card's position. */
module MainView {
  import opened Basics
  import opened Cards
  import opened Store
  import opened Entities
  import NoteCard

  datatype MainView = MainView(
    store: CardStore,
    scene: seq<NoteCardNode>,
    redrawTrigger: bool,
    draggingCard: Option<NoteCardNode>)

  /** Where the drag handle puts a card: (0, 0, -0.5). */
  const LiftedPosition: Vec3 := Vec3(0x0000_0000, 0x0000_0000, 0xBF00_0000)

  // ---------------------------------------------------------------------------
  // Rendering

  /** The hand-built card for a stored card, at the card's stored pose. */
  function Placed(card: Card): (e: NoteCardNode)
    ensures e.kind == NoteCardEntity(card, false)
    ensures e.transform.translation == card.position && e.transform.rotation == Quaternion(card.rotation)
    ensures e.(transform := NoteCard.Make(card).transform) == NoteCard.Make(card)
  {
    PlacedAt(NoteCard.Make(card), card)
  }

  /** The moved card survives a redraw: while walking the new scene, the
      dragged card is replaced by every entity of a card with the same id, so
      the last such entity is kept; without one it stays as it was. */
  function Rebind(scene: seq<NoteCardNode>, dragging: Option<NoteCardNode>): (r: Option<NoteCardNode>)
    ensures dragging.None? ==> r == None
    ensures dragging.Some? ==> r.Some? && r.value.kind.card.id == dragging.value.kind.card.id
    ensures dragging.Some? && (forall i :: 0 <= i < |scene| ==> scene[i].kind.card.id != dragging.value.kind.card.id) ==>
      r == dragging
    ensures dragging.Some? && (exists i :: 0 <= i < |scene| && scene[i].kind.card.id == dragging.value.kind.card.id) ==>
      exists i :: 0 <= i < |scene| && r == Some(scene[i]) &&
        (forall k :: i < k < |scene| ==> scene[k].kind.card.id != dragging.value.kind.card.id)
  {
    if scene == [] then dragging
    else
      var next := if dragging.Some? && dragging.value.kind.card.id == scene[0].kind.card.id then Some(scene[0]) else dragging;
      var r := Rebind(scene[1..], next);
      assert forall k :: 1 <= k < |scene| ==> scene[k] == scene[1..][k - 1];
      r
  }

  function Scene(cards: seq<Card>): (scene: seq<NoteCardNode>)
    ensures |scene| == |cards|
    ensures forall i :: 0 <= i < |cards| ==> scene[i] == Placed(cards[i])
  {
    seq(|cards|, i requires 0 <= i < |cards| => Placed(cards[i]))
  }

  /** The scene is rebuilt from every stored card (no colour filter here),
      each card shown on its front at its stored pose. */
  function Render(v: MainView): (r: MainView)
    ensures |r.scene| == |v.store.cards|
    ensures forall i :: 0 <= i < |v.store.cards| ==>
      r.scene[i].kind == NoteCardEntity(v.store.cards[i], false) &&
      r.scene[i].transform.translation == v.store.cards[i].position &&
      r.scene[i].transform.rotation == Quaternion(v.store.cards[i].rotation)
    ensures forall i :: 0 <= i < |v.store.cards| ==> r.scene[i] == Placed(v.store.cards[i])
    ensures r.draggingCard == Rebind(r.scene, v.draggingCard)
    ensures r.store == v.store && r.redrawTrigger == v.redrawTrigger
  {
    var scene := Scene(v.store.cards);
    v.(scene := scene, draggingCard := Rebind(scene, v.draggingCard))
  }

  // ---------------------------------------------------------------------------
  // The tap gesture

  /** What a tap does. */
  datatype TapOutcome =
    | Removed(card: Card)
    | StartedDrag(entity: NoteCardNode)
    | Flipped(entity: NoteCardNode)
    | NoAction

  /** Every card entity in a hit chain has its base entity, as the card
      initializer always adds it. */
  predicate CardsHaveBases(chain: seq<Entity>) {
    forall i :: 0 <= i < |chain| && chain[i].kind.NoteCardEntity? ==> |chain[i].children| >= 1
  }

  /** The action of the node at `j` on the walk from the hit node to the
      root: a delete button or drag handle acts on the nearest card entity
      at or above it; a control without one, or any other node, does nothing. */
  function ControlAction(chain: seq<Entity>, j: nat): (r: Option<TapOutcome>)
    requires j < |chain| && CardsHaveBases(chain)
    ensures r.Some? <==> (chain[j].name == DeleteButtonName || chain[j].name == DragHandleName) &&
                         NearestFrom(chain, j, NoteCardType).Some?
    ensures r.Some? && chain[j].name == DeleteButtonName ==>
      r.value == Removed(chain[NearestFrom(chain, j, NoteCardType).value].kind.card)
    ensures r.Some? && chain[j].name == DragHandleName ==>
      r.value == StartedDrag(chain[NearestFrom(chain, j, NoteCardType).value])
  {
    if chain[j].name == DeleteButtonName || chain[j].name == DragHandleName then
      match NearestFrom(chain, j, NoteCardType)
      case Some(k) =>
        var card: NoteCardNode := chain[k];
        Some(if chain[j].name == DeleteButtonName then Removed(card.kind.card) else StartedDrag(card))
      case None => None
    else None
  }

  /** After the walk found no acting control: the hit node's grandparent
      flips when it is a card entity. */
  function FallbackFlip(chain: seq<Entity>): (r: TapOutcome)
    requires CardsHaveBases(chain)
    ensures r.Flipped? <==> |chain| > 2 && chain[2].kind.NoteCardEntity?
    ensures r.Flipped? ==> r.entity == chain[2]
    ensures !r.Flipped? ==> r == NoAction
  {
    if |chain| > 2 && chain[2].kind.NoteCardEntity? then Flipped(chain[2]) else NoAction
  }

  predicate Acted(r: TapOutcome) {
    r.Removed? || r.StartedDrag?
  }

  /** The tap's outcome from position `j` of the walk: the first acting
      control from there up, or the fallback flip when there is none. */
  function TapFrom(chain: seq<Entity>, j: nat): (r: TapOutcome)
    requires CardsHaveBases(chain)
    decreases |chain| - j
    ensures Acted(r) <==> exists i :: j <= i < |chain| && ControlAction(chain, i).Some?
    ensures Acted(r) ==>
      exists i :: j <= i < |chain| && ControlAction(chain, i) == Some(r) &&
        (forall k :: j <= k < i ==> ControlAction(chain, k).None?)
    ensures !Acted(r) ==> r == FallbackFlip(chain)
  {
    if j >= |chain| then FallbackFlip(chain)
    else match ControlAction(chain, j)
      case Some(o) => o
      case None => TapFrom(chain, j + 1)
  }

  /** The tap gesture's handler: walk from the hit node towards the root and
      stop at the first control that finds its card; otherwise flip the
      grandparent card, if there is one. */
  method WalkTap(chain: seq<Entity>) returns (r: TapOutcome)
    requires CardsHaveBases(chain)
    ensures r == TapFrom(chain, 0)
    ensures Acted(r) ==> exists i :: 0 <= i < |chain| && ControlAction(chain, i) == Some(r)
    ensures !Acted(r) ==> forall i :: 0 <= i < |chain| ==> ControlAction(chain, i).None?
  {
    var j := 0;
    while j < |chain|
      invariant 0 <= j <= |chain|
      invariant TapFrom(chain, j) == TapFrom(chain, 0)
      invariant forall k :: 0 <= k < j ==> ControlAction(chain, k).None?
    {
      var name := chain[j].name;
      if name == DeleteButtonName || name == DragHandleName {
        var k := FindNearestAncestor(chain[j..], NoteCardType);
        if k.Some? {
          NearestFromSuffix(chain, j, NoteCardType);
          var card: NoteCardNode := chain[j + k.value];
          if name == DeleteButtonName {
            return Removed(card.kind.card);
          } else {
            return StartedDrag(card);
          }
        }
        NearestFromSuffix(chain, j, NoteCardType);
      }
      j := j + 1;
    }
    if |chain| > 2 && chain[2].kind.NoteCardEntity? {
      r := Flipped(chain[2]);
    } else {
      r := NoAction;
    }
  }

  /** Searching from `j` is searching the suffix that starts at `j`. */
  lemma NearestFromSuffix(chain: seq<Entity>, j: nat, t: EntityType)
    requires j <= |chain|
    ensures NearestFrom(chain, j, t).Some? <==> NearestFrom(chain[j..], 0, t).Some?
    ensures NearestFrom(chain, j, t).Some? ==> NearestFrom(chain, j, t).value == j + NearestFrom(chain[j..], 0, t).value
  {
    var a := NearestFrom(chain, j, t);
    var b := NearestFrom(chain[j..], 0, t);
    if a.Some? && b.Some? {
      assert chain[j..][a.value - j] == chain[a.value];
      assert chain[j + b.value] == chain[j..][b.value];
    }
  }

  /** The walk ends at the first control that acts, wherever it is. */
  lemma FirstActingControlDecides(chain: seq<Entity>)
    requires CardsHaveBases(chain)
    ensures forall j ::
      (0 <= j < |chain| && ControlAction(chain, j).Some? &&
       (forall k :: 0 <= k < j ==> ControlAction(chain, k).None?)) ==>
      TapFrom(chain, 0) == ControlAction(chain, j).value
  {
    forall j | 0 <= j < |chain| && ControlAction(chain, j).Some? &&
      (forall k :: 0 <= k < j ==> ControlAction(chain, k).None?)
      ensures TapFrom(chain, 0) == ControlAction(chain, j).value
    {
      FirstActingIsUnique(chain, j);
    }
  }

  /** Two first acting controls are the same one. */
  lemma FirstActingIsUnique(chain: seq<Entity>, j: nat)
    requires CardsHaveBases(chain)
    requires j < |chain| && ControlAction(chain, j).Some?
    requires forall k :: 0 <= k < j ==> ControlAction(chain, k).None?
    ensures TapFrom(chain, 0) == ControlAction(chain, j).value
  {
    var r := TapFrom(chain, 0);
    assert Acted(r);
    var i :| 0 <= i < |chain| && ControlAction(chain, i) == Some(r) &&
      (forall k :: 0 <= k < i ==> ControlAction(chain, k).None?);
    assert i == j;
  }

  /** The tap's effect: a deleted card leaves the store and the scene is
      redrawn; a started move lifts the card to (0, 0, -0.5) and remembers
      it as the moved card; a flip turns that card in the scene. */
  function ApplyTap(v: MainView, outcome: TapOutcome): (r: MainView)
    ensures outcome.Removed? ==>
      r == v.(store := RemoveCard(v.store, outcome.card), redrawTrigger := !v.redrawTrigger)
    ensures outcome.StartedDrag? ==>
      && r.draggingCard.Some?
      && r.draggingCard.value.kind == outcome.entity.kind
      && r.draggingCard.value.transform.translation == LiftedPosition
      && r.draggingCard.value.(transform := outcome.entity.transform) == outcome.entity
      && r.store == v.store && r.redrawTrigger == v.redrawTrigger
      && r.scene == Replace(v.scene, outcome.entity, r.draggingCard.value)
    ensures outcome.Flipped? ==> r.store == v.store && r.draggingCard == v.draggingCard && |r.scene| == |v.scene|
    ensures outcome.Flipped? ==> r.redrawTrigger == v.redrawTrigger
    ensures outcome.Flipped? ==> forall i :: 0 <= i < |v.scene| ==>
      r.scene[i] == (if v.scene[i] == outcome.entity then NoteCard.Flip(v.scene[i]) else v.scene[i])
    ensures outcome.NoAction? ==> r == v
  {
    match outcome
    case Removed(card) => v.(store := RemoveCard(v.store, card), redrawTrigger := !v.redrawTrigger)
    case StartedDrag(e) =>
      var lifted: NoteCardNode := e.(transform := e.transform.(translation := LiftedPosition));
      v.(draggingCard := Some(lifted), scene := Replace(v.scene, e, lifted))
    case Flipped(e) => v.(scene := Replace(v.scene, e, NoteCard.Flip(e)))
    case NoAction => v
  }

  /** The scene after the tapped entity (every entity equal to it) became `after`. */
  function Replace(scene: seq<NoteCardNode>, before: NoteCardNode, after: NoteCardNode): (r: seq<NoteCardNode>)
    ensures |r| == |scene|
    ensures forall i :: 0 <= i < |scene| ==> r[i] == (if scene[i] == before then after else scene[i])
  {
    seq(|scene|, i requires 0 <= i < |scene| => if scene[i] == before then after else scene[i])
  }

  /** The tap gesture's `onEnded` on the node that starts `chain`: the
      outcome of the walk (`WalkTap` computes it) applied to the view. A
      chain without a card changes nothing; otherwise only a card on the
      chain can leave the store or become the moved card. */
  function Tap(v: MainView, chain: seq<Entity>): (r: MainView)
    requires CardsHaveBases(chain)
    ensures (forall i :: 0 <= i < |chain| ==> !chain[i].kind.NoteCardEntity?) ==> r == v
    ensures (forall i :: 0 <= i < |chain| ==> ControlAction(chain, i).None?) ==> r == ApplyTap(v, FallbackFlip(chain))
    ensures forall j ::
      (0 <= j < |chain| && ControlAction(chain, j).Some? &&
       (forall k :: 0 <= k < j ==> ControlAction(chain, k).None?)) ==> r == ApplyTap(v, ControlAction(chain, j).value)
    ensures r.store == v.store ||
      (exists i :: 0 <= i < |chain| && chain[i].kind.NoteCardEntity? &&
        r.store == RemoveCard(v.store, chain[i].kind.card))
    ensures r.draggingCard == v.draggingCard ||
      (exists i :: 0 <= i < |chain| && chain[i].kind.NoteCardEntity? &&
        r.draggingCard == Some(chain[i].(transform := chain[i].transform.(translation := LiftedPosition))))
  {
    FirstActingControlDecides(chain);
    ActionNamesCardOnChain(chain);
    ApplyTap(v, TapFrom(chain, 0))
  }

  /** A removal or a started move is about a card found on the chain. */
  lemma ActionNamesCardOnChain(chain: seq<Entity>)
    requires CardsHaveBases(chain)
    ensures Acted(TapFrom(chain, 0)) ==>
      exists i :: 0 <= i < |chain| && chain[i].kind.NoteCardEntity? &&
        (TapFrom(chain, 0) == Removed(chain[i].kind.card) || TapFrom(chain, 0) == StartedDrag(chain[i]))
  {
    var o := TapFrom(chain, 0);
    if Acted(o) {
      var j :| 0 <= j < |chain| && ControlAction(chain, j) == Some(o);
      var i := NearestFrom(chain, j, NoteCardType).value;
      assert chain[i].kind.NoteCardEntity?;
    }
  }

  // ---------------------------------------------------------------------------
  // Committing a move

  /** The change handler of the moved card: when the card is still stored,
      its first copy takes the entity's position, the store is saved, the
      move ends and the scene is redrawn; otherwise nothing changes and the
      card stays the moved card. */
  function CommitDrag(v: MainView): (r: MainView)
    ensures v.draggingCard.None? ==> r == v
    ensures v.draggingCard.Some? && !HasId(v.store.cards, v.draggingCard.value.kind.card.id) ==> r == v
    ensures v.draggingCard.Some? && HasId(v.store.cards, v.draggingCard.value.kind.card.id) ==>
      && r.store == CommitPosition(v.store, v.draggingCard.value.kind.card.id, v.draggingCard.value.transform.translation)
      && r.draggingCard.None?
      && r.redrawTrigger == !v.redrawTrigger
      && r.scene == v.scene
  {
    match v.draggingCard
    case None => v
    case Some(d) =>
      if HasId(v.store.cards, d.kind.card.id) then
        v.(store := CommitPosition(v.store, d.kind.card.id, d.transform.translation), draggingCard := None, redrawTrigger := !v.redrawTrigger)
      else v
  }

  /** `onAppear`: the stored cards are loaded. */
  function Appear(v: MainView): (r: Run<MainView>)
    ensures r.Crashed? <==> LoadCards(v.store).Crashed?
    ensures r.Ran? ==> r.state == v.(store := LoadCards(v.store).state)
  {
    match LoadCards(v.store)
    case Crashed => Crashed
    case Ran(s) => Ran(v.(store := s))
  }

  // ---------------------------------------------------------------------------
  // Taps on a rendered card

  /** Nodes above a card in the scene: no controls and no other cards. */
  predicate PlainAbove(above: seq<Entity>) {
    forall i :: 0 <= i < |above| ==>
      above[i].name != DeleteButtonName && above[i].name != DragHandleName && !above[i].kind.NoteCardEntity?
  }

  /** The hit chain of the node at `path` in a rendered card. */
  function HitChain(card: Card, path: seq<nat>, above: seq<Entity>): seq<Entity>
    requires NodeAt(Placed(card), path).Some?
  {
    AncestorChain(Placed(card), path).value + above
  }

  /** One step of a hit chain: the chain below child `i`, then `e`. */
  lemma AncestorChainStep(e: Entity, i: nat, rest: seq<nat>, up: seq<Entity>)
    requires i < |e.children| && AncestorChain(e.children[i], rest) == Some(up)
    ensures AncestorChain(e, [i] + rest) == Some(up + [e])
  {
    assert ([i] + rest)[1..] == rest;
  }

  /** The hit chains of a rendered card's nodes, node by node. */
  lemma RenderedCardChains(card: Card)
    ensures var e := Placed(card);
      var base := e.children[0];
      |base.children| == 3 && |base.children[0].children| == 1 && |base.children[0].children[0].children| == 1
    ensures var e := Placed(card);
      var base := e.children[0];
      var front := base.children[0];
      var button := front.children[0];
      && AncestorChain(e, NoteCard.GlyphPath) == Some([button.children[0], button, front, base, e])
      && AncestorChain(e, NoteCard.DeleteButtonPath) == Some([button, front, base, e])
      && AncestorChain(e, NoteCard.FrontPlanePath) == Some([front, base, e])
      && AncestorChain(e, NoteCard.BackPlanePath) == Some([base.children[1], base, e])
      && AncestorChain(e, NoteCard.DragHandlePath) == Some([base.children[2], base, e])
    ensures var e := Placed(card);
      var base := e.children[0];
      && base.name == "" && base.kind == PlainEntity
      && base.children[0].name == "" && base.children[0].kind == ModelEntity
      && base.children[1].name == "" && base.children[1].kind == ModelEntity
      && base.children[2].name == DragHandleName
      && base.children[0].children[0].name == DeleteButtonName
      && base.children[0].children[0].children[0].name == ""
      && e.name == "" && e.kind == NoteCardEntity(card, false)
  {
    var e := Placed(card);
    var base := e.children[0];
    var front := base.children[0];
    var button := front.children[0];
    var glyph := button.children[0];
    assert NoteCard.GlyphPath == [0] + ([0] + ([0] + ([0] + [])));
    assert NoteCard.DeleteButtonPath == [0] + ([0] + ([0] + []));
    assert NoteCard.FrontPlanePath == [0] + ([0] + []);
    assert NoteCard.BackPlanePath == [0] + ([1] + []);
    assert NoteCard.DragHandlePath == [0] + ([2] + []);
    // Glyph
    AncestorChainStep(button, 0, [], [glyph]);
    assert [glyph] + [button] == [glyph, button];
    AncestorChainStep(front, 0, [0] + [], [glyph, button]);
    assert [glyph, button] + [front] == [glyph, button, front];
    AncestorChainStep(base, 0, [0] + ([0] + []), [glyph, button, front]);
    assert [glyph, button, front] + [base] == [glyph, button, front, base];
    AncestorChainStep(e, 0, [0] + ([0] + ([0] + [])), [glyph, button, front, base]);
    assert [glyph, button, front, base] + [e] == [glyph, button, front, base, e];
    // Delete button
    AncestorChainStep(front, 0, [], [button]);
    assert [button] + [front] == [button, front];
    AncestorChainStep(base, 0, [0] + [], [button, front]);
    assert [button, front] + [base] == [button, front, base];
    AncestorChainStep(e, 0, [0] + ([0] + []), [button, front, base]);
    assert [button, front, base] + [e] == [button, front, base, e];
    // Front plane
    AncestorChainStep(base, 0, [], [front]);
    assert [front] + [base] == [front, base];
    AncestorChainStep(e, 0, [0] + [], [front, base]);
    assert [front, base] + [e] == [front, base, e];
    // Back plane
    AncestorChainStep(base, 1, [], [base.children[1]]);
    assert [base.children[1]] + [base] == [base.children[1], base];
    AncestorChainStep(e, 0, [1] + [], [base.children[1], base]);
    assert [base.children[1], base] + [e] == [base.children[1], base, e];
    // Drag handle
    AncestorChainStep(base, 2, [], [base.children[2]]);
    assert [base.children[2]] + [base] == [base.children[2], base];
    AncestorChainStep(e, 0, [2] + [], [base.children[2], base]);
    assert [base.children[2], base] + [e] == [base.children[2], base, e];
  }

  /** A rendered card's chain above a path, with the scene's nodes above
      it, has no card without a base. */
  lemma ChainHasBases(card: Card, below: seq<Entity>, above: seq<Entity>)
    requires PlainAbove(above)
    requires forall i :: 0 <= i < |below| ==> !below[i].kind.NoteCardEntity?
    ensures CardsHaveBases(below + [Placed(card)] + above)
  {
    var chain := below + [Placed(card)] + above;
    forall i | 0 <= i < |chain|
      ensures chain[i].kind.NoteCardEntity? ==> |chain[i].children| >= 1
    {
      if i < |below| {
        assert chain[i] == below[i];
      } else if i > |below| {
        assert chain[i] == above[i - |below| - 1];
      }
    }
  }

  /** Every entry of the rendered scene is the hand-built card of its stored
      card at that card's pose, so the scenarios below apply to it: a tap on
      its delete button removes exactly that card. */
  lemma RenderedSceneIsPlaced(v: MainView, i: int, above: seq<Entity>)
    ensures 0 <= i < |v.store.cards| ==>
      var card := v.store.cards[i];
      var e := Render(v).scene[i];
      && e.(transform := NoteCard.Make(card).transform) == NoteCard.Make(card)
      && e.transform.translation == card.position
      && (PlainAbove(above) ==>
            NodeAt(e, NoteCard.DeleteButtonPath).Some? &&
            CardsHaveBases(AncestorChain(e, NoteCard.DeleteButtonPath).value + above) &&
            TapFrom(AncestorChain(e, NoteCard.DeleteButtonPath).value + above, 0) == Removed(card))
  {
    if 0 <= i < |v.store.cards| {
      var card := v.store.cards[i];
      assert Render(v).scene[i] == Placed(card);
      if PlainAbove(above) {
        TapOnDeleteButtonRemoves(card, above);
        assert HitChain(card, NoteCard.DeleteButtonPath, above) ==
          AncestorChain(Placed(card), NoteCard.DeleteButtonPath).value + above;
      }
    }
  }

  /** Tapping the delete button removes the card. */
  lemma TapOnDeleteButtonRemoves(card: Card, above: seq<Entity>)
    requires PlainAbove(above)
    ensures NodeAt(Placed(card), NoteCard.DeleteButtonPath).Some?
    ensures CardsHaveBases(HitChain(card, NoteCard.DeleteButtonPath, above))
    ensures TapFrom(HitChain(card, NoteCard.DeleteButtonPath, above), 0) == Removed(card)
  {
    RenderedCardChains(card);
    var e := Placed(card);
    var front := e.children[0].children[0];
    var below := [front.children[0], front, e.children[0]];
    var chain := HitChain(card, NoteCard.DeleteButtonPath, above);
    assert chain == below + [e] + above;
    ChainHasBases(card, below, above);
    assert chain[0] == below[0] && chain[1] == below[1] && chain[2] == below[2] && chain[3] == e;
    assert NearestFrom(chain, 0, NoteCardType) == Some(3);
  }

  /** Tapping the glyph drawn on the delete button removes the card too:
      the walk reaches the button one step up. */
  lemma TapOnGlyphRemoves(card: Card, above: seq<Entity>)
    requires PlainAbove(above)
    ensures NodeAt(Placed(card), NoteCard.GlyphPath).Some?
    ensures CardsHaveBases(HitChain(card, NoteCard.GlyphPath, above))
    ensures TapFrom(HitChain(card, NoteCard.GlyphPath, above), 0) == Removed(card)
  {
    RenderedCardChains(card);
    var e := Placed(card);
    var front := e.children[0].children[0];
    var below := [front.children[0].children[0], front.children[0], front, e.children[0]];
    var chain := HitChain(card, NoteCard.GlyphPath, above);
    assert chain == below + [e] + above;
    ChainHasBases(card, below, above);
    assert chain[0] == below[0] && chain[1] == below[1] && chain[2] == below[2] && chain[3] == below[3] && chain[4] == e;
    assert NearestFrom(chain, 1, NoteCardType) == Some(4);
    assert ControlAction(chain, 0).None?;
    assert ControlAction(chain, 1) == Some(Removed(card));
  }

  /** Tapping the drag handle starts moving its card. */
  lemma TapOnDragHandleStartsDrag(card: Card, above: seq<Entity>)
    requires PlainAbove(above)
    ensures NodeAt(Placed(card), NoteCard.DragHandlePath).Some?
    ensures CardsHaveBases(HitChain(card, NoteCard.DragHandlePath, above))
    ensures TapFrom(HitChain(card, NoteCard.DragHandlePath, above), 0) == StartedDrag(Placed(card))
  {
    RenderedCardChains(card);
    var e := Placed(card);
    var below := [e.children[0].children[2], e.children[0]];
    var chain := HitChain(card, NoteCard.DragHandlePath, above);
    assert chain == below + [e] + above;
    ChainHasBases(card, below, above);
    assert chain[0] == below[0] && chain[1] == below[1] && chain[2] == e;
    assert NearestFrom(chain, 0, NoteCardType) == Some(2);
    assert ControlAction(chain, 0) == Some(StartedDrag(e));
  }

  /** Tapping the drag handle lifts the card, and the commit then stores
      (0, 0, -0.5) as the position of the first stored card with its id. */
  lemma DragHandleMovesCardForward(v: MainView, card: Card, above: seq<Entity>)
    requires PlainAbove(above)
    requires HasId(v.store.cards, card.id)
    ensures NodeAt(Placed(card), NoteCard.DragHandlePath).Some?
    ensures CardsHaveBases(HitChain(card, NoteCard.DragHandlePath, above))
    ensures var r := CommitDrag(Tap(v, HitChain(card, NoteCard.DragHandlePath, above)));
      var i := IndexOfId(v.store.cards, card.id).value;
      && r.draggingCard.None?
      && |r.store.cards| == |v.store.cards|
      && r.store.cards[i] == v.store.cards[i].(position := LiftedPosition)
      && (forall j :: 0 <= j < |v.store.cards| && j != i ==> r.store.cards[j] == v.store.cards[j])
  {
    TapOnDragHandleStartsDrag(card, above);
    var lifted := ApplyTap(v, StartedDrag(Placed(card)));
    assert lifted.store == v.store;
    assert lifted.draggingCard.value.kind.card.id == card.id;
    assert lifted.draggingCard.value.transform.translation == LiftedPosition;
  }

  /** Tapping either face flips the card. */
  lemma TapOnFaceFlips(card: Card, above: seq<Entity>)
    requires PlainAbove(above)
    ensures NodeAt(Placed(card), NoteCard.FrontPlanePath).Some? && NodeAt(Placed(card), NoteCard.BackPlanePath).Some?
    ensures CardsHaveBases(HitChain(card, NoteCard.FrontPlanePath, above))
    ensures TapFrom(HitChain(card, NoteCard.FrontPlanePath, above), 0) == Flipped(Placed(card))
    ensures CardsHaveBases(HitChain(card, NoteCard.BackPlanePath, above))
    ensures TapFrom(HitChain(card, NoteCard.BackPlanePath, above), 0) == Flipped(Placed(card))
  {
    RenderedCardChains(card);
    var e := Placed(card);
    var base := e.children[0];
    var front := HitChain(card, NoteCard.FrontPlanePath, above);
    assert front == [base.children[0], base] + [e] + above;
    ChainHasBases(card, [base.children[0], base], above);
    NoControlActs(front, [base.children[0], base], e, above);
    var back := HitChain(card, NoteCard.BackPlanePath, above);
    assert back == [base.children[1], base] + [e] + above;
    ChainHasBases(card, [base.children[1], base], above);
    NoControlActs(back, [base.children[1], base], e, above);
  }

  /** Tapping the card node itself does nothing: no control is on the walk
      and no card sits two levels up. */
  lemma TapOnCardNodeDoesNothing(card: Card, above: seq<Entity>)
    requires PlainAbove(above)
    ensures CardsHaveBases(HitChain(card, [], above))
    ensures TapFrom(HitChain(card, [], above), 0) == NoAction
  {
    var e := Placed(card);
    var chain := HitChain(card, [], above);
    assert chain == [] + [e] + above;
    ChainHasBases(card, [], above);
    NoControlActs(chain, [], e, above);
  }

  /** A chain without control names has no acting control. */
  lemma NoControlActs(chain: seq<Entity>, below: seq<Entity>, e: Entity, above: seq<Entity>)
    requires chain == below + [e] + above && CardsHaveBases(chain)
    requires forall i :: 0 <= i < |below| ==> below[i].name != DeleteButtonName && below[i].name != DragHandleName
    requires e.name != DeleteButtonName && e.name != DragHandleName && PlainAbove(above)
    ensures !Acted(TapFrom(chain, 0))
  {
    forall i | 0 <= i < |chain|
      ensures ControlAction(chain, i).None?
    {
      if i < |below| {
        assert chain[i] == below[i];
      } else if i > |below| {
        assert chain[i] == above[i - |below| - 1];
      }
    }
  }
}
