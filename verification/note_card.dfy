/** `NoteCardEntity` (RealityKitEntities/NoteCardEntity.swift): the
    hand-built card of the main window. Its tree is
      card -> base -> [front plane -> [delete button -> [glyph]], back plane, drag handle]
    and flipping it turns the base half a turn about the y axis. */
module NoteCard {
  import opened Basics
  import opened Cards
  import opened Textures
  import opened Entities

  /** Paths from the card node to its named controls. */
  const BasePath: seq<nat> := [0]
  const FrontPlanePath: seq<nat> := [0, 0]
  const DeleteButtonPath: seq<nat> := [0, 0, 0]
  const GlyphPath: seq<nat> := [0, 0, 0, 0]
  const BackPlanePath: seq<nat> := [0, 1]
  const DragHandlePath: seq<nat> := [0, 2]

  function FrontPlane(card: Card): Entity {
    var glyph := Entity("", ModelEntity, IdentityTransform, Some([Tinted]), [], []);
    var deleteButton := Entity(DeleteButtonName, ModelEntity, IdentityTransform, Some([Tinted]), [], [glyph]);
    Entity("", ModelEntity, IdentityTransform, Some([FrontTextured(ImageWithText(card.english, Cream))]), [], [deleteButton])
  }

  /** The back plane faces the other way: half a turn about the y axis. */
  function BackPlane(card: Card): Entity {
    var back := NoteCardBackSide(card.english, card.japanese, card.partOfSpeech, card.memo, Cream);
    Entity("", ModelEntity, IdentityTransform.(rotation := AboutY(HalfTurn)), Some([BackTextured(back)]), [], [])
  }

  /** `init(card:)`: a new card shows its front (`isFlipped` is false). Both
      faces use the fixed cream background, whatever the card's colour. */
  function Make(card: Card): (e: NoteCardNode)
    ensures e.kind == NoteCardEntity(card, false)
    ensures NodeAt(e, DeleteButtonPath).Some? && NodeAt(e, DeleteButtonPath).value.name == DeleteButtonName
    ensures NodeAt(e, DeleteButtonPath).value in NodeAt(e, FrontPlanePath).value.children
    ensures NodeAt(e, DragHandlePath).Some? && NodeAt(e, DragHandlePath).value.name == DragHandleName
    ensures NodeAt(e, DragHandlePath).value in NodeAt(e, BasePath).value.children
    ensures NodeAt(e, FrontPlanePath).Some?
    ensures NodeAt(e, FrontPlanePath).value.model == Some([FrontTextured(ImageWithText(card.english, Cream))])
    ensures NodeAt(e, FrontPlanePath).value.model.value[0].front.fontSize == FrontFontSize(card.english)
    ensures NodeAt(e, BackPlanePath).Some? && NodeAt(e, BackPlanePath).value.transform.rotation == AboutY(HalfTurn)
    ensures NodeAt(e, BackPlanePath).value.model == Some([BackTextured(NoteCardBackSide(card.english, card.japanese, card.partOfSpeech, card.memo, Cream))])
  {
    var dragHandle := Entity(DragHandleName, ModelEntity, IdentityTransform, Some([Tinted]), [], []);
    var base := Entity("", PlainEntity, IdentityTransform, None, [], [FrontPlane(card), BackPlane(card), dragHandle]);
    var e := Entity("", NoteCardEntity(card, false), IdentityTransform, None, [], [base]);
    assert NodeAt(e, DragHandlePath) == Some(dragHandle);
    assert NodeAt(e, DeleteButtonPath) == Some(FrontPlane(card).children[0]);
    e
  }

  /** The angle the base turns to: half a turn when flipped, none otherwise. */
  function TargetAngle(isFlipped: bool): (a: Angle)
    ensures a == HalfTurn <==> isFlipped
  {
    if isFlipped then HalfTurn else NoTurn
  }

  /** `flip`: toggles `isFlipped` and moves the base to the target transform,
      which keeps the base's scale and translation and replaces its rotation. */
  function Flip(e: NoteCardNode): (r: NoteCardNode)
    ensures r.kind.isFlipped == !e.kind.isFlipped
    ensures r.kind.card == e.kind.card
    ensures r.children[0].transform.scale == e.children[0].transform.scale
    ensures r.children[0].transform.translation == e.children[0].transform.translation
    ensures r.children[0].transform.rotation == AboutY(if r.kind.isFlipped then HalfTurn else NoTurn)
    ensures r.children[0].(transform := e.children[0].transform) == e.children[0]
    ensures r.children[1..] == e.children[1..]
    ensures r.(kind := e.kind, children := e.children) == e
  {
    var flipped := !e.kind.isFlipped;
    var base := e.children[0];
    var target := Transform(base.transform.scale, AboutY(TargetAngle(flipped)), base.transform.translation);
    e.(kind := e.kind.(isFlipped := flipped), children := e.children[0 := base.(transform := target)])
  }

  function FlipTimes(e: NoteCardNode, n: nat): NoteCardNode
    decreases n
  {
    if n == 0 then e else Flip(FlipTimes(e, n - 1))
  }

  /** Two flips restore the face shown. */
  lemma FlipTwiceRestoresFace(e: NoteCardNode)
    ensures Flip(Flip(e)).kind == e.kind
  {
  }

  /** After n flips the card shows its back exactly when it started on its
      front and n is odd, or started on its back and n is even. */
  lemma {:induction false} FlipTimesParity(e: NoteCardNode, n: nat)
    ensures FlipTimes(e, n).kind.isFlipped == (e.kind.isFlipped != (n % 2 == 1))
    ensures FlipTimes(e, n).kind.card == e.kind.card
  {
    if n > 0 {
      FlipTimesParity(e, n - 1);
    }
  }
}
