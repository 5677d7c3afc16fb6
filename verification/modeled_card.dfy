/** `ModeledNoteCardEntity` (RealityKitEntities/ModeledNoteCardEntity.swift):
    a card built from the "_default" model of a loaded scene template,
    textured with the card's faces, with a delete button and a drag handle
    beside it. */
module ModeledCard {
  import opened Basics
  import opened Cards
  import opened Textures
  import opened Entities

  const DefaultModelName: string := "_default"
  const FlipSourceName: string := "flip"
  const FlipAnimationName: string := "default subtree animation"

  /** The front face: the English word on the card's colour. */
  function FrontImage(card: Card): (f: FrontFace)
    ensures f.text == card.english && f.background == CardColor(card.colorName)
    ensures f.fontSize == FrontFontSize(card.english)
  {
    ImageWithText(card.english, CardColor(card.colorName))
  }

  /** The back face, drawn by the texture generator (memo frame only for a memo). */
  function BackImage(card: Card): (b: BackFace)
    ensures b.memoFrame <==> card.memo != ""
    ensures b.english == card.english && b.japanese == card.japanese && b.background == CardColor(card.colorName)
    ensures b.partOfSpeech == card.partOfSpeech && b.memo == card.memo
    ensures b.englishFontSize == BackEnglishFontSize(card.english) && b.japaneseFontSize == BackJapaneseFontSize(card.japanese)
  {
    GeneratedBackSide(card.english, card.japanese, card.partOfSpeech, card.memo, CardColor(card.colorName))
  }

  /** The flip animation: the one named "default subtree animation" on the
      template's "flip" node, when both exist. */
  function FlipAnimationOf(template: Entity): (r: Option<string>)
    ensures r.Some? ==> r.value == FlipAnimationName
    ensures r.Some? <==> FindEntity(template, FlipSourceName).Some? &&
                         FlipAnimationName in FindEntity(template, FlipSourceName).value.animations
  {
    match FindEntity(template, FlipSourceName)
    case Some(source) => if FlipAnimationName in source.animations then Some(FlipAnimationName) else None
    case None => None
  }

  /** A tinted control plane with the given name and no children. */
  function Control(name: string): (e: Entity)
    ensures e.name == name && e.kind == ModelEntity && e.children == []
  {
    Entity(name, ModelEntity, IdentityTransform, Some([Tinted]), [], [])
  }

  /** The copy of the "_default" model with the card's faces applied below it. */
  function TexturedModel(card: Card, modelTemplate: Entity): (e: Entity)
    ensures e.(children := modelTemplate.children) == modelTemplate
  {
    ApplyTextures(modelTemplate, Some(FrontImage(card)), Some(BackImage(card)))
  }

  /** Every part below the copied model's root is retextured with this
      card's faces, unless the model has no part to texture. */
  lemma TexturedModelRetexturesParts(card: Card, modelTemplate: Entity, path: seq<nat>)
    ensures FindAllDescendants(modelTemplate, ModelType) == [] ==> TexturedModel(card, modelTemplate) == modelTemplate
    ensures FindAllDescendants(modelTemplate, ModelType) != [] && path != [] && NodeAt(modelTemplate, path).Some? ==>
      var e := TexturedModel(card, modelTemplate);
      && NodeAt(e, path).Some?
      && NodeAt(e, path).value.(children := []) ==
           Retexture(NodeAt(modelTemplate, path).value, FrontImage(card), BackImage(card)).(children := [])
  {
    if path != [] {
      ApplyTexturesPointwise(modelTemplate, FrontImage(card), BackImage(card), path);
    }
  }

  /** The card node over its base model, followed by the two controls. */
  function Assemble(card: Card, flipAnimation: Option<string>, baseModel: Entity): (e: ModeledCardNode)
    ensures e.kind == ModeledNoteCardEntity(card, flipAnimation)
    ensures e.children == [baseModel, Control(DeleteButtonName), Control(DragHandleName)]
  {
    Entity("", ModeledNoteCardEntity(card, flipAnimation), IdentityTransform, None, [], [baseModel, Control(DeleteButtonName), Control(DragHandleName)])
  }

  /** `init(card:sceneTemplate:)`: traps without a "_default" node; otherwise
      its copy, textured below its own root, becomes the first child, and
      the delete button and drag handle follow. */
  function Make(card: Card, template: Entity): (r: Run<ModeledCardNode>)
    ensures r.Crashed? <==> FindEntity(template, DefaultModelName).None?
    ensures r.Ran? ==> r.state.kind == ModeledNoteCardEntity(card, FlipAnimationOf(template))
    ensures r.Ran? ==> |r.state.children| == 3
    ensures r.Ran? ==> r.state.children[0] == TexturedModel(card, FindEntity(template, DefaultModelName).value)
    ensures r.Ran? ==> r.state.children[1] == Control(DeleteButtonName) && r.state.children[2] == Control(DragHandleName)
  {
    match FindEntity(template, DefaultModelName)
    case None => Crashed
    case Some(modelTemplate) => Ran(Assemble(card, FlipAnimationOf(template), TexturedModel(card, modelTemplate)))
  }

  /** A made card's base model is the template's "_default" node with each
      part below it retextured with this card's faces. */
  lemma MadeCardIsTextured(card: Card, template: Entity, path: seq<nat>)
    ensures Make(card, template).Ran? && path != [] ==>
      var model := FindEntity(template, DefaultModelName).value;
      var base := Make(card, template).state.children[0];
      && base.(children := model.children) == model
      && (FindAllDescendants(model, ModelType) != [] && NodeAt(model, path).Some? ==>
            NodeAt(base, path).Some? &&
            NodeAt(base, path).value.(children := []) ==
              Retexture(NodeAt(model, path).value, FrontImage(card), BackImage(card)).(children := []))
  {
    if Make(card, template).Ran? && path != [] {
      TexturedModelRetexturesParts(card, FindEntity(template, DefaultModelName).value, path);
    }
  }

  /** A request to play an animation on a node. */
  datatype PlayRequest = PlayAnimation(target: Entity, animation: string)

  /** `flip`: plays the flip animation on the base model, or does nothing
      when the template had none. */
  function Flip(e: ModeledCardNode): (r: Option<PlayRequest>)
    ensures r.None? <==> e.kind.flipAnimation.None? || e.children == []
    ensures r.Some? ==> r.value == PlayAnimation(e.children[0], e.kind.flipAnimation.value)
  {
    match e.kind.flipAnimation
    case None => None
    case Some(animation) => if e.children == [] then None else Some(PlayAnimation(e.children[0], animation))
  }

  /** A card built from a template flips exactly when the template carries
      the flip animation, and it plays that animation on the base model. */
  lemma MadeCardFlips(card: Card, template: Entity, baseModel: Entity)
    ensures var e := Assemble(card, FlipAnimationOf(template), baseModel);
      Flip(e).Some? <==> FlipAnimationOf(template).Some?
  {
  }
}
