/** The scene graph as the gesture and texture rules see it: a tree of named
    nodes, each with a kind, an optional list of model materials, the names
    of its available animations, and its children in order. The searches over
    it come from AirNote-VisionPro2/ImmersiveView.swift (`findNearestAncestor`)
    and RealityKitEntities/ModeledNoteCardEntity.swift (`findAllDescendants`,
    the material dispatch of `applyTextures`). */
module Entities {
  import opened Basics
  import opened Seqs
  import opened Cards
  import opened Textures

  /** A material of a model component: one loaded with the template (only
      these carry a name), one showing a card face, or a plain tint. */
  datatype Material =
    | NamedMaterial(name: string)
    | FrontTextured(front: FrontFace)
    | BackTextured(back: BackFace)
    | Tinted

  /** The class of a node. The card entities carry their card and their own
      state. */
  datatype Kind =
    | PlainEntity
    | ModelEntity
    | NoteCardEntity(card: Card, isFlipped: bool)
    | ModeledNoteCardEntity(card: Card, flipAnimation: Option<string>)

  /** The classes a cast `as? T` can test for. */
  datatype EntityType = ModelType | NoteCardType | ModeledNoteCardType

  datatype Entity = Entity(
    name: string,
    kind: Kind,
    transform: Transform,
    model: Option<seq<Material>>,
    animations: seq<string>,
    children: seq<Entity>)

  /** A node whose static type is `ModeledNoteCardEntity`. */
  type ModeledCardNode = e: Entity | e.kind.ModeledNoteCardEntity?
    witness Entity("", ModeledNoteCardEntity(BlankCard, None), IdentityTransform, None, [], [])

  /** A node whose static type is `NoteCardEntity`; its base entity is its first child. */
  type NoteCardNode = e: Entity | e.kind.NoteCardEntity? && |e.children| >= 1
    witness Entity("", NoteCardEntity(BlankCard, false), IdentityTransform, None, [],
                   [Entity("", PlainEntity, IdentityTransform, None, [], [])])

  /** The names both card kinds give their two controls. */
  const DeleteButtonName: string := "deleteButton"
  const DragHandleName: string := "dragHandle"

  predicate IsA(e: Entity, t: EntityType) {
    match t
    case ModelType => e.kind.ModelEntity?
    case NoteCardType => e.kind.NoteCardEntity?
    case ModeledNoteCardType => e.kind.ModeledNoteCardEntity?
  }

  /** A node placed at a card's stored pose: `position` and `orientation`
      set from the card, the scale left as it was. */
  function PlacedAt(e: Entity, card: Card): (r: Entity)
    ensures r.transform.translation == card.position
    ensures r.transform.rotation == Quaternion(card.rotation)
    ensures r.transform.scale == e.transform.scale
    ensures r.(transform := e.transform) == e
  {
    e.(transform := e.transform.(translation := card.position, rotation := Quaternion(card.rotation)))
  }

  // ---------------------------------------------------------------------------
  // Paths and parent chains

  /** The node reached from `e` by taking the given child indices. */
  function NodeAt(e: Entity, path: seq<nat>): Option<Entity>
    decreases path
  {
    if path == [] then Some(e)
    else if path[0] < |e.children| then NodeAt(e.children[path[0]], path[1..])
    else None
  }

  /** Each node of the chain is a child of the next one. */
  predicate IsParentChain(chain: seq<Entity>) {
    forall i :: 0 <= i < |chain| - 1 ==> chain[i] in chain[i + 1].children
  }

  /** The node at `path` followed by its ancestors up to `e`: what walking
      `parent` from a hit node visits. */
  function AncestorChain(e: Entity, path: seq<nat>): (r: Option<seq<Entity>>)
    decreases path
    ensures r.Some? <==> NodeAt(e, path).Some?
    ensures r.Some? ==> |r.value| == |path| + 1 && r.value[0] == NodeAt(e, path).value
    ensures r.Some? ==> r.value[|path|] == e && IsParentChain(r.value)
  {
    if path == [] then Some([e])
    else if path[0] < |e.children| then
      match AncestorChain(e.children[path[0]], path[1..])
      case Some(up) =>
        assert e.children[path[0]] in e.children;
        Some(up + [e])
      case None => None
    else None
  }

  // ---------------------------------------------------------------------------
  // findNearestAncestor

  /** The first node of the chain at or after `from` that has type `t`. */
  function NearestFrom(chain: seq<Entity>, from: nat, t: EntityType): (r: Option<nat>)
    decreases |chain| - from
    ensures r.Some? ==> from <= r.value < |chain| && IsA(chain[r.value], t)
    ensures r.Some? ==> forall j :: from <= j < r.value ==> !IsA(chain[j], t)
    ensures r.None? <==> forall j :: from <= j < |chain| ==> !IsA(chain[j], t)
  {
    if from >= |chain| then None
    else if IsA(chain[from], t) then Some(from)
    else NearestFrom(chain, from + 1, t)
  }

  /** `findNearestAncestor(ofType:)`: walks from the node itself upward and
      stops at the first node of type `t`. */
  method FindNearestAncestor(chain: seq<Entity>, t: EntityType) returns (r: Option<nat>)
    ensures r == NearestFrom(chain, 0, t)
    ensures r.Some? ==> IsA(chain[r.value], t) && forall j :: 0 <= j < r.value ==> !IsA(chain[j], t)
    ensures r.None? ==> forall j :: 0 <= j < |chain| ==> !IsA(chain[j], t)
  {
    var i := 0;
    while i < |chain|
      invariant 0 <= i <= |chain|
      invariant forall j :: 0 <= j < i ==> !IsA(chain[j], t)
    {
      if IsA(chain[i], t) {
        return Some(i);
      }
      i := i + 1;
    }
    return None;
  }

  // ---------------------------------------------------------------------------
  // Pre-order traversal and findAllDescendants

  /** Every node of the given subtrees in pre-order: each node, then its
      descendants, then its later siblings. */
  function Forest(kids: seq<Entity>): seq<Entity>
    decreases kids
  {
    if kids == [] then [] else [kids[0]] + Forest(kids[0].children) + Forest(kids[1..])
  }

  /** The proper descendants of `e` in pre-order. */
  function PreOrder(e: Entity): seq<Entity> {
    Forest(e.children)
  }

  /** `x` lies strictly below `e` in the tree. */
  ghost predicate Below(x: Entity, e: Entity)
    decreases e
  {
    exists i :: 0 <= i < |e.children| && (e.children[i] == x || Below(x, e.children[i]))
  }

  function TypedDescendants(kids: seq<Entity>, t: EntityType): seq<Entity>
    decreases kids
  {
    if kids == [] then []
    else (if IsA(kids[0], t) then [kids[0]] else []) + TypedDescendants(kids[0].children, t) + TypedDescendants(kids[1..], t)
  }

  /** `findAllDescendants(ofType:)`: the descendants of type `t`, children
      left to right and each child before its own descendants. */
  function FindAllDescendants(e: Entity, t: EntityType): (r: seq<Entity>)
    ensures r == Filter(PreOrder(e), (x: Entity) => IsA(x, t))
    ensures forall x :: x in r <==> IsA(x, t) && Below(x, e)
    ensures e !in r
  {
    TypedDescendantsIsFilteredForest(e.children, t);
    PreOrderHoldsExactlyBelow(e);
    NotBelowItself(e);
    TypedDescendants(e.children, t)
  }

  lemma {:induction false} TypedDescendantsIsFilteredForest(kids: seq<Entity>, t: EntityType)
    ensures TypedDescendants(kids, t) == Filter(Forest(kids), (x: Entity) => IsA(x, t))
    decreases kids
  {
    if kids != [] {
      var keep := (x: Entity) => IsA(x, t);
      TypedDescendantsIsFilteredForest(kids[0].children, t);
      TypedDescendantsIsFilteredForest(kids[1..], t);
      FilterConcat([kids[0]] + Forest(kids[0].children), Forest(kids[1..]), keep);
      FilterConcat([kids[0]], Forest(kids[0].children), keep);
    }
  }

  /** The members of a forest's pre-order are its roots and everything below them. */
  lemma {:induction false} ForestHoldsExactlyBelow(kids: seq<Entity>, x: Entity)
    ensures x in Forest(kids) <==> exists i :: 0 <= i < |kids| && (kids[i] == x || Below(x, kids[i]))
    decreases kids
  {
    if kids != [] {
      ForestHoldsExactlyBelow(kids[0].children, x);
      ForestHoldsExactlyBelow(kids[1..], x);
      if exists i :: 0 <= i < |kids| && (kids[i] == x || Below(x, kids[i])) {
        var i :| 0 <= i < |kids| && (kids[i] == x || Below(x, kids[i]));
        if i > 0 {
          assert kids[1..][i - 1] == kids[i];
        }
      }
    }
  }

  lemma PreOrderHoldsExactlyBelow(e: Entity)
    ensures forall x :: x in PreOrder(e) <==> Below(x, e)
  {
    forall x
      ensures x in PreOrder(e) <==> Below(x, e)
    {
      ForestHoldsExactlyBelow(e.children, x);
    }
  }

  /** A root's own subtree is strictly smaller than its forest. */
  lemma {:induction false} ChildForestSmaller(kids: seq<Entity>, i: nat)
    requires i < |kids|
    ensures |Forest(kids[i].children)| < |Forest(kids)|
    decreases i
  {
    if i > 0 {
      ChildForestSmaller(kids[1..], i - 1);
      assert kids[1..][i - 1] == kids[i];
    }
  }

  lemma {:induction false} BelowIsSmaller(x: Entity, e: Entity)
    requires Below(x, e)
    ensures |PreOrder(x)| < |PreOrder(e)|
    decreases e
  {
    var i :| 0 <= i < |e.children| && (e.children[i] == x || Below(x, e.children[i]));
    ChildForestSmaller(e.children, i);
    if e.children[i] != x {
      BelowIsSmaller(x, e.children[i]);
    }
  }

  lemma NotBelowItself(e: Entity)
    ensures !Below(e, e)
  {
    if Below(e, e) {
      BelowIsSmaller(e, e);
    }
  }

  /** `findEntity(named:)`: the first descendant in pre-order with the name. */
  function FindEntity(e: Entity, name: string): (r: Option<Entity>)
    ensures r.Some? ==> r.value.name == name && Below(r.value, e)
    ensures r.None? <==> forall x :: Below(x, e) ==> x.name != name
  {
    PreOrderHoldsExactlyBelow(e);
    FirstNamed(PreOrder(e), name)
  }

  function FirstNamed(s: seq<Entity>, name: string): (r: Option<Entity>)
    ensures r.Some? ==> r.value in s && r.value.name == name
    ensures r.None? <==> forall x :: x in s ==> x.name != name
  {
    if s == [] then None
    else if s[0].name == name then Some(s[0])
    else FirstNamed(s[1..], name)
  }

  // ---------------------------------------------------------------------------
  // The material dispatch of applyTextures

  function FirstMaterialName(e: Entity): Option<string> {
    match e.model
    case Some(materials) =>
      if materials != [] && materials[0].NamedMaterial? then Some(materials[0].name) else None
    case None => None
  }

  /** One part: a "BackMaterial" part shows the FRONT face and a
      "FrontMaterial" part shows the BACK face; every other node is left as is. */
  function Retexture(e: Entity, front: FrontFace, back: BackFace): (r: Entity)
    ensures IsA(e, ModelType) && FirstMaterialName(e) == Some("BackMaterial") ==>
      r == e.(model := Some([FrontTextured(front)]))
    ensures IsA(e, ModelType) && FirstMaterialName(e) == Some("FrontMaterial") ==>
      r == e.(model := Some([BackTextured(back)]))
    ensures !IsA(e, ModelType) || FirstMaterialName(e) !in {Some("BackMaterial"), Some("FrontMaterial")} ==> r == e
  {
    if !IsA(e, ModelType) then e
    else match FirstMaterialName(e)
      case Some("BackMaterial") => e.(model := Some([FrontTextured(front)]))
      case Some("FrontMaterial") => e.(model := Some([BackTextured(back)]))
      case _ => e
  }

  function RetextureTree(e: Entity, front: FrontFace, back: BackFace): Entity
    decreases e, 1
  {
    Retexture(e, front, back).(children := RetextureForest(e.children, front, back))
  }

  function RetextureForest(kids: seq<Entity>, front: FrontFace, back: BackFace): (r: seq<Entity>)
    decreases kids, 0
    ensures |r| == |kids|
  {
    seq(|kids|, i requires 0 <= i < |kids| => RetextureTree(kids[i], front, back))
  }

  /** `applyTextures` on a base model: without both textures, or without any
      model part below the base, nothing changes; otherwise every node
      below the base is retextured, and the base itself is not. */
  function ApplyTextures(base: Entity, front: Option<FrontFace>, back: Option<BackFace>): (r: Entity)
    ensures front.None? || back.None? ==> r == base
    ensures FindAllDescendants(base, ModelType) == [] ==> r == base
    ensures r.(children := base.children) == base
  {
    if front.None? || back.None? then base
    else if FindAllDescendants(base, ModelType) == [] then base
    else base.(children := RetextureForest(base.children, front.value, back.value))
  }

  /** The retextured tree has the same shape, and the node at each path
      below the base is the original node with its materials dispatched. */
  lemma {:induction false} ApplyTexturesPointwise(base: Entity, front: FrontFace, back: BackFace, path: seq<nat>)
    requires path != []
    ensures FindAllDescendants(base, ModelType) != [] ==>
      var r := ApplyTextures(base, Some(front), Some(back));
      (NodeAt(r, path).Some? <==> NodeAt(base, path).Some?) &&
      (NodeAt(base, path).Some? ==>
        NodeAt(r, path).value.(children := []) == Retexture(NodeAt(base, path).value, front, back).(children := []))
  {
    var r := ApplyTextures(base, Some(front), Some(back));
    if path[0] < |base.children| {
      RetextureTreePointwise(base.children[path[0]], front, back, path[1..]);
    }
  }

  lemma {:induction false} RetextureTreePointwise(e: Entity, front: FrontFace, back: BackFace, path: seq<nat>)
    ensures NodeAt(RetextureTree(e, front, back), path).Some? <==> NodeAt(e, path).Some?
    ensures NodeAt(e, path).Some? ==>
      NodeAt(RetextureTree(e, front, back), path).value.(children := []) == Retexture(NodeAt(e, path).value, front, back).(children := [])
    decreases path
  {
    if path != [] && path[0] < |e.children| {
      RetextureTreePointwise(e.children[path[0]], front, back, path[1..]);
    }
  }
}
