/** What the card faces show (RealityKitEntities/TextureGenerator.swift and
    the drawing helpers of RealityKitEntities/NoteCardEntity.swift): the text
    on each face, its integer font size, the background colour name, and
    whether the memo frame is drawn. Rasterisation itself is not modelled. */
module Textures {

  /** The named backgrounds; the RGB values are not modelled. `Cream` is the
      fixed background of the hand-built card. */
  datatype Palette = Pink | Blue | Green | Gray | Beige | Cream

  /** Swift's `String.count`, taken as the number of characters. */
  function Count(s: string): nat {
    |s|
  }

  /** The shared font-size rule: `largest` up to five characters, then
      `step` points smaller per extra character, never below `smallest`. */
  function ShrinkingSize(count: nat, largest: int, step: int, smallest: int): int {
    if count <= 5 then largest
    else if largest - (count - 5) * step < smallest then smallest
    else largest - (count - 5) * step
  }

  /** The front word: 128 points for short words, shrinking by 6 down to 64. */
  function FrontFontSize(text: string): (size: int)
    ensures 64 <= size <= 128
    ensures Count(text) <= 5 ==> size == 128
    ensures size == 64 <==> Count(text) >= 16
    ensures 5 < Count(text) < 16 ==> size + 6 * (Count(text) - 5) == 128
  {
    ShrinkingSize(Count(text), 128, 6, 64)
  }

  /** The English word on the back: 64 points, shrinking by 4 down to 32. */
  function BackEnglishFontSize(english: string): (size: int)
    ensures 32 <= size <= 64
    ensures Count(english) <= 5 ==> size == 64
    ensures size == 32 <==> Count(english) >= 13
    ensures 5 < Count(english) < 13 ==> size == 64 - 4 * (Count(english) - 5)
  {
    ShrinkingSize(Count(english), 64, 4, 32)
  }

  /** The Japanese text on the back: 96 points, shrinking by 5 down to 42. */
  function BackJapaneseFontSize(japanese: string): (size: int)
    ensures 42 <= size <= 96
    ensures Count(japanese) <= 5 ==> size == 96
    ensures size == 42 <==> Count(japanese) >= 16
    ensures 5 < Count(japanese) < 16 ==> size == 96 - 5 * (Count(japanese) - 5)
  {
    ShrinkingSize(Count(japanese), 96, 5, 42)
  }

  /** A longer text never gets a larger front font. */
  lemma FrontFontSizeNonIncreasing(a: string, b: string)
    requires Count(a) <= Count(b)
    ensures FrontFontSize(b) <= FrontFontSize(a)
  {
  }

  lemma BackEnglishFontSizeNonIncreasing(a: string, b: string)
    requires Count(a) <= Count(b)
    ensures BackEnglishFontSize(b) <= BackEnglishFontSize(a)
  {
  }

  lemma BackJapaneseFontSizeNonIncreasing(a: string, b: string)
    requires Count(a) <= Count(b)
    ensures BackJapaneseFontSize(b) <= BackJapaneseFontSize(a)
  {
  }

  /** `Card.uiColor`: four named colours, and beige for every other name. */
  function CardColor(colorName: string): (p: Palette)
    ensures p == Pink <==> colorName == "pink"
    ensures p == Blue <==> colorName == "blue"
    ensures p == Green <==> colorName == "green"
    ensures p == Gray <==> colorName == "gray"
    ensures p == Beige <==> colorName !in {"pink", "blue", "green", "gray"}
  {
    match colorName
    case "pink" => Pink
    case "blue" => Blue
    case "green" => Green
    case "gray" => Gray
    case _ => Beige
  }

  /** The front face: one word. */
  datatype FrontFace = FrontFace(text: string, fontSize: int, background: Palette)

  /** The back face: English word, part of speech, Japanese text, and the
      memo frame with the memo inside it when `memoFrame` holds. */
  datatype BackFace = BackFace(
    english: string,
    englishFontSize: int,
    partOfSpeech: string,
    japanese: string,
    japaneseFontSize: int,
    memoFrame: bool,
    memo: string,
    background: Palette)

  datatype Texture = FrontTexture(front: FrontFace) | BackTexture(back: BackFace)

  /** `imageWithText` (both sources draw the front the same way). */
  function ImageWithText(text: string, background: Palette): (f: FrontFace)
    ensures f.text == text && f.background == background
    ensures f.fontSize == FrontFontSize(text) && 64 <= f.fontSize <= 128
  {
    FrontFace(text, FrontFontSize(text), background)
  }

  /** `TextureGenerator.imageWithBackSide`: the memo frame and the memo are
      drawn only for a non-empty memo. */
  function GeneratedBackSide(english: string, japanese: string, partOfSpeech: string, memo: string, background: Palette): (b: BackFace)
    ensures b.memoFrame <==> memo != ""
    ensures b.english == english && b.japanese == japanese && b.partOfSpeech == partOfSpeech && b.memo == memo
    ensures b.englishFontSize == BackEnglishFontSize(english) && b.japaneseFontSize == BackJapaneseFontSize(japanese)
    ensures 32 <= b.englishFontSize <= 64 && 42 <= b.japaneseFontSize <= 96
    ensures b.background == background
  {
    BackFace(english, BackEnglishFontSize(english), partOfSpeech, japanese, BackJapaneseFontSize(japanese), memo != "", memo, background)
  }

  /** `NoteCardEntity.imageWithBackSide`: the memo frame is always drawn,
      even around an empty memo. */
  function NoteCardBackSide(english: string, japanese: string, partOfSpeech: string, memo: string, background: Palette): (b: BackFace)
    ensures b.memoFrame
    ensures b.english == english && b.japanese == japanese && b.partOfSpeech == partOfSpeech && b.memo == memo
    ensures b.englishFontSize == BackEnglishFontSize(english) && b.japaneseFontSize == BackJapaneseFontSize(japanese)
    ensures 32 <= b.englishFontSize <= 64 && 42 <= b.japaneseFontSize <= 96
    ensures b.background == background
  {
    BackFace(english, BackEnglishFontSize(english), partOfSpeech, japanese, BackJapaneseFontSize(japanese), true, memo, background)
  }

  /** The two back sides differ only in the memo frame, and only for an empty memo. */
  lemma BackSidesDifferOnlyForEmptyMemo(english: string, japanese: string, partOfSpeech: string, memo: string, background: Palette)
    ensures (GeneratedBackSide(english, japanese, partOfSpeech, memo, background)
             == NoteCardBackSide(english, japanese, partOfSpeech, memo, background)) <==> memo != ""
  {
  }
}
