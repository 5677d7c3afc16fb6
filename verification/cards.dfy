/** The `Card` record (Models/Card.swift) and its keyed codec, stated at the
    level of the structured JSON record: a map from coding key to value. */
module Cards {
  import opened Basics

  /** One hexadecimal digit of a UUID. */
  type Nibble = n: nat | n < 16

  /** A UUID, as its 32 hexadecimal digits. */
  type Uuid = s: seq<Nibble> | |s| == 32 witness seq(32, _ => 0)

  /** A flashcard: its texts, its colour name and its pose in the scene. */
  datatype Card = Card(
    id: Uuid,
    english: string,
    japanese: string,
    partOfSpeech: string,
    memo: string,
    colorName: string,
    position: Vec3,
    rotation: Quat)

  /** A card with the nil UUID, empty texts and the origin pose. */
  const BlankCard: Card :=
    Card(seq(32, _ => 0), "", "", "", "", "", Vec3(FloatZero, FloatZero, FloatZero), IdentityQuat)

  // ---------------------------------------------------------------------------
  // UUID text form (`uuidString`: upper-case 8-4-4-4-12 groups)

  function HexChar(n: Nibble): (c: char)
    ensures HexValue(c) == Some(n)
  {
    "0123456789ABCDEF"[n]
  }

  /** The digit a character denotes; either case is accepted. */
  function HexValue(c: char): (r: Option<Nibble>)
    ensures r.Some? <==> ('0' <= c <= '9' || 'A' <= c <= 'F' || 'a' <= c <= 'f')
  {
    if '0' <= c <= '9' then Some(c as int - '0' as int)
    else if 'A' <= c <= 'F' then Some(c as int - 'A' as int + 10)
    else if 'a' <= c <= 'f' then Some(c as int - 'a' as int + 10)
    else None
  }

  function Hex(ns: seq<Nibble>): (s: string)
    ensures |s| == |ns|
    ensures forall i :: 0 <= i < |ns| ==> HexValue(s[i]) == Some(ns[i])
  {
    seq(|ns|, i requires 0 <= i < |ns| => HexChar(ns[i]))
  }

  function UuidString(u: Uuid): (s: string)
    ensures |s| == 36
    ensures s[8] == '-' && s[13] == '-' && s[18] == '-' && s[23] == '-'
  {
    Hex(u[0..8]) + "-" + Hex(u[8..12]) + "-" + Hex(u[12..16]) + "-" + Hex(u[16..20]) + "-" + Hex(u[20..32])
  }

  /** The digits of a string made of hexadecimal characters only. */
  function ParseHex(cs: string): (r: Option<seq<Nibble>>)
    ensures r.Some? <==> forall i :: 0 <= i < |cs| ==> HexValue(cs[i]).Some?
    ensures r.Some? ==> |r.value| == |cs| && forall i :: 0 <= i < |cs| ==> HexValue(cs[i]) == Some(r.value[i])
  {
    if forall i :: 0 <= i < |cs| ==> HexValue(cs[i]).Some? then
      Some(seq(|cs|, i requires 0 <= i < |cs| => HexValue(cs[i]).value))
    else None
  }

  /** `UUID(uuidString:)`: 36 characters, hyphens at 8, 13, 18, 23, hex elsewhere. */
  function ParseUuid(s: string): (r: Option<Uuid>)
    ensures r.Some? ==> |s| == 36 && s[8] == '-' && s[13] == '-' && s[18] == '-' && s[23] == '-'
  {
    if |s| != 36 || s[8] != '-' || s[13] != '-' || s[18] != '-' || s[23] != '-' then None
    else
      match ParseHex(s[0..8] + s[9..13] + s[14..18] + s[19..23] + s[24..36])
      case Some(ns) => Some(ns)
      case None => None
  }

  /** Parsing the text form of a UUID gives the UUID back. */
  lemma UuidRoundTrip(u: Uuid)
    ensures ParseUuid(UuidString(u)) == Some(u)
  {
    var s := UuidString(u);
    assert s[0..8] == Hex(u[0..8]);
    assert s[9..13] == Hex(u[8..12]);
    assert s[14..18] == Hex(u[12..16]);
    assert s[19..23] == Hex(u[16..20]);
    assert s[24..36] == Hex(u[20..32]);
    var digits := s[0..8] + s[9..13] + s[14..18] + s[19..23] + s[24..36];
    assert |digits| == 32;
    assert forall i :: 0 <= i < 32 ==> HexValue(digits[i]) == Some(u[i]) by {
      forall i | 0 <= i < 32
        ensures HexValue(digits[i]) == Some(u[i])
      {
        if i < 8 {
          assert digits[i] == s[i];
        } else if i < 12 {
          assert digits[i] == s[i + 1];
        } else if i < 16 {
          assert digits[i] == s[i + 2];
        } else if i < 20 {
          assert digits[i] == s[i + 3];
        } else {
          assert digits[i] == s[i + 4];
        }
      }
    }
    var p := ParseHex(digits);
    assert p.Some?;
    assert p.value == u;
  }

  // ---------------------------------------------------------------------------
  // The keyed record

  /** A JSON value as the card codec sees it. */
  datatype Value =
    | Text(text: string)
    | Numbers(numbers: seq<Float>)
    | Null
    | OtherJson   // any other JSON value: an object, a boolean

  type Record = map<string, Value>

  datatype DecodeError =
    | KeyNotFound(key: string)
    | ValueNotFound(key: string)
    | TypeMismatch(key: string)
    | DataCorrupted(key: string)

  /** What a keyed decode of `key` throws when the entry is not of the
      wanted type: a missing key, a `null`, or a value of another type. */
  function WrongEntry(rec: Record, key: string): (e: DecodeError)
    ensures e.key == key
    ensures e.KeyNotFound? <==> key !in rec
    ensures e.ValueNotFound? <==> key in rec && rec[key].Null?
  {
    if key !in rec then KeyNotFound(key)
    else if rec[key].Null? then ValueNotFound(key)
    else TypeMismatch(key)
  }

  /** JSONEncoder's default refusal of a NaN or infinite float. */
  datatype EncodeError = InvalidFloat(key: string)

  /** The eight `CodingKeys`; there is no size key. */
  const CardKeys: set<string> :=
    {"id", "english", "japanese", "partOfSpeech", "memo", "colorName", "position", "rotation"}

  predicate CardIsFinite(c: Card) {
    Vec3IsFinite(c.position) && QuatIsFinite(c.rotation)
  }

  /** `encode(to:)`: one entry per coding key; the rotation as the array
      [imag.x, imag.y, imag.z, real]. */
  function EncodeCard(c: Card): (r: Outcome<Record, EncodeError>)
    ensures !r.Trap?
    ensures r.Ok? <==> CardIsFinite(c)
    ensures r.Ok? ==> r.value.Keys == CardKeys
    ensures r.Ok? ==> r.value["id"] == Text(UuidString(c.id))
    ensures r.Ok? ==> r.value["english"] == Text(c.english) && r.value["japanese"] == Text(c.japanese)
    ensures r.Ok? ==> r.value["partOfSpeech"] == Text(c.partOfSpeech) && r.value["memo"] == Text(c.memo)
    ensures r.Ok? ==> r.value["colorName"] == Text(c.colorName)
    ensures r.Ok? ==> r.value["position"] == Numbers([c.position.x, c.position.y, c.position.z])
    ensures r.Ok? ==> r.value["rotation"] == Numbers([c.rotation.ix, c.rotation.iy, c.rotation.iz, c.rotation.r])
    ensures r.Err? ==> r.error == InvalidFloat(if Vec3IsFinite(c.position) then "rotation" else "position")
  {
    if !Vec3IsFinite(c.position) then Err(InvalidFloat("position"))
    else if !QuatIsFinite(c.rotation) then Err(InvalidFloat("rotation"))
    else
      Ok(map[
        "id" := Text(UuidString(c.id)),
        "english" := Text(c.english),
        "japanese" := Text(c.japanese),
        "partOfSpeech" := Text(c.partOfSpeech),
        "memo" := Text(c.memo),
        "colorName" := Text(c.colorName),
        "position" := Numbers([c.position.x, c.position.y, c.position.z]),
        "rotation" := Numbers([c.rotation.ix, c.rotation.iy, c.rotation.iz, c.rotation.r])
      ])
  }

  function DecodeText(rec: Record, key: string): (r: Outcome<string, DecodeError>)
    ensures r.Ok? <==> key in rec && rec[key].Text?
    ensures r.Ok? ==> r.value == rec[key].text
    ensures r.Err? ==> r.error == WrongEntry(rec, key)
    ensures !r.Trap?
  {
    if key !in rec then Err(KeyNotFound(key))
    else match rec[key]
      case Text(t) => Ok(t)
      case Null => Err(ValueNotFound(key))
      case _ => Err(TypeMismatch(key))
  }

  function DecodeFloats(rec: Record, key: string): (r: Outcome<seq<Float>, DecodeError>)
    ensures r.Ok? <==> key in rec && rec[key].Numbers?
    ensures r.Ok? ==> r.value == rec[key].numbers
    ensures r.Err? ==> r.error == WrongEntry(rec, key)
    ensures !r.Trap?
  {
    if key !in rec then Err(KeyNotFound(key))
    else match rec[key]
      case Numbers(xs) => Ok(xs)
      case Null => Err(ValueNotFound(key))
      case _ => Err(TypeMismatch(key))
  }

  /** A UUID is stored as its text; a malformed text is corrupted data. */
  function DecodeId(rec: Record): (r: Outcome<Uuid, DecodeError>)
    ensures r.Ok? <==> "id" in rec && rec["id"].Text? && ParseUuid(rec["id"].text).Some?
    ensures r.Ok? ==> ParseUuid(rec["id"].text) == Some(r.value)
    ensures !r.Trap?
  {
    var t :- DecodeText(rec, "id");
    match ParseUuid(t)
    case Some(u) => Ok(u)
    case None => Err(DataCorrupted("id"))
  }

  /** `SIMD3<Float>` decodes from an array of exactly three numbers. */
  function DecodePosition(rec: Record): (r: Outcome<Vec3, DecodeError>)
    ensures r.Ok? <==> "position" in rec && rec["position"].Numbers? && |rec["position"].numbers| == 3
    ensures r.Ok? ==> rec["position"].numbers == [r.value.x, r.value.y, r.value.z]
    ensures !r.Trap?
  {
    var xs :- DecodeFloats(rec, "position");
    if |xs| == 3 then Ok(Vec3(xs[0], xs[1], xs[2])) else Err(DataCorrupted("position"))
  }

  /** Every entry `init(from:)` reads is present, of its type and well
      formed, up to the length of the rotation array, which is not checked. */
  predicate ReadableCard(rec: Record) {
    && "id" in rec && rec["id"].Text? && ParseUuid(rec["id"].text).Some?
    && "english" in rec && rec["english"].Text?
    && "japanese" in rec && rec["japanese"].Text?
    && "partOfSpeech" in rec && rec["partOfSpeech"].Text?
    && "memo" in rec && rec["memo"].Text?
    && "colorName" in rec && rec["colorName"].Text?
    && "position" in rec && rec["position"].Numbers? && |rec["position"].numbers| == 3
    && "rotation" in rec && rec["rotation"].Numbers?
  }

  /** `init(from:)`: the keys are read in declaration order and the first
      failure is reported; the rotation array is indexed 0 to 3 without a
      length check, so a shorter array traps and a longer one has its
      extra numbers ignored. */
  function DecodeCard(rec: Record): (r: Outcome<Card, DecodeError>)
    ensures r.Ok? <==> ReadableCard(rec) && |rec["rotation"].numbers| >= 4
    ensures r.Trap? <==> ReadableCard(rec) && |rec["rotation"].numbers| < 4
    ensures r.Ok? ==> CardKeys <= rec.Keys
    ensures r.Ok? ==> rec["id"].Text? && ParseUuid(rec["id"].text) == Some(r.value.id)
    ensures r.Ok? ==> rec["english"] == Text(r.value.english) && rec["japanese"] == Text(r.value.japanese)
    ensures r.Ok? ==> rec["partOfSpeech"] == Text(r.value.partOfSpeech) && rec["memo"] == Text(r.value.memo)
    ensures r.Ok? ==> rec["colorName"] == Text(r.value.colorName)
    ensures r.Ok? ==> rec["position"].numbers == [r.value.position.x, r.value.position.y, r.value.position.z]
    ensures r.Ok? ==> var xs := rec["rotation"].numbers; r.value.rotation == Quat(xs[0], xs[1], xs[2], xs[3])
  {
    var id :- DecodeId(rec);
    var english :- DecodeText(rec, "english");
    var japanese :- DecodeText(rec, "japanese");
    var partOfSpeech :- DecodeText(rec, "partOfSpeech");
    var memo :- DecodeText(rec, "memo");
    var colorName :- DecodeText(rec, "colorName");
    var position :- DecodePosition(rec);
    var xs :- DecodeFloats(rec, "rotation");
    if |xs| < 4 then Trap
    else Ok(Card(id, english, japanese, partOfSpeech, memo, colorName, position, Quat(xs[0], xs[1], xs[2], xs[3])))
  }

  /** Decoding the encoding of a card gives the same card: the stored id is
      kept, and the rotation array is read back in the order it was written. */
  lemma CardRoundTrip(c: Card)
    requires CardIsFinite(c)
    ensures EncodeCard(c).Ok? && DecodeCard(EncodeCard(c).value) == Ok(c)
  {
    var rec := EncodeCard(c).value;
    UuidRoundTrip(c.id);
    assert DecodeId(rec) == Ok(c.id);
    assert DecodePosition(rec) == Ok(c.position);
  }

  /** A record lacking any of the eight keys fails to decode with an error
      (it neither decodes nor traps). */
  lemma MissingKeyFails(rec: Record, key: string)
    requires key in CardKeys && key !in rec
    ensures DecodeCard(rec).Err?
  {
  }

  /** Keys outside the eight coding keys, such as a `size` entry, are ignored. */
  lemma ExtraKeyIgnored(rec: Record, key: string, v: Value)
    requires key !in CardKeys
    ensures DecodeCard(rec[key := v]) == DecodeCard(rec)
  {
    var rec' := rec[key := v];
    assert forall k :: k in CardKeys ==> (k in rec' <==> k in rec) && (k in rec ==> rec'[k] == rec[k]);
  }

  /** Numbers past the fourth in the rotation array are never read. */
  lemma ExtraRotationIgnored(rec: Record, xs: seq<Float>, extra: seq<Float>)
    requires |xs| >= 4
    ensures DecodeCard(rec["rotation" := Numbers(xs + extra)]) == DecodeCard(rec["rotation" := Numbers(xs)])
  {
    var long := rec["rotation" := Numbers(xs + extra)];
    var short := rec["rotation" := Numbers(xs)];
    assert forall k :: k in CardKeys && k != "rotation" ==> (k in long <==> k in short) && (k in short ==> long[k] == short[k]);
    assert (xs + extra)[..4] == xs[..4];
  }

  // ---------------------------------------------------------------------------
  // Arrays of cards (`[Card]`)

  predicate AllFinite(cs: seq<Card>) {
    forall i :: 0 <= i < |cs| ==> CardIsFinite(cs[i])
  }

  /** Encoding an array stops at the first card that cannot be encoded. */
  function EncodeCards(cs: seq<Card>): (r: Outcome<seq<Record>, EncodeError>)
    ensures !r.Trap?
    ensures r.Ok? <==> AllFinite(cs)
    ensures r.Ok? ==> |r.value| == |cs| && forall i :: 0 <= i < |cs| ==> EncodeCard(cs[i]) == Ok(r.value[i])
  {
    if cs == [] then Ok([])
    else
      var head :- EncodeCard(cs[0]);
      var tail :- EncodeCards(cs[1..]);
      Ok([head] + tail)
  }

  /** The index of the first record of `rs` that does not decode, if any. */
  function FirstUndecodable(rs: seq<Record>): (r: Option<nat>)
    ensures r.None? <==> forall i :: 0 <= i < |rs| ==> DecodeCard(rs[i]).Ok?
    ensures r.Some? ==> r.value < |rs| && !DecodeCard(rs[r.value]).Ok?
    ensures r.Some? ==> forall j :: 0 <= j < r.value ==> DecodeCard(rs[j]).Ok?
  {
    if rs == [] then None
    else if !DecodeCard(rs[0]).Ok? then Some(0)
    else
      assert forall i :: 1 <= i < |rs| ==> rs[i] == rs[1..][i - 1];
      match FirstUndecodable(rs[1..])
      case Some(k) => Some(k + 1)
      case None => None
  }

  /** Decoding an array stops at the first record that throws or traps. */
  function DecodeCards(rs: seq<Record>): (r: Outcome<seq<Card>, DecodeError>)
    ensures r.Ok? <==> FirstUndecodable(rs).None?
    ensures r.Ok? ==> |r.value| == |rs| && forall i :: 0 <= i < |rs| ==> DecodeCard(rs[i]) == Ok(r.value[i])
    ensures !r.Ok? ==> (r.Trap? <==> DecodeCard(rs[FirstUndecodable(rs).value]).Trap?)
  {
    if rs == [] then Ok([])
    else
      var head :- DecodeCard(rs[0]);
      var tail :- DecodeCards(rs[1..]);
      Ok([head] + tail)
  }

  /** Decoding the encoding of an array of cards gives the same array. */
  lemma {:induction false} CardsRoundTrip(cs: seq<Card>)
    requires AllFinite(cs)
    ensures EncodeCards(cs).Ok? && DecodeCards(EncodeCards(cs).value) == Ok(cs)
  {
    if cs != [] {
      CardRoundTrip(cs[0]);
      CardsRoundTrip(cs[1..]);
      EncodeCardsCons(cs);
      DecodeCardsCons(EncodeCard(cs[0]).value, EncodeCards(cs[1..]).value, cs[0], cs[1..]);
      assert cs == [cs[0]] + cs[1..];
    }
  }

  /** Encoding a non-empty array puts the first card's record first. */
  lemma EncodeCardsCons(cs: seq<Card>)
    requires cs != [] && AllFinite(cs)
    ensures EncodeCard(cs[0]).Ok? && EncodeCards(cs[1..]).Ok?
    ensures EncodeCards(cs).value == [EncodeCard(cs[0]).value] + EncodeCards(cs[1..]).value
  {
    assert forall i :: 0 <= i < |cs[1..]| ==> cs[1..][i] == cs[i + 1];
  }

  /** Decoding a record followed by an array that both decode. */
  lemma DecodeCardsCons(head: Record, tail: seq<Record>, c: Card, cs: seq<Card>)
    requires DecodeCard(head) == Ok(c) && DecodeCards(tail) == Ok(cs)
    ensures DecodeCards([head] + tail) == Ok([c] + cs)
  {
    assert ([head] + tail)[0] == head && ([head] + tail)[1..] == tail;
  }
}
