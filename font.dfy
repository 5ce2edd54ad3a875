/**
  The font-atlas loader of `src/font.rs`: a parsed bitmap-font description and a
  decoded atlas image become a `Font` whose glyph table is keyed by one byte.

  The `.sfl` parser and the PNG decoder are collaborators: their outputs (the
  description, the image header and the pixel buffer) are the inputs here.
 */
module Font {
  import opened Wrappers

  type Byte = b: int | 0 <= b < 256

  /** The start value of the minimum-`yoffset` fold. */
  const Sentinel: int := 100_000

  /** PNG colour types (section 11.2.2 of the W3C PNG Specification, Second Edition): 0, 2, 3, 4 and 6. */
  datatype ColorType = Greyscale | Truecolour | IndexedColour | GreyscaleAlpha | TruecolourAlpha

  /** Image dimensions are positive: a PNG header with a zero width or height is invalid. */
  type Dimension = n: nat | 0 < n witness 1

  /** The header the PNG decoder reports. */
  datatype ImageInfo = ImageInfo(colorType: ColorType, width: Dimension, height: Dimension)

  /** A decoded atlas: its header and the pixel buffer the decoder filled. */
  datatype Image = Image(info: ImageInfo, buffer: seq<Byte>)

  /** One glyph record of the description: its atlas rectangle and placement offsets. */
  datatype CharRecord = CharRecord(id: int, x: int, y: int, width: int, height: int, xoffset: int, yoffset: int)

  /**
    A parsed font description: face name, line metrics, the path of the atlas it
    names, and the glyph records keyed by character id.
   */
  datatype Description = Description(
    fontName: string, lineHeight: nat, size: nat, imagePath: string, chars: map<int, CharRecord>)

  /** `CharacterData`: a glyph's UV rectangle, pixel size and offsets. */
  datatype CharacterData = CharacterData(
    id: int, x1: real, x2: real, y1: real, y2: real, width: int, height: int, xOff: int, yOff: int)

  /** A loaded font. */
  datatype Font = Font(
    name: string, imageBuffer: seq<Byte>, width: nat, height: nat,
    lineHeight: nat, size: nat, minOffsetY: int, characters: map<Byte, CharacterData>)

  /** Why a load is refused. */
  datatype LoadError =
    | NotRgba(colorType: ColorType)
    | Deformed(length: nat, expected: nat)

  /** Why a lookup fails: the byte that has no glyph. */
  datatype LookupError = CharacterNotFound(code: Byte)

  /** `key as u8`: the low eight bits of a record key (two's complement for a negative one). */
  function KeyByte(key: int): Byte
  {
    key % 256
  }

  /** `character as u8`: the low eight bits of the code point. */
  function CharCode(c: char): Byte
  {
    (c as int) % 256
  }

  /** The buffer length an 8-bit RGBA image of this header has. */
  function ExpectedLength(info: ImageInfo): nat
  {
    info.width * info.height * 4
  }

  /** The table entry for a record in an atlas of `w` by `h` pixels. */
  function Glyph(r: CharRecord, w: Dimension, h: Dimension): CharacterData
  {
    CharacterData(
      r.id,
      r.x as real / w as real, (r.x as real + r.width as real) / w as real,
      r.y as real / h as real, (r.y as real + r.height as real) / h as real,
      r.width, r.height, r.xoffset, r.yoffset)
  }

  /** The bytes a set of record keys lands on. */
  function ByteKeys(keys: set<int>): set<Byte>
  {
    set k | k in keys :: KeyByte(k)
  }

  /** No two record keys share their low byte. */
  ghost predicate NoCollisions(keys: set<int>)
  {
    forall k, k' | k in keys && k' in keys && KeyByte(k) == KeyByte(k') :: k == k'
  }

  /** `m` is the minimum of the sentinel and every record's `yoffset`. */
  ghost predicate IsMinOffset(chars: map<int, CharRecord>, m: int)
  {
    && m <= Sentinel
    && (forall k | k in chars :: m <= chars[k].yoffset)
    && (m == Sentinel || exists k | k in chars :: chars[k].yoffset == m)
  }

  /**
    `table` holds one entry per byte that some record key truncates to, and each
    entry is the glyph of one of the records that land on that byte. Which one is
    left open: it is the last one the map's iteration order visits.
   */
  ghost predicate IsTableOf(chars: map<int, CharRecord>, w: Dimension, h: Dimension, table: map<Byte, CharacterData>)
  {
    && table.Keys == ByteKeys(chars.Keys)
    && forall b | b in table :: exists k | k in chars && KeyByte(k) == b :: table[b] == Glyph(chars[k], w, h)
  }

  /** `font` is a result of loading `desc` with `image`. */
  ghost predicate IsLoadOf(desc: Description, image: Image, font: Font)
  {
    && font.name == desc.fontName
    && font.imageBuffer == image.buffer
    && font.width == image.info.width
    && font.height == image.info.height
    && font.lineHeight == desc.lineHeight
    && font.size == desc.size
    && IsMinOffset(desc.chars, font.minOffsetY)
    && IsTableOf(desc.chars, image.info.width, image.info.height, font.characters)
  }

  /**
    `load_with_bmfont_and_image_read`: refuse a non-RGBA atlas and a buffer of the
    wrong length, then build the glyph table and fold the minimum `yoffset`. The
    records are visited in an unspecified order, as a hash map iterates them.
   */
  method LoadWithDescriptionAndImage(desc: Description, image: Image) returns (r: Result<Font, LoadError>)
    ensures image.info.colorType != TruecolourAlpha ==> r == Failure(NotRgba(image.info.colorType))
    ensures image.info.colorType == TruecolourAlpha && |image.buffer| != ExpectedLength(image.info) ==>
      r == Failure(Deformed(|image.buffer|, ExpectedLength(image.info)))
    ensures r.Success? <==> image.info.colorType == TruecolourAlpha && |image.buffer| == ExpectedLength(image.info)
    ensures r.Success? ==> IsLoadOf(desc, image, r.value)
  {
    var info := image.info;
    if info.colorType != TruecolourAlpha {
      return Failure(NotRgba(info.colorType));
    }
    var imageBuffer := image.buffer;
    if |imageBuffer| != info.width * info.height * 4 {
      return Failure(Deformed(|imageBuffer|, info.width * info.height * 4));
    }

    var characters: map<Byte, CharacterData> := map[];
    var minOffY := Sentinel;
    var todo := desc.chars.Keys;
    while todo != {}
      invariant todo <= desc.chars.Keys
      invariant IsMinOffset(desc.chars - todo, minOffY)
      invariant IsTableOf(desc.chars - todo, info.width, info.height, characters)
      decreases todo
    {
      assert (forall k :: k !in todo) ==> todo == {};
      var key :| key in todo;
      var value := desc.chars[key];
      ghost var before: map<int, CharRecord> := desc.chars - todo;
      ghost var oldMin := minOffY;
      if value.yoffset < minOffY {
        minOffY := value.yoffset;
      }
      characters := characters[KeyByte(key) := Glyph(value, info.width, info.height)];
      todo := todo - {key};
      assert desc.chars - todo == before[key := value];
      if minOffY != oldMin {
        assert (desc.chars - todo)[key].yoffset == minOffY;
      } else if minOffY != Sentinel {
        var w :| w in before && before[w].yoffset == minOffY;
        assert (desc.chars - todo)[w].yoffset == minOffY;
      }
    }
    assert desc.chars - todo == desc.chars;

    return Success(Font(desc.fontName, imageBuffer, info.width, info.height,
                        desc.lineHeight, desc.size, minOffY, characters));
  }

  /**
    `Font::load`: `desc` is what the parser read from the description file and
    `image` is the atlas the file names at `desc.imagePath`.
   */
  method Load(desc: Description, image: Image) returns (r: Result<Font, LoadError>)
    ensures r.Success? <==> image.info.colorType == TruecolourAlpha && |image.buffer| == ExpectedLength(image.info)
    ensures r.Success? ==> IsLoadOf(desc, image, r.value)
  {
    r := LoadWithDescriptionAndImage(desc, image);
  }

  /**
    `Font::load_raw`: the parser is handed the description text with the fixed
    atlas name "image.png", and the atlas comes from the caller's reader.
   */
  method LoadRaw(parsed: Description, image: Image) returns (r: Result<Font, LoadError>)
    ensures r.Success? <==> image.info.colorType == TruecolourAlpha && |image.buffer| == ExpectedLength(image.info)
    ensures r.Success? ==> IsLoadOf(parsed.(imagePath := "image.png"), image, r.value)
  {
    r := LoadWithDescriptionAndImage(parsed.(imagePath := "image.png"), image);
  }

  /** `get_character`: the glyph stored under the character's low byte, or an error naming that byte. */
  function GetCharacter(font: Font, c: char): (r: Result<CharacterData, LookupError>)
    ensures r.Success? <==> CharCode(c) in font.characters
    ensures r.Success? ==> r.value == font.characters[CharCode(c)]
    ensures r.Failure? ==> r.error == CharacterNotFound(CharCode(c))
  {
    if CharCode(c) in font.characters then Success(font.characters[CharCode(c)])
    else Failure(CharacterNotFound(CharCode(c)))
  }

  // ---------------------------------------------------------------------------
  // Properties of a loaded font

  /** The glyph table has at most one entry per record, and exactly one when no two keys collide. */
  lemma {:induction false} ByteKeysBound(keys: set<int>)
    ensures |ByteKeys(keys)| <= |keys|
    ensures NoCollisions(keys) ==> |ByteKeys(keys)| == |keys|
  {
    if keys != {} {
      assert (forall k :: k !in keys) ==> keys == {};
      var k :| k in keys;
      var rest := keys - {k};
      ByteKeysBound(rest);
      assert ByteKeys(keys) == ByteKeys(rest) + {KeyByte(k)};
      if NoCollisions(keys) {
        assert NoCollisions(rest);
        assert KeyByte(k) !in ByteKeys(rest);
      }
    }
  }

  /** A loaded font has no more glyphs than the description has records. */
  lemma TableNoLargerThanRecords(desc: Description, image: Image, font: Font)
    requires IsLoadOf(desc, image, font)
    ensures |font.characters| <= |desc.chars|
    ensures NoCollisions(desc.chars.Keys) ==> |font.characters| == |desc.chars|
  {
    ByteKeysBound(desc.chars.Keys);
    assert font.characters.Keys == ByteKeys(desc.chars.Keys);
  }

  /** Every stored glyph's `y_off` is at least the font's minimum offset, which is at most the sentinel. */
  lemma MinOffsetBoundsGlyphs(desc: Description, image: Image, font: Font)
    requires IsLoadOf(desc, image, font)
    ensures font.minOffsetY <= Sentinel
    ensures forall b | b in font.characters :: font.minOffsetY <= font.characters[b].yOff
  {
  }

  /** A description without records gives an empty table and the sentinel as minimum offset. */
  lemma NoRecordsKeepsSentinel(desc: Description, image: Image, font: Font)
    requires desc.chars == map[]
    requires IsLoadOf(desc, image, font)
    ensures font.minOffsetY == Sentinel
    ensures font.characters == map[]
  {
  }

  /** A glyph of non-negative size has ordered UV bounds (the bounds need not lie in [0, 1]). */
  lemma GlyphUvOrdered(r: CharRecord, w: Dimension, h: Dimension)
    ensures r.width >= 0 ==> Glyph(r, w, h).x1 <= Glyph(r, w, h).x2
    ensures r.height >= 0 ==> Glyph(r, w, h).y1 <= Glyph(r, w, h).y2
  {
  }

  /** Every stored entry copies its record's fields and has ordered UV bounds when its size is non-negative. */
  lemma StoredGlyphsFromRecords(desc: Description, image: Image, font: Font, b: Byte)
    requires IsLoadOf(desc, image, font)
    requires b in font.characters
    ensures var c := font.characters[b];
      exists k | k in desc.chars && KeyByte(k) == b ::
        var rec := desc.chars[k];
        c.id == rec.id && c.width == rec.width && c.height == rec.height && c.xOff == rec.xoffset && c.yOff == rec.yoffset
    ensures var c := font.characters[b];
      (c.width >= 0 ==> c.x1 <= c.x2) && (c.height >= 0 ==> c.y1 <= c.y2)
  {
    var k :| k in desc.chars && KeyByte(k) == b && font.characters[b] == Glyph(desc.chars[k], image.info.width, image.info.height);
    GlyphUvOrdered(desc.chars[k], image.info.width, image.info.height);
  }

  /**
    Looking up a character finds the glyph of its record when no other record key
    shares the character's low byte, and fails when no record key has that byte.
   */
  lemma LookupAfterLoad(desc: Description, image: Image, font: Font, c: char)
    requires IsLoadOf(desc, image, font)
    ensures (forall k | k in desc.chars :: KeyByte(k) != CharCode(c)) <==> GetCharacter(font, c) == Failure(CharacterNotFound(CharCode(c)))
    ensures forall k | k in desc.chars && KeyByte(k) == CharCode(c) ::
      (forall k' | k' in desc.chars && KeyByte(k') == CharCode(c) :: k' == k) ==>
        GetCharacter(font, c) == Success(Glyph(desc.chars[k], image.info.width, image.info.height))
  {
  }

  /** When no two record keys collide, the loaded font is fully determined by its inputs. */
  lemma LoadDeterminedWithoutCollisions(desc: Description, image: Image, f1: Font, f2: Font)
    requires NoCollisions(desc.chars.Keys)
    requires IsLoadOf(desc, image, f1) && IsLoadOf(desc, image, f2)
    ensures f1 == f2
  {
  }

  /**
    `load` and `load_raw` of the same description and atlas give equal fonts when
    no two record keys collide: the two parses differ only in the atlas path,
    which the shared routine does not read.
   */
  lemma LoadEqualsLoadRaw(fromFile: Description, fromText: Description, image: Image, f1: Font, f2: Font)
    requires fromFile.(imagePath := "image.png") == fromText.(imagePath := "image.png")
    requires NoCollisions(fromFile.chars.Keys)
    requires IsLoadOf(fromFile, image, f1)
    requires IsLoadOf(fromText.(imagePath := "image.png"), image, f2)
    ensures f1 == f2
  {
  }

  /**
    On a collision either record may survive: keys 97 and 353 share the byte 97,
    and a table holding either record's glyph is a result of the load.
   */
  lemma CollisionSurvivorUnspecified(a: CharRecord, b: CharRecord)
    requires a != b
    ensures var desc := Description("f", 1, 1, "image.png", map[97 := a, 353 := b]);
      var image := Image(ImageInfo(TruecolourAlpha, 1, 1), [0, 0, 0, 0]);
      var m := if a.yoffset <= b.yoffset then a.yoffset else b.yoffset;
      var m' := if m < Sentinel then m else Sentinel;
      && IsLoadOf(desc, image, Font("f", [0, 0, 0, 0], 1, 1, 1, 1, m', map[97 := Glyph(a, 1, 1)]))
      && IsLoadOf(desc, image, Font("f", [0, 0, 0, 0], 1, 1, 1, 1, m', map[97 := Glyph(b, 1, 1)]))
      && Glyph(a, 1, 1) != Glyph(b, 1, 1)
  {
    var chars := map[97 := a, 353 := b];
    assert KeyByte(353) == 97;
    assert ByteKeys(chars.Keys) == {97};
    assert chars[97].yoffset == a.yoffset && chars[353].yoffset == b.yoffset;
  }
}
