/** Orientation resolution and Manipulate (gcp.go): the Orientation tag of
    the Exif standard (JEITA CP-3451 / CIPA DC-008, tag 0x0112), the switch
    that corrects each code with the imaging transforms, and the choice
    between Fill and Fit. EXIF decoding and image decoding are inputs. */
module Orientation {
  import opened Basics
  import opened Config
  import opened Geometry

  /** Tag 0x0112 of the Exif standard. */
  const OrientationTag := 0x0112

  /** A decoded tag: its integer values, of which there is at least one
      (the Orientation tag is a single SHORT), or a value of another type. */
  datatype TagValue = Ints(first: int, rest: seq<int>) | NotInt

  /** What exif.Decode yields: nothing (missing or unreadable metadata, and
      every PNG) or the tags it found, by tag number. */
  datatype ExifData = Undecodable | Exif(tags: map<int, TagValue>)

  /** The two results of GetOrientation: the code and whether an error came
      with it. */
  datatype Reading = Reading(ot: int, failed: bool)

  /** tag.Int(0) with its error dropped: the first integer value, or 0 when
      the tag does not hold integers. */
  function TagInt(v: TagValue): (r: int)
    ensures v.Ints? ==> r == v.first
    ensures v.NotInt? ==> r == 0
  {
    match v
    case Ints(first, _) => first
    case NotInt => 0
  }

  /** GetOrientation. Unreadable metadata reads as code 1 with no error; the
      only error is decoded metadata without the Orientation tag, which
      also reads as 1; a present tag gives its value unchecked, so codes
      outside 1..8 get through. */
  function GetOrientation(exif: ExifData): (r: Reading)
    ensures r.failed <==> exif.Exif? && OrientationTag !in exif.tags
    ensures r.ot != 1 ==> exif.Exif? && OrientationTag in exif.tags
    ensures exif.Exif? && OrientationTag in exif.tags ==> r.ot == TagInt(exif.tags[OrientationTag])
  {
    match exif
    case Undecodable => Reading(1, false)
    case Exif(tags) =>
      if OrientationTag !in tags then Reading(1, true)
      else Reading(TagInt(tags[OrientationTag]), false)
  }

  /** Every integer can come out of GetOrientation without an error. */
  lemma AnyCodeGetsThrough(v: int)
    ensures GetOrientation(Exif(map[OrientationTag := Ints(v, [])])) == Reading(v, false)
  {
  }

  /** The meaning of an orientation code in the Exif standard, stated
      directly on coordinates: the upright image, whose pixel at row y and
      column x is the stored pixel given below. Codes 5 to 8 store the
      image on its side, so width and height change places; every code
      outside 2..8 leaves the image as stored. */
  function Upright<T>(p: Picture<T>, ot: int): (r: Picture<T>)
    requires p.Wf()
    ensures r.Wf()
    ensures 5 <= ot <= 8 ==> r.width == p.height && r.height == p.width
    ensures !(5 <= ot <= 8) ==> r.width == p.width && r.height == p.height
    ensures !(2 <= ot <= 8) ==> r == p
  {
    var w, h := p.width, p.height;
    if ot == 2 then
      // row 0 is the top, column 0 is the right
      Picture(w, h, seq(h, y requires 0 <= y < h => seq(w, x requires 0 <= x < w => p.rows[y][w - 1 - x])))
    else if ot == 3 then
      // row 0 is the bottom, column 0 is the right
      Picture(w, h, seq(h, y requires 0 <= y < h => seq(w, x requires 0 <= x < w => p.rows[h - 1 - y][w - 1 - x])))
    else if ot == 4 then
      // row 0 is the bottom, column 0 is the left
      Picture(w, h, seq(h, y requires 0 <= y < h => seq(w, x requires 0 <= x < w => p.rows[h - 1 - y][x])))
    else if ot == 5 then
      // row 0 is the left, column 0 is the top
      Picture(h, w, seq(w, y requires 0 <= y < w => seq(h, x requires 0 <= x < h => p.rows[x][y])))
    else if ot == 6 then
      // row 0 is the right, column 0 is the top
      Picture(h, w, seq(w, y requires 0 <= y < w => seq(h, x requires 0 <= x < h => p.rows[h - 1 - x][y])))
    else if ot == 7 then
      // row 0 is the right, column 0 is the bottom
      Picture(h, w, seq(w, y requires 0 <= y < w => seq(h, x requires 0 <= x < h => p.rows[h - 1 - x][w - 1 - y])))
    else if ot == 8 then
      // row 0 is the left, column 0 is the bottom
      Picture(h, w, seq(w, y requires 0 <= y < w => seq(h, x requires 0 <= x < h => p.rows[x][w - 1 - y])))
    else
      p
  }

  /** Missing or unreadable metadata leaves the image as stored. */
  lemma NoMetadataNoTransform<T>(p: Picture<T>, exif: ExifData)
    requires p.Wf()
    requires exif.Undecodable? || OrientationTag !in exif.tags
    ensures Upright(p, GetOrientation(exif).ot) == p
  {
  }

  /** The code that undoes a correction: the quarter turns 6 and 8 undo each
      other, every other code undoes itself. */
  function Inverse(ot: int): int
  {
    if ot == 6 then 8 else if ot == 8 then 6 else ot
  }

  /** No correction loses a pixel: each is undone by the correction of
      its inverse code. */
  lemma {:induction false} CorrectionInvertible<T>(p: Picture<T>, ot: int)
    requires p.Wf()
    ensures Upright(Upright(p, ot), Inverse(ot)) == p
  {
    if 2 <= ot <= 8 {
      SamePicture(Upright(Upright(p, ot), Inverse(ot)), p);
    }
  }

  /** The switch of Manipulate, case by case, against the meaning of the
      code. */
  lemma Code2<T>(p: Picture<T>)
    requires p.Wf()
    ensures FlipH(p) == Upright(p, 2)
  {
    SamePicture(FlipH(p), Upright(p, 2));
  }

  lemma Code3<T>(p: Picture<T>)
    requires p.Wf()
    ensures Rotate180(p) == Upright(p, 3)
  {
    SamePicture(Rotate180(p), Upright(p, 3));
  }

  lemma Code4<T>(p: Picture<T>)
    requires p.Wf()
    ensures Rotate180(FlipH(p)) == Upright(p, 4)
  {
    SamePicture(Rotate180(FlipH(p)), Upright(p, 4));
  }

  lemma Code5<T>(p: Picture<T>)
    requires p.Wf()
    ensures Rotate270(FlipV(p)) == Upright(p, 5)
  {
    SamePicture(Rotate270(FlipV(p)), Upright(p, 5));
  }

  lemma Code6<T>(p: Picture<T>)
    requires p.Wf()
    ensures Rotate270(p) == Upright(p, 6)
  {
    SamePicture(Rotate270(p), Upright(p, 6));
  }

  lemma Code7<T>(p: Picture<T>)
    requires p.Wf()
    ensures Rotate90(FlipV(p)) == Upright(p, 7)
  {
    SamePicture(Rotate90(FlipV(p)), Upright(p, 7));
  }

  lemma Code8<T>(p: Picture<T>)
    requires p.Wf()
    ensures Rotate90(p) == Upright(p, 8)
  {
    SamePicture(Rotate90(p), Upright(p, 8));
  }

  /** The two resize operations of the imaging library, kept uninterpreted:
      Fill crops and scales to exactly width by height, anchored at the
      centre; Fit scales to fit within width by height. Both resample with
      the Lanczos filter. */
  datatype ResizeOp = FillCenter(width: int, height: int) | Fit(width: int, height: int)

  /** An image as Manipulate returns it: an oriented picture and the resize
      applied to it. */
  datatype Resized<T> = Resized(oriented: Picture<T>, resize: ResizeOp)

  /** Manipulate. `decoded` is what imaging.Decode yields (None when it
      fails). A decode failure is returned as an error before any transform
      runs. Otherwise the picture is corrected for its orientation code,
      step by step as the switch does, which gives the upright image the
      Exif standard describes; then Fill selects a centred Fill to the
      configured width and height and no Fill selects Fit. */
  method Manipulate<T>(decoded: Option<Picture<T>>, config: ImageConfig, ot: int)
    returns (r: Option<Resized<T>>)
    requires decoded.Some? ==> decoded.value.Wf()
    ensures r.None? <==> decoded.None?
    ensures r.Some? ==> r.value.oriented == Upright(decoded.value, ot)
    ensures r.Some? ==> (r.value.resize.FillCenter? <==> config.fill)
    ensures r.Some? ==> r.value.resize.width == config.width && r.value.resize.height == config.height
  {
    if decoded.None? {
      return None;
    }
    var img := decoded.value;
    if ot == 2 {
      img := FlipH(img);
      Code2(decoded.value);
    } else if ot == 3 {
      img := Rotate180(img);
      Code3(decoded.value);
    } else if ot == 4 {
      img := FlipH(img);
      img := Rotate180(img);
      Code4(decoded.value);
    } else if ot == 5 {
      img := FlipV(img);
      img := Rotate270(img);
      Code5(decoded.value);
    } else if ot == 6 {
      img := Rotate270(img);
      Code6(decoded.value);
    } else if ot == 7 {
      img := FlipV(img);
      img := Rotate90(img);
      Code7(decoded.value);
    } else if ot == 8 {
      img := Rotate90(img);
      Code8(decoded.value);
    }

    var resize: ResizeOp;
    if config.fill {
      resize := FillCenter(config.width, config.height);
    } else {
      resize := Fit(config.width, config.height);
    }
    return Some(Resized(img, resize));
  }
}
