/** The size rule and the failure paths of `compressImage`: a decoded image whose longer side
    exceeds 1280 pixels is scaled down, both sides floored, before it is re-encoded as JPEG.
    Decoding, drawing and encoding belong to the browser and appear only as their outcomes. */
module ImageCompression {
  import opened Common

  /** Longest side, in pixels, that is kept as it is. */
  const MAX_DIMENSION: nat := 1280

  const LOAD_ERROR := "Error al cargar imagen"
  const BLOB_ERROR := "Error al comprimir imagen"
  const READ_ERROR := "Error al leer imagen comprimida"

  datatype Dims = Dims(width: nat, height: nat)

  function Longest(d: Dims): nat
  {
    if d.width >= d.height then d.width else d.height
  }

  /** The canvas size chosen for an image of natural size `d`: the longer side `m` is
      compared with the limit and, when it is larger, each side becomes `floor(side * 1280 / m)`
      (the ratio taken in exact arithmetic). */
  function FitWithin(d: Dims): (r: Dims)
    ensures r.width <= MAX_DIMENSION && r.height <= MAX_DIMENSION
    ensures r.width <= d.width && r.height <= d.height
    ensures Longest(d) <= MAX_DIMENSION <==> r == d
  {
    var m := Longest(d);
    if m > MAX_DIMENSION then
      ScaledSide(d.width, m);
      ScaledSide(d.height, m);
      Dims(d.width * MAX_DIMENSION / m, d.height * MAX_DIMENSION / m)
    else d
  }

  // Integer division facts the scaling proofs rest on.

  lemma DivBounds(a: nat, m: nat)
    requires m > 0
    ensures (a / m) * m <= a < (a / m + 1) * m
  {
  }

  lemma DivMonotone(a: nat, b: nat, m: nat)
    requires m > 0 && a <= b
    ensures a / m <= b / m
  {
    DivBounds(a, m);
    DivBounds(b, m);
  }

  lemma MulMonotone(x: nat, y: nat, m: nat)
    requires x <= y
    ensures x * m <= y * m
  {
  }

  lemma MulCancel(x: nat, y: nat, m: nat)
    requires m > 0 && x * m <= y * m
    ensures x <= y
  {
  }

  lemma ScaledSide(side: nat, m: nat)
    requires side <= m && m > MAX_DIMENSION
    ensures side * MAX_DIMENSION / m <= MAX_DIMENSION
    ensures side * MAX_DIMENSION / m <= side
    ensures side == m ==> side * MAX_DIMENSION / m == MAX_DIMENSION
  {
    var q := side * MAX_DIMENSION / m;
    DivBounds(side * MAX_DIMENSION, m);
    MulMonotone(side, m, MAX_DIMENSION);
    assert q * m <= MAX_DIMENSION * m;
    MulCancel(q, MAX_DIMENSION, m);
    MulMonotone(MAX_DIMENSION, m, side);
    assert q * m <= side * m;
    MulCancel(q, side, m);
    if side == m {
      assert MAX_DIMENSION * m < (q + 1) * m;
      if q + 1 <= MAX_DIMENSION {
        MulMonotone(q + 1, MAX_DIMENSION, m);
      }
    }
  }

  /** An image whose longer side is within the limit keeps its size. */
  lemma WithinLimitUnchanged(d: Dims)
    requires Longest(d) <= MAX_DIMENSION
    ensures FitWithin(d) == d
  {
  }

  /** An image over the limit: each new side is the floor of `side * 1280 / m` (stated by the
      two multiplications that bound it), no side exceeds 1280 or its original value, and the
      longer side becomes exactly 1280. */
  lemma OverLimitScaled(d: Dims)
    requires Longest(d) > MAX_DIMENSION
    ensures var r, m := FitWithin(d), Longest(d);
      && r.width * m <= d.width * MAX_DIMENSION < (r.width + 1) * m
      && r.height * m <= d.height * MAX_DIMENSION < (r.height + 1) * m
      && r.width <= MAX_DIMENSION && r.height <= MAX_DIMENSION
      && r.width <= d.width && r.height <= d.height
      && Longest(r) == MAX_DIMENSION
  {
    var m := Longest(d);
    DivBounds(d.width * MAX_DIMENSION, m);
    DivBounds(d.height * MAX_DIMENSION, m);
    ScaledSide(d.width, m);
    ScaledSide(d.height, m);
  }

  /** Every result fits within 1280 x 1280. */
  lemma FitsLimit(d: Dims)
    ensures Longest(FitWithin(d)) <= MAX_DIMENSION
    ensures Longest(d) > MAX_DIMENSION ==> Longest(FitWithin(d)) == MAX_DIMENSION
  {
    if Longest(d) > MAX_DIMENSION {
      OverLimitScaled(d);
    }
  }

  /** Scaling keeps the orientation: a landscape image stays landscape, a portrait one stays
      portrait. */
  lemma KeepsOrientation(d: Dims)
    ensures d.width >= d.height ==> FitWithin(d).width >= FitWithin(d).height
    ensures d.width <= d.height ==> FitWithin(d).width <= FitWithin(d).height
  {
    var m := Longest(d);
    if m > MAX_DIMENSION {
      if d.width >= d.height {
        DivMonotone(d.height * MAX_DIMENSION, d.width * MAX_DIMENSION, m);
      }
      if d.width <= d.height {
        DivMonotone(d.width * MAX_DIMENSION, d.height * MAX_DIMENSION, m);
      }
    }
  }

  /** Applying the rule to its own result changes nothing. */
  lemma Idempotent(d: Dims)
    ensures FitWithin(FitWithin(d)) == FitWithin(d)
  {
    if Longest(d) > MAX_DIMENSION {
      OverLimitScaled(d);
    }
  }

  /** What happened to the image in the browser: it decoded with a natural size, or the
      image element signalled an error. */
  datatype ImageLoad = Decoded(natural: Dims) | DecodeFailed

  /** What the canvas encoder and the data-URL reader produced at the chosen size: the
      base64 text after the data-URL comma, no blob, or a read error. */
  datatype Encoding = Encoded(base64: string) | NoBlob | ReadFailed

  /** The value `compressImage` resolves or rejects with. Every rejection is a plain `Error`
      with its own message, and the encoder only ever produces the payload at a size within
      the limit. */
  function Compression(load: ImageLoad, encode: Dims -> Encoding): (r: Result<string, Thrown>)
    ensures r.Failure? ==> r.error.JsError? && !r.error.isTypeError
    ensures r.Failure? && load.DecodeFailed? ==> r.error.message == LOAD_ERROR
    ensures r.Success? ==>
      && load.Decoded?
      && encode(FitWithin(load.natural)) == Encoded(r.value)
      && Longest(FitWithin(load.natural)) <= MAX_DIMENSION
    ensures load.Decoded? && encode(FitWithin(load.natural)).Encoded? ==>
      r == Success(encode(FitWithin(load.natural)).base64)
    ensures load.Decoded? && encode(FitWithin(load.natural)).NoBlob? ==> r == Failure(JsError(false, BLOB_ERROR))
    ensures load.Decoded? && encode(FitWithin(load.natural)).ReadFailed? ==> r == Failure(JsError(false, READ_ERROR))
  {
    match load
    case DecodeFailed => Failure(JsError(false, LOAD_ERROR))
    case Decoded(natural) =>
      FitsLimit(natural);
      match encode(FitWithin(natural))
      case Encoded(base64) => Success(base64)
      case NoBlob => Failure(JsError(false, BLOB_ERROR))
      case ReadFailed => Failure(JsError(false, READ_ERROR))
  }

  /** `compressImage` as the page runs it: the natural size is copied into two variables that
      are overwritten when the longer side is over the limit, then the encoder runs at that
      size. */
  method CompressImage(load: ImageLoad, encode: Dims -> Encoding) returns (r: Result<string, Thrown>)
    ensures r == Compression(load, encode)
  {
    if load.DecodeFailed? {
      return Failure(JsError(false, LOAD_ERROR));
    }
    var width, height := load.natural.width, load.natural.height;
    var longest := if width >= height then width else height;
    if longest > MAX_DIMENSION {
      width := width * MAX_DIMENSION / longest;
      height := height * MAX_DIMENSION / longest;
    }
    var encoded := encode(Dims(width, height));
    match encoded {
      case Encoded(base64) => r := Success(base64);
      case NoBlob => r := Failure(JsError(false, BLOB_ERROR));
      case ReadFailed => r := Failure(JsError(false, READ_ERROR));
    }
  }

  /** A very thin image loses its short side: 3000 x 2 becomes 1280 x 0. */
  lemma ThinImageCollapses()
    ensures FitWithin(Dims(3000, 2)) == Dims(1280, 0)
  {
  }
}
