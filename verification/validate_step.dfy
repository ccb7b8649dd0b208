/** The validate step: an isolation-indicator pixel test and an 8x8
    average hash ("Looks Like It") compared with an expected fingerprint
    within a Hamming distance of five bits. */
module ValidateStep {
  import opened Common
  import opened Fingerprint

  const ValidateStepType: string := "validate-step"

  /** The most bits in which an accepted screenshot's hash may differ. */
  const HashThresholdBits: nat := 5

  /** A colour channel as `color.Color.RGBA()` returns it: 16 bits. */
  type Channel = c: int | 0 <= c <= 0xFFFF

  datatype Color = Color(r: Channel, g: Channel, b: Channel, a: Channel)

  /** A colour as `RGBA()` returns it: alpha-premultiplied, so no colour
      channel exceeds the alpha. */
  type Pixel = c: Color | c.r <= c.a && c.g <= c.a && c.b <= c.a
    witness Color(0, 0, 0, 0)

  const Transparent: Pixel := Color(0, 0, 0, 0)

  /** A decoded image, column-major: `pix[x][y]` is the pixel at (x, y). */
  datatype Image = Image(pix: seq<seq<Pixel>>)

  /** `img.At(x, y)`: the pixel, or transparent black outside the bounds. */
  function At(img: Image, x: int, y: int): Pixel
  {
    if 0 <= x < |img.pix| && 0 <= y < |img.pix[x]| then img.pix[x][y] else Transparent
  }

  /** The 8x8 image that bilinear scaling produces, indexed `[x][y]`. */
  type Grid = g: seq<seq<Pixel>> | |g| == 8 && forall x :: 0 <= x < 8 ==> |g[x]| == 8
    witness seq(8, x => seq(8, y => Transparent))

  /** The external image library: `image.Decode`, which never decodes empty
      bytes, and `draw.BiLinear.Scale`. */
  type Decoder = d: seq<bv8> -> Option<Image> | d([]).None?
    witness (buf: seq<bv8>) => None
  type Scaler = Image -> Grid

  // ---------------------------------------------------------------------
  // Isolation indicator

  // The indicator colour, 8-bit components widened to 16 bits.
  const IsolatedRed: Channel := 49 * 257
  const IsolatedGreen: Channel := 122 * 257
  const IsolatedBlue: Channel := 53 * 257

  /** `pixelTest`: does the top-left pixel show the isolation bar's colour? */
  function PixelTest(img: Image): (isolated: bool)
    ensures isolated ==> |img.pix| > 0 && |img.pix[0]| > 0
  {
    var c := At(img, 0, 0);
    c.r == IsolatedRed && c.g == IsolatedGreen && c.b == IsolatedBlue
  }

  /** Only the red, green and blue of pixel (0, 0) decide the pixel test. */
  lemma PixelTestReadsOnlyCorner(img1: Image, img2: Image)
    requires At(img1, 0, 0).r == At(img2, 0, 0).r
    requires At(img1, 0, 0).g == At(img2, 0, 0).g
    requires At(img1, 0, 0).b == At(img2, 0, 0).b
    ensures PixelTest(img1) == PixelTest(img2)
  {
  }

  /** The test holds exactly for a corner whose premultiplied colour is
      (49, 122, 53) widened by 257, whatever its alpha, which is then at
      least 122 * 257. */
  lemma PixelTestColor(img: Image)
    ensures PixelTest(img) <==>
      exists a: Channel :: 122 * 0x101 <= a && At(img, 0, 0) == Color(49 * 0x101, 122 * 0x101, 53 * 0x101, a)
  {
    if PixelTest(img) {
      var a := At(img, 0, 0).a;
      assert At(img, 0, 0) == Color(49 * 0x101, 122 * 0x101, 53 * 0x101, a);
    }
  }

  /** An image without a pixel at (0, 0) never shows the indicator. */
  lemma EmptyImageNotIsolated(img: Image)
    requires |img.pix| == 0 || |img.pix[0]| == 0
    ensures !PixelTest(img)
  {
  }

  // ---------------------------------------------------------------------
  // Average hash

  /** The luma of a pixel with the BT.601 weights, scaled by 1000 so that it
      stays an integer: 1000 * (0.299 R + 0.587 G + 0.114 B). */
  function Luma(c: Color): int
  {
    299 * c.r + 587 * c.g + 114 * c.b
  }

  /** The 64 lumas in hash order: cell i is pixel (i / 8, i % 8). */
  function Cells(g: Grid): (s: seq<int>)
    ensures |s| == 64
  {
    seq(64, i requires 0 <= i < 64 => Luma(g[i / 8][i % 8]))
  }

  function Sum(s: seq<int>): int
  {
    if s == [] then 0 else Sum(s[..|s| - 1]) + s[|s| - 1]
  }

  function Total(g: Grid): int
  {
    Sum(Cells(g))
  }

  /** Cell i is brighter than the mean of the 64 cells, compared without
      division: l > total / 64 exactly when 64 * l > total. */
  function Bright(g: Grid): (b: seq<bool>)
    ensures |b| == 64
  {
    seq(64, i requires 0 <= i < 64 => 64 * Cells(g)[i] > Total(g))
  }

  /** The word in which bit 63 - i is set for each i < n with bits[i]. */
  function SetBits(bits: seq<bool>, n: nat): bv64
    requires n <= |bits| <= 64
  {
    if n == 0 then 0
    else if bits[n - 1] then SetBits(bits, n - 1) | Single(Pos(n - 1))
    else SetBits(bits, n - 1)
  }

  /** The perceptual hash of a grid: bit 63 - i marks a bright cell i. */
  function AverageHash(g: Grid): bv64
  {
    var bright := Bright(g);
    SetBits(bright, |bright|)
  }

  /** Adding cell n - 1 to the word sets its bit and leaves every other bit alone. */
  lemma SetBitsStep(bits: seq<bool>, n: nat, k: int)
    requires 0 < n <= |bits| <= 64 && 0 <= k < 64
    ensures Bit(SetBits(bits, n), Pos(k)) <==>
              Bit(SetBits(bits, n - 1), Pos(k)) || (bits[n - 1] && k == n - 1)
  {
    if bits[n - 1] {
      var rest, p, q := SetBits(bits, n - 1), Pos(n - 1), Pos(k);
      assert SetBits(bits, n) == rest | Single(p);
      OrSingleBit(rest, p, q);
      PosInjective(n - 1, k);
    }
  }

  lemma {:induction false} SetBitsBit(bits: seq<bool>, n: nat, k: int)
    requires n <= |bits| <= 64 && 0 <= k < 64
    ensures Bit(SetBits(bits, n), Pos(k)) <==> k < n && bits[k]
  {
    if n == 0 {
      ZeroBit(Pos(k));
    } else {
      SetBitsBit(bits, n - 1, k);
      SetBitsStep(bits, n, k);
    }
  }

  /** Bit 63 - i of the hash is set exactly when cell i is brighter than the
      mean; with i ranging over all 64 cells, no other bit is set. */
  lemma AverageHashBits(g: Grid)
    ensures Unpack(AverageHash(g)) == Bright(g)
  {
    forall i | 0 <= i < 64
      ensures Unpack(AverageHash(g))[i] == Bright(g)[i]
    {
      SetBitsBit(Bright(g), |Bright(g)|, i);
    }
  }

  lemma {:induction false} SumConstant(s: seq<int>, c: int)
    requires forall i :: 0 <= i < |s| ==> s[i] == c
    ensures Sum(s) == |s| * c
  {
    if s != [] {
      SumConstant(s[..|s| - 1], c);
    }
  }

  lemma {:induction false} SumAbove(s: seq<int>, t: int)
    requires s != []
    requires forall i :: 0 <= i < |s| ==> 64 * s[i] > t
    ensures 64 * Sum(s) > |s| * t
  {
    if |s| > 1 {
      SumAbove(s[..|s| - 1], t);
    }
  }

  lemma {:induction false} SetBitsNone(bits: seq<bool>, n: nat)
    requires n <= |bits| <= 64
    requires forall i :: 0 <= i < |bits| ==> !bits[i]
    ensures SetBits(bits, n) == 0
  {
    if n > 0 {
      SetBitsNone(bits, n - 1);
    }
  }

  /** A grid whose cells all have one luma hashes to 0: no cell is strictly
      brighter than the mean. */
  lemma UniformGridHashesToZero(g: Grid, c: int)
    requires forall i :: 0 <= i < 64 ==> Cells(g)[i] == c
    ensures AverageHash(g) == 0
  {
    SumConstant(Cells(g), c);
    assert Total(g) == 64 * c;
    forall i | 0 <= i < 64
      ensures !Bright(g)[i]
    {
      assert Cells(g)[i] == c;
    }
    SetBitsNone(Bright(g), |Bright(g)|);
  }

  /** Not every cell can be brighter than the mean: some cell is dark. */
  lemma SomeCellIsDark(g: Grid)
    ensures exists i :: 0 <= i < 64 && !Bright(g)[i]
  {
    if forall i :: 0 <= i < 64 ==> Bright(g)[i] {
      assert forall i :: 0 <= i < 64 ==> 64 * Cells(g)[i] > Total(g) by {
        forall i | 0 <= i < 64
          ensures 64 * Cells(g)[i] > Total(g)
        {
          assert Bright(g)[i];
        }
      }
      SumAbove(Cells(g), Total(g));
      assert false;
    }
  }

  /** So the hash is never all ones. */
  lemma HashNeverAllOnes(g: Grid)
    ensures AverageHash(g) != 0xFFFF_FFFF_FFFF_FFFF
  {
    SomeCellIsDark(g);
    var i :| 0 <= i < 64 && !Bright(g)[i];
    AverageHashBits(g);
    assert !Unpack(AverageHash(g))[i];
    AllOnesBit(Pos(i));
  }

  lemma CellOf(g: Grid, x: int, y: int)
    requires 0 <= x < 8 && 0 <= y < 8
    ensures 0 <= x * 8 + y < 64 && Cells(g)[x * 8 + y] == Luma(g[x][y])
  {
    assert (x * 8 + y) / 8 == x && (x * 8 + y) % 8 == y;
  }

  lemma PrefixExtend(s: seq<int>, t: seq<int>, n: nat)
    requires n < |s| && n < |t| && s[..n] == t[..n] && s[n] == t[n]
    ensures s[..n + 1] == t[..n + 1]
  {
    assert s[..n + 1] == s[..n] + [s[n]] && t[..n + 1] == t[..n] + [t[n]];
  }

  lemma SumSnoc(s: seq<int>, n: nat)
    requires n < |s|
    ensures Sum(s[..n + 1]) == Sum(s[..n]) + s[n]
  {
    assert s[..n + 1][..n] == s[..n];
  }

  /** The inner loop of the first pass of `perceptualHash`: column x of the
      grid, its lumas stored at `x * 8 + y` and added to the total. */
  method Column(grid: Grid, x: int, pixels: array<int>, total: int) returns (luminanceTotal: int)
    requires 0 <= x < 8 && pixels.Length == 64
    requires pixels[..x * 8] == Cells(grid)[..x * 8] && total == Sum(Cells(grid)[..x * 8])
    modifies pixels
    ensures pixels[..x * 8 + 8] == Cells(grid)[..x * 8 + 8]
    ensures luminanceTotal == Sum(Cells(grid)[..x * 8 + 8])
  {
    ghost var cells := Cells(grid);
    luminanceTotal := total;
    for y := 0 to 8
      invariant luminanceTotal == Sum(cells[..x * 8 + y])
      invariant pixels[..x * 8 + y] == cells[..x * 8 + y]
    {
      var c := grid[x][y];
      var luminance := Luma(c);
      var i := x * 8 + y;
      CellOf(grid, x, y);
      SumSnoc(cells, i);
      pixels[i] := luminance;
      luminanceTotal := luminanceTotal + luminance;
      PrefixExtend(pixels[..], cells, i);
    }
  }

  /** The first pass of `perceptualHash`: the luma of every cell, stored at
      `x * 8 + y`, and their total. */
  method Luminances(grid: Grid) returns (pixels: array<int>, luminanceTotal: int)
    ensures fresh(pixels)
    ensures pixels[..] == Cells(grid) && luminanceTotal == Total(grid)
  {
    luminanceTotal := 0;
    pixels := new int[64];

    for x := 0 to 8
      invariant luminanceTotal == Sum(Cells(grid)[..x * 8])
      invariant pixels[..x * 8] == Cells(grid)[..x * 8]
    {
      luminanceTotal := Column(grid, x, pixels, luminanceTotal);
    }
    assert pixels[..] == pixels[..64] && Cells(grid) == Cells(grid)[..64];
  }

  /** `perceptualHash` from the 8x8 grid onward: the lumas and their total,
      then one pass setting bit 63 - i for each cell i above the mean. */
  method PerceptualHash(grid: Grid) returns (hash: bv64)
    ensures hash == AverageHash(grid)
  {
    var pixels, luminanceTotal := Luminances(grid);
    ghost var bright := Bright(grid);

    // `pixels[i] > luminanceTotal / 64`, without the division; the bit is
    // `1 << (len(pixels) - 1 - i)`, that is Single(Pos(i))
    hash := 0;
    for i := 0 to pixels.Length
      invariant pixels[..] == Cells(grid)
      invariant hash == SetBits(bright, i)
    {
      assert bright[i] == (64 * pixels[i] > luminanceTotal);
      if 64 * pixels[i] > luminanceTotal {
        hash := hash | Single(Pos(i));
      }
    }
  }

  // ---------------------------------------------------------------------
  // Screenshot verdict

  /** `validateScreenshot` as a function of the decoded image: the decode
      error, else the isolation mismatch, else the hash comparison. */
  function Verdict(conf: ValidateConf, img: Option<Image>, scale: Scaler): (r: Option<Error>)
    ensures r.None? ==> img.Some? && PixelTest(img.value) == conf.isolated
    ensures img.None? ==> r == Some(ScreenshotDecodeFailed)
  {
    match img
    case None => Some(ScreenshotDecodeFailed)
    case Some(im) =>
      if PixelTest(im) != conf.isolated then Some(IsolationMismatch(conf.isolated, PixelTest(im)))
      else HashVerdict(conf.hash, AverageHash(scale(im)))
  }

  /** The hash comparison: too many differing bits is an error. */
  function HashVerdict(expected: bv64, hash: bv64): (r: Option<Error>)
    ensures r.Some? ==> r.value.TooManyDifferentBits? && r.value.differentBits > r.value.threshold == HashThresholdBits
  {
    var differentBits := OnesCount64(hash ^ expected);
    if differentBits > HashThresholdBits then Some(TooManyDifferentBits(HashThresholdBits, differentBits))
    else None
  }

  /** The hash comparison fails exactly when the two hashes' bit lists are
      more than five apart, and then reports that distance. */
  lemma HashVerdictIsDistance(expected: bv64, hash: bv64)
    ensures HashVerdict(expected, hash) ==
      var d := Distance(Unpack(hash), Unpack(expected));
      if d > HashThresholdBits then Some(TooManyDifferentBits(HashThresholdBits, d)) else None
  {
    XorCountIsDistance(hash, expected);
  }

  /** With the isolation flag as expected, a screenshot passes exactly when its
      bright cells differ from the expected hash's bits in at most five places. */
  lemma VerdictIsHammingThreshold(conf: ValidateConf, im: Image, scale: Scaler)
    requires PixelTest(im) == conf.isolated
    ensures Verdict(conf, Some(im), scale) == None <==>
      Distance(Bright(scale(im)), Unpack(conf.hash)) <= HashThresholdBits
    ensures Verdict(conf, Some(im), scale) != None ==>
      Verdict(conf, Some(im), scale) ==
        Some(TooManyDifferentBits(HashThresholdBits, Distance(Bright(scale(im)), Unpack(conf.hash))))
  {
    var g := scale(im);
    HashVerdictIsDistance(conf.hash, AverageHash(g));
    AverageHashBits(g);
  }

  /** The threshold boundary: five differing cells pass, six fail. */
  lemma ThresholdBoundary(conf: ValidateConf, im: Image, scale: Scaler)
    requires PixelTest(im) == conf.isolated
    ensures Distance(Bright(scale(im)), Unpack(conf.hash)) == 5 ==> Verdict(conf, Some(im), scale) == None
    ensures Distance(Bright(scale(im)), Unpack(conf.hash)) == 6 ==> Verdict(conf, Some(im), scale).Some?
  {
    VerdictIsHammingThreshold(conf, im, scale);
  }

  /** A screenshot whose hash is the expected one passes. */
  lemma MatchingHashPasses(conf: ValidateConf, im: Image, scale: Scaler)
    requires PixelTest(im) == conf.isolated && conf.hash == AverageHash(scale(im))
    ensures Verdict(conf, Some(im), scale) == None
  {
    VerdictIsHammingThreshold(conf, im, scale);
    AverageHashBits(scale(im));
    DistanceZeroIffEqual(Bright(scale(im)), Unpack(conf.hash));
  }

  /** An isolation mismatch is reported whatever the image would hash to. */
  lemma IsolationCheckedFirst(conf: ValidateConf, im: Image, scale1: Scaler, scale2: Scaler)
    requires PixelTest(im) != conf.isolated
    ensures Verdict(conf, Some(im), scale1) == Verdict(conf, Some(im), scale2)
              == Some(IsolationMismatch(conf.isolated, !conf.isolated))
  {
  }

  /** A uniformly opaque-black grid hashes to 0. */
  lemma BlackGridHashesToZero(g: Grid)
    requires forall x, y :: 0 <= x < 8 && 0 <= y < 8 ==> g[x][y] == Color(0, 0, 0, 0xFFFF)
    ensures AverageHash(g) == 0
  {
    forall i | 0 <= i < 64
      ensures Cells(g)[i] == 0
    {
      var x, y := i / 8, i % 8;
      assert 0 <= x < 8 && 0 <= y < 8;
      assert g[x][y] == Color(0, 0, 0, 0xFFFF);
    }
    UniformGridHashesToZero(g, 0);
  }

  /** The all-ones word has 64 set bits. */
  lemma OnesCountAllOnes()
    ensures OnesCount64(0xFFFF_FFFF_FFFF_FFFF) == 64
  {
    forall i | 0 <= i < 64
      ensures Unpack(0)[i] != Unpack(0xFFFF_FFFF_FFFF_FFFF)[i]
    {
      ZeroBit(Pos(i));
      AllOnesBit(Pos(i));
    }
    DistanceComplement(Unpack(0), Unpack(0xFFFF_FFFF_FFFF_FFFF));
    XorCountIsDistance(0, 0xFFFF_FFFF_FFFF_FFFF);
    assert 0 ^ 0xFFFF_FFFF_FFFF_FFFF == 0xFFFF_FFFF_FFFF_FFFF as bv64;
  }

  /** An all-white baseline against a uniformly black screenshot: all 64 bits differ. */
  lemma BlackAgainstWhiteBaseline(conf: ValidateConf, im: Image, scale: Scaler)
    requires conf.hash == 0xFFFF_FFFF_FFFF_FFFF && PixelTest(im) == conf.isolated
    requires forall x, y :: 0 <= x < 8 && 0 <= y < 8 ==> scale(im)[x][y] == Color(0, 0, 0, 0xFFFF)
    ensures Verdict(conf, Some(im), scale) == Some(TooManyDifferentBits(HashThresholdBits, 64))
  {
    BlackGridHashesToZero(scale(im));
    OnesCountAllOnes();
    assert (0 as bv64) ^ conf.hash == conf.hash;
  }

  /** The tail of `validateScreenshot`: XOR the two hashes, count the set
      bits, and fail above the threshold. */
  method CompareHashes(hash: bv64, expected: bv64) returns (err: Option<Error>)
    ensures err == HashVerdict(expected, hash)
  {
    var hashXor := hash ^ expected;
    var differentBits := OnesCount64(hashXor);
    if differentBits > HashThresholdBits {
      return Some(TooManyDifferentBits(HashThresholdBits, differentBits));
    }
    err := None;
  }

  // ---------------------------------------------------------------------
  // The step

  /** `validateStepConf`. */
  datatype ValidateConf = ValidateConf(hash: bv64, isolated: bool)

  /** Decoding the raw map into `validateStepConf` (mapstructure), abstracted. */
  type ConfDecoder = RawConfig -> Option<ValidateConf>

  /** The configuration `Init` accepts: it decodes, and its `required` hash is
      not the zero value. */
  function ResolveConf(input: RawConfig, decode: ConfDecoder): (r: Result<ValidateConf>)
    ensures r.Ok? <==> decode(input).Some? && decode(input).value.hash != 0
    ensures r.Ok? ==> r.value == decode(input).value
    ensures decode(input).None? ==> r == Err(ConfigDecodeFailed(ValidateStepType))
    ensures decode(input).Some? && decode(input).value.hash == 0 ==>
              r == Err(ConfigValidationFailed(ValidateStepType))
  {
    match decode(input)
    case None => Err(ConfigDecodeFailed(ValidateStepType))
    case Some(conf) =>
      if conf.hash == 0 then Err(ConfigValidationFailed(ValidateStepType)) else Ok(conf)
  }

  /** The action for a configuration: a single one, screenshot the page and
      validate it against the expected hash and isolation flag. */
  function Tasks(conf: ValidateConf): (tasks: seq<Task>)
    ensures |tasks| == 1 && tasks[0] == ScreenshotAndValidate(conf.hash, conf.isolated)
  {
    [ScreenshotAndValidate(conf.hash, conf.isolated)]
  }

  class ValidateStep {
    var name: string
    var conf: ValidateConf

    /** `&validateStep{}`: the zero value. */
    constructor ()
      ensures name == "" && conf == ValidateConf(0, false)
    {
      name := "";
      conf := ValidateConf(0, false);
    }

    function GetType(): string
    {
      ValidateStepType
    }

    function GetName(): string
      reads this
    {
      name
    }

    /** Decodes and validates the configuration; only on success are the
        name and configuration stored. */
    method Init(name: string, input: RawConfig, decode: ConfDecoder) returns (err: Option<Error>)
      modifies this
      ensures ResolveConf(input, decode).Err? ==>
                err == Some(ResolveConf(input, decode).error) && unchanged(this)
      ensures ResolveConf(input, decode).Ok? ==>
                err == None && this.name == name && conf == ResolveConf(input, decode).value
    {
      var decoded := decode(input);
      if decoded.None? {
        return Some(ConfigDecodeFailed(GetType()));
      }
      if decoded.value.hash == 0 {
        return Some(ConfigValidationFailed(GetType()));
      }
      this.name := name;
      conf := decoded.value;
      err := None;
    }

    /** The action for the stored configuration. */
    function Run(): (tasks: seq<Task>)
      reads this
      ensures tasks == Tasks(conf)
    {
      Tasks(conf)
    }

    /** `validateScreenshot`: decode, test isolation, then hash and compare. */
    method ValidateScreenshot(buf: seq<bv8>, decode: Decoder, scale: Scaler) returns (err: Option<Error>)
      ensures err == Verdict(conf, decode(buf), scale)
    {
      var decoded := decode(buf);
      if decoded.None? {
        return Some(ScreenshotDecodeFailed);
      }
      var img := decoded.value;
      var isolated := PixelTest(img);
      if isolated != conf.isolated {
        return Some(IsolationMismatch(conf.isolated, isolated));
      }
      var hash := PerceptualHash(scale(img));
      err := CompareHashes(hash, conf.hash);
    }

    /** The action `Run` hands to the browser. A failed screenshot is only
        logged, leaving the buffer empty, so it is judged as empty bytes. */
    method CaptureAndValidate(screenshot: Option<seq<bv8>>, decode: Decoder, scale: Scaler)
      returns (err: Option<Error>)
      ensures screenshot.Some? ==> err == Verdict(conf, decode(screenshot.value), scale)
      ensures screenshot.None? ==> err == Verdict(conf, decode([]), scale)
      ensures screenshot.None? ==> err == Some(ScreenshotDecodeFailed)
    {
      var buf: seq<bv8> := [];
      if screenshot.Some? {
        buf := screenshot.value;
      }
      err := ValidateScreenshot(buf, decode, scale);
    }
  }
}
