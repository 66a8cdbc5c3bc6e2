/**
 * The phenotyping viewer's deterministic core: the point-cloud builder that turns a 300x300 RGBA
 * byte grid into parallel buffers (positions, colours, sizes, original colours, depths), and the
 * colour-mode controller that rewrites only the live colour buffer and the material's blending
 * and opacity. Buffers are `array<real>`: every formula is an exact rational.
 */
module PhenotypingViewer {

  /** Side of the square sampling canvas. */
  const Size: nat := 300
  /** One point per canvas pixel. */
  const ParticleCount: nat := Size * Size
  /** Scale applied to x and y (not to z). */
  const Spread: real := 4.0
  /** Coordinate that moves a hidden point out of view. */
  const Sentinel: real := 99999.0
  /** Alpha (in [0,1]) a pixel must exceed to be shown. */
  const AlphaThreshold: real := 0.1
  /** Grey level of every channel in x-ray mode. */
  const XrayLevel: real := 0.8
  /** Opacity uniform in x-ray mode; the other modes use 1.0. */
  const XrayOpacity: real := 0.3

  datatype RenderMode = Rgb | Heatmap | Xray
  datatype Blending = NormalBlending | AdditiveBlending
  datatype Color = Color(r: real, g: real, b: real)

  // ------------------------------------------------------------------
  // Per-pixel formulas

  predicate IsByte(b: int) { 0 <= b < 256 }

  /** A canvas readback: four bytes (r, g, b, a) per pixel, pixels in row-major order. */
  predicate IsPixelGrid(data: seq<int>) {
    |data| == 4 * ParticleCount && forall k :: 0 <= k < |data| ==> IsByte(data[k])
  }

  /** A byte as a channel value in [0, 1]. */
  function Channel(b: int): real { b as real / 255.0 }

  function Luminance(r: real, g: real, b: real): real { 0.299 * r + 0.587 * g + 0.114 * b }

  /** Grid x of point `i`: its column, normalised and centred. */
  function GridX(i: nat): real { (i % Size) as real / Size as real - 0.5 }

  /** Grid y of point `i`: its row, normalised, centred and flipped. */
  function GridY(i: nat): real { 0.5 - (i / Size) as real / Size as real }

  function PixelLuminance(data: seq<int>, i: nat): real
    requires IsPixelGrid(data) && i < ParticleCount
  {
    Luminance(Channel(data[4 * i]), Channel(data[4 * i + 1]), Channel(data[4 * i + 2]))
  }

  /** Depth of point `i`: half its luminance. */
  function PixelDepth(data: seq<int>, i: nat): real
    requires IsPixelGrid(data) && i < ParticleCount
  {
    PixelLuminance(data, i) * 0.5
  }

  /** Point size of point `i`. */
  function PixelPointSize(data: seq<int>, i: nat): real
    requires IsPixelGrid(data) && i < ParticleCount
  {
    (0.5 + PixelLuminance(data, i)) * 0.04
  }

  /** A pixel is shown when its alpha, as a fraction, exceeds the threshold. */
  predicate IsVisibleAlpha(a: int) { Channel(a) > AlphaThreshold }

  predicate PixelVisible(data: seq<int>, i: nat)
    requires IsPixelGrid(data) && i < ParticleCount
  {
    IsVisibleAlpha(data[4 * i + 3])
  }

  // ------------------------------------------------------------------
  // What the builder stores in each buffer slot

  /** Slot `k` of the position buffer: coordinate `k % 3` of point `k / 3`. */
  function PositionSlot(data: seq<int>, k: nat): real
    requires IsPixelGrid(data) && k < 3 * ParticleCount
  {
    var i := k / 3;
    if !PixelVisible(data, i) then Sentinel
    else if k % 3 == 0 then GridX(i) * Spread
    else if k % 3 == 1 then GridY(i) * Spread
    else PixelDepth(data, i)
  }

  /** Slot `k` of the colour (and original-colour) buffer: channel `k % 3` of point `k / 3`, or 0 when hidden. */
  function ColorSlot(data: seq<int>, k: nat): real
    requires IsPixelGrid(data) && k < 3 * ParticleCount
  {
    var i := k / 3;
    if PixelVisible(data, i) then Channel(data[4 * i + k % 3]) else 0.0
  }

  function DepthSlot(data: seq<int>, i: nat): real
    requires IsPixelGrid(data) && i < ParticleCount
  {
    if PixelVisible(data, i) then PixelDepth(data, i) else 0.0
  }

  function SizeSlot(data: seq<int>, i: nat): real
    requires IsPixelGrid(data) && i < ParticleCount
  {
    if PixelVisible(data, i) then PixelPointSize(data, i) else 0.0
  }

  function CloudPositions(data: seq<int>): seq<real>
    requires IsPixelGrid(data)
  {
    seq(3 * ParticleCount, k requires 0 <= k < 3 * ParticleCount => PositionSlot(data, k))
  }

  function CloudColors(data: seq<int>): seq<real>
    requires IsPixelGrid(data)
  {
    seq(3 * ParticleCount, k requires 0 <= k < 3 * ParticleCount => ColorSlot(data, k))
  }

  function CloudDepths(data: seq<int>): seq<real>
    requires IsPixelGrid(data)
  {
    seq(ParticleCount, i requires 0 <= i < ParticleCount => DepthSlot(data, i))
  }

  function CloudSizes(data: seq<int>): seq<real>
    requires IsPixelGrid(data)
  {
    seq(ParticleCount, i requires 0 <= i < ParticleCount => SizeSlot(data, i))
  }

  // ------------------------------------------------------------------
  // Properties of the built cloud

  /** The grid has 90000 points; positions and colours hold three slots per point, sizes and depths one. */
  lemma BufferSizes(data: seq<int>)
    requires IsPixelGrid(data)
    ensures ParticleCount == 90000
    ensures |CloudPositions(data)| == |CloudColors(data)| == 3 * ParticleCount
    ensures |CloudSizes(data)| == |CloudDepths(data)| == ParticleCount
  {
  }

  /** A pixel is visible exactly when its alpha byte is at least 26. */
  lemma VisibleIffAlphaAtLeast26(a: int)
    ensures IsVisibleAlpha(a) <==> a >= 26
  {
    if a >= 26 {
      assert a as real >= 26.0;
    } else {
      assert a as real <= 25.0;
    }
  }

  /** Grid coordinates lie in the half-open unit square centred at the origin. */
  lemma GridBounds(i: nat)
    ensures -0.5 <= GridX(i) < 0.5
    ensures -0.5 < GridY(i) <= 0.5 || i >= ParticleCount
  {
    var col := i % Size;
    assert 0 <= col < Size;
    assert (col as real) / 300.0 < 1.0;
    if i < ParticleCount {
      var row := i / Size;
      assert row < Size;
      assert (row as real) / 300.0 < 1.0;
    }
  }

  /** Luminance of byte channels lies in [0, 1]; depth in [0, 0.5]; point size in [0.02, 0.06]. */
  lemma PixelBounds(data: seq<int>, i: nat)
    requires IsPixelGrid(data) && i < ParticleCount
    ensures 0.0 <= PixelLuminance(data, i) <= 1.0
    ensures 0.0 <= PixelDepth(data, i) <= 0.5
    ensures 0.02 <= PixelPointSize(data, i) <= 0.06
  {
    ChannelBounds(data[4 * i]);
    ChannelBounds(data[4 * i + 1]);
    ChannelBounds(data[4 * i + 2]);
  }

  lemma ChannelBounds(b: int)
    requires IsByte(b)
    ensures 0.0 <= Channel(b) <= 1.0
  {
  }

  /**
   * A visible pixel becomes the point (4x, 4y, z) with z unscaled, its colour and original colour
   * are its channels over 255, and its depth is z.
   */
  lemma VisiblePoint(data: seq<int>, i: nat)
    requires IsPixelGrid(data) && i < ParticleCount && PixelVisible(data, i)
    ensures CloudPositions(data)[3 * i] == 4.0 * GridX(i)
    ensures CloudPositions(data)[3 * i + 1] == 4.0 * GridY(i)
    ensures CloudPositions(data)[3 * i + 2] == PixelDepth(data, i)
    ensures CloudColors(data)[3 * i] == Channel(data[4 * i])
    ensures CloudColors(data)[3 * i + 1] == Channel(data[4 * i + 1])
    ensures CloudColors(data)[3 * i + 2] == Channel(data[4 * i + 2])
    ensures CloudDepths(data)[i] == PixelDepth(data, i)
    ensures CloudSizes(data)[i] == (0.5 + PixelLuminance(data, i)) * 0.04
  {
    assert (3 * i) / 3 == i && (3 * i + 1) / 3 == i && (3 * i + 2) / 3 == i;
  }

  /** A hidden pixel sits at the sentinel position and keeps zero colour, depth and size. */
  lemma HiddenPoint(data: seq<int>, i: nat)
    requires IsPixelGrid(data) && i < ParticleCount && !PixelVisible(data, i)
    ensures CloudPositions(data)[3 * i] == Sentinel == 99999.0
    ensures CloudPositions(data)[3 * i + 1] == Sentinel
    ensures CloudPositions(data)[3 * i + 2] == Sentinel
    ensures CloudColors(data)[3 * i] == CloudColors(data)[3 * i + 1] == CloudColors(data)[3 * i + 2] == 0.0
    ensures CloudDepths(data)[i] == 0.0 && CloudSizes(data)[i] == 0.0
  {
    assert (3 * i) / 3 == i && (3 * i + 1) / 3 == i && (3 * i + 2) / 3 == i;
  }

  /** Every depth slot lies in [0, 0.5] (hidden slots hold 0). */
  lemma DepthsInRange(data: seq<int>, i: nat)
    requires IsPixelGrid(data) && i < ParticleCount
    ensures 0.0 <= CloudDepths(data)[i] <= 0.5
  {
    PixelBounds(data, i);
  }

  // ------------------------------------------------------------------
  // The point-building loop

  /** Fills the five buffers for one canvas readback, point by point, as the image-load handler does. */
  method BuildPointCloud(data: seq<int>)
      returns (positions: array<real>, colors: array<real>, sizes: array<real>,
               originalColors: array<real>, depthValues: array<real>)
    requires IsPixelGrid(data)
    ensures fresh(positions) && fresh(colors) && fresh(sizes) && fresh(originalColors) && fresh(depthValues)
    ensures colors != positions && colors != sizes && colors != originalColors && colors != depthValues
    ensures positions[..] == CloudPositions(data)
    ensures colors[..] == CloudColors(data) && originalColors[..] == CloudColors(data)
    ensures sizes[..] == CloudSizes(data)
    ensures depthValues[..] == CloudDepths(data)
  {
    var particleCount := Size * Size;
    positions := new real[particleCount * 3](_ => 0.0);
    colors := new real[particleCount * 3](_ => 0.0);
    sizes := new real[particleCount](_ => 0.0);
    originalColors := new real[particleCount * 3](_ => 0.0);
    depthValues := new real[particleCount](_ => 0.0);

    var i := 0;
    while i < particleCount
      invariant 0 <= i <= particleCount
      invariant forall k :: 0 <= k < 3 * i ==> positions[k] == PositionSlot(data, k)
      invariant forall k :: 0 <= k < 3 * i ==> colors[k] == ColorSlot(data, k)
      invariant forall k :: 3 * i <= k < 3 * particleCount ==> colors[k] == 0.0
      invariant forall k :: 0 <= k < 3 * i ==> originalColors[k] == ColorSlot(data, k)
      invariant forall k :: 3 * i <= k < 3 * particleCount ==> originalColors[k] == 0.0
      invariant forall j :: 0 <= j < i ==> depthValues[j] == DepthSlot(data, j)
      invariant forall j :: i <= j < particleCount ==> depthValues[j] == 0.0
      invariant forall j :: 0 <= j < i ==> sizes[j] == SizeSlot(data, j)
      invariant forall j :: i <= j < particleCount ==> sizes[j] == 0.0
    {
      StorePoint(data, i, positions, colors, sizes, originalColors, depthValues);
      i := i + 1;
    }
    assert positions[..] == CloudPositions(data);
    assert colors[..] == CloudColors(data);
    assert originalColors[..] == CloudColors(data);
    assert sizes[..] == CloudSizes(data);
    assert depthValues[..] == CloudDepths(data);
  }

  /** One iteration of the building loop: writes the slots of point `i` and nothing else. */
  method StorePoint(data: seq<int>, i: nat, positions: array<real>, colors: array<real>, sizes: array<real>,
                    originalColors: array<real>, depthValues: array<real>)
    requires IsPixelGrid(data) && i < ParticleCount
    requires positions.Length == colors.Length == originalColors.Length == 3 * ParticleCount
    requires sizes.Length == depthValues.Length == ParticleCount
    requires positions != colors && positions != originalColors && colors != originalColors
    requires sizes != depthValues
    modifies positions, colors, sizes, originalColors, depthValues
    ensures forall k :: 0 <= k < 3 * ParticleCount ==>
      positions[k] == if 3 * i <= k < 3 * i + 3 then PositionSlot(data, k) else old(positions[k])
    ensures forall k :: 0 <= k < 3 * ParticleCount ==>
      colors[k] == if 3 * i <= k < 3 * i + 3 && PixelVisible(data, i) then ColorSlot(data, k) else old(colors[k])
    ensures forall k :: 0 <= k < 3 * ParticleCount ==>
      originalColors[k] == if 3 * i <= k < 3 * i + 3 && PixelVisible(data, i) then ColorSlot(data, k) else old(originalColors[k])
    ensures forall j :: 0 <= j < ParticleCount ==>
      depthValues[j] == if j == i && PixelVisible(data, i) then DepthSlot(data, j) else old(depthValues[j])
    ensures forall j :: 0 <= j < ParticleCount ==>
      sizes[j] == if j == i && PixelVisible(data, i) then SizeSlot(data, j) else old(sizes[j])
  {
    var a := data[i * 4 + 3] as real / 255.0;
    if a > AlphaThreshold {
      StoreVisiblePoint(data, i, positions, colors, sizes, originalColors, depthValues);
    } else {
      SetTriple(positions, i, Sentinel, Sentinel, Sentinel);
      SlotsOfHiddenPoint(data, i);
    }
  }

  /** The visible branch: position (4x, 4y, z), colour and original colour (r, g, b), depth z and size. */
  method StoreVisiblePoint(data: seq<int>, i: nat, positions: array<real>, colors: array<real>, sizes: array<real>,
                           originalColors: array<real>, depthValues: array<real>)
    requires IsPixelGrid(data) && i < ParticleCount && PixelVisible(data, i)
    requires positions.Length == colors.Length == originalColors.Length == 3 * ParticleCount
    requires sizes.Length == depthValues.Length == ParticleCount
    requires positions != colors && positions != originalColors && colors != originalColors
    requires sizes != depthValues
    modifies positions, colors, sizes, originalColors, depthValues
    ensures forall k :: 0 <= k < 3 * ParticleCount ==>
      positions[k] == if 3 * i <= k < 3 * i + 3 then PositionSlot(data, k) else old(positions[k])
    ensures forall k :: 0 <= k < 3 * ParticleCount ==>
      colors[k] == if 3 * i <= k < 3 * i + 3 then ColorSlot(data, k) else old(colors[k])
    ensures forall k :: 0 <= k < 3 * ParticleCount ==>
      originalColors[k] == if 3 * i <= k < 3 * i + 3 then ColorSlot(data, k) else old(originalColors[k])
    ensures forall j :: 0 <= j < ParticleCount ==>
      depthValues[j] == if j == i then DepthSlot(data, j) else old(depthValues[j])
    ensures forall j :: 0 <= j < ParticleCount ==>
      sizes[j] == if j == i then SizeSlot(data, j) else old(sizes[j])
  {
    var x := (i % Size) as real / Size as real - 0.5;
    var y := 0.5 - (i / Size) as real / Size as real;
    var r := data[i * 4] as real / 255.0;
    var g := data[i * 4 + 1] as real / 255.0;
    var b := data[i * 4 + 2] as real / 255.0;
    var luminance := 0.299 * r + 0.587 * g + 0.114 * b;
    var z := luminance * 0.5;
    assert luminance == PixelLuminance(data, i) && z == PixelDepth(data, i);
    StoreCoordinates(data, i, positions, x * Spread, y * Spread, z);
    StoreColor(data, i, colors, r, g, b);
    StoreColor(data, i, originalColors, r, g, b);
    StoreShading(data, i, sizes, depthValues, luminance);
  }

  /** The depth (`luminance * 0.5`) and size (`(0.5 + luminance) * 0.04`) of a visible point. */
  method StoreShading(data: seq<int>, i: nat, sizes: array<real>, depthValues: array<real>, luminance: real)
    requires IsPixelGrid(data) && i < ParticleCount && PixelVisible(data, i)
    requires sizes.Length == depthValues.Length == ParticleCount && sizes != depthValues
    requires luminance == PixelLuminance(data, i)
    modifies sizes, depthValues
    ensures forall j :: 0 <= j < ParticleCount ==>
      depthValues[j] == if j == i then DepthSlot(data, j) else old(depthValues[j])
    ensures forall j :: 0 <= j < ParticleCount ==>
      sizes[j] == if j == i then SizeSlot(data, j) else old(sizes[j])
  {
    depthValues[i] := luminance * 0.5;
    sizes[i] := (0.5 + luminance) * 0.04;
  }

  method StoreCoordinates(data: seq<int>, i: nat, positions: array<real>, u: real, v: real, w: real)
    requires IsPixelGrid(data) && i < ParticleCount && positions.Length == 3 * ParticleCount
    requires PixelVisible(data, i)
    requires u == GridX(i) * Spread && v == GridY(i) * Spread && w == PixelDepth(data, i)
    modifies positions
    ensures forall k :: 0 <= k < 3 * ParticleCount ==>
      positions[k] == if 3 * i <= k < 3 * i + 3 then PositionSlot(data, k) else old(positions[k])
  {
    SlotsOfVisiblePoint(data, i);
    SetTriple(positions, i, u, v, w);
  }

  method StoreColor(data: seq<int>, i: nat, colors: array<real>, r: real, g: real, b: real)
    requires IsPixelGrid(data) && i < ParticleCount && colors.Length == 3 * ParticleCount
    requires PixelVisible(data, i)
    requires r == Channel(data[4 * i]) && g == Channel(data[4 * i + 1]) && b == Channel(data[4 * i + 2])
    modifies colors
    ensures forall k :: 0 <= k < 3 * ParticleCount ==>
      colors[k] == if 3 * i <= k < 3 * i + 3 then ColorSlot(data, k) else old(colors[k])
  {
    SlotsOfVisiblePoint(data, i);
    SetTriple(colors, i, r, g, b);
  }

  method SetTriple(a: array<real>, i: nat, u: real, v: real, w: real)
    requires 3 * i + 2 < a.Length
    modifies a
    ensures forall k :: 0 <= k < a.Length ==>
      a[k] == (if k == 3 * i then u else if k == 3 * i + 1 then v else if k == 3 * i + 2 then w else old(a[k]))
  {
    a[i * 3] := u;
    a[i * 3 + 1] := v;
    a[i * 3 + 2] := w;
  }

  lemma SlotsOfVisiblePoint(data: seq<int>, i: nat)
    requires IsPixelGrid(data) && i < ParticleCount && PixelVisible(data, i)
    ensures PositionSlot(data, 3 * i) == GridX(i) * Spread
    ensures PositionSlot(data, 3 * i + 1) == GridY(i) * Spread
    ensures PositionSlot(data, 3 * i + 2) == PixelDepth(data, i)
    ensures ColorSlot(data, 3 * i) == Channel(data[4 * i])
    ensures ColorSlot(data, 3 * i + 1) == Channel(data[4 * i + 1])
    ensures ColorSlot(data, 3 * i + 2) == Channel(data[4 * i + 2])
  {
    assert (3 * i) / 3 == i && (3 * i + 1) / 3 == i && (3 * i + 2) / 3 == i;
    assert (3 * i) % 3 == 0 && (3 * i + 1) % 3 == 1 && (3 * i + 2) % 3 == 2;
  }

  lemma SlotsOfHiddenPoint(data: seq<int>, i: nat)
    requires IsPixelGrid(data) && i < ParticleCount && !PixelVisible(data, i)
    ensures PositionSlot(data, 3 * i) == PositionSlot(data, 3 * i + 1) == PositionSlot(data, 3 * i + 2) == Sentinel
  {
    assert (3 * i) / 3 == i && (3 * i + 1) / 3 == i && (3 * i + 2) / 3 == i;
  }

  // ------------------------------------------------------------------
  // Colour modes

  function Min(a: real, b: real): real { if a <= b then a else b }
  function Max(a: real, b: real): real { if a >= b then a else b }
  function Abs(a: real): real { if a < 0.0 then -a else a }

  /** One heatmap channel: a tent of height 1.5 centred at `4t = centre`, clamped to [0, 1]. */
  function HeatTent(t: real, centre: real): real { Max(0.0, Min(1.0, 1.5 - Abs(t * 4.0 - centre))) }

  /** The blue-cyan-green-yellow-red gradient for `t` in [0, 1]. */
  function HeatmapColor(t: real): Color
  {
    Color(HeatTent(t, 3.0), HeatTent(t, 2.0), HeatTent(t, 1.0))
  }

  /** Depth (roughly in [0, 0.5]) normalised to the gradient parameter in [0, 1]. */
  function HeatmapParameter(depth: real): real { Min(1.0, Max(0.0, depth * 2.0)) }

  /** What mode `mode` writes into colour slot `k`, given the original colours and depths. */
  function ModeChannel(mode: RenderMode, original: seq<real>, depths: seq<real>, k: nat): real
    requires k < |original| && k / 3 < |depths|
  {
    match mode
    case Rgb => original[k]
    case Heatmap =>
      var c := HeatmapColor(HeatmapParameter(depths[k / 3]));
      if k % 3 == 0 then c.r else if k % 3 == 1 then c.g else c.b
    case Xray => XrayLevel
  }

  /** The colour buffer after recolouring its first `count` points for `mode`; later slots are kept. */
  function Recolored(mode: RenderMode, before: seq<real>, original: seq<real>, depths: seq<real>, count: nat): seq<real>
    requires 3 * count <= |before| && 3 * count <= |original| && count <= |depths|
  {
    seq(|before|, k requires 0 <= k < |before| =>
      if k < 3 * count then ModeChannel(mode, original, depths, k) else before[k])
  }

  function BlendingFor(mode: RenderMode): Blending { if mode == Xray then AdditiveBlending else NormalBlending }
  function OpacityFor(mode: RenderMode): real { if mode == Xray then XrayOpacity else 1.0 }

  /** Every heatmap channel lies in [0, 1], whatever the parameter. */
  lemma HeatmapInUnitCube(t: real)
    ensures 0.0 <= HeatmapColor(t).r <= 1.0
    ensures 0.0 <= HeatmapColor(t).g <= 1.0
    ensures 0.0 <= HeatmapColor(t).b <= 1.0
  {
  }

  /** The gradient's ends and middle: deep blue-ish at 0, green at 0.5, red-ish at 1. */
  lemma HeatmapSamples()
    ensures HeatmapColor(0.0) == Color(0.0, 0.0, 0.5)
    ensures HeatmapColor(0.5) == Color(0.5, 1.0, 0.5)
    ensures HeatmapColor(1.0) == Color(0.5, 0.0, 0.0)
  {
  }

  /** The heatmap parameter is a clamp: it lies in [0, 1] and is exactly twice the depth on [0, 0.5]. */
  lemma HeatmapParameterClamps(depth: real)
    ensures 0.0 <= HeatmapParameter(depth) <= 1.0
    ensures 0.0 <= depth <= 0.5 ==> HeatmapParameter(depth) == 2.0 * depth
    ensures depth <= 0.0 ==> HeatmapParameter(depth) == 0.0
    ensures depth >= 0.5 ==> HeatmapParameter(depth) == 1.0
  {
  }

  /** Recolouring keeps the buffer's length, rewrites exactly the first `3 * count` slots, and gives each mode's value. */
  lemma RecoloredSlots(mode: RenderMode, before: seq<real>, original: seq<real>, depths: seq<real>, count: nat)
    requires 3 * count <= |before| && 3 * count <= |original| && count <= |depths|
    ensures |Recolored(mode, before, original, depths, count)| == |before|
    ensures forall k :: 3 * count <= k < |before| ==> Recolored(mode, before, original, depths, count)[k] == before[k]
    ensures mode == Rgb ==> forall k :: 0 <= k < 3 * count ==> Recolored(mode, before, original, depths, count)[k] == original[k]
    ensures mode == Xray ==> forall k :: 0 <= k < 3 * count ==> Recolored(mode, before, original, depths, count)[k] == 0.8
    ensures mode == Heatmap ==> forall k :: 0 <= k < 3 * count ==> 0.0 <= Recolored(mode, before, original, depths, count)[k] <= 1.0
  {
    if mode == Heatmap {
      forall k | 0 <= k < 3 * count
        ensures 0.0 <= Recolored(mode, before, original, depths, count)[k] <= 1.0
      {
        HeatmapInUnitCube(HeatmapParameter(depths[k / 3]));
      }
    }
  }

  /** Recolouring forgets the earlier mode: the last mode applied decides the buffer (so each mode is idempotent). */
  lemma RecoloredLastModeWins(first: RenderMode, second: RenderMode, before: seq<real>, original: seq<real>,
                              depths: seq<real>, count: nat)
    requires 3 * count <= |before| && 3 * count <= |original| && count <= |depths|
    ensures Recolored(second, Recolored(first, before, original, depths, count), original, depths, count)
         == Recolored(second, before, original, depths, count)
  {
  }

  /** Switching back to RGB over the whole cloud restores the original colours exactly. */
  lemma RgbRestoresOriginal(before: seq<real>, original: seq<real>, depths: seq<real>, count: nat)
    requires 3 * count == |before| == |original| && count <= |depths|
    ensures Recolored(Rgb, before, original, depths, count) == original
  {
  }

  /** X-ray is the only mode with additive blending and opacity 0.3; the others use normal blending at 1.0. */
  lemma MaterialForMode(mode: RenderMode)
    ensures BlendingFor(mode) == AdditiveBlending <==> mode == Xray
    ensures OpacityFor(mode) == (if mode == Xray then 0.3 else 1.0)
  {
  }

  // ------------------------------------------------------------------
  // Scene objects and the viewer state

  /** The point geometry: its three attribute buffers and the colour attribute's upload flag. */
  class Geometry {
    var positions: array<real>
    var colors: array<real>
    var sizes: array<real>
    var colorNeedsUpdate: bool

    constructor(positions: array<real>, colors: array<real>, sizes: array<real>)
      ensures this.positions == positions && this.colors == colors && this.sizes == sizes
      ensures !colorNeedsUpdate
    {
      this.positions := positions;
      this.colors := colors;
      this.sizes := sizes;
      colorNeedsUpdate := false;
    }
  }

  /** The point material's mode-dependent settings: blending and the opacity uniform. */
  class Material {
    var blending: Blending
    var opacity: real

    constructor()
      ensures blending == NormalBlending && opacity == 1.0
    {
      blending := NormalBlending;
      opacity := 1.0;
    }
  }

  /** The viewer component's state: scene references, the kept buffers and the UI state. */
  class Viewer {
    var geometry: Geometry?
    var material: Material?
    var originalColors: array?<real>
    var depthValues: array?<real>
    var pointsCount: nat
    var renderMode: RenderMode
    var isLoading: bool
    var autoRotate: bool

    /** Nothing is loaded, or everything is: buffers of the cloud's sizes, the live colour buffer distinct from the rest. */
    predicate Valid()
      reads this, geometry
    {
      if geometry == null then
        material == null && originalColors == null && depthValues == null && pointsCount == 0
      else
        material != null && originalColors != null && depthValues != null && pointsCount == ParticleCount
        && geometry.positions.Length == 3 * ParticleCount && geometry.colors.Length == 3 * ParticleCount
        && geometry.sizes.Length == ParticleCount
        && originalColors.Length == 3 * ParticleCount && depthValues.Length == ParticleCount
        && geometry.colors != originalColors && geometry.colors != geometry.positions
        && geometry.colors != geometry.sizes && geometry.colors != depthValues
    }

    predicate Loaded()
      reads this
    {
      geometry != null && originalColors != null && depthValues != null
    }

    constructor()
      ensures Valid() && !Loaded()
      ensures pointsCount == 0 && renderMode == Rgb && isLoading && autoRotate
    {
      geometry := null;
      material := null;
      originalColors := null;
      depthValues := null;
      pointsCount := 0;
      renderMode := Rgb;
      isLoading := true;
      autoRotate := true;
    }

    /**
     * Rewrites the first `pointsCount` points of the live colour buffer for the current mode, flags it for
     * upload and sets the material's blending and opacity. Without a loaded cloud it does nothing;
     * it never touches positions, sizes, the original colours or the depths.
     */
    method UpdateColors()
      requires Valid()
      modifies if geometry == null then {} else {geometry as object, geometry.colors as object}
      modifies if material == null then {} else {material}
      ensures Valid()
      ensures !old(Loaded()) ==> geometry == null && material == old(material)
      ensures old(Loaded()) ==>
        geometry.colors[..] == Recolored(renderMode, old(geometry.colors[..]), originalColors[..], depthValues[..], pointsCount)
        && geometry.colorNeedsUpdate
        && material.blending == BlendingFor(renderMode) && material.opacity == OpacityFor(renderMode)
      ensures geometry == old(geometry) && material == old(material)
      ensures geometry != null ==> (geometry.positions == old(geometry.positions)
        && geometry.colors == old(geometry.colors) && geometry.sizes == old(geometry.sizes))
      ensures geometry != null ==> unchanged(geometry.positions, geometry.sizes, originalColors, depthValues)
    {
      if geometry == null || originalColors == null || depthValues == null {
        return;
      }
      var count := pointsCount;
      var colors := geometry.colors;
      var original := originalColors;
      var depths := depthValues;
      ghost var before := colors[..];
      var i := 0;
      while i < count
        invariant 0 <= i <= count
        invariant forall k :: 0 <= k < 3 * i ==> colors[k] == ModeChannel(renderMode, original[..], depths[..], k)
        invariant forall k :: 3 * i <= k < colors.Length ==> colors[k] == before[k]
        modifies colors
      {
        RecolorPoint(renderMode, colors, original, depths, i);
        i := i + 1;
      }
      assert colors[..] == Recolored(renderMode, before, original[..], depths[..], count);
      geometry.colorNeedsUpdate := true;

      if material != null {
        if renderMode == Xray {
          material.blending := AdditiveBlending;
          material.opacity := 0.3;
        } else {
          material.blending := NormalBlending;
          material.opacity := 1.0;
        }
      }
    }

    /** Selecting a mode re-runs the recolouring when the mode changes. */
    method SetRenderMode(mode: RenderMode)
      requires Valid()
      modifies this, if geometry == null then {} else {geometry as object, geometry.colors as object}
      modifies if material == null then {} else {material}
      ensures Valid() && renderMode == mode
      ensures geometry == old(geometry) && material == old(material)
      ensures originalColors == old(originalColors) && depthValues == old(depthValues)
      ensures pointsCount == old(pointsCount) && isLoading == old(isLoading) && autoRotate == old(autoRotate)
      ensures old(Loaded()) && mode != old(renderMode) ==>
        geometry.colors[..] == Recolored(mode, old(geometry.colors[..]), originalColors[..], depthValues[..], pointsCount)
        && material.blending == BlendingFor(mode) && material.opacity == OpacityFor(mode)
      ensures mode == old(renderMode) && old(geometry) != null ==> unchanged(old(geometry), old(geometry.colors))
    {
      if mode != renderMode {
        renderMode := mode;
        UpdateColors();
      }
    }

    method ToggleAutoRotate()
      modifies this
      ensures autoRotate == !old(autoRotate)
      ensures geometry == old(geometry) && material == old(material) && renderMode == old(renderMode)
      ensures originalColors == old(originalColors) && depthValues == old(depthValues)
      ensures pointsCount == old(pointsCount) && isLoading == old(isLoading)
    {
      autoRotate := !autoRotate;
    }

    /**
     * The image-load handler: builds the cloud from the canvas readback, installs a fresh geometry and a
     * fresh material (normal blending, opacity 1.0), and clears the loading flag. The recolouring effect
     * depends on `pointsCount`, so it re-runs afterwards only when the point count changed.
     */
    method LoadImage(data: seq<int>)
      requires Valid() && IsPixelGrid(data)
      modifies this
      ensures Valid() && Loaded() && fresh(geometry) && fresh(material)
      ensures fresh(geometry.positions) && fresh(geometry.colors) && fresh(geometry.sizes)
      ensures fresh(originalColors) && fresh(depthValues)
      ensures pointsCount == ParticleCount && !isLoading
      ensures renderMode == old(renderMode) && autoRotate == old(autoRotate)
      ensures geometry.positions[..] == CloudPositions(data) && geometry.sizes[..] == CloudSizes(data)
      ensures originalColors[..] == CloudColors(data) && depthValues[..] == CloudDepths(data)
      ensures old(pointsCount) != ParticleCount ==>
        geometry.colors[..] == Recolored(renderMode, CloudColors(data), CloudColors(data), CloudDepths(data), ParticleCount)
        && material.blending == BlendingFor(renderMode) && material.opacity == OpacityFor(renderMode)
      ensures old(pointsCount) == ParticleCount ==>
        geometry.colors[..] == CloudColors(data) && material.blending == NormalBlending && material.opacity == 1.0
    {
      var countChanged := pointsCount != ParticleCount;
      InstallCloud(data);
      if countChanged {
        UpdateColors();
      }
    }

    /** The first half of the load handler: the fresh cloud, geometry and material are installed and loading ends. */
    method InstallCloud(data: seq<int>)
      requires IsPixelGrid(data)
      modifies this
      ensures Valid() && Loaded() && fresh(geometry) && fresh(material)
      ensures fresh(geometry.positions) && fresh(geometry.colors) && fresh(geometry.sizes)
      ensures fresh(originalColors) && fresh(depthValues)
      ensures pointsCount == ParticleCount && !isLoading
      ensures renderMode == old(renderMode) && autoRotate == old(autoRotate)
      ensures geometry.positions[..] == CloudPositions(data) && geometry.sizes[..] == CloudSizes(data)
      ensures originalColors[..] == CloudColors(data) && depthValues[..] == CloudDepths(data)
      ensures geometry.colors[..] == CloudColors(data) && material.blending == NormalBlending && material.opacity == 1.0
    {
      pointsCount := ParticleCount;
      var positions, colors, sizes, original, depths := BuildPointCloud(data);
      var g := new Geometry(positions, colors, sizes);
      geometry := g;
      originalColors := original;
      depthValues := depths;
      var m := new Material();
      material := m;
      isLoading := false;
    }
  }

  /** Recolours point `i` for `mode`: its three slots take the mode's values and no other slot changes. */
  method RecolorPoint(mode: RenderMode, colors: array<real>, original: array<real>, depths: array<real>, i: nat)
    requires 3 * i + 2 < colors.Length && 3 * i + 2 < original.Length && i < depths.Length
    requires colors != original && colors != depths
    modifies colors
    ensures forall k :: 0 <= k < colors.Length ==>
      colors[k] == if 3 * i <= k < 3 * i + 3 then ModeChannel(mode, original[..], depths[..], k) else old(colors[k])
  {
    assert (3 * i) / 3 == i && (3 * i + 1) / 3 == i && (3 * i + 2) / 3 == i;
    assert (3 * i) % 3 == 0 && (3 * i + 1) % 3 == 1 && (3 * i + 2) % 3 == 2;
    if mode == Rgb {
      SetTriple(colors, i, original[i * 3], original[i * 3 + 1], original[i * 3 + 2]);
    } else if mode == Heatmap {
      var d := Min(1.0, Max(0.0, depths[i] * 2.0));
      var c := HeatmapColor(d);
      SetTriple(colors, i, c.r, c.g, c.b);
    } else {
      var val := 0.8;
      SetTriple(colors, i, val, val, val);
    }
  }
}
