/**
 * The frame encoder: serialises the render table into one WLED UDP realtime
 * packet in the DNRGB protocol (protocol number 4: DRGB with a 16-bit start
 * index): a four-byte header, then one red/green/blue byte group per pixel,
 * lowest index first.
 */
module WledFrame {
  import opened LedRecord

  type Byte = x: int | 0 <= x < 256

  datatype Rgb = Rgb(r: Byte, g: Byte, b: Byte)

  /** The value of one pixel of the render table at one instant. */
  datatype PixelState = PixelState(layer: int, color: Triple)

  /** The program's settings: the strip length, gradient mode, the width of
      a note's window, the realtime timeout written into every packet (in
      seconds) and the single colour used outside gradient mode. */
  datatype Config = Config(ledCount: nat, gradient: bool, waterfallSize: nat,
                           timeout: Byte, color: Rgb)

  /** The settings the program ships with. */
  const Default := Config(300, true, 9, 20, Rgb(255, 0, 255))

  /** Protocol number of DNRGB in the WLED realtime UDP protocol: DRGB with a
      16-bit start index. */
  const Dnrgb: Byte := 4

  /** Index of the first LED the packet addresses. */
  const StartIndex: nat := 0

  /** The colour of a pixel whose layer is idle: dim grey, so that an idle
      strip differs from one the program has turned black. */
  const IdleRgb := Rgb(5, 5, 5)

  /** An unsigned 16-bit value, most significant byte first. */
  function BigEndian16(x: nat): (bs: seq<Byte>)
    requires x < 0x1_0000
    ensures |bs| == 2 && (bs[0] as int) * 256 + (bs[1] as int) == x
  {
    [x / 256, x % 256]
  }

  function Header(timeout: Byte): seq<Byte>
  {
    [Dnrgb, timeout] + BigEndian16(StartIndex)
  }

  function RgbBytes(c: Rgb): seq<Byte>
  {
    [c.r, c.g, c.b]
  }

  /** The colour a pixel is shown in; `toRgb` is the hue/saturation/value
      to red/green/blue conversion used in gradient mode. */
  function PixelColor(cfg: Config, toRgb: Triple -> Rgb, p: PixelState): Rgb
  {
    if p.layer <= IdleLayer then IdleRgb
    else if cfg.gradient then toRgb(p.color)
    else cfg.color
  }

  /** The byte groups of `pixels`, built by appending one group per pixel. */
  function Groups(cfg: Config, toRgb: Triple -> Rgb, pixels: seq<PixelState>): (g: seq<Byte>)
    ensures |g| == 3 * |pixels|
  {
    if |pixels| == 0 then []
    else Groups(cfg, toRgb, pixels[..|pixels| - 1]) + RgbBytes(PixelColor(cfg, toRgb, pixels[|pixels| - 1]))
  }

  /** The packet the program sends for a render table holding `pixels`. */
  function Encode(cfg: Config, toRgb: Triple -> Rgb, pixels: seq<PixelState>): (payload: seq<Byte>)
    ensures |payload| == 4 + 3 * |pixels|
  {
    Header(cfg.timeout) + Groups(cfg, toRgb, pixels)
  }

  /** Pixel `i` owns bytes 3i .. 3i+2 of the groups. */
  lemma {:induction false} GroupsLayout(cfg: Config, toRgb: Triple -> Rgb, pixels: seq<PixelState>)
    ensures forall i :: 0 <= i < |pixels| ==>
              Groups(cfg, toRgb, pixels)[3 * i .. 3 * i + 3] == RgbBytes(PixelColor(cfg, toRgb, pixels[i]))
  {
    if |pixels| > 0 {
      var init := pixels[..|pixels| - 1];
      GroupsLayout(cfg, toRgb, init);
      var g := Groups(cfg, toRgb, pixels);
      assert g == Groups(cfg, toRgb, init) + RgbBytes(PixelColor(cfg, toRgb, pixels[|pixels| - 1]));
      forall i | 0 <= i < |pixels|
        ensures g[3 * i .. 3 * i + 3] == RgbBytes(PixelColor(cfg, toRgb, pixels[i]))
      {
        if i < |pixels| - 1 {
          assert pixels[i] == init[i];
          assert g[3 * i .. 3 * i + 3] == Groups(cfg, toRgb, init)[3 * i .. 3 * i + 3];
        }
      }
    }
  }

  /** The layout of a whole packet: the header fields and each pixel's group. */
  lemma EncodeLayout(cfg: Config, toRgb: Triple -> Rgb, pixels: seq<PixelState>)
    ensures Encode(cfg, toRgb, pixels)[..4] == [4, cfg.timeout, 0, 0]
    ensures forall i :: 0 <= i < |pixels| ==>
              Encode(cfg, toRgb, pixels)[4 + 3 * i .. 4 + 3 * i + 3] == RgbBytes(PixelColor(cfg, toRgb, pixels[i]))
  {
    GroupsLayout(cfg, toRgb, pixels);
    var g := Groups(cfg, toRgb, pixels);
    var e := Encode(cfg, toRgb, pixels);
    assert e == Header(cfg.timeout) + g;
    forall i | 0 <= i < |pixels|
      ensures e[4 + 3 * i .. 4 + 3 * i + 3] == RgbBytes(PixelColor(cfg, toRgb, pixels[i]))
    {
      assert e[4 + 3 * i .. 4 + 3 * i + 3] == g[3 * i .. 3 * i + 3];
    }
  }

  /** An idle pixel is sent as the idle colour in either mode. */
  lemma IdlePixelBytes(cfg: Config, toRgb: Triple -> Rgb, pixels: seq<PixelState>, i: nat)
    requires i < |pixels| && pixels[i].layer <= IdleLayer
    ensures Encode(cfg, toRgb, pixels)[4 + 3 * i .. 4 + 3 * i + 3] == [5, 5, 5]
  {
    EncodeLayout(cfg, toRgb, pixels);
  }

  /** Outside gradient mode every lit pixel is sent as the configured colour. */
  lemma FixedColorBytes(cfg: Config, toRgb: Triple -> Rgb, pixels: seq<PixelState>, i: nat)
    requires !cfg.gradient && i < |pixels| && pixels[i].layer >= 0
    ensures Encode(cfg, toRgb, pixels)[4 + 3 * i .. 4 + 3 * i + 3] == [cfg.color.r, cfg.color.g, cfg.color.b]
  {
    EncodeLayout(cfg, toRgb, pixels);
  }

  /** In gradient mode a lit pixel is sent as its own colour converted. */
  lemma GradientColorBytes(cfg: Config, toRgb: Triple -> Rgb, pixels: seq<PixelState>, i: nat)
    requires cfg.gradient && i < |pixels| && pixels[i].layer >= 0
    ensures Encode(cfg, toRgb, pixels)[4 + 3 * i .. 4 + 3 * i + 3] == RgbBytes(toRgb(pixels[i].color))
  {
    EncodeLayout(cfg, toRgb, pixels);
  }

  /** A table in which no pixel is lit encodes as the header followed by
      nothing but the idle colour. */
  lemma {:induction false} AllIdleFrame(cfg: Config, toRgb: Triple -> Rgb, pixels: seq<PixelState>)
    requires forall i :: 0 <= i < |pixels| ==> pixels[i].layer == IdleLayer
    ensures Encode(cfg, toRgb, pixels) == [4, cfg.timeout, 0, 0] + seq(3 * |pixels|, _ => 5)
  {
    EncodeLayout(cfg, toRgb, pixels);
    var e := Encode(cfg, toRgb, pixels);
    var expected := [4, cfg.timeout, 0, 0] + seq(3 * |pixels|, _ => 5);
    forall k | 4 <= k < |e|
      ensures e[k] == expected[k]
    {
      var i := (k - 4) / 3;
      assert 4 + 3 * i <= k < 4 + 3 * i + 3 && i < |pixels|;
      assert pixels[i].layer == IdleLayer;
      assert e[4 + 3 * i .. 4 + 3 * i + 3] == [5, 5, 5];
      assert e[k] == e[4 + 3 * i .. 4 + 3 * i + 3][k - 4 - 3 * i];
    }
    assert e[..4] == expected[..4];
  }
}
