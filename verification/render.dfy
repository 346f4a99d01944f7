/**
 * The render table and the waterfall animation: a fixed array of pixel
 * records, filled at startup, stepped one pixel at a time by the animation
 * runs of the notes, and encoded into a packet after every step.
 */
module Render {
  import opened LedRecord
  import opened WledFrame
  import KeyDispatch

  function Min(a: int, b: int): int { if a < b then a else b }

  /** The hue given at startup to pixel `i` of a strip of `n` pixels in
      gradient mode: the pixel's share of the colour circle. */
  function GradientHue(i: nat, n: nat): nat
    requires n > 0
  {
    i * 360 / n
  }

  function GradientColor(i: nat, n: nat): Triple
    requires n > 0
  {
    Triple(GradientHue(i, n), 100, 100)
  }

  /** Gradient hues are proper hues, and they never fall along the strip. */
  lemma GradientHueBounds(i: nat, j: nat, n: nat)
    requires i <= j < n
    ensures 0 <= GradientHue(i, n) <= GradientHue(j, n) < 360
  {
    assert i * 360 <= j * 360 < n * 360;
    DivMonotone(i * 360, j * 360, n);
    DivBelow(j * 360, n, 360);
  }

  lemma DivMonotone(a: nat, b: nat, n: nat)
    requires a <= b && n > 0
    ensures a / n <= b / n
  {
    var qa, qb := a / n, b / n;
    assert a == n * qa + a % n && b == n * qb + b % n;
    if qa > qb {
      MulMonotone(n, qb + 1, qa);
      assert false;
    }
  }

  lemma MulMonotone(n: nat, x: nat, y: nat)
    requires x <= y
    ensures n * x <= n * y
  {
    assert n * y == n * x + n * (y - x);
  }

  lemma DivBelow(a: nat, n: nat, q: nat)
    requires n > 0 && a < n * q
    ensures a / n < q
  {
  }

  /** The table right after startup: every pixel idle; in gradient mode each
      pixel but the last holds its gradient colour, otherwise all are black. */
  function InitialPixels(cfg: Config): (ps: seq<PixelState>)
    requires cfg.gradient ==> cfg.ledCount > 0
  {
    seq(cfg.ledCount, i requires 0 <= i < cfg.ledCount =>
      PixelState(IdleLayer,
                 if cfg.gradient && i < cfg.ledCount - 1 then GradientColor(i, cfg.ledCount)
                 else Triple(0, 0, 0)))
  }

  /** Every layer lies in the domain the setter maintains. */
  ghost predicate Settled(ps: seq<PixelState>)
  {
    forall j :: 0 <= j < |ps| ==> ps[j].layer >= IdleLayer
  }

  /** The layer change of one animation step. */
  function Delta(rising: bool): int { if rising then 1 else -1 }

  /** The pixels after the first `n` steps of a run over the window that
      begins at `start`: step `i` sets pixel `start + i`'s layer through the
      clamping setter, one up for a rising run and one down for a falling one. */
  function Stepped(ps: seq<PixelState>, start: int, n: nat, rising: bool): (r: seq<PixelState>)
    ensures |r| == |ps|
  {
    seq(|ps|, j requires 0 <= j < |ps| =>
      if start <= j < start + n then ps[j].(layer := Clamped(ps[j].layer + Delta(rising)))
      else ps[j])
  }

  /** Steps never take a settled table below the idle floor. */
  lemma SteppedSettled(ps: seq<PixelState>, start: int, n: nat, rising: bool)
    requires Settled(ps)
    ensures Settled(Stepped(ps, start, n, rising))
  {
  }

  /** Over settled pixels, the first `k` steps of a rising run add exactly
      one to pixels `start .. start + k - 1` and change nothing else. */
  lemma RisingRun(ps: seq<PixelState>, start: int, k: nat)
    requires Settled(ps)
    ensures forall j :: 0 <= j < |ps| ==>
              Stepped(ps, start, k, true)[j] == ps[j].(layer := ps[j].layer + if start <= j < start + k then 1 else 0)
  {
  }

  /** The first `k` steps of a falling run take pixels `start .. start + k - 1`
      one layer down but never below the idle floor, and change nothing else. */
  lemma FallingRun(ps: seq<PixelState>, start: int, k: nat)
    ensures forall j :: 0 <= j < |ps| ==>
              Stepped(ps, start, k, false)[j] == ps[j].(layer := if start <= j < start + k then Max(ps[j].layer - 1, IdleLayer) else ps[j].layer)
  {
  }

  /** A completed falling run right after a completed rising run over the
      same window gives every pixel back its layer from before the press. */
  lemma {:induction false} FullUnwind(ps: seq<PixelState>, start: int, size: nat)
    requires Settled(ps)
    ensures Stepped(Stepped(ps, start, size, true), start, size, false) == ps
  {
    var up := Stepped(ps, start, size, true);
    RisingRun(ps, start, size);
    FallingRun(up, start, size);
    assert forall j :: 0 <= j < |ps| ==> Stepped(up, start, size, false)[j] == ps[j];
  }

  /** A rising run cancelled after `k` steps and the completed falling run of
      the release: the `k` pixels the rising run reached get their layers
      back, while the rest of the window ends one layer lower than before,
      floored at idle. */
  lemma {:induction false} CancelledRiseThenFall(ps: seq<PixelState>, start: int, k: nat, size: nat)
    requires Settled(ps) && k <= size
    ensures forall j :: 0 <= j < |ps| ==>
              Stepped(Stepped(ps, start, k, true), start, size, false)[j]
              == ps[j].(layer := if start + k <= j < start + size then Max(ps[j].layer - 1, IdleLayer) else ps[j].layer)
  {
    var up := Stepped(ps, start, k, true);
    RisingRun(ps, start, k);
    FallingRun(up, start, size);
  }

  /** Two notes whose windows may overlap, both pressed and both run to
      completion: each pixel's layer goes up by the number of windows that
      hold it; releasing both, in the order pressed, restores the table. */
  lemma {:induction false} TwoNotes(ps: seq<PixelState>, s1: int, s2: int, size: nat)
    requires Settled(ps)
    ensures var both := Stepped(Stepped(ps, s1, size, true), s2, size, true);
            (forall j :: 0 <= j < |ps| ==>
               both[j].layer == ps[j].layer + (if s1 <= j < s1 + size then 1 else 0)
                                            + (if s2 <= j < s2 + size then 1 else 0)) &&
            Stepped(Stepped(both, s1, size, false), s2, size, false) == ps
  {
    var one := Stepped(ps, s1, size, true);
    RisingRun(ps, s1, size);
    SteppedSettled(ps, s1, size, true);
    var both := Stepped(one, s2, size, true);
    RisingRun(one, s2, size);
    var less := Stepped(both, s1, size, false);
    FallingRun(both, s1, size);
    var none := Stepped(less, s2, size, false);
    FallingRun(less, s2, size);
    assert forall j :: 0 <= j < |ps| ==> none[j] == ps[j];
  }

  /** At startup no pixel is lit, so the first packet shows the idle colour
      on every LED whatever the mode. */
  lemma InitialFrameIdle(cfg: Config, toRgb: Triple -> Rgb)
    requires cfg.gradient ==> cfg.ledCount > 0
    ensures Encode(cfg, toRgb, InitialPixels(cfg)) == [4, cfg.timeout, 0, 0] + seq(3 * cfg.ledCount, _ => 5)
  {
    AllIdleFrame(cfg, toRgb, InitialPixels(cfg));
  }

  /** A strip of 10 LEDs, windows of 3, one note at table index 4: its window
      is 3 .. 5; pressing lights exactly those pixels (idle to layer 0), and
      the release returns the table to its startup value. */
  lemma SingleNoteScenario()
    ensures var cfg := Config(10, false, 3, 20, Rgb(255, 0, 255));
            var start := 4 - cfg.waterfallSize / 2;
            var up := Stepped(InitialPixels(cfg), start, cfg.waterfallSize, true);
            start == 3 &&
            (forall j :: 0 <= j < 10 ==> up[j].layer == if 3 <= j <= 5 then 0 else IdleLayer) &&
            Stepped(up, start, cfg.waterfallSize, false) == InitialPixels(cfg)
  {
    var cfg := Config(10, false, 3, 20, Rgb(255, 0, 255));
    RisingRun(InitialPixels(cfg), 3, 3);
    FullUnwind(InitialPixels(cfg), 3, 3);
  }

  /** The same strip with notes at table indexes 4 and 6, both held: their
      windows share pixel 5, which reaches layer 1 while its neighbours in
      either window are at 0; releasing both restores the startup table. */
  lemma OverlapScenario()
    ensures var cfg := Config(10, false, 3, 20, Rgb(255, 0, 255));
            var ps := InitialPixels(cfg);
            var both := Stepped(Stepped(ps, 3, 3, true), 5, 3, true);
            both[5].layer == 1 && both[3].layer == both[4].layer == both[6].layer == both[7].layer == 0 &&
            both[2].layer == both[8].layer == IdleLayer &&
            Stepped(Stepped(both, 3, 3, false), 5, 3, false) == ps
  {
    var cfg := Config(10, false, 3, 20, Rgb(255, 0, 255));
    TwoNotes(InitialPixels(cfg), 3, 5, 3);
  }

  /** The window of the note at table index `note` lies inside the table,
      as a run needs (the requirement of `RenderTable.Animate`). */
  predicate WindowInTable(cfg: Config, note: int)
  {
    0 <= note - cfg.waterfallSize / 2 && note - cfg.waterfallSize / 2 + cfg.waterfallSize <= cfg.ledCount
  }

  /** With the shipped settings (300 LEDs, window 9), keys 23 .. 107 keep
      their window inside the table; the lowest two keys start it before
      index 0 and the highest key runs it past the last index. */
  lemma {:induction false} ShippedKeyWindows(key: int)
    requires KeyDispatch.LowestKey <= key < KeyDispatch.LowestKey + KeyDispatch.KeyCount
    ensures KeyDispatch.NoteIndex(21, Default.ledCount) == 0
    ensures KeyDispatch.NoteIndex(22, Default.ledCount) == 3
    ensures KeyDispatch.NoteIndex(108, Default.ledCount) == 296
    ensures WindowInTable(Default, KeyDispatch.NoteIndex(key, Default.ledCount)) <==> 23 <= key <= 107
  {
    var n := Default.ledCount;
    assert KeyDispatch.NoteIndex(23, n) == 6;
    assert KeyDispatch.NoteIndex(107, n) == 293;
    if key <= 22 {
      KeyDispatch.NoteIndexMonotone(key, 22, n);
    } else if key <= 107 {
      KeyDispatch.NoteIndexMonotone(23, key, n);
      KeyDispatch.NoteIndexMonotone(key, 107, n);
    }
  }

  /** Where an animation run stops: it completes, or it is cancelled at one of
      its suspension points, 0 being before its first step and k > 0 the
      pause that follows its k-th step. */
  datatype Stop = Completes | CancelledAt(suspension: nat)

  /** The number of steps a run of `size` steps performs. */
  function Applied(stop: Stop, size: nat): nat
  {
    match stop
    case Completes => size
    case CancelledAt(k) => Min(k, size)
  }

  /** The number of frames a run of `size` steps sends. */
  function FrameCount(stop: Stop, size: nat): nat
  {
    match stop
    case Completes => size + 1
    case CancelledAt(k) => if k == 0 then 0 else if k <= size then k - 1 else size + 1
  }

  class RenderTable {
    const cfg: Config
    const leds: array<Led>

    // public view: the value of every pixel, in index order
    ghost var pixels: seq<PixelState>

    /** The table holds one distinct record per LED, `pixels` is their value,
        and no layer is below the idle floor. */
    ghost predicate Valid()
      reads this, leds, leds[..]
    {
      leds.Length == cfg.ledCount == |pixels| &&
      (forall i, j :: 0 <= i < j < leds.Length ==> leds[i] != leds[j]) &&
      (forall i :: 0 <= i < leds.Length ==>
         leds[i].storedLayer == pixels[i].layer && leds[i].color == pixels[i].color) &&
      Settled(pixels)
    }

    /** Startup: one idle black record per LED, then, in gradient mode, the
        gradient colour written into every record but the last. */
    constructor (cfg: Config)
      requires cfg.gradient ==> cfg.ledCount > 0
      ensures Valid() && this.cfg == cfg
      ensures fresh(leds) && forall i :: 0 <= i < leds.Length ==> fresh(leds[i])
      ensures pixels == InitialPixels(cfg)
    {
      this.cfg := cfg;
      var made: seq<Led> := [];
      while |made| < cfg.ledCount
        invariant |made| <= cfg.ledCount
        invariant forall i, j :: 0 <= i < j < |made| ==> made[i] != made[j]
        invariant forall i :: 0 <= i < |made| ==>
                    fresh(made[i]) && made[i].storedLayer == IdleLayer && made[i].color == Triple(0, 0, 0)
      {
        var led := new Led(IdleLayer, Triple(0, 0, 0));
        made := made + [led];
      }
      leds := new Led[cfg.ledCount](i requires 0 <= i < |made| => made[i]);
      new;
      assert leds[..] == made;
      if cfg.gradient {
        for i := 0 to cfg.ledCount - 1
          invariant leds[..] == made
          invariant forall j :: 0 <= j < cfg.ledCount ==>
                      leds[j].storedLayer == IdleLayer &&
                      leds[j].color == if j < i then GradientColor(j, cfg.ledCount) else Triple(0, 0, 0)
        {
          leds[i].color := GradientColor(i, cfg.ledCount);
        }
      }
      pixels := InitialPixels(cfg);
    }

    /** Builds the packet for the current table: the header, then one group
        per pixel in index order. */
    method UpdateLeds(toRgb: Triple -> Rgb) returns (payload: seq<Byte>)
      requires Valid()
      ensures payload == Encode(cfg, toRgb, pixels)
    {
      var i := 0;
      var rgbColor := cfg.color;
      payload := [Dnrgb, cfg.timeout] + BigEndian16(StartIndex);
      while i < leds.Length
        invariant 0 <= i <= leds.Length
        invariant !cfg.gradient ==> rgbColor == cfg.color
        invariant payload == Header(cfg.timeout) + Groups(cfg, toRgb, pixels[..i])
      {
        if cfg.gradient {
          rgbColor := toRgb(leds[i].color);
        }
        if leds[i].Layer() <= IdleLayer {
          payload := payload + RgbBytes(IdleRgb);
        } else {
          payload := payload + RgbBytes(rgbColor);
        }
        assert pixels[..i + 1][..i] == pixels[..i];
        i := i + 1;
      }
      assert pixels[..i] == pixels;
    }

    /** One animation run of the note whose table index is `note`: step `i`
        moves pixel `note - size / 2 + i` one layer up (`on`) or down, pauses
        and sends a frame; a completed run sends one more frame at the end.
        `stop` says at which pause, if any, the run was cancelled; `shown`
        is the table each frame shows. */
    method Animate(note: int, on: bool, stop: Stop, toRgb: Triple -> Rgb)
      returns (frames: seq<seq<Byte>>, ghost shown: seq<seq<PixelState>>)
      requires Valid()
      requires 0 <= note - cfg.waterfallSize / 2
      requires note - cfg.waterfallSize / 2 + cfg.waterfallSize <= leds.Length
      modifies this, leds[..]
      ensures Valid()
      ensures pixels == Stepped(old(pixels), note - cfg.waterfallSize / 2, Applied(stop, cfg.waterfallSize), on)
      ensures |frames| == |shown| == FrameCount(stop, cfg.waterfallSize)
      ensures forall j :: 0 <= j < |frames| ==> frames[j] == Encode(cfg, toRgb, shown[j])
      ensures forall j :: 0 <= j < |shown| ==>
                shown[j] == Stepped(old(pixels), note - cfg.waterfallSize / 2, Min(j + 1, cfg.waterfallSize), on)
    {
      var startNote := note - cfg.waterfallSize / 2;
      if stop == CancelledAt(0) {
        frames, shown := [], [];
        assert Stepped(pixels, startNote, 0, on) == pixels;
        return;
      }
      var completed;
      frames, completed, shown := Steps(startNote, on, stop, toRgb);
      if completed {
        var last := UpdateLeds(toRgb);
        frames, shown := frames + [last], shown + [pixels];
      }
    }

    /** The loop of an animation run that was not cancelled before it began:
        it ends early, without the frame of the step just made, when the run
        is cancelled in the pause after that step. */
    method Steps(startNote: int, on: bool, stop: Stop, toRgb: Triple -> Rgb)
      returns (frames: seq<seq<Byte>>, completed: bool, ghost shown: seq<seq<PixelState>>)
      requires Valid() && stop != CancelledAt(0)
      requires 0 <= startNote && startNote + cfg.waterfallSize <= leds.Length
      modifies this, leds[..]
      ensures Valid()
      ensures completed <==> !(stop.CancelledAt? && stop.suspension <= cfg.waterfallSize)
      ensures pixels == Stepped(old(pixels), startNote, if completed then cfg.waterfallSize else stop.suspension, on)
      ensures |frames| == |shown| == if completed then cfg.waterfallSize else stop.suspension - 1
      ensures forall j :: 0 <= j < |frames| ==> frames[j] == Encode(cfg, toRgb, shown[j])
      ensures forall j :: 0 <= j < |shown| ==> shown[j] == Stepped(old(pixels), startNote, j + 1, on)
    {
      frames, shown := [], [];
      for i := 0 to cfg.waterfallSize
        invariant Valid()
        invariant pixels == Stepped(old(pixels), startNote, i, on)
        invariant stop.CancelledAt? ==> stop.suspension > i
        invariant |frames| == |shown| == i
        invariant forall j :: 0 <= j < i ==> frames[j] == Encode(cfg, toRgb, shown[j])
        invariant forall j :: 0 <= j < i ==> shown[j] == Stepped(old(pixels), startNote, j + 1, on)
      {
        StepOne(startNote, i, on, old(pixels));
        if stop == CancelledAt(i + 1) {
          return frames, false, shown;
        }
        var frame := UpdateLeds(toRgb);
        frames, shown := frames + [frame], shown + [pixels];
      }
      completed := true;
    }

    /** Step `i` of a run over the window at `start`:
        `render_notes[start + i].layer += 1` (or `-= 1`), i.e. the getter
        followed by the clamping setter on that one pixel. */
    method StepOne(start: nat, i: nat, rising: bool, ghost base: seq<PixelState>)
      requires Valid() && start + i < leds.Length
      requires pixels == Stepped(base, start, i, rising)
      modifies this, leds[start + i]
      ensures Valid()
      ensures pixels == Stepped(base, start, i + 1, rising)
    {
      var k := start + i;
      var led := leds[k];
      led.SetLayer(led.Layer() + Delta(rising));
      pixels := pixels[k := pixels[k].(layer := led.storedLayer)];
      assert pixels == Stepped(base, start, i + 1, rising);
      forall j | 0 <= j < leds.Length
        ensures leds[j].storedLayer == pixels[j].layer && leds[j].color == pixels[j].color
      {
        if j != k {
          assert leds[j] != leds[k];
        }
      }
    }
  }
}
