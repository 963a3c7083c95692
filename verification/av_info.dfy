/** The audio/video description the wrapper reports to the frontend, and the
    sizes that follow from the core's screen constants: the frame buffer
    `retro_init` allocates and the pitch `retro_run` hands to the video
    refresh callback. */
module AvInfo {
  import opened Common
  import opened LibretroApi
  import opened RefreshOptions

  /** The constants the core crate supplies to the wrapper
      (`AV_SCREEN_WIDTH`, `AV_SCREEN_HEIGHT`, `COLOR_DEPTH_32`,
      `CORE_LOGIC_RATE`, `NO_CONTENT`). The float constants
      `AV_PIXEL_ASPECT` and `AV_SAMPLE_RATE` are not part of the model. */
  datatype CoreConfig = CoreConfig(
    screenWidth: u32,
    screenHeight: u32,
    colorDepth32: bool,
    logicRate: CoreLogicRate,
    noContent: bool)

  datatype Geometry = Geometry(baseWidth: u32, baseHeight: u32, maxWidth: u32, maxHeight: u32)

  /** The reported frame rate, kept as the exact quotient
      `Hz(logicRate) / frameMult` instead of the f64 the core computes. */
  datatype Timing = Timing(logicRate: CoreLogicRate, frameMult: nat)

  datatype SystemAvInfo = SystemAvInfo(geometry: Geometry, timing: Timing)

  /** The reported frame rate in tenths of a Hz, rounded half up. */
  function FpsTenths(t: Timing): nat
    requires t.frameMult >= 1
  {
    RoundedTenths(Hz(t.logicRate), t.frameMult)
  }

  /** `set_retro_system_av_info`: a fixed-size screen (the base size is the
      maximum size) running at the logic rate divided by the multiplier. */
  function SetSystemAvInfo(c: CoreConfig, frameMult: nat): (info: SystemAvInfo)
    ensures info.geometry.baseWidth == info.geometry.maxWidth == c.screenWidth
    ensures info.geometry.baseHeight == info.geometry.maxHeight == c.screenHeight
    ensures info.timing.logicRate == c.logicRate && info.timing.frameMult == frameMult
  {
    SystemAvInfo(
      Geometry(c.screenWidth, c.screenHeight, c.screenWidth, c.screenHeight),
      Timing(c.logicRate, frameMult))
  }

  /** The frame rate reported for a multiplier the option table produced is
      the display rate the frontend selected. */
  lemma ReportedRateIsSelected(c: CoreConfig, selected: string)
    requires Lookup(c.logicRate, selected).Some?
    ensures var info := SetSystemAvInfo(c, Lookup(c.logicRate, selected).value);
      info.timing.frameMult >= 1 && LabelTenths(selected) == Some(FpsTenths(info.timing))
  {
    LookupMeansRate(c.logicRate, selected);
  }

  // ---------------------------------------------------------------------
  // Pixel format, pitch and frame buffer
  // ---------------------------------------------------------------------

  /** Bytes per pixel of each pixel format the header defines, or `None` for
      a value that names no format. */
  function FormatBytes(format: bv32): Option<nat>
  {
    if format == PIXEL_FORMAT_0RGB1555 then Some(2)
    else if format == PIXEL_FORMAT_XRGB8888 then Some(4)
    else if format == PIXEL_FORMAT_RGB565 then Some(2)
    else None
  }

  /** The format `retro_get_system_av_info` requests. */
  function PixelFormat(c: CoreConfig): (format: bv32)
    ensures FormatBytes(format) == Some(BytesPerPixel(c))
    ensures format == PIXEL_FORMAT_XRGB8888 <==> c.colorDepth32
    ensures format != PIXEL_FORMAT_0RGB1555
  {
    if c.colorDepth32 then PIXEL_FORMAT_XRGB8888 else PIXEL_FORMAT_RGB565
  }

  /** The pixel size the wrapper uses for both the buffer and the pitch
      (`size_of::<u32>()` or `size_of::<u16>()`). */
  function BytesPerPixel(c: CoreConfig): nat
  {
    if c.colorDepth32 then 4 else 2
  }

  /** The pitch passed to the video refresh callback: the width times the
      pixel size, computed in 32-bit `c_uint` arithmetic, which wraps. */
  function Pitch(c: CoreConfig): (pitch: u32)
    ensures c.screenWidth as nat * BytesPerPixel(c) < U32_LIMIT ==> pitch as nat == c.screenWidth as nat * BytesPerPixel(c)
  {
    ((c.screenWidth as nat * BytesPerPixel(c)) % U32_LIMIT) as u32
  }

  /** The byte count `retro_init` asks `malloc` for: width times height in
      `uint`, then times the pixel size in `u64`, each product wrapping at
      64 bits. */
  function FrameBufferSize(c: CoreConfig): (size: nat)
    ensures size < U64_LIMIT
    ensures c.screenWidth as nat * c.screenHeight as nat * BytesPerPixel(c) < U64_LIMIT
         ==> size == c.screenWidth as nat * c.screenHeight as nat * BytesPerPixel(c)
  {
    var area := c.screenWidth as nat * c.screenHeight as nat;
    AreaFits(c.screenWidth, c.screenHeight);
    var bytes := area % U64_LIMIT * BytesPerPixel(c);
    assert area % U64_LIMIT == area;
    bytes % U64_LIMIT
  }

  /** The product of two 32-bit values fits in 64 bits. */
  lemma AreaFits(w: u32, h: u32)
    ensures w as nat * h as nat < U64_LIMIT
  {
    var a, b := w as nat, h as nat;
    if b > 0 {
      assert a * b < U32_LIMIT * b;
      assert U32_LIMIT * b <= U32_LIMIT * U32_LIMIT;
    }
  }

  /** Whenever the pitch does not wrap, the frame is packed as the header
      recommends (`pitch == width * bytes_per_pixel` of the requested
      format) and the buffer holds exactly `pitch * height` bytes, so the
      refresh callback reads no byte past the allocation. */
  lemma PackedFrame(c: CoreConfig)
    requires c.screenWidth as nat * BytesPerPixel(c) < U32_LIMIT
    ensures Pitch(c) as nat == c.screenWidth as nat * FormatBytes(PixelFormat(c)).value
    ensures FrameBufferSize(c) == Pitch(c) as nat * c.screenHeight as nat
  {
    var row := c.screenWidth as nat * BytesPerPixel(c);
    var h := c.screenHeight as nat;
    AreaFits(Pitch(c), c.screenHeight);
    assert c.screenWidth as nat * c.screenHeight as nat * BytesPerPixel(c) == row * h;
  }

  /** A 320x240 RGB565 core: a 640-byte pitch and a 153600-byte buffer. */
  lemma SmallScreenSizes()
    ensures var c := CoreConfig(320, 240, false, LogicRate60, false);
      Pitch(c) == 640 && FrameBufferSize(c) == 153600 && PixelFormat(c) == PIXEL_FORMAT_RGB565
  {
  }
}
