/** The constant families of the libretro ABI header that carry structure:
    device-type encoding, joypad button ids, environment command flags,
    keyboard-modifier flags, memory-descriptor flags and SIMD capability
    flags. The flag families are C `unsigned int`s, modelled as `bv32` so
    that the header's shifts, ORs and masks keep their 32-bit meaning; the
    joypad ids, which are only compared and used as indices, are `u32`. */
module LibretroApi {
  import opened Common

  // ---------------------------------------------------------------------
  // Device types and subclasses
  // ---------------------------------------------------------------------

  const DEVICE_TYPE_SHIFT: bv32 := 8
  const DEVICE_MASK: bv32 := (1 << DEVICE_TYPE_SHIFT) - 1

  const DEVICE_NONE: bv32 := 0
  const DEVICE_JOYPAD: bv32 := 1
  const DEVICE_MOUSE: bv32 := 2
  const DEVICE_KEYBOARD: bv32 := 3
  const DEVICE_LIGHTGUN: bv32 := 4
  const DEVICE_ANALOG: bv32 := 5
  const DEVICE_POINTER: bv32 := 6

  const BASE_DEVICES: seq<bv32> :=
    [DEVICE_NONE, DEVICE_JOYPAD, DEVICE_MOUSE, DEVICE_KEYBOARD,
     DEVICE_LIGHTGUN, DEVICE_ANALOG, DEVICE_POINTER]

  /** Subclass ids whose `id + 1` still fits above the 8 type bits. */
  const SUBCLASS_ID_LIMIT: bv32 := 0xff_ffff

  /** The base device type of a (possibly subclassed) device: what a frontend
      hands to the input-state callback after masking. */
  function DeviceBase(device: bv32): bv32
  {
    device & DEVICE_MASK
  }

  /** The subclass id stored above the type bits. */
  function SubclassId(device: bv32): bv32
  {
    (device >> DEVICE_TYPE_SHIFT) - 1
  }

  /** `RETRO_DEVICE_SUBCLASS(base, id)`, with 32-bit wrap-around. For a base
      type below 256 and an id whose successor fits in the upper 24 bits,
      the base and the id are both recovered and the result is never the
      base type itself. */
  function Subclass(base: bv32, id: bv32): (r: bv32)
    ensures base <= DEVICE_MASK && id < SUBCLASS_ID_LIMIT ==>
      DeviceBase(r) == base && SubclassId(r) == id && r != base
  {
    ((id + 1) << DEVICE_TYPE_SHIFT) | base
  }

  /** The mask is the low eight bits, and every base device type is its own
      base. */
  lemma BaseDevicesAreBase()
    ensures DEVICE_MASK == 0xff
    ensures forall i :: 0 <= i < |BASE_DEVICES| ==>
      BASE_DEVICES[i] == i as bv32 && DeviceBase(BASE_DEVICES[i]) == BASE_DEVICES[i]
  {
  }

  // ---------------------------------------------------------------------
  // RetroPad button ids
  // ---------------------------------------------------------------------

  const JOYPAD_B: u32 := 0
  const JOYPAD_Y: u32 := 1
  const JOYPAD_SELECT: u32 := 2
  const JOYPAD_START: u32 := 3
  const JOYPAD_UP: u32 := 4
  const JOYPAD_DOWN: u32 := 5
  const JOYPAD_LEFT: u32 := 6
  const JOYPAD_RIGHT: u32 := 7
  const JOYPAD_A: u32 := 8
  const JOYPAD_X: u32 := 9
  const JOYPAD_L: u32 := 10
  const JOYPAD_R: u32 := 11
  const JOYPAD_L2: u32 := 12
  const JOYPAD_R2: u32 := 13
  const JOYPAD_L3: u32 := 14
  const JOYPAD_R3: u32 := 15

  // ---------------------------------------------------------------------
  // Environment commands
  // ---------------------------------------------------------------------

  const ENVIRONMENT_EXPERIMENTAL: bv32 := 0x10000
  const ENVIRONMENT_PRIVATE: bv32 := 0x20000

  /** An experimental command: the command number with bit 16 raised. For a
      number below bit 16, clearing the experimental bit gives the number
      back, and the private bit stays clear. */
  function Experimental(n: bv32): (c: bv32)
    ensures n < ENVIRONMENT_EXPERIMENTAL ==>
      && c & ENVIRONMENT_EXPERIMENTAL != 0
      && c & !ENVIRONMENT_EXPERIMENTAL == n
      && c & ENVIRONMENT_PRIVATE == 0
  {
    n | ENVIRONMENT_EXPERIMENTAL
  }

  const ENVIRONMENT_SET_PIXEL_FORMAT: bv32 := 10
  const ENVIRONMENT_GET_VARIABLE: bv32 := 15
  const ENVIRONMENT_SET_VARIABLES: bv32 := 16
  const ENVIRONMENT_GET_VARIABLE_UPDATE: bv32 := 17
  const ENVIRONMENT_SET_SUPPORT_NO_GAME: bv32 := 18
  const ENVIRONMENT_GET_SENSOR_INTERFACE: bv32 := Experimental(25)
  const ENVIRONMENT_GET_CAMERA_INTERFACE: bv32 := Experimental(26)
  const ENVIRONMENT_GET_LOG_INTERFACE: bv32 := 27
  const ENVIRONMENT_SET_SYSTEM_AV_INFO: bv32 := 32
  const ENVIRONMENT_SET_MEMORY_MAPS: bv32 := Experimental(36)

  /** The experimental and private flags are disjoint, and the three
      experimental commands are their plain numbers with bit 16 raised. */
  lemma ExperimentalCommands()
    ensures ENVIRONMENT_EXPERIMENTAL & ENVIRONMENT_PRIVATE == 0
    ensures ENVIRONMENT_GET_SENSOR_INTERFACE == 0x10019
    ensures ENVIRONMENT_GET_CAMERA_INTERFACE & !ENVIRONMENT_EXPERIMENTAL == 26
    ensures ENVIRONMENT_SET_MEMORY_MAPS & !ENVIRONMENT_EXPERIMENTAL == 36
  {
  }

  // ---------------------------------------------------------------------
  // Pixel formats
  // ---------------------------------------------------------------------

  const PIXEL_FORMAT_0RGB1555: bv32 := 0
  const PIXEL_FORMAT_XRGB8888: bv32 := 1
  const PIXEL_FORMAT_RGB565: bv32 := 2

  // ---------------------------------------------------------------------
  // Keyboard modifiers
  // ---------------------------------------------------------------------

  const KEYMOD_NONE: bv32 := 0x0000
  const KEYMOD_SHIFT: bv32 := 0x01
  const KEYMOD_CTRL: bv32 := 0x02
  const KEYMOD_ALT: bv32 := 0x04
  const KEYMOD_META: bv32 := 0x08
  const KEYMOD_NUMLOCK: bv32 := 0x10
  const KEYMOD_CAPSLOCK: bv32 := 0x20
  const KEYMOD_SCROLLOCK: bv32 := 0x40

  /** A set of held modifier keys. */
  datatype KeyMods = KeyMods(
    shift: bool, ctrl: bool, alt: bool, meta: bool,
    numLock: bool, capsLock: bool, scrollLock: bool)

  function Pick(raised: bool, flag: bv32): bv32
  {
    if raised then flag else 0
  }

  /** The OR of the raised modifier flags. Because the flags are distinct
      single bits, the set decodes back uniquely, and the empty set is
      `RETROKMOD_NONE`. */
  function EncodeKeyMods(m: KeyMods): (r: bv32)
    ensures DecodeKeyMods(r) == m
    ensures r == KEYMOD_NONE <==> m == KeyMods(false, false, false, false, false, false, false)
  {
    Pick(m.shift, KEYMOD_SHIFT) | Pick(m.ctrl, KEYMOD_CTRL) | Pick(m.alt, KEYMOD_ALT)
    | Pick(m.meta, KEYMOD_META) | Pick(m.numLock, KEYMOD_NUMLOCK)
    | Pick(m.capsLock, KEYMOD_CAPSLOCK) | Pick(m.scrollLock, KEYMOD_SCROLLOCK)
  }

  function DecodeKeyMods(x: bv32): KeyMods
  {
    KeyMods(
      x & KEYMOD_SHIFT != 0, x & KEYMOD_CTRL != 0, x & KEYMOD_ALT != 0,
      x & KEYMOD_META != 0, x & KEYMOD_NUMLOCK != 0, x & KEYMOD_CAPSLOCK != 0,
      x & KEYMOD_SCROLLOCK != 0)
  }

  /** Different modifier sets never share an encoding. */
  lemma KeyModsInjective(a: KeyMods, b: KeyMods)
    requires EncodeKeyMods(a) == EncodeKeyMods(b)
    ensures a == b
  {
  }

  // ---------------------------------------------------------------------
  // Memory-descriptor flags
  // ---------------------------------------------------------------------

  const MEMDESC_CONST: bv32 := 1 << 0
  const MEMDESC_BIGENDIAN: bv32 := 1 << 1
  const MEMDESC_ALIGN_2: bv32 := 1 << 16
  const MEMDESC_ALIGN_4: bv32 := 2 << 16
  const MEMDESC_ALIGN_8: bv32 := 3 << 16
  const MEMDESC_MINSIZE_2: bv32 := 1 << 24
  const MEMDESC_MINSIZE_4: bv32 := 2 << 24
  const MEMDESC_MINSIZE_8: bv32 := 3 << 24

  /** The two-bit fields: which bits an ALIGN_* or MINSIZE_* value may use. */
  const MEMDESC_ALIGN_FIELD: bv32 := 3 << 16
  const MEMDESC_MINSIZE_FIELD: bv32 := 3 << 24

  /** Access granularity named by an ALIGN_* or MINSIZE_* value; `Bytes1`
      is the absence of either flag. */
  datatype Granule = Bytes1 | Bytes2 | Bytes4 | Bytes8

  datatype MemDescFlags = MemDescFlags(isConst: bool, bigEndian: bool, align: Granule, minSize: Granule)

  function GranuleField(g: Granule): (v: bv32)
    ensures v < 4
  {
    match g
    case Bytes1 => 0
    case Bytes2 => 1
    case Bytes4 => 2
    case Bytes8 => 3
  }

  function FieldGranule(v: bv32): (g: Granule)
    requires v < 4
    ensures GranuleField(g) == v
  {
    if v == 0 then Bytes1 else if v == 1 then Bytes2 else if v == 2 then Bytes4 else Bytes8
  }

  /** The flag word of a memory descriptor. The ALIGN and MINSIZE fields sit
      in bits 16-17 and 24-25, apart from CONST and BIGENDIAN, so the word
      decodes back to the descriptor's flags. */
  function EncodeMemDesc(d: MemDescFlags): (r: bv32)
    ensures DecodeMemDesc(r) == d
    ensures r & !(MEMDESC_CONST | MEMDESC_BIGENDIAN | MEMDESC_ALIGN_FIELD | MEMDESC_MINSIZE_FIELD) == 0
  {
    var r := Pick(d.isConst, MEMDESC_CONST) | Pick(d.bigEndian, MEMDESC_BIGENDIAN)
      | (GranuleField(d.align) << 16) | (GranuleField(d.minSize) << 24);
    assert (r >> 16) & 3 == GranuleField(d.align);
    assert (r >> 24) & 3 == GranuleField(d.minSize);
    GranuleRoundTrip(d.align);
    GranuleRoundTrip(d.minSize);
    r
  }

  lemma GranuleRoundTrip(g: Granule)
    ensures FieldGranule(GranuleField(g)) == g
  {
  }

  function DecodeMemDesc(x: bv32): MemDescFlags
  {
    MemDescFlags(
      x & MEMDESC_CONST != 0, x & MEMDESC_BIGENDIAN != 0,
      FieldGranule((x >> 16) & 3), FieldGranule((x >> 24) & 3))
  }

  /** Each ALIGN_* constant is the ALIGN field of its granule, each
      MINSIZE_* the MINSIZE field, and the four bit groups are disjoint. */
  lemma MemDescFields()
    ensures MEMDESC_ALIGN_2 == GranuleField(Bytes2) << 16
    ensures MEMDESC_ALIGN_4 == GranuleField(Bytes4) << 16
    ensures MEMDESC_ALIGN_8 == GranuleField(Bytes8) << 16
    ensures MEMDESC_MINSIZE_2 == GranuleField(Bytes2) << 24
    ensures MEMDESC_MINSIZE_4 == GranuleField(Bytes4) << 24
    ensures MEMDESC_MINSIZE_8 == GranuleField(Bytes8) << 24
    ensures MEMDESC_CONST & MEMDESC_BIGENDIAN == 0
    ensures MEMDESC_ALIGN_FIELD & MEMDESC_MINSIZE_FIELD == 0
    ensures (MEMDESC_CONST | MEMDESC_BIGENDIAN) & (MEMDESC_ALIGN_FIELD | MEMDESC_MINSIZE_FIELD) == 0
  {
  }

  // ---------------------------------------------------------------------
  // SIMD capability flags
  // ---------------------------------------------------------------------

  const SIMD_SSE: bv32 := 1 << 0
  const SIMD_SSE2: bv32 := 1 << 1
  const SIMD_VMX: bv32 := 1 << 2
  const SIMD_VMX128: bv32 := 1 << 3
  const SIMD_AVX: bv32 := 1 << 4
  const SIMD_NEON: bv32 := 1 << 5
  const SIMD_SSE3: bv32 := 1 << 6
  const SIMD_SSSE3: bv32 := 1 << 7
  const SIMD_MMX: bv32 := 1 << 8
  const SIMD_MMXEXT: bv32 := 1 << 9
  const SIMD_SSE4: bv32 := 1 << 10
  const SIMD_SSE42: bv32 := 1 << 11
  const SIMD_AVX2: bv32 := 1 << 12
  const SIMD_VFPU: bv32 := 1 << 13
  const SIMD_PS: bv32 := 1 << 14
  const SIMD_AES: bv32 := 1 << 15

  const SIMD_FLAGS: seq<bv32> :=
    [SIMD_SSE, SIMD_SSE2, SIMD_VMX, SIMD_VMX128, SIMD_AVX, SIMD_NEON, SIMD_SSE3, SIMD_SSSE3,
     SIMD_MMX, SIMD_MMXEXT, SIMD_SSE4, SIMD_SSE42, SIMD_AVX2, SIMD_VFPU, SIMD_PS, SIMD_AES]

  /** The SIMD flags are the single bits 0..15 in declaration order, so no
      two of them overlap. */
  lemma SimdFlagsAreDistinctBits()
    ensures |SIMD_FLAGS| == 16
    ensures forall i :: 0 <= i < 16 ==> SIMD_FLAGS[i] == (1 as bv32) << i
    ensures forall i, j :: 0 <= i < 16 && 0 <= j < 16 && i != j ==> SIMD_FLAGS[i] & SIMD_FLAGS[j] == 0
  {
  }
}
