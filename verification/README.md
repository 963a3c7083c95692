# rust-libretro wrapper, modelled in Dafny

This project models the libretro wrapper layer of rust-libretro
(`src/rust_wrapper/`), which sits between a libretro frontend and a game core
written in Rust. The model covers:

- the `refresh_rate` core option, with the strings that advertise it and the
  table that turns the selected display rate into a number of logic ticks per
  displayed frame;
- the cached multiplier of `get_frame_mult` and the AV info it pushes;
- `retro_get_system_av_info`;
- one `retro_run` frame, as a trace of events;
- the frame-buffer size and the pitch;
- the ASCII-stripping bounded string copy used for logging;
- the joypad snapshot of `InputState::poll`;
- the fixed 1024-byte panic-message writer;
- the structured constant families of the libretro header: the device
  subclass encoding, experimental commands, and the keyboard-modifier,
  memory-descriptor and SIMD flags.

Callbacks into the frontend are parameters, and what they return is an
input:
- the "variables changed" flag and the selected option value;
- the input-state callback, as a total function.

The calls the wrapper makes into the frontend's environment callback are
recorded as values (`Environment.EnvCall`). A frame is recorded as a sequence
of `Scheduler.Event`s: lock, poll, environment calls, snapshot, render,
unlock, signal, logic ticks, lock, video refresh, unlock. A panic is
recorded as an `Abort` event or a `Panicked` outcome.

Modules, one per file:

| file | module | models |
|---|---|---|
| common.dfy | Common | fixed-width integer types, `Option`, precedence in a trace, repetition |
| libretro_api.dfy | LibretroApi | header constants and their bit encodings |
| refresh_options.dfy | RefreshOptions | option strings, the option format, the multiplier table |
| av_info.dfy | AvInfo | geometry and timing, pixel format, pitch, frame-buffer size |
| environment.dfy | Environment | environment calls, `retro_set_environment` |
| frame_mult.dfy | FrameMult | `get_frame_mult`, `retro_get_system_av_info` |
| scheduler.dfy | Scheduler | `retro_run` as an event trace |
| input.dfy | Input | `ControllerButton`, `InputState`, `poll`, indexing |
| ascii_copy.dfy | AsciiCopy | `strip_utf_strlcpy`, `malloc_ascii_cstring` |
| panic_writer.dfy | PanicWriter | the `PanicWriter` of `panic_fmt` |

One might expect `get_frame_mult` to keep the old multiplier when the
selected value is unknown. The code does not.
`get_environment_frame_mult` returns `None` for such a value, and
`get_frame_mult` overwrites its cache with that `None` (mod.rs:299). If the
frontend reported a change, the push then unwraps it and panics
(mod.rs:307). The old value is not kept. The model follows the code:
`FrameMult.GetFrameMult` panics exactly in that case.

## Model

| member | source | states |
|---|---|---|
| LibretroApi.Subclass | src/rust_wrapper/libretro.rs:50-55 | For a base type below 256 and an id whose successor fits above the type byte, masking with RETRO_DEVICE_MASK gives the base back. Shifting down and subtracting one gives the id back. The subclass never equals its base. |
| LibretroApi.BaseDevicesAreBase | src/rust_wrapper/libretro.rs:59-126 | RETRO_DEVICE_MASK is 0xff. The base device types NONE..POINTER are 0..6, and masking leaves each unchanged. |
| LibretroApi.Experimental | src/rust_wrapper/libretro.rs:411-413 | An experimental command below bit 16 has the EXPERIMENTAL bit set and the PRIVATE bit clear. Clearing the EXPERIMENTAL bit gives the command number back. |
| LibretroApi.ExperimentalCommands | src/rust_wrapper/libretro.rs:647-816 | EXPERIMENTAL and PRIVATE are disjoint. The sensor, camera and memory-map commands are 25, 26 and 36 with the EXPERIMENTAL bit raised. |
| LibretroApi.EncodeKeyMods | src/rust_wrapper/libretro.rs:398-407 | The OR of a set of RETROKMOD flags decodes back to the same set. It is RETROKMOD_NONE exactly for the empty set. |
| LibretroApi.KeyModsInjective | src/rust_wrapper/libretro.rs:398-407 | Two different modifier sets never OR to the same value. |
| LibretroApi.EncodeMemDesc | src/rust_wrapper/libretro.rs:863-870 | A memory-descriptor flag word decodes back to its CONST, BIGENDIAN, ALIGN and MINSIZE parts. It uses no bits outside those four groups. |
| LibretroApi.MemDescFields | src/rust_wrapper/libretro.rs:863-870 | ALIGN_2/4/8 are the values 1/2/3 in bits 16-17, and MINSIZE_2/4/8 are the same values in bits 24-25. These two fields, CONST and BIGENDIAN are pairwise disjoint. |
| LibretroApi.SimdFlagsAreDistinctBits | src/rust_wrapper/libretro.rs:1131-1146 | The RETRO_SIMD_* constants are the single bits 0..15 in declaration order, and no two of them overlap. |
| RefreshOptions.Lookup | src/rust_wrapper/mod.rs:330-361 | The table gives a multiplier exactly for the rates the profile advertises. Every multiplier is at least 1. |
| RefreshOptions.LookupMeansRate | src/rust_wrapper/mod.rs:330-361 | A resolved value names the display rate its multiplier produces. A whole number d satisfies d × m = logic rate. A decimal label is the rate rounded to one decimal place: "51.4" is 720/14 and "102.9" is 720/7. |
| RefreshOptions.LowEntryMeansRate | src/rust_wrapper/mod.rs:331-336 | In the 60 Hz profile, "60" gives 1 and "30" gives 2, each matching its label. |
| RefreshOptions.MediumEntryMeansRate | src/rust_wrapper/mod.rs:337-343 | In the 120 Hz profile, "60" gives 2, "120" gives 1 and "30" gives 4, each matching its label. |
| RefreshOptions.HighEntryMeansRate | src/rust_wrapper/mod.rs:344-360 | In the 720 Hz profile, "60", "72", "80" and "90" give 12, 10, 9 and 8, each matching its label. |
| RefreshOptions.HighMidEntryMeansRate | src/rust_wrapper/mod.rs:344-360 | In the 720 Hz profile, "102.9", "120", "144" and "180" give 7, 6, 5 and 4, each matching its label. |
| RefreshOptions.HighLateEntryMeansRate | src/rust_wrapper/mod.rs:344-360 | In the 720 Hz profile, "240", "24", "30", "48" and "51.4" give 3, 30, 24, 15 and 14, each matching its label. |
| RefreshOptions.Split | src/rust_wrapper/libretro.rs:562-564 | Cutting a value list at the value separator gives at least one piece, and no piece contains the separator. |
| RefreshOptions.JoinSplit | src/rust_wrapper/libretro.rs:562-564 | Gluing the pieces of a cut list back together with the value separator gives the original list. |
| RefreshOptions.SplitJoin | src/rust_wrapper/libretro.rs:562-564 | Cutting values that were joined with the value separator gives the same values back, provided none of them contains the separator. |
| RefreshOptions.ParseOption | src/rust_wrapper/libretro.rs:562-564 | A parsed option string is exactly its description, then "; ", then its values joined with the value separator. There is at least one value. |
| RefreshOptions.ParseFormatted | src/rust_wrapper/libretro.rs:557-564 | Formatting a description and values, then parsing the result, gives them back. |
| RefreshOptions.AdvertisedOption | src/rust_wrapper/mod.rs:146-152 | Each profile's option string parses to the description "Display Refresh Rate" and the profile's rates, with "60" first, so "60" is the default. The 60 Hz and 120 Hz strings offer exactly their rates. The 720 Hz string, taken as written, offers its 13 rates followed by one empty value (see Findings). |
| RefreshOptions.AdvertisedRatesResolve | src/rust_wrapper/mod.rs:330-361 | Every rate a profile advertises resolves in that profile's table. |
| RefreshOptions.ParseTrailingSeparator | src/rust_wrapper/libretro.rs:562-564 | A formatted option with an extra separator at the end parses to the same values plus one empty value. |
| RefreshOptions.HighOptionAsWrittenOffersEmpty | src/rust_wrapper/mod.rs:151-152 | The 720 Hz string as written offers 14 values, the last one empty. The empty value has no multiplier. |
| RefreshOptions.HighOptionOffersOnlyResolvable | src/rust_wrapper/mod.rs:151-152 | Without the trailing separator, every value the 720 Hz string offers has a multiplier. The registration itself uses the string as written. |
| AvInfo.SetSystemAvInfo | src/rust_wrapper/mod.rs:223-242 | Base width and height equal max width and height, which equal the screen size. The timing carries the logic rate and the multiplier. |
| AvInfo.ReportedRateIsSelected | src/rust_wrapper/mod.rs:252-258 | For a resolved selection, the reported rate (logic rate / multiplier, in tenths of a Hz) is the rate the selection names. |
| AvInfo.PixelFormat | src/rust_wrapper/mod.rs:265-271 | The requested format is XRGB8888 exactly for 32-bit colour, and never the 0RGB1555 default. Its pixel size is the size the wrapper uses for the buffer and the pitch. |
| AvInfo.Pitch | src/rust_wrapper/mod.rs:444-445 | When the row size fits in 32 bits, the pitch is the width times the pixel size. |
| AvInfo.FrameBufferSize | src/rust_wrapper/mod.rs:457-460 | The allocation size is below 2^64. When it does not wrap, it is width × height × pixel size. |
| AvInfo.AreaFits | src/rust_wrapper/mod.rs:457-458 | Width × height, both 32-bit, never overflows the 64-bit product. |
| AvInfo.PackedFrame | src/rust_wrapper/libretro.rs:1886-1890 | When the pitch does not wrap, the frame is packed: pitch = width × bytes per pixel of the requested format. The buffer holds exactly pitch × height bytes. |
| AvInfo.SmallScreenSizes | src/rust_wrapper/mod.rs:444-460 | A 320×240 RGB565 core has a 640-byte pitch and a 153600-byte buffer. |
| Environment.CommandsIdentifyCalls | src/rust_wrapper/libretro.rs:483-728 | Calls of different kinds use different RETRO_ENVIRONMENT_* commands. |
| Environment.SetEnvironment | src/rust_wrapper/mod.rs:157-189 | `retro_set_environment` makes three calls, in order: declare no-content support, register `refresh_rate` with an option string, ask for the log interface. The option string is the one the code declares for the profile. It parses to the profile's rates, plus the empty value for the 720 Hz profile. |
| Environment.RegisteredValuesResolve | src/rust_wrapper/mod.rs:146-183 | The registered variable's default is "60". An offered value has no entry in the core's table exactly when it is the empty value. Only the 720 Hz profile offers the empty value. |
| FrameMult.GetFrameMult | src/rust_wrapper/mod.rs:278-315 | The update flag is always queried. The variable is read exactly on the first call or a reported change, and then the cache becomes the lookup result. It pushes AV info exactly when a change was reported and the lookup gives a new Some, with that multiplier. It panics exactly when a change was reported and the lookup gives a new None. Otherwise it returns the cache. When it reads, its calls are exactly the query, the read, and at most one push. |
| FrameMult.InitialInv | src/rust_wrapper/mod.rs:281-282 | The initial state (first call pending, cache Some(1)) satisfies the invariant. |
| FrameMult.GetFrameMultKeepsInv | src/rust_wrapper/mod.rs:291-313 | Every call keeps the cached multiplier at 1 or more, so a returned multiplier is at least 1. |
| FrameMult.QuietCallIsStable | src/rust_wrapper/mod.rs:284-313 | After a call that did not panic, a call without a reported change only queries, and returns the same value whatever the variable now says. |
| FrameMult.FirstCallNeverPushes | src/rust_wrapper/mod.rs:291-303 | The first call without a reported change reads the variable, pushes nothing and returns the lookup result. |
| FrameMult.SameValueNoPush | src/rust_wrapper/mod.rs:295-297 | A reported change that selects the cached multiplier pushes nothing and changes nothing. |
| FrameMult.GetSystemAvInfo | src/rust_wrapper/mod.rs:248-272 | The AV info is reported exactly when the multiplier is Some and `get_frame_mult` did not panic. It carries the screen size and that multiplier. Its last call requests the core's pixel format. A None returned without a panic aborts with "Core option error". A panic inside `get_frame_mult` aborts as the failed `unwrap`. |
| FrameMult.FirstReportIsSelectedRate | src/rust_wrapper/mod.rs:252-313 | The first AV info request reports exactly when the selection is advertised, and then reports the selected rate. Otherwise it aborts. Without a reported change the abort is "Core option error". With a reported change it is the panic of the `unwrap` in `get_frame_mult`. |
| FrameMult.HighProfileSession | src/rust_wrapper/mod.rs:291-311 | In the 720 Hz profile: "60" first gives 12 with no push; a change to "120" pushes 6; "24" pushes 30; an unknown value panics. |
| FrameMult.LowProfileFirstCall | src/rust_wrapper/mod.rs:281-297 | In the 60 Hz profile, a first call selecting "60" matches the initial cache, so even a reported change pushes nothing. |
| Scheduler.RetroRun | src/rust_wrapper/mod.rs:411-449 | A frame starts with lock and poll. Its state is the state `get_frame_mult` leaves. It aborts exactly when `get_frame_mult` panics or returns None. |
| Scheduler.RunFrame | src/rust_wrapper/mod.rs:421-447 | The loop as written (handoff inside iteration 0, a tick in each iteration, then the locked refresh) produces the frame's closed-form events. |
| Scheduler.TicksFacts | src/rust_wrapper/mod.rs:421-436 | m iterations tick exactly m times. They snapshot, render and signal the render thread once each if m ≥ 1, and never if m = 0. |
| Scheduler.TicksLock | src/rust_wrapper/mod.rs:421-436 | Entered with the lock held, the loop releases it if and only if it runs at least once, and never takes it. |
| Scheduler.TicksOrder | src/rust_wrapper/mod.rs:421-436 | Inside the loop, the snapshot comes before the render and before the render-thread signal. The render and the signal come before every tick. |
| Scheduler.FrameNeverAborts | src/rust_wrapper/mod.rs:421-447 | Once the multiplier is known, the rest of the frame does not abort. |
| Scheduler.HeadFacts | src/rust_wrapper/mod.rs:415-421 | Before the loop, the frame polls input once and holds the lock. |
| Scheduler.FramePollsOnce | src/rust_wrapper/mod.rs:415-447 | A frame polls input exactly once. |
| Scheduler.FrameRendersOnce | src/rust_wrapper/mod.rs:421-436 | With m ≥ 1, a frame snapshots and renders the video exactly once each. |
| Scheduler.FrameSignalsOnce | src/rust_wrapper/mod.rs:421-436 | With m ≥ 1, a frame signals the render thread exactly once. |
| Scheduler.FrameSignalOrder | src/rust_wrapper/mod.rs:421-436 | In a frame, the render-thread signal comes after the snapshot and before every tick. |
| Scheduler.FrameTicks | src/rust_wrapper/mod.rs:421-436 | A frame runs exactly m logic ticks. |
| Scheduler.FrameRefreshesOnce | src/rust_wrapper/mod.rs:439-447 | A frame refreshes the frontend's video exactly once, with the screen size and the pitch. |
| Scheduler.FrameOrder | src/rust_wrapper/mod.rs:415-447 | The poll comes before every tick. The snapshot comes before the render, the render before every tick, and every tick before the refresh. |
| Scheduler.FrameLockBalanced | src/rust_wrapper/mod.rs:415-447 | With m ≥ 1, the lock is never taken while held or released while free, and the frame ends with it free. |
| Scheduler.RefreshLock | src/rust_wrapper/mod.rs:439-447 | The refresh leaves a free lock free, and fails on a held one. |
| Scheduler.ZeroMultDeadlocks | src/rust_wrapper/mod.rs:415-439 | With m = 0, the lock taken before the poll would be taken again before the refresh. |
| Scheduler.RetroRunFrame | src/rust_wrapper/mod.rs:411-449 | From a state with cache ≥ 1, a frame that does not abort uses the multiplier m ≥ 1 it fetched. It polls once, snapshots once, signals the render thread once, ticks m times and refreshes once. The snapshot comes before the signal. The render and the signal come before the ticks, and the ticks before the refresh. The lock is balanced. |
| Input.DiscriminantsAreSlots | src/rust_wrapper/input.rs:24-75 | The button discriminants are the RETRO_DEVICE_ID_JOYPAD_* ids, and they are exactly 0..15 in declaration order. Every button appears in that list. |
| Input.Slot | src/rust_wrapper/input.rs:94-97 | A button's slot is below 16 and holds that button in declaration order. |
| Input.SlotInjective | src/rust_wrapper/input.rs:44-75 | Distinct buttons have distinct slots. |
| Input.Index | src/rust_wrapper/input.rs:92-98 | Indexing a 16-slot state by a button gives the slot at the button's position, which is always in bounds. |
| Input.Poll | src/rust_wrapper/input.rs:102-132 | Poll makes 16 queries, in id order 0..15. Each is (player, JOYPAD, 0, id), with the player passed unchanged. Slot i is pressed if and only if the answer for id i is nonzero, and `down` and `up` are false. |
| Input.IndexAfterPoll | src/rust_wrapper/input.rs:92-126 | Indexing a polled state by any button gives that button's report: pressed exactly when the callback answered nonzero for its id. |
| AsciiCopy.StripHigh | src/rust_wrapper/mod.rs:395-403 | The stripped bytes are source bytes with bit 0x80 clear, and there are no more of them than source bytes. |
| AsciiCopy.StripHighConcat | src/rust_wrapper/mod.rs:395-403 | Stripping a concatenation strips each part. |
| AsciiCopy.StripHighKeepsAscii | src/rust_wrapper/mod.rs:397 | An all-ASCII string is its own stripped form. A string with no ASCII byte strips to nothing. |
| AsciiCopy.StripUtfStrlcpy | src/rust_wrapper/mod.rs:384-405 | The buffer keeps its size. With dst_size = 0 nothing is written, and with dst_size = 1 only a NUL. Otherwise the first k bytes are the stripped source, where k = min(stripped length, dst_size − 1). Byte k is NUL, and every byte after it is unchanged. |
| AsciiCopy.CopyAscii | src/rust_wrapper/mod.rs:393-403 | The loop stops at k = min(stripped length, dst_size − 1). It has copied the first k stripped bytes and written nothing at or after k. |
| AsciiCopy.MallocAsciiCString | src/rust_wrapper/mod.rs:376-382 | A len+1 buffer receives the whole stripped string followed by a NUL, so nothing is cut off. |
| PanicWriter.NewWriter | src/rust_wrapper/lang_items.rs:40 | A new writer has a 1024-byte all-zero buffer and offset 0. |
| PanicWriter.Append | src/rust_wrapper/lang_items.rs:30-37 | A write succeeds exactly when the bytes fit between the offset and the end. It then returns Ok, puts the bytes at the old offset, advances the offset by their length, and leaves the bytes before and after unchanged. |
| PanicWriter.Write | src/rust_wrapper/lang_items.rs:30-37 | The byte-by-byte copy into the tail slice has exactly the effect of `Append`. |
| PanicWriter.AppendAllIsConcat | src/rust_wrapper/lang_items.rs:30-41 | However a message is split into writes, the writes succeed exactly when the whole message fits. The buffer then holds the old prefix, the whole message, then the old suffix. |
| PanicWriter.MessageInBuffer | src/rust_wrapper/lang_items.rs:40-43 | Starting from a new writer, a message of at most 1024 bytes fills the front of the buffer and zeros remain behind it. A longer message panics inside the panic handler. |

## Left out

- Concurrency: the render thread (`video_thread`), the video shutdown flag and the teardown in `retro_deinit` are not modelled. The lock and the render-thread signal appear only as events in a single-threaded trace.
- Floating point: fps, sample rate and aspect ratio are left out. The reported fps is the pair (logic rate, multiplier), compared with the selected label in tenths of a Hz.
- Foreign calls: the following are not modelled, and the callbacks are assumed registered (their `unwrap`s succeed):
  - the environment callback mechanics and `transmute`;
  - the callback setters and `retro_log`/`retro_log_panic`;
  - `malloc`/`free`, including a NULL result from `malloc`;
  - `c_str_to_static_slice`, including a NULL GET_VARIABLE answer.
- The parent crate: `snapshot_video`, `render_video` and `core_run` are opaque events.
- Panic handling: `panic_fmt`'s abort and the `from_utf8` of the whole buffer are not modelled. Neither is the nested panic a too-long message causes; the model records it as `Panicked`.
- Environment.SetEnvironment: does not model the NULL terminator entry of the variable table.
- Input.Poll: the callback is a pure function, so its answers are taken as fixed during one poll.
- AsciiCopy.StripUtfStrlcpy: the `as i8` cast of a copied byte is not modelled. Bytes are kept as unsigned, which is the same value for the ASCII bytes that are copied.
- LibretroApi.Subclass: models the expression the `RETRO_DEVICE_SUBCLASS` macro evidently means. As written, the macro body refers to `id` and `base` instead of its parameters `$id` and `$base`, so it would not compile where it is used. The source never uses it.
- The memory-descriptor address translation is described in a header comment only, with no code to compare against.
- The mandatory no-op entry points (`retro_reset`, `retro_serialize*`, `retro_cheat_*`, `retro_get_memory_*`, `retro_load_game*`, `retro_unload_game`, `retro_get_region`, `retro_api_version`) have no behaviour beyond their constant results.
- `retro_get_system_info` only copies the core's name, version and extensions, so it is not modelled.

## Findings

| source | as written | input that shows it | evidently intended | confidence | as-written member | corrected member |
|---|---|---|---|---|---|---|
| src/rust_wrapper/mod.rs:151-152 | The 720 Hz option string ends in "51.4" followed by the value separator, so a separator comes after the last value. | Read in the header's option format, the string offers 14 values, the last one "". If a frontend lists "" and the user picks it, `get_environment_frame_mult` returns None. After a reported change, `get_frame_mult` then unwraps None and panics. | The list ends at "51.4", as the 60 Hz and 120 Hz strings do, so every offered value has a multiplier. | low: a frontend may drop empty values; not executed | RefreshOptions.HighOptionAsWrittenOffersEmpty | RefreshOptions.HighOptionOffersOnlyResolvable |
