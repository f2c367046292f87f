# nae core, modelled in Dafny

A Dafny model of the sequential core of **nae**, a Rust 2D multimedia framework.
It covers eight pieces of the framework:

- the shape/path builder `Geometry`;
- the `Color` value type and its 0xRRGGBBAA packing;
- the `TextAlign` table;
- the audio context's registry of non-owning references to audio instances;
- the audio buffer and the `Sound` play/stop machine;
- the resource loader queue;
- UI element drawing;
- the app's frame clock and builder.

Every operation is a pure function over an immutable record, or a method with loop invariants. Its contract states the new record.

External engines are function-typed parameters, so they appear as values and not as code:

- the lyon tessellators;
- the rodio decoder, as a "does it decode" predicate plus its error text;
- `Future::poll`, as a poll oracle;
- `ResourceParser::parse_resource`, as a parse oracle;
- `Weak::upgrade`, as a liveness set of instance handles;
- the output device, as an optional device value;
- the clock, as a `u64` reading.

| file | module | source |
|---|---|---|
| primitives.dfy | `Primitives` | `u8`, `u32`, `u64`, `i32` as bounded integers |
| wrappers.dfy | `Wrappers` | `Option` and `Result` |
| color.dfy | `Colors` | nae-core/src/color.rs |
| geometry.dfy | `GeometryBuilder` | nae-core/src/geometry.rs |
| text_align.dfy | `TextAlignment` | nae-core/src/resources.rs |
| audio.dfy | `AudioPlayback` | nae-audio/src/audio.rs |
| audio_context.dfy | `AudioRegistry` | nae-audio/src/lib.rs |
| resource_manager.dfy | `ResourceLoading` | src/res/manager.rs |
| ui_context.dfy | `UI` | src/ui/context.rs |
| app.dfy | `Application` | src/app.rs |

Modelling choices:

- `f32`/`f64` values are exact reals.
- On the integer side of colour packing, every step is explicit:
  - a shift-and-mask is a division and a remainder by a power of two;
  - `x << k` on a `u32` loses the bits past bit 31;
  - a float-to-`u32` cast saturates and truncates;
  - the `+` that combines the fields wraps modulo 2^32.
- `GeometryBuilder.Pending` is what the next fill or stroke would draw: the queued shapes, then the open path.
  - Every builder call is specified in terms of it.
  - Fill and stroke are proved to tessellate exactly that list into one batch.
- The loader queue's `try_load` is a loop that pops from the back, as the source does.
  - It is proved against reference definitions that take the loaders in insertion order (`DoneOf`, `NotReadyOf`).
  - This is where the reversed result lists come from.
  - Because `try_load_resources` pops the returned list from the back again, the parsers run in insertion order.

Two places where a reader might expect otherwise:

- `Sound::play` (nae-audio/src/audio.rs:48-54) never sets `playing`, so every call appends another decoded source (`AudioPlayback.PlayQueuesEveryCall`).
- The doc comment of `to_hex_string` promises `#RRGGBBAA`. The code formats with `{:#X}`, which gives `0x` and unpadded upper-case digits (`Colors.HexStringOfOpaqueBlack`: opaque black renders as `0xFF`).

## Model

| member | source | states |
|---|---|---|
| Colors.New | nae-core/src/color.rs:35-37 | the channel array of the new colour is exactly the four arguments in r, g, b, a order |
| Colors.FromRgb | nae-core/src/color.rs:45-47 | alpha is 1.0 and the rgb array is the three arguments |
| Colors.FromRgbaArray | nae-core/src/color.rs:118-122 | converting a 4-array gives a colour whose `to_rgba` is that array |
| Colors.FromRgbArray | nae-core/src/color.rs:124-128 | converting a 3-array gives alpha 1.0 and that rgb array |
| Colors.ToRgba | nae-core/src/color.rs:86-88 | the array lists r, g, b, a (inverse of `From<[f32;4]>`, see `RgbaArrayRoundTrip`); every entry is in [0, 1] exactly when the colour is in the unit range |
| Colors.ToRgb | nae-core/src/color.rs:91-93 | the rgb array is the rgba array without alpha |
| Colors.RgbaArrayRoundTrip | nae-core/src/color.rs:86-88 | `From<[f32;4]>` and `to_rgba` are inverse in both directions |
| Colors.WithRed | nae-core/src/color.rs:66-68 | the channel array with index 0 replaced, the other three kept |
| Colors.WithGreen | nae-core/src/color.rs:71-73 | the channel array with index 1 replaced, the other three kept |
| Colors.WithBlue | nae-core/src/color.rs:76-78 | the channel array with index 2 replaced, the other three kept |
| Colors.WithAlpha | nae-core/src/color.rs:81-83 | the channel array with index 3 replaced, the other three kept |
| Colors.HexToRgba | nae-core/src/color.rs:149-156 | every channel is in [0, 1], and 255 times channel i is the byte at bits 31..24, 23..16, 15..8, 7..0 |
| Colors.FromHex | nae-core/src/color.rs:50-53 | the colour is in the unit range and its channel array is `hex_to_rgba` of the word |
| Colors.FromBytes | nae-core/src/color.rs:56-63 | every channel is in [0, 1] and 255 times it is the byte given for it |
| Colors.FromBytesIsFromHex | nae-core/src/color.rs:56-63 | `from_bytes(r, g, b, a)` is `from_hex` of the word packing r, g, b, a at bits 24, 16, 8, 0 |
| Colors.CastToU32 | nae-core/src/color.rs:142-145 | the float-to-u32 cast truncates in range, yields 0 for non-positive input and saturates at 0xFFFF_FFFF |
| Colors.RgbaToHex | nae-core/src/color.rs:141-146 | for channels in [0, 1] the shifted fields never carry: the word packs the four truncated channel*255 values at bits 24, 16, 8, 0 |
| Colors.ToHex | nae-core/src/color.rs:96-98 | for a unit-range colour, the word packing its four truncated channel*255 values (inverse of `from_hex`, see `HexRoundTrip`) |
| Colors.RgbaToHexFields | nae-core/src/color.rs:141-146 | for channels in [0, 1], reading each byte field of the word gives floor(channel*255) |
| Colors.HexRoundTrip | nae-core/src/color.rs:141-156 | `to_hex(from_hex(h)) == h` for every 32-bit h |
| Colors.HexQuantizes | nae-core/src/color.rs:141-156 | packing and unpacking a unit colour truncates each channel down to a multiple of 1/255 |
| Colors.HexDigitsRoundTrip | nae-core/src/color.rs:159-161 | the unpadded upper-case hex digits of n read back as n |
| Colors.HexToString | nae-core/src/color.rs:159-161 | the text is "0x" and upper-case hex digits, no leading zero unless the word is 0, reading back as the word |
| Colors.ToHexString | nae-core/src/color.rs:100-103 | "0x" and upper-case hex digits that read back as `to_hex` of the colour, with no leading zero unless the word is 0 |
| Colors.HexStringOfOpaqueBlack | nae-core/src/color.rs:100-103 | `to_hex_string` of opaque black is "0xFF", not the "#RRGGBBAA" form the doc comment names |
| TextAlignment.GetAlign | nae-core/src/resources.rs:33-48 | vertical Top/Center/Bottom exactly for the top/middle/bottom row, horizontal Left/Center/Right exactly for the left/centre/right column |
| TextAlignment.GetAlignBijective | nae-core/src/resources.rs:35-47 | every (vertical, horizontal) pair is produced by exactly one variant |
| TextAlignment.GetAlignInjective | nae-core/src/resources.rs:35-47 | no two variants share an alignment pair |
| GeometryBuilder.New | nae-core/src/geometry.rs:104-111 | depth 0, no batches, nothing pending |
| GeometryBuilder.EndPath | nae-core/src/geometry.rs:324-328 | the open path, if any, becomes the last queued shape; no path stays open |
| GeometryBuilder.MoveTo | nae-core/src/geometry.rs:119-131 | everything pending is flushed onto the stack, then a fresh path holding only a move to (x, y) is opened |
| GeometryBuilder.LineTo | nae-core/src/geometry.rs:134-145 | with no open path it equals `move_to(x, y)`; otherwise one line segment is appended and stack and data are unchanged |
| GeometryBuilder.CubicBezierTo | nae-core/src/geometry.rs:148-166 | with no open path the path becomes [move to (x1, y1), curve]; otherwise the curve is appended; the stack is never touched |
| GeometryBuilder.QuadraticBezierTo | nae-core/src/geometry.rs:169-179 | as the cubic case, with one control point |
| GeometryBuilder.ArcTo | nae-core/src/geometry.rs:182-199 | only opens a path at (x, y) when none is open; draws no arc and never pushes |
| GeometryBuilder.ClosePath | nae-core/src/geometry.rs:202-208 | appends a close to an open path, else changes nothing; never pushes |
| GeometryBuilder.Circle | nae-core/src/geometry.rs:211-215 | the open path is flushed, then exactly one circle goes on top of the stack; data unchanged |
| GeometryBuilder.Rect | nae-core/src/geometry.rs:218-227 | the open path is flushed, then exactly one rect goes on top of the stack; data unchanged |
| GeometryBuilder.RoundedRect | nae-core/src/geometry.rs:230-247 | the open path is flushed, then exactly one rounded rect goes on top of the stack; data unchanged |
| GeometryBuilder.Triangle | nae-core/src/geometry.rs:250-258 | the open path is flushed, then exactly one triangle goes on top of the stack; data unchanged |
| GeometryBuilder.VertexBufferAsVec | nae-core/src/geometry.rs:442-450 | 3 floats per index, (x, y, depth) of the indexed vertex in index order; every index must be in range |
| GeometryBuilder.SequentialIndices | nae-core/src/geometry.rs:282 | the emitted indices are exactly 0, 1, ..., vertices.len()/3 - 1 |
| GeometryBuilder.FillWithConfig | nae-core/src/geometry.rs:299-314 | no open path, empty stack, and exactly one new batch: the given colour, the tessellation of everything pending, sequential indices, one per tessellated index |
| GeometryBuilder.StrokeWithConfig | nae-core/src/geometry.rs:266-291 | as fill, through the stroke tessellator with the line width in its options |
| GeometryBuilder.Clear | nae-core/src/geometry.rs:317-322 | stack, data and open path emptied; depth kept |
| GeometryBuilder.RunKeepsQueue | nae-core/src/geometry.rs:119-258 | any sequence of builder calls only extends the queued shapes and never touches batches or depth |
| GeometryBuilder.PathCallsDoNotPush | nae-core/src/geometry.rs:134-208 | `close_path`, `arc_to`, the curves and `line_to` on an open path never push onto the stack |
| GeometryBuilder.ShapeCallsPushOne | nae-core/src/geometry.rs:211-258 | each basic-shape call leaves the pending shapes followed by exactly one more |
| AudioPlayback.FromBytes | nae-audio/src/audio.rs:15-25 | succeeds iff the decoder accepts the bytes, then stores exactly those bytes; otherwise the decoder's error |
| AudioPlayback.NewSound | nae-audio/src/audio.rs:36-46 | always Ok: not playing, an idle empty sink, the audio's byte buffer |
| AudioPlayback.Play | nae-audio/src/audio.rs:48-54 | while `playing` nothing changes; otherwise one more source is queued and the sink started; `playing` never changes; the bytes must decode |
| AudioPlayback.Stop | nae-audio/src/audio.rs:56-59 | the sink is stopped and `playing` is false |
| AudioPlayback.PlayQueuesEveryCall | nae-audio/src/audio.rs:48-54 | n plays in a row queue n sources: play is not idempotent |
| AudioPlayback.PlayUnwrapSafe | nae-audio/src/audio.rs:15-64 | a sound made from an audio `from_bytes` accepted always satisfies the decode precondition of `play` |
| AudioRegistry.Clamp01 | nae-audio/src/lib.rs:61 | the clamped volume lies in [0, 1] and equals the input when the input already does |
| AudioRegistry.New | nae-audio/src/lib.rs:21-30 | volume 1.0 and an empty registry, or the "Cannot find audio output device." error exactly when there is no device |
| AudioRegistry.Instance | nae-audio/src/lib.rs:33-37 | for a fresh handle (the `Arc` just allocated), exactly one reference to it is appended at the end; earlier entries and volume unchanged; a registry without duplicates stays so |
| AudioRegistry.Play | nae-audio/src/lib.rs:40-45 | touches neither the registry nor the volume; plays the bytes raw on the device |
| AudioRegistry.Tick | nae-audio/src/lib.rs:47-54 | keeps exactly the entries whose instance is alive, in order; volume unchanged; no duplicates are introduced |
| AudioRegistry.Volume | nae-audio/src/lib.rs:56-58 | the volume read is in [0, 1] |
| AudioRegistry.VolumeAfterSetVolume | nae-audio/src/lib.rs:56-69 | `volume()` after `set_volume(v)` is clamp(v, 0, 1), and v itself when v is in [0, 1] |
| AudioRegistry.Cascade | nae-audio/src/lib.rs:64-68 | one notification per live entry, in registry order, dead entries skipped |
| AudioRegistry.SetVolume | nae-audio/src/lib.rs:60-69 | the volume becomes clamp(v, 0, 1); every entry `tick` would keep is told the clamped value, in order; the registry is unchanged |
| AudioRegistry.LiveAppend | nae-audio/src/lib.rs:49-53 | pruning distributes over concatenation, so relative order is kept |
| AudioRegistry.TickIdempotent | nae-audio/src/lib.rs:47-54 | a second tick with no new deaths changes nothing |
| AudioRegistry.DroppingOneInstance | nae-audio/src/lib.rs:47-54 | dropping an instance registered once makes the next tick keep exactly one entry fewer |
| AudioRegistry.InstanceThenTick | nae-audio/src/lib.rs:33-54 | a registered live instance survives a tick as the last entry; a dropped one leaves no trace |
| AudioRegistry.OperationsKeepDistinct | nae-audio/src/lib.rs:21-69 | `new` gives a registry without duplicate entries, and `instance` with its fresh handle, `tick` and `set_volume` keep it so |
| AudioRegistry.DistinctOccursOnce | nae-audio/src/lib.rs:33-37 | in a registry without duplicates a registered instance occurs exactly once |
| AudioRegistry.DroppingRegisteredInstance | nae-audio/src/lib.rs:47-54 | dropping a registered, still-live instance makes the next tick keep exactly one entry fewer |
| AudioRegistry.DropAfterInstance | nae-audio/src/lib.rs:33-54 | an instance just created and dropped before the next tick is exactly the one entry that tick loses |
| AudioRegistry.OperationsKeepValid | nae-audio/src/lib.rs:21-69 | every operation keeps the volume in [0, 1] |
| ResourceLoading.New | src/res/manager.rs:19-21 | nothing pending |
| ResourceLoading.Len | src/res/manager.rs:23-25 | the count of pending loaders (0 after `new`, +1 per `add`, see `LenCountsAdds`) |
| ResourceLoading.Add | src/res/manager.rs:27-34 | exactly one loader appended, length grows by one, always Ok |
| ResourceLoading.LenCountsAdds | src/res/manager.rs:23-34 | after any run of `add` calls, `len` grew by the number of calls and the queue ends with one loader per call, in call order |
| ResourceLoading.TryLoadAsset | src/res/manager.rs:67-76 | Ready maps to Done with its bytes, NotReady to OnProgress, a poll error to Err; never AlreadyLoaded |
| ResourceLoading.TryLoad | src/res/manager.rs:36-57 | empty: Ok(None), nothing changes. Success iff no poll fails: returns the Done loaders and keeps the rest, both in reverse order. On a poll error, only the unpolled prefix stays pending |
| ResourceLoading.SplitIsComplete | src/res/manager.rs:43-56 | without poll errors each loader is either returned or kept: counts add up to the old length |
| ResourceLoading.DoneOfReverse | src/res/manager.rs:46-54 | the returned list is the ready loaders in reverse insertion order |
| ResourceLoading.NotReadyOfReverse | src/res/manager.rs:46-54 | the new pending list is the not-ready loaders in reverse insertion order |
| ResourceLoading.TryLoadOrder | src/res/manager.rs:43-56 | after a successful try_load both lists are reversed and returned + remaining == old len |
| UI.DefaultCornerRadius | src/ui/context.rs:53-57 | the default corner radius is None |
| UI.DefaultButtonStyle | src/ui/context.rs:66-70 | the default style has no background and no border |
| UI.NewButton | src/ui/context.rs:81-91 | the given size and transform with the default style |
| UI.ButtonDraw | src/ui/context.rs:95-127 | the fill colour is set to the background, or TRANSPARENT; then at most one shape, none exactly for a Custom radius |
| UI.ButtonShapeRule | src/ui/context.rs:100-125 | a rounded rect, with radius r, exactly for a Radius(r) with r != 0. A plain rect exactly for no border, None or Radius(0.0) |
| UI.NewButtonDraw | src/ui/context.rs:81-127 | a new button draws a transparent rect (0, 0, width, height) |
| UI.BuiltInElementsWellBehaved | src/ui/context.rs:35-36 | a button and an element with the trait's default `draw` leave the matrix stack balanced |
| UI.SegmentBalanced | src/ui/context.rs:26-28 | for an element whose own calls are balanced, push(matrix), element draw, pop never underflows and ends at the starting depth |
| UI.New | src/ui/context.rs:12-14 | no elements, an empty draw trace |
| UI.AddElement | src/ui/context.rs:20-22 | one element appended at the end, others unchanged; the next draw is the old one followed by the new element's segment |
| UI.Draw | src/ui/context.rs:24-30 | elements in order, each bracketed by push/pop; when every element's own calls are balanced, the matrix stack never underflows and ends where it started |
| UI.BuiltInContextBalanced | src/ui/context.rs:24-30 | a context of buttons and default elements always draws a balanced trace |
| UI.StrayPopsUnbalance | src/ui/context.rs:24-30 | an element whose own `draw` pops twice makes the context's trace underflow, so the hypothesis of `UI.Draw` is needed |
| Application.FpsWindow | src/app.rs:105-106 | the window has the deque's capacity (at least 300) entries, each 1000/60 |
| Application.NewApp | src/app.rs:105-117 | no pending resources, the full fps window, last_time = now, delta and time 0 |
| Application.WrappingSub | src/app.rs:53 | `now - last_time` on u64 in a release build: the plain difference when the clock did not go back, otherwise that difference plus 2^64 |
| Application.Tick | src/app.rs:51-59 | last_time = now; the oldest sample is dropped and elapsed = now - last_time (wrapping) appended, keeping the length; delta = elapsed/1000 is added to time |
| Application.WindowLengthInvariant | src/app.rs:51-59 | across any run of frames the fps window keeps its length |
| Application.InitWith | src/app.rs:256-265 | all four callbacks None and the default options |
| Application.SetSize | src/app.rs:151-155 | only width and height change |
| Application.SetMinSize | src/app.rs:157-160 | only min_size changes |
| Application.SetMaxSize | src/app.rs:162-165 | only max_size changes |
| Application.SetTitle | src/app.rs:167-170 | only the title changes |
| Application.SetFullscreen | src/app.rs:172-175 | only fullscreen changes, to true |
| Application.SetMaximized | src/app.rs:177-180 | only maximized changes, to true |
| Application.SetResizable | src/app.rs:187-190 | only resizable changes, to true |
| Application.SetFpsTarget | src/app.rs:212-216 | only fps_target changes |
| Application.SetDraw | src/app.rs:192-195 | only the draw callback changes |
| Application.SetStart | src/app.rs:197-200 | only the start callback changes |
| Application.SetUpdate | src/app.rs:202-205 | only the update callback changes |
| Application.SetEvent | src/app.rs:207-210 | only the event callback changes |
| Application.ApplyWritesOneField | src/app.rs:151-216 | each setter writes its own field and reads back as written; every other field is unchanged |
| Application.SettersCommute | src/app.rs:151-216 | setters of different fields commute |
| Application.LastSetterWins | src/app.rs:151-216 | of two calls to the same setter the last wins |
| Application.ParseLoaded | src/app.rs:244-248 | items are parsed last-first, stopping right after the first parse error, which is returned |
| Application.TryLoadResources | src/app.rs:242-250 | a poll error parses nothing, returns that loader's message and leaves only the unpolled prefix pending; otherwise the finished resources are parsed in insertion order, all succeeding or stopping right after the first parse error, whose message is returned |

## Left out

- Tessellation (`geometry_fill`, `geometry_stroke` and lyon's path and basic-shape tessellators) is a function parameter. It is assumed to return buffers whose indices are in range, and lyon's `unwrap`s are not modelled.
- `Geometry::fill`, `Geometry::stroke` and the `Default` configs are left out: they only pass lyon's default tolerance, cap and join constants, which are not part of this model. `Geometry::data` is a field read.
- Exact `f32`/`f64` rounding, NaN and infinities are left out, because channels, volumes and times are exact reals.
- Colors.RgbaToHex: the `+` is modelled as wrapping. That is the release-build behaviour for channels above 1; a debug build would panic on that overflow instead.
- Color constants other than TRANSPARENT and BLACK, and the `Display` impl, are left out; they hold no logic.
- nae-core/src/math.rs is not part of this model: the global RNG, epsilon comparison and projection matrices.
- rodio (device, sink, `play_raw`, decoder internals) is abstract. The decoder is a predicate plus its error text. A sink is a count of queued sources plus a started flag.
- AudioPlayback.Stop: the queue is modelled as emptied. rodio's behaviour for sources appended to a stopped sink is not modelled.
- `Arc`/`Weak` reference counting and thread safety are a liveness set of handles passed to `tick` and `set_volume`.
- The per-instance audio state used by nae-audio/src/lib.rs (`InnerAudio`, `Audio::new`, `update_global_volume`, `clamp`) is not part of this model. `AudioRegistry.SetVolume` records the `update_global_volume` calls it makes. `clamp` is taken to be the usual clamp.
- Application.TryLoadResources: a parser is modelled as a pure function of the loaded item, leaving the `App` untouched. In the source, `parse_resource` receives `&mut App`. It could therefore queue more resources through `App::load_resource` or write the public `delta` and `time` fields. The contract's frame clauses hold only for parsers that do neither: the pending queue is the not-ready loaders, and `delta`, `time`, `fps` and `last_time` are unchanged.
- Application.Tick: `delta` and `time` are exact reals. The `f64`-to-`f32` conversion is not modelled. The `u64` subtraction follows a release build and wraps, like the colour `+`. A debug build would panic there instead.
- `App::fps` averaging, `width`/`height`/`dpi`, `set_fullscreen`, `load_resource`, `process_events`, `backend::run`, `System`, `date_now` and `load_file` are backend plumbing and are left out. So is the rest of `AppBuilder::build`, beyond the initial `App` record and the per-frame tick and resource loading.
- `keep_window_aspect` and `icon` are left out: they are `unimplemented!()`.
- `BuilderOpts::default()`, `Transform2d` and `Matrix4` are not part of this model. The defaults are a parameter of `init_with`; matrices are opaque values.
- `UIContext::set_input_state` is left out (empty body).
- UI.AddElement: an element is modelled by the fixed list of calls its `draw` makes. "The next draw" therefore assumes those calls do not change between frames. A `draw` that reads the `state` argument or its own mutable fields may draw differently each frame, and that is not modelled.
