/** The application frame bookkeeping and builder of nae: the frame clock with
    its fixed-length fps sample window, the builder's option and callback
    setters, and the per-frame loading of finished resources. The window
    system, the backend loop and input handling are outside this model; the
    clock reading is a parameter. */
module Application {
  import opened Wrappers
  import opened Primitives
  import opened ResourceLoading

  /** The initial fps sample: one frame at 60 frames per second, in milliseconds. */
  const FRAME_MS: real := 1000.0 / 60.0

  /** The capacity `VecDeque::with_capacity(300)` asks for. */
  const REQUESTED_FPS_CAPACITY: nat := 300

  datatype App = App(
    resources: ResourceLoaderManager,
    fps: seq<real>,
    lastTime: U64,
    delta: real,
    time: real)

  /** The fps window set up by `build`: filled up to the deque's allocated
      capacity, which is at least the 300 asked for, with one 60 fps frame each. */
  function FpsWindow(capacity: nat): (w: seq<real>)
    requires capacity >= REQUESTED_FPS_CAPACITY
    ensures |w| == capacity && |w| >= 300
    ensures forall i :: 0 <= i < |w| ==> w[i] == FRAME_MS
  {
    seq(capacity, _ => FRAME_MS)
  }

  /** The `App` value `build` makes: no pending resources, the full fps window,
      the clock read at `now`, no time elapsed. */
  function NewApp(now: U64, capacity: nat): (app: App)
    requires capacity >= REQUESTED_FPS_CAPACITY
    ensures Len(app.resources) == 0
    ensures |app.fps| == capacity && forall i :: 0 <= i < |app.fps| ==> app.fps[i] == FRAME_MS
    ensures app.lastTime == now && app.delta == 0.0 && app.time == 0.0
  {
    App(ResourceLoading.New(), FpsWindow(capacity), now, 0.0, 0.0)
  }

  /** `now - last_time` on `u64` in a release build: the difference modulo 2^64. */
  function WrappingSub(now: U64, last: U64): (d: U64)
    ensures now >= last ==> d == now - last
    ensures now < last ==> d == now - last + 0x1_0000_0000_0000_0000
  {
    (now - last) % 0x1_0000_0000_0000_0000
  }

  /** `App::tick` at clock reading `now`. The oldest fps sample is dropped and
      the elapsed time appended, so a non-empty window keeps its length. */
  function Tick(app: App, now: U64): (r: App)
    ensures r.lastTime == now
    ensures |app.fps| > 0 ==> |r.fps| == |app.fps| && r.fps[..|app.fps| - 1] == app.fps[1..]
    ensures |r.fps| > 0 && r.fps[|r.fps| - 1] == WrappingSub(now, app.lastTime) as real
    ensures r.delta * 1000.0 == WrappingSub(now, app.lastTime) as real
    ensures r.time == app.time + r.delta
    ensures r.resources == app.resources
  {
    var elapsed := WrappingSub(now, app.lastTime) as real;
    var delta := elapsed / 1000.0;
    var window := if |app.fps| == 0 then [] else app.fps[1..];
    App(app.resources, window + [elapsed], now, delta, app.time + delta)
  }

  /** Ticking through a run of clock readings. */
  function TickAll(app: App, clock: seq<U64>): App
    decreases |clock|
  {
    if |clock| == 0 then app else TickAll(Tick(app, clock[0]), clock[1..])
  }

  /** The fps window never changes length, however many frames run, and ends
      with the last elapsed time. */
  lemma {:induction false} WindowLengthInvariant(app: App, clock: seq<U64>)
    requires |app.fps| > 0
    ensures |TickAll(app, clock).fps| == |app.fps|
    ensures |clock| > 0 ==> TickAll(app, clock).lastTime == clock[|clock| - 1]
    decreases |clock|
  {
    if |clock| > 0 {
      var next := Tick(app, clock[0]);
      var rest := clock[1..];
      WindowLengthInvariant(next, rest);
      if |rest| > 0 {
        assert rest[|rest| - 1] == clock[|clock| - 1];
      }
    }
  }

  // ---------------------------------------------------------------------------
  // Builder

  /** Identity of a user callback (a function pointer). */
  type Callback = nat

  /** The window options the builder collects (`BuilderOpts`). */
  datatype BuilderOpts = BuilderOpts(
    title: string,
    width: I32,
    height: I32,
    fullscreen: bool,
    minSize: Option<(I32, I32)>,
    maxSize: Option<(I32, I32)>,
    maximized: bool,
    resizable: bool,
    fpsTarget: Option<I32>)

  datatype AppBuilder = AppBuilder(
    stateCb: Callback,
    drawCallback: Option<Callback>,
    updateCallback: Option<Callback>,
    startCallback: Option<Callback>,
    eventCallback: Option<Callback>,
    options: BuilderOpts)

  /** The parts of a builder that a setter may change. */
  datatype Field = SizeField | MinSizeField | MaxSizeField | TitleField | FullscreenField
                 | MaximizedField | ResizableField | FpsTargetField
                 | DrawField | StartField | UpdateField | EventField

  /** `a` and `b` agree on everything except, possibly, field `f`. */
  predicate AgreeOutside(a: AppBuilder, b: AppBuilder, f: Field) {
    && a.stateCb == b.stateCb
    && (f != SizeField ==> a.options.width == b.options.width && a.options.height == b.options.height)
    && (f != MinSizeField ==> a.options.minSize == b.options.minSize)
    && (f != MaxSizeField ==> a.options.maxSize == b.options.maxSize)
    && (f != TitleField ==> a.options.title == b.options.title)
    && (f != FullscreenField ==> a.options.fullscreen == b.options.fullscreen)
    && (f != MaximizedField ==> a.options.maximized == b.options.maximized)
    && (f != ResizableField ==> a.options.resizable == b.options.resizable)
    && (f != FpsTargetField ==> a.options.fpsTarget == b.options.fpsTarget)
    && (f != DrawField ==> a.drawCallback == b.drawCallback)
    && (f != StartField ==> a.startCallback == b.startCallback)
    && (f != UpdateField ==> a.updateCallback == b.updateCallback)
    && (f != EventField ==> a.eventCallback == b.eventCallback)
  }

  /** `init_with`: the state callback, no other callback, the default options. */
  function InitWith(cb: Callback, defaults: BuilderOpts): (b: AppBuilder)
    ensures b.stateCb == cb && b.options == defaults
    ensures b.drawCallback.None? && b.updateCallback.None? && b.startCallback.None? && b.eventCallback.None?
  {
    AppBuilder(cb, None, None, None, None, defaults)
  }

  function SetSize(b: AppBuilder, width: I32, height: I32): (r: AppBuilder)
    ensures AgreeOutside(b, r, SizeField)
    ensures r.options.width == width && r.options.height == height
  {
    b.(options := b.options.(width := width, height := height))
  }

  function SetMinSize(b: AppBuilder, width: I32, height: I32): (r: AppBuilder)
    ensures AgreeOutside(b, r, MinSizeField)
    ensures r.options.minSize == Some((width, height))
  {
    b.(options := b.options.(minSize := Some((width, height))))
  }

  function SetMaxSize(b: AppBuilder, width: I32, height: I32): (r: AppBuilder)
    ensures AgreeOutside(b, r, MaxSizeField)
    ensures r.options.maxSize == Some((width, height))
  {
    b.(options := b.options.(maxSize := Some((width, height))))
  }

  function SetTitle(b: AppBuilder, title: string): (r: AppBuilder)
    ensures AgreeOutside(b, r, TitleField)
    ensures r.options.title == title
  {
    b.(options := b.options.(title := title))
  }

  function SetFullscreen(b: AppBuilder): (r: AppBuilder)
    ensures AgreeOutside(b, r, FullscreenField)
    ensures r.options.fullscreen
  {
    b.(options := b.options.(fullscreen := true))
  }

  function SetMaximized(b: AppBuilder): (r: AppBuilder)
    ensures AgreeOutside(b, r, MaximizedField)
    ensures r.options.maximized
  {
    b.(options := b.options.(maximized := true))
  }

  function SetResizable(b: AppBuilder): (r: AppBuilder)
    ensures AgreeOutside(b, r, ResizableField)
    ensures r.options.resizable
  {
    b.(options := b.options.(resizable := true))
  }

  function SetFpsTarget(b: AppBuilder, fps: I32): (r: AppBuilder)
    ensures AgreeOutside(b, r, FpsTargetField)
    ensures r.options.fpsTarget == Some(fps)
  {
    b.(options := b.options.(fpsTarget := Some(fps)))
  }

  function SetDraw(b: AppBuilder, cb: Callback): (r: AppBuilder)
    ensures AgreeOutside(b, r, DrawField)
    ensures r.drawCallback == Some(cb)
  {
    b.(drawCallback := Some(cb))
  }

  function SetStart(b: AppBuilder, cb: Callback): (r: AppBuilder)
    ensures AgreeOutside(b, r, StartField)
    ensures r.startCallback == Some(cb)
  {
    b.(startCallback := Some(cb))
  }

  function SetUpdate(b: AppBuilder, cb: Callback): (r: AppBuilder)
    ensures AgreeOutside(b, r, UpdateField)
    ensures r.updateCallback == Some(cb)
  {
    b.(updateCallback := Some(cb))
  }

  function SetEvent(b: AppBuilder, cb: Callback): (r: AppBuilder)
    ensures AgreeOutside(b, r, EventField)
    ensures r.eventCallback == Some(cb)
  {
    b.(eventCallback := Some(cb))
  }

  /** One builder setter call. */
  datatype Setter =
    | Size(width: I32, height: I32)
    | MinSize(minWidth: I32, minHeight: I32)
    | MaxSize(maxWidth: I32, maxHeight: I32)
    | Title(title: string)
    | Fullscreen
    | Maximized
    | Resizable
    | FpsTarget(fps: I32)
    | Draw(drawCb: Callback)
    | Start(startCb: Callback)
    | Update(updateCb: Callback)
    | Event(eventCb: Callback)

  function FieldOf(s: Setter): Field {
    match s
    case Size(_, _) => SizeField
    case MinSize(_, _) => MinSizeField
    case MaxSize(_, _) => MaxSizeField
    case Title(_) => TitleField
    case Fullscreen => FullscreenField
    case Maximized => MaximizedField
    case Resizable => ResizableField
    case FpsTarget(_) => FpsTargetField
    case Draw(_) => DrawField
    case Start(_) => StartField
    case Update(_) => UpdateField
    case Event(_) => EventField
  }

  function Apply(b: AppBuilder, s: Setter): AppBuilder {
    match s
    case Size(w, h) => SetSize(b, w, h)
    case MinSize(w, h) => SetMinSize(b, w, h)
    case MaxSize(w, h) => SetMaxSize(b, w, h)
    case Title(t) => SetTitle(b, t)
    case Fullscreen => SetFullscreen(b)
    case Maximized => SetMaximized(b)
    case Resizable => SetResizable(b)
    case FpsTarget(f) => SetFpsTarget(b, f)
    case Draw(cb) => SetDraw(b, cb)
    case Start(cb) => SetStart(b, cb)
    case Update(cb) => SetUpdate(b, cb)
    case Event(cb) => SetEvent(b, cb)
  }

  /** The content of one builder field. */
  datatype FieldValue =
    | SizeValue(width: I32, height: I32)
    | LimitValue(limit: Option<(I32, I32)>)
    | TextValue(text: string)
    | FlagValue(flag: bool)
    | FpsValue(target: Option<I32>)
    | CallbackValue(callback: Option<Callback>)

  function Get(b: AppBuilder, f: Field): FieldValue {
    match f
    case SizeField => SizeValue(b.options.width, b.options.height)
    case MinSizeField => LimitValue(b.options.minSize)
    case MaxSizeField => LimitValue(b.options.maxSize)
    case TitleField => TextValue(b.options.title)
    case FullscreenField => FlagValue(b.options.fullscreen)
    case MaximizedField => FlagValue(b.options.maximized)
    case ResizableField => FlagValue(b.options.resizable)
    case FpsTargetField => FpsValue(b.options.fpsTarget)
    case DrawField => CallbackValue(b.drawCallback)
    case StartField => CallbackValue(b.startCallback)
    case UpdateField => CallbackValue(b.updateCallback)
    case EventField => CallbackValue(b.eventCallback)
  }

  /** The value a setter stores in its field. */
  function Written(s: Setter): FieldValue {
    match s
    case Size(w, h) => SizeValue(w, h)
    case MinSize(w, h) => LimitValue(Some((w, h)))
    case MaxSize(w, h) => LimitValue(Some((w, h)))
    case Title(t) => TextValue(t)
    case Fullscreen => FlagValue(true)
    case Maximized => FlagValue(true)
    case Resizable => FlagValue(true)
    case FpsTarget(f) => FpsValue(Some(f))
    case Draw(cb) => CallbackValue(Some(cb))
    case Start(cb) => CallbackValue(Some(cb))
    case Update(cb) => CallbackValue(Some(cb))
    case Event(cb) => CallbackValue(Some(cb))
  }

  /** Two builders with the same state callback and the same fields are equal. */
  lemma FieldsDetermineBuilder(a: AppBuilder, b: AppBuilder)
    requires a.stateCb == b.stateCb
    requires forall f :: Get(a, f) == Get(b, f)
    ensures a == b
  {
    assert Get(a, SizeField) == Get(b, SizeField);
    assert Get(a, MinSizeField) == Get(b, MinSizeField);
    assert Get(a, MaxSizeField) == Get(b, MaxSizeField);
    assert Get(a, TitleField) == Get(b, TitleField);
    assert Get(a, FullscreenField) == Get(b, FullscreenField);
    assert Get(a, MaximizedField) == Get(b, MaximizedField);
    assert Get(a, ResizableField) == Get(b, ResizableField);
    assert Get(a, FpsTargetField) == Get(b, FpsTargetField);
    assert Get(a, DrawField) == Get(b, DrawField);
    assert Get(a, StartField) == Get(b, StartField);
    assert Get(a, UpdateField) == Get(b, UpdateField);
    assert Get(a, EventField) == Get(b, EventField);
  }

  /** A setter writes its own field and no other, and keeps the state callback. */
  lemma ApplyWritesOneField(b: AppBuilder, s: Setter, f: Field)
    ensures Apply(b, s).stateCb == b.stateCb
    ensures Get(Apply(b, s), f) == if f == FieldOf(s) then Written(s) else Get(b, f)
  {
  }

  /** Setters of different fields can be called in either order. */
  lemma SettersCommute(b: AppBuilder, s1: Setter, s2: Setter)
    requires FieldOf(s1) != FieldOf(s2)
    ensures Apply(Apply(b, s1), s2) == Apply(Apply(b, s2), s1)
  {
    var x, y := Apply(Apply(b, s1), s2), Apply(Apply(b, s2), s1);
    forall f ensures Get(x, f) == Get(y, f) {
      ApplyWritesOneField(b, s1, f);
      ApplyWritesOneField(b, s2, f);
      ApplyWritesOneField(Apply(b, s1), s2, f);
      ApplyWritesOneField(Apply(b, s2), s1, f);
    }
    ApplyWritesOneField(b, s1, SizeField);
    ApplyWritesOneField(b, s2, SizeField);
    FieldsDetermineBuilder(x, y);
  }

  /** Of two calls to the same setter, the last one wins. */
  lemma LastSetterWins(b: AppBuilder, s1: Setter, s2: Setter)
    requires FieldOf(s1) == FieldOf(s2)
    ensures Apply(Apply(b, s1), s2) == Apply(b, s2)
  {
  }

  // ---------------------------------------------------------------------------
  // Resource parsing

  /** `try_load_resources` after a successful `try_load`: pop the loaded items
      from the back and hand each to its parser, stopping at the first error.
      Returns the items handed over, in order. */
  method ParseLoaded(items: seq<Loaded>, parse: Loaded -> Result<(), string>)
    returns (parsed: seq<Loaded>, r: Result<(), string>)
    ensures r.Success? <==> forall i :: 0 <= i < |items| ==> parse(items[i]).Success?
    ensures r.Success? ==> parsed == Reverse(items)
    ensures r.Failure? ==>
              && 1 <= |parsed| <= |items|
              && parsed == Reverse(items)[..|parsed|]
              && parse(parsed[|parsed| - 1]) == Failure(r.error)
              && forall i :: 0 <= i < |parsed| - 1 ==> parse(parsed[i]).Success?
  {
    ReverseIndex(items);
    var rest := items;
    parsed := [];
    while |rest| > 0
      invariant rest == items[..|rest|]
      invariant parsed == Reverse(items)[..|items| - |rest|]
      invariant forall i :: |rest| <= i < |items| ==> parse(items[i]).Success?
      decreases |rest|
    {
      var n := |rest| - 1;
      var item := rest[n];
      rest := rest[..n];
      assert Reverse(items)[..|items| - n] == parsed + [item];
      parsed := parsed + [item];
      var outcome := parse(item);
      if outcome.Failure? {
        assert forall i :: 0 <= i < |parsed| - 1 ==> parse(parsed[i]).Success? by {
          forall i | 0 <= i < |parsed| - 1 ensures parse(parsed[i]).Success? {
            assert parsed[i] == items[|items| - 1 - i];
          }
        }
        return parsed, Failure(outcome.error);
      }
    }
    assert parsed == Reverse(items);
    r := Success(());
  }

  /** `try_load_resources`: poll the pending loaders once, then parse what
      finished. A poll error is returned before anything is parsed. Since
      `try_load` returns the finished items newest first and parsing pops from
      the back, they are parsed in the order they were added. */
  method TryLoadResources(app: App, poll: Loader -> Poll, parse: Loaded -> Result<(), string>)
    returns (app': App, parsed: seq<Loaded>, r: Result<(), string>)
    ensures app'.fps == app.fps && app'.lastTime == app.lastTime && app'.time == app.time && app'.delta == app.delta
    ensures !NoPollError(app.resources.toLoad, poll) ==>
              && r.Failure? && parsed == []
              && var k := |app'.resources.toLoad|;
                 && k < |app.resources.toLoad|
                 && app'.resources.toLoad == app.resources.toLoad[..k]
                 && poll(app.resources.toLoad[k]) == PollError(r.error)
    ensures NoPollError(app.resources.toLoad, poll) && r.Failure? ==>
              && |parsed| >= 1
              && parse(parsed[|parsed| - 1]) == Failure(r.error)
              && forall i :: 0 <= i < |parsed| - 1 ==> parse(parsed[i]).Success?
    ensures NoPollError(app.resources.toLoad, poll) ==>
              && app'.resources.toLoad == Reverse(NotReadyOf(app.resources.toLoad, poll))
              && parsed <= DoneOf(app.resources.toLoad, poll)
              && (r.Success? <==> parsed == DoneOf(app.resources.toLoad, poll)
                                  && forall i :: 0 <= i < |parsed| ==> parse(parsed[i]).Success?)
  {
    var manager, loadResult := TryLoad(app.resources, poll);
    app' := app.(resources := manager);
    if loadResult.Failure? {
      return app', [], Failure(loadResult.error);
    }
    var toLoad := app.resources.toLoad;
    TryLoadOrder(app.resources, poll);
    if loadResult.value.None? {
      assert toLoad == [] && Reverse<Loader>([]) == [] && DoneOf(toLoad, poll) == [];
      return app', [], Success(());
    }
    var items := loadResult.value.value;
    assert items == Reverse(DoneOf(toLoad, poll));
    ReverseReverse(DoneOf(toLoad, poll));
    ReverseIndex(items);
    parsed, r := ParseLoaded(items, parse);
    if r.Failure? && parsed == DoneOf(toLoad, poll) {
      assert !parse(parsed[|parsed| - 1]).Success?;
    }
  }
}
