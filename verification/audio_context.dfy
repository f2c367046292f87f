/** The audio context of nae-audio: the output device, a global volume in
    [0, 1] and an ordered registry of non-owning references to the audio
    instances it created. A reference is a handle; whether its instance is
    still alive is given by a liveness set that the caller passes in, standing
    for `Weak::upgrade`. */
module AudioRegistry {
  import opened Wrappers
  import opened Primitives
  import opened AudioPlayback

  /** Identity of one audio instance's shared state. */
  type Handle = nat

  datatype Device = Device(id: nat)

  datatype AudioContext = AudioContext(device: Device, currentAudios: seq<Handle>, volume: real)

  /** The instance returned by `instance`: its state handle and the bytes it plays.
      Its own playback state is not part of this model. */
  datatype AudioInstance = AudioInstance(handle: Handle, source: seq<Byte>)

  /** What the context hands to the device or to the live instances. */
  datatype Effect =
    | PlayRaw(device: Device, source: seq<Byte>)
    | UpdateGlobalVolume(target: Handle, volume: real)

  const NO_OUTPUT_DEVICE := "Cannot find audio output device."

  /** The context invariant: the global volume lies in [0, 1]. */
  predicate Valid(ctx: AudioContext) {
    0.0 <= ctx.volume <= 1.0
  }

  /** `clamp(value, 0.0, 1.0)`. */
  function Clamp01(v: real): (c: real)
    ensures 0.0 <= c <= 1.0
    ensures 0.0 <= v <= 1.0 ==> c == v
    ensures v < 0.0 ==> c == 0.0
    ensures v > 1.0 ==> c == 1.0
  {
    if v < 0.0 then 0.0 else if v > 1.0 then 1.0 else v
  }

  /** `AudioContext::new`: volume 1.0 and an empty registry, or an error when
      there is no default output device. */
  function New(defaultDevice: Option<Device>): (r: Result<AudioContext, string>)
    ensures r.Success? <==> defaultDevice.Some?
    ensures r.Failure? ==> r.error == NO_OUTPUT_DEVICE
    ensures r.Success? ==> && Valid(r.value)
                           && r.value == AudioContext(defaultDevice.value, [], 1.0)
  {
    match defaultDevice
    case None => Failure(NO_OUTPUT_DEVICE)
    case Some(device) => Success(AudioContext(device, [], 1.0))
  }

  /** No two registry entries refer to the same instance. */
  predicate Distinct(entries: seq<Handle>) {
    forall i, j :: 0 <= i < j < |entries| ==> entries[i] != entries[j]
  }

  /** `instance`: a new instance over `source` whose state is the fresh handle
      `h`; exactly one reference to it is appended at the end of the registry.
      The handle is fresh: the `Arc` is allocated by this call, and every entry
      already registered keeps its own allocation alive, so none can alias it. */
  function Instance(ctx: AudioContext, source: Audio, h: Handle): (r: (AudioContext, AudioInstance))
    requires h !in ctx.currentAudios
    ensures Distinct(ctx.currentAudios) ==> Distinct(r.0.currentAudios)
    ensures r.0.currentAudios == ctx.currentAudios + [h]
    ensures r.0.volume == ctx.volume && r.0.device == ctx.device
    ensures r.1 == AudioInstance(h, source.source)
  {
    (ctx.(currentAudios := ctx.currentAudios + [h]), AudioInstance(h, source.source))
  }

  /** `play`: fire-and-forget playback straight on the device; the registry and
      the volume are untouched. The decode is unwrapped, so the bytes must decode. */
  function Play(ctx: AudioContext, source: Audio, dec: Decoder): (r: (AudioContext, Effect))
    requires dec.accepts(source.source)
    ensures r.0 == ctx
    ensures r.1 == PlayRaw(ctx.device, source.source)
  {
    (ctx, PlayRaw(ctx.device, source.source))
  }

  /** The registry entries whose instance is alive, in their original order. */
  function Live(entries: seq<Handle>, alive: set<Handle>): (r: seq<Handle>)
    ensures |r| <= |entries|
    ensures forall h :: h in r <==> h in entries && h in alive
  {
    if |entries| == 0 then []
    else if entries[0] in alive then [entries[0]] + Live(entries[1..], alive)
    else Live(entries[1..], alive)
  }

  /** `tick`: drop the references whose instance is gone, keeping the others in order. */
  function Tick(ctx: AudioContext, alive: set<Handle>): (r: AudioContext)
    ensures r.currentAudios == Live(ctx.currentAudios, alive)
    ensures forall h :: h in r.currentAudios ==> h in alive
    ensures r.volume == ctx.volume && r.device == ctx.device
    ensures Distinct(ctx.currentAudios) ==> Distinct(r.currentAudios)
  {
    LiveKeepsDistinct(ctx.currentAudios, alive);
    ctx.(currentAudios := Live(ctx.currentAudios, alive))
  }

  /** `volume`. */
  function Volume(ctx: AudioContext): (v: real)
    requires Valid(ctx)
    ensures 0.0 <= v <= 1.0
  {
    ctx.volume
  }

  /** The notifications `set_volume` sends while scanning the registry: one per
      entry that can still be upgraded, in registry order; dead entries are skipped. */
  function Cascade(entries: seq<Handle>, alive: set<Handle>, volume: real): (fx: seq<Effect>)
    ensures |fx| == |Live(entries, alive)|
    ensures forall i :: 0 <= i < |fx| ==> fx[i] == UpdateGlobalVolume(Live(entries, alive)[i], volume)
  {
    if |entries| == 0 then []
    else if entries[0] in alive then [UpdateGlobalVolume(entries[0], volume)] + Cascade(entries[1..], alive, volume)
    else Cascade(entries[1..], alive, volume)
  }

  /** `set_volume`: the stored volume becomes the clamped value, every live
      instance is told that clamped value, and the registry is not modified. */
  function SetVolume(ctx: AudioContext, value: real, alive: set<Handle>): (r: (AudioContext, seq<Effect>))
    ensures Valid(r.0) && r.0.volume == Clamp01(value)
    ensures r.0.currentAudios == ctx.currentAudios && r.0.device == ctx.device
    ensures |r.1| == |Tick(ctx, alive).currentAudios|
    ensures forall i :: 0 <= i < |r.1| ==>
              r.1[i] == UpdateGlobalVolume(Tick(ctx, alive).currentAudios[i], Clamp01(value))
  {
    var volume := Clamp01(value);
    (ctx.(volume := volume), Cascade(ctx.currentAudios, alive, volume))
  }

  /** `volume()` after `set_volume(v)` reads the clamped value back. */
  lemma VolumeAfterSetVolume(ctx: AudioContext, v: real, alive: set<Handle>)
    ensures Volume(SetVolume(ctx, v, alive).0) == Clamp01(v)
    ensures 0.0 <= v <= 1.0 ==> Volume(SetVolume(ctx, v, alive).0) == v
  {
  }

  // ---------------------------------------------------------------------------
  // Properties of the registry

  /** Pruning keeps a registry free of duplicates. */
  lemma {:induction false} LiveKeepsDistinct(entries: seq<Handle>, alive: set<Handle>)
    ensures Distinct(entries) ==> Distinct(Live(entries, alive))
    decreases |entries|
  {
    if |entries| > 0 && Distinct(entries) {
      var rest := entries[1..];
      assert Distinct(rest) by {
        forall i, j | 0 <= i < j < |rest| ensures rest[i] != rest[j] {
          assert rest[i] == entries[i + 1] && rest[j] == entries[j + 1];
        }
      }
      LiveKeepsDistinct(rest, alive);
      if entries[0] in alive {
        var x, tail := entries[0], Live(rest, alive);
        assert x !in rest by {
          forall j | 0 <= j < |rest| ensures rest[j] != x {
            assert rest[j] == entries[j + 1];
          }
        }
        assert x !in tail;
        var t := [x] + tail;
        forall i, j | 0 <= i < j < |t| ensures t[i] != t[j] {
          assert t[j] == tail[j - 1];
          if i > 0 {
            assert t[i] == tail[i - 1];
          } else {
            assert tail[j - 1] in tail;
          }
        }
      }
    }
  }

  /** In a registry without duplicates, a registered handle occurs exactly once. */
  lemma {:induction false} DistinctOccursOnce(entries: seq<Handle>, h: Handle)
    requires Distinct(entries) && h in entries
    ensures Occurrences(entries, h) == 1
    decreases |entries|
  {
    assert entries == [entries[0]] + entries[1..];
    var rest := entries[1..];
    assert Distinct(rest) by {
      forall i, j | 0 <= i < j < |rest| ensures rest[i] != rest[j] {
        assert rest[i] == entries[i + 1] && rest[j] == entries[j + 1];
      }
    }
    if entries[0] == h {
      assert h !in rest by {
        forall j | 0 <= j < |rest| ensures rest[j] != h {
          assert rest[j] == entries[j + 1];
        }
      }
    } else {
      DistinctOccursOnce(rest, h);
    }
  }

  /** Filtering distributes over concatenation, so `tick` keeps relative order. */
  lemma {:induction false} LiveAppend(a: seq<Handle>, b: seq<Handle>, alive: set<Handle>)
    ensures Live(a + b, alive) == Live(a, alive) + Live(b, alive)
    decreases |a|
  {
    if |a| > 0 {
      assert (a + b)[1..] == a[1..] + b;
      LiveAppend(a[1..], b, alive);
    } else {
      assert a + b == b;
    }
  }

  /** A registry whose every entry is alive is left exactly as it is. */
  lemma {:induction false} LiveOfAllAlive(entries: seq<Handle>, alive: set<Handle>)
    requires forall i :: 0 <= i < |entries| ==> entries[i] in alive
    ensures Live(entries, alive) == entries
    decreases |entries|
  {
    if |entries| > 0 {
      LiveOfAllAlive(entries[1..], alive);
    }
  }

  /** `tick` is idempotent when no instance dies in between, and afterwards every
      entry is live. */
  lemma TickIdempotent(ctx: AudioContext, alive: set<Handle>)
    ensures Tick(Tick(ctx, alive), alive) == Tick(ctx, alive)
  {
    var live := Live(ctx.currentAudios, alive);
    assert forall i :: 0 <= i < |live| ==> live[i] in alive by {
      forall i | 0 <= i < |live| ensures live[i] in alive {
        assert live[i] in live;
      }
    }
    LiveOfAllAlive(live, alive);
  }

  /** How many entries of the registry refer to `h`. */
  function Occurrences(entries: seq<Handle>, h: Handle): nat {
    multiset(entries)[h]
  }

  /** When one instance registered once is dropped, the next `tick` keeps one
      entry fewer than it would have kept otherwise. */
  lemma {:induction false} DroppingOneInstance(entries: seq<Handle>, alive: set<Handle>, h: Handle)
    requires h in alive && Occurrences(entries, h) == 1
    ensures |Live(entries, alive - {h})| == |Live(entries, alive)| - 1
    decreases |entries|
  {
    assert entries == [entries[0]] + entries[1..];
    if entries[0] == h {
      assert Occurrences(entries[1..], h) == 0;
      assert h !in entries[1..];
      LiveSameWithout(entries[1..], alive, h);
    } else {
      DroppingOneInstance(entries[1..], alive, h);
    }
  }

  /** Removing a handle from the liveness set does not affect a registry that
      never mentions it. */
  lemma {:induction false} LiveSameWithout(entries: seq<Handle>, alive: set<Handle>, h: Handle)
    requires h !in entries
    ensures Live(entries, alive - {h}) == Live(entries, alive)
    decreases |entries|
  {
    if |entries| > 0 {
      assert entries[0] in entries;
      LiveSameWithout(entries[1..], alive, h);
    }
  }

  /** Registering an instance and then ticking while it is alive keeps it as the
      last entry; ticking after it has been dropped leaves no trace of it. */
  lemma InstanceThenTick(ctx: AudioContext, source: Audio, h: Handle, alive: set<Handle>)
    requires h !in ctx.currentAudios
    ensures var c := Instance(ctx, source, h).0;
            && (h in alive ==> Tick(c, alive).currentAudios == Tick(ctx, alive).currentAudios + [h])
            && (h !in alive ==> Tick(c, alive).currentAudios == Tick(ctx, alive).currentAudios)
  {
    LiveAppend(ctx.currentAudios, [h], alive);
    assert [h][1..] == [];
  }

  /** The context made by `new` has no duplicate entries, and every operation
      keeps it so; with the freshness of `instance`, no entry is ever duplicated. */
  lemma OperationsKeepDistinct(ctx: AudioContext, source: Audio, h: Handle, alive: set<Handle>, v: real,
                               device: Device)
    requires Distinct(ctx.currentAudios) && h !in ctx.currentAudios
    ensures Distinct(New(Some(device)).value.currentAudios)
    ensures Distinct(Instance(ctx, source, h).0.currentAudios)
    ensures Distinct(Tick(ctx, alive).currentAudios)
    ensures Distinct(SetVolume(ctx, v, alive).0.currentAudios)
  {
  }

  /** Dropping an instance that is still registered makes the next `tick` keep
      exactly one entry fewer: the registered-once hypothesis of
      `DroppingOneInstance` follows from the registry having no duplicates. */
  lemma DroppingRegisteredInstance(ctx: AudioContext, alive: set<Handle>, h: Handle)
    requires Distinct(ctx.currentAudios) && h in ctx.currentAudios && h in alive
    ensures |Tick(ctx, alive - {h}).currentAudios| == |Tick(ctx, alive).currentAudios| - 1
  {
    DistinctOccursOnce(ctx.currentAudios, h);
    DroppingOneInstance(ctx.currentAudios, alive, h);
  }

  /** An instance just registered, and dropped before the next `tick`, is the one
      entry that `tick` loses. */
  lemma DropAfterInstance(ctx: AudioContext, source: Audio, h: Handle, alive: set<Handle>)
    requires Distinct(ctx.currentAudios) && h !in ctx.currentAudios && h in alive
    ensures var c := Instance(ctx, source, h).0;
            |Tick(c, alive - {h}).currentAudios| == |Tick(c, alive).currentAudios| - 1
  {
    var c := Instance(ctx, source, h).0;
    assert h in c.currentAudios by {
      assert c.currentAudios[|c.currentAudios| - 1] == h;
    }
    DroppingRegisteredInstance(c, alive, h);
  }

  /** Every operation keeps the volume in [0, 1]. */
  lemma OperationsKeepValid(ctx: AudioContext, source: Audio, h: Handle, alive: set<Handle>, v: real)
    requires Valid(ctx) && h !in ctx.currentAudios
    ensures Valid(Instance(ctx, source, h).0)
    ensures Valid(Tick(ctx, alive))
    ensures Valid(SetVolume(ctx, v, alive).0)
  {
  }
}
