/** Audio buffers and sounds of nae-audio: a validated, shared byte buffer and
    a small play/stop state machine over one output sink. Decoding and the
    device are external; the decoder is a parameter saying which buffers decode. */
module AudioPlayback {
  import opened Wrappers
  import opened Primitives

  /** The decoding collaborator: which byte buffers decode, and the error text
      produced for one that does not. */
  datatype Decoder = Decoder(accepts: seq<Byte> -> bool, errorText: seq<Byte> -> string)

  /** A validated encoded-audio buffer, shared by every sound made from it. */
  datatype Audio = Audio(source: seq<Byte>)

  /** An output sink: how many decoded sources have been appended to it and
      whether it has been started. */
  datatype Sink = Sink(queued: nat, started: bool)

  datatype Sound = Sound(source: seq<Byte>, sink: Sink, playing: bool)

  /** `Audio::from_bytes`: one trial decode; on success the buffer keeps exactly
      the input bytes, otherwise the decoder's error text is returned. */
  function FromBytes(data: seq<Byte>, dec: Decoder): (r: Result<Audio, string>)
    ensures r.Success? <==> dec.accepts(data)
    ensures r.Success? ==> r.value.source == data
    ensures r.Failure? ==> r.error == dec.errorText(data)
  {
    if dec.accepts(data) then Success(Audio(data)) else Failure(dec.errorText(data))
  }

  /** `Sound::new`: a fresh idle sink over the audio's shared bytes; never fails. */
  function NewSound(audio: Audio): (r: Result<Sound, string>)
    ensures r.Success?
    ensures r.value.source == audio.source
    ensures !r.value.playing && r.value.sink == Sink(0, false)
  {
    Success(Sound(audio.source, Sink(0, false), false))
  }

  /** `Sound::play`. When `playing` is set nothing happens; otherwise one freshly
      decoded source is appended and the sink started. `playing` itself is
      never set, so every further call appends another source. The decode is
      unwrapped, so the bytes must decode. */
  function Play(s: Sound, dec: Decoder): (r: Sound)
    requires dec.accepts(s.source)
    ensures s.playing ==> r == s
    ensures !s.playing ==> r.sink == Sink(s.sink.queued + 1, true)
    ensures r.source == s.source && r.playing == s.playing
  {
    if s.playing then s
    else s.(sink := Sink(s.sink.queued + 1, true))
  }

  /** `Sound::stop`: the sink is stopped, dropping what it had queued, and
      `playing` is cleared. */
  function Stop(s: Sound): (r: Sound)
    ensures !r.playing && r.sink == Sink(0, false)
    ensures r.source == s.source
  {
    s.(sink := Sink(0, false), playing := false)
  }

  /** `n` calls of `play` in a row. */
  function PlayTimes(s: Sound, dec: Decoder, n: nat): Sound
    requires dec.accepts(s.source)
    decreases n
  {
    if n == 0 then s else PlayTimes(Play(s, dec), dec, n - 1)
  }

  /** `play` is not idempotent: each call on a sound that is not marked as
      playing queues one more source, so `n` calls queue `n`. */
  lemma {:induction false} PlayQueuesEveryCall(s: Sound, dec: Decoder, n: nat)
    requires dec.accepts(s.source) && !s.playing
    ensures PlayTimes(s, dec, n).sink.queued == s.sink.queued + n
    ensures !PlayTimes(s, dec, n).playing
    ensures n > 0 ==> PlayTimes(s, dec, n).sink.started
    decreases n
  {
    if n > 0 {
      PlayQueuesEveryCall(Play(s, dec), dec, n - 1);
    }
  }

  /** The `unwrap` in `play` cannot fail on a sound built from an audio that
      `from_bytes` accepted, before or after any play/stop calls. */
  lemma PlayUnwrapSafe(data: seq<Byte>, dec: Decoder, n: nat)
    requires FromBytes(data, dec).Success?
    ensures var s := NewSound(FromBytes(data, dec).value).value;
            && dec.accepts(s.source)
            && dec.accepts(Play(s, dec).source)
            && dec.accepts(Stop(s).source)
            && PlayTimes(s, dec, n).sink.queued == n
  {
    var s := NewSound(FromBytes(data, dec).value).value;
    PlayQueuesEveryCall(s, dec, n);
  }
}
