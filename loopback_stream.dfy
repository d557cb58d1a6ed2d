/**
 * The duplex loopback stream of MicrophoneLoopback (src/LoopbackStream.cpp,
 * include/LoopbackStream.h), in its PortAudio variant.
 *
 * A `LoopbackStream` owns one PortAudio duplex stream whose callback copies
 * the captured block to the output block. PortAudio itself is not modelled:
 * each call whose result the source checks takes its outcome as a boolean
 * argument, and a ghost trace records the calls the object issues, so that
 * the object invariant can say that they are issued in a legal order (never
 * a second stream opened while one is open, never a stream used or closed
 * after it was closed).
 */
module Loopback {

  /** A PortAudio call the stream object issues on its native stream. */
  datatype NativeCall =
    | OpenStream(ok: bool)   // Pa_OpenStream, successful or not
    | StartStream(ok: bool)  // Pa_StartStream, successful or not
    | StopStream             // Pa_StopStream (its result is ignored)
    | CloseStream            // Pa_CloseStream (its result is ignored)

  /** Whether a call may be issued when a native stream is (or is not) open. */
  predicate Permitted(open: bool, c: NativeCall) {
    if c.OpenStream? then !open else open
  }

  /** Whether a native stream is open after the call `c`, given whether one was open before. */
  function Next(open: bool, c: NativeCall): bool {
    match c
    case OpenStream(ok) => ok
    case CloseStream => false
    case _ => open
  }

  /** Whether a native stream is open once all of `trace` has been issued. */
  ghost function OpenAfter(trace: seq<NativeCall>): bool
    decreases |trace|
  {
    if trace == [] then false
    else Next(OpenAfter(trace[..|trace| - 1]), trace[|trace| - 1])
  }

  /** Every call of `trace` is permitted in the state its predecessors leave. */
  ghost predicate WellFormed(trace: seq<NativeCall>)
    decreases |trace|
  {
    trace == [] ||
    (WellFormed(trace[..|trace| - 1]) && Permitted(OpenAfter(trace[..|trace| - 1]), trace[|trace| - 1]))
  }

  /** Appending one permitted call keeps a trace well-formed and steps its state. */
  lemma AppendCall(trace: seq<NativeCall>, c: NativeCall)
    ensures OpenAfter(trace + [c]) == Next(OpenAfter(trace), c)
    ensures WellFormed(trace + [c]) <==> WellFormed(trace) && Permitted(OpenAfter(trace), c)
  {
  }

  /** Calls `deinit` issues: stop and close the stream, when one is open. */
  function TeardownCalls(open: bool): (r: seq<NativeCall>)
    ensures |r| > 0 <==> open
    ensures open ==> r[|r| - 1] == CloseStream
  {
    if open then [StopStream, CloseStream] else []
  }

  /** Tearing down keeps a trace well-formed and leaves no stream open. */
  lemma Teardown(trace: seq<NativeCall>)
    requires WellFormed(trace)
    ensures WellFormed(trace + TeardownCalls(OpenAfter(trace)))
    ensures !OpenAfter(trace + TeardownCalls(OpenAfter(trace)))
  {
    if OpenAfter(trace) {
      AppendCall(trace, StopStream);
      AppendCall(trace + [StopStream], CloseStream);
      assert trace + [StopStream] + [CloseStream] == trace + TeardownCalls(true);
    } else {
      assert trace + TeardownCalls(false) == trace;
    }
  }

  /** Every call of a well-formed trace was permitted when it was issued. */
  lemma {:induction false} WellFormedEveryCall(trace: seq<NativeCall>, i: int)
    requires WellFormed(trace)
    requires 0 <= i < |trace|
    ensures Permitted(OpenAfter(trace[..i]), trace[i])
    decreases |trace|
  {
    var n := |trace| - 1;
    if i < n {
      assert trace[..n][..i] == trace[..i];
      WellFormedEveryCall(trace[..n], i);
    }
  }

  /** The number of successful `Pa_OpenStream` calls in a trace. */
  ghost function Opens(trace: seq<NativeCall>): nat {
    if trace == [] then 0
    else Opens(trace[..|trace| - 1]) + (if trace[|trace| - 1] == OpenStream(true) then 1 else 0)
  }

  /** The number of `Pa_CloseStream` calls in a trace. */
  ghost function Closes(trace: seq<NativeCall>): nat {
    if trace == [] then 0
    else Closes(trace[..|trace| - 1]) + (if trace[|trace| - 1] == CloseStream then 1 else 0)
  }

  /**
   * In a well-formed trace every opened stream is closed exactly once, except
   * the one still open: no handle is leaked and none is closed twice.
   */
  lemma {:induction false} OpensMatchCloses(trace: seq<NativeCall>)
    requires WellFormed(trace)
    ensures Opens(trace) == Closes(trace) + (if OpenAfter(trace) then 1 else 0)
    decreases |trace|
  {
    if trace != [] {
      OpensMatchCloses(trace[..|trace| - 1]);
    }
  }

  /** PortAudio's `paContinue`, the callback's "keep streaming" result. */
  const PaContinue: int := 0

  const ErrCreateStream: string := "Failed to create the input stream."
  const ErrStartStream: string := "Failed to start the input stream."
  const ErrNotReady: string := "The stream is not ready."

  /** A byte of audio data. */
  newtype byte = x: int | 0 <= x < 256

  class LoopbackStream {
    // Stream information. No method of the class changes them after construction.
    const channelsCount: int
    const sampleRate: int
    const sizePerSample: int
    const streamFramesPerBuffer: nat
    // Size in bytes of one block the callback copies.
    const inputBufferSize: int

    var strError: string
    // Whether `m_stream` holds a native stream handle (it is non-null).
    var hasStream: bool
    var streamReady: bool
    var playingContinue: bool

    // The PortAudio calls issued so far on this object's streams.
    ghost var nativeCalls: seq<NativeCall>

    ghost predicate Valid()
      reads this
    {
      && inputBufferSize == (streamFramesPerBuffer as int) * sizePerSample * channelsCount
      && (playingContinue ==> streamReady)
      && (streamReady ==> hasStream)
      && WellFormed(nativeCalls)
      && OpenAfter(nativeCalls) == hasStream
    }

    /** A mono 16-bit stream at 48000 Hz, 256 frames per buffer; nothing open. */
    constructor ()
      ensures Valid()
      ensures channelsCount == 1 && sampleRate == 48000 && sizePerSample == 2
      ensures streamFramesPerBuffer == 256 && inputBufferSize == 512
      ensures !hasStream && !streamReady && !playingContinue
      ensures strError == "" && nativeCalls == []
    {
      channelsCount := 1;
      sampleRate := 48000;
      sizePerSample := 2;
      streamFramesPerBuffer := 256;
      inputBufferSize := 256 * 2 * 1;
      strError := "";
      hasStream := false;
      streamReady := false;
      playingContinue := false;
      nativeCalls := [];
    }

    /**
     * `stop`: asks PortAudio to stop the stream when there is one. Neither
     * flag changes, so `isPlayingContinue` still answers true after a stop.
     */
    method Stop()
      requires Valid()
      modifies this
      ensures Valid()
      ensures hasStream == old(hasStream)
      ensures streamReady == old(streamReady) && playingContinue == old(playingContinue)
      ensures strError == old(strError)
      ensures nativeCalls == old(nativeCalls) + (if old(hasStream) then [StopStream] else [])
    {
      if hasStream {
        AppendCall(nativeCalls, StopStream);
        nativeCalls := nativeCalls + [StopStream];
      }
    }

    /** `deinit`: stops and closes any stream; from any state it ends with nothing open. */
    method Deinit()
      requires Valid()
      modifies this
      ensures Valid()
      ensures !hasStream && !streamReady && !playingContinue
      ensures strError == old(strError)
      ensures nativeCalls == old(nativeCalls) + TeardownCalls(old(hasStream))
    {
      Stop();
      if hasStream {
        AppendCall(nativeCalls, CloseStream);
        nativeCalls := nativeCalls + [CloseStream];
        hasStream := false;
      }
      streamReady := false;
      playingContinue := false;
    }

    /**
     * `init`: tears down any existing stream, then opens the duplex stream;
     * `openOk` is whether `Pa_OpenStream` succeeds.
     */
    method Init(openOk: bool) returns (ok: bool)
      requires Valid()
      modifies this
      ensures Valid()
      ensures ok == openOk
      ensures hasStream == openOk && streamReady == openOk && !playingContinue
      ensures strError == if openOk then old(strError) else ErrCreateStream
      ensures nativeCalls == old(nativeCalls) + TeardownCalls(old(hasStream)) + [OpenStream(openOk)]
    {
      Deinit();
      AppendCall(nativeCalls, OpenStream(openOk));
      nativeCalls := nativeCalls + [OpenStream(openOk)];
      hasStream := openOk;
      if !openOk {
        streamReady := false;
        playingContinue := false;
        strError := ErrCreateStream;
        return false;
      }
      streamReady := true;
      return true;
    }

    /**
     * `inputCallback`: copies one block of `inputBufferSize` bytes from the
     * captured buffer to the buffer about to be played, and asks PortAudio to
     * continue. The rest of the output buffer is left as it was.
     */
    method InputCallback(input: array<byte>, output: array<byte>) returns (r: int)
      requires input != output
      requires 0 <= inputBufferSize <= input.Length && inputBufferSize <= output.Length
      modifies output
      ensures output[..inputBufferSize] == input[..inputBufferSize]
      ensures output[inputBufferSize..] == old(output[inputBufferSize..])
      ensures r == PaContinue
    {
      var i := 0;
      while i < inputBufferSize
        invariant 0 <= i <= inputBufferSize
        invariant forall k :: 0 <= k < i ==> output[k] == input[k]
        invariant forall k :: i <= k < output.Length ==> output[k] == old(output[k])
      {
        output[i] := input[i];
        i := i + 1;
      }
      return PaContinue;
    }

    /**
     * `play`: starts the stream when it is ready; `startOk` is whether
     * `Pa_StartStream` succeeds. Readiness never changes.
     */
    method Play(startOk: bool) returns (ok: bool)
      requires Valid()
      modifies this
      ensures Valid()
      ensures hasStream == old(hasStream) && streamReady == old(streamReady)
      ensures !old(streamReady) ==>
        !ok && playingContinue == old(playingContinue) && strError == ErrNotReady && nativeCalls == old(nativeCalls)
      ensures old(streamReady) ==>
        ok == startOk && playingContinue == startOk && nativeCalls == old(nativeCalls) + [StartStream(startOk)]
      ensures old(streamReady) ==> strError == if startOk then old(strError) else ErrStartStream
    {
      if streamReady {
        AppendCall(nativeCalls, StartStream(startOk));
        nativeCalls := nativeCalls + [StartStream(startOk)];
        if !startOk {
          strError := ErrStartStream;
          playingContinue := false;
          return false;
        }
        playingContinue := true;
        return true;
      } else {
        strError := ErrNotReady;
        return false;
      }
    }

    /** `isStreamReady`: reads the ready flag; a ready stream always holds a native stream. */
    method IsStreamReady() returns (r: bool)
      requires Valid()
      ensures r == streamReady
      ensures r ==> hasStream
    {
      return streamReady;
    }

    /** `isPlayingContinue`: reads the playing flag; only a ready stream can be playing. */
    method IsPlayingContinue() returns (r: bool)
      requires Valid()
      ensures r == playingContinue
      ensures r ==> streamReady && hasStream
    {
      return playingContinue;
    }
  }

  /**
   * The lifecycle seen by a caller: a successful `init` gives a ready stream
   * that is not playing, a successful `play` makes it play, and `stop` leaves
   * both flags set.
   */
  method LifecycleScenario() returns (ready: bool, playing: bool, readyAfterStop: bool, playingAfterStop: bool)
    ensures ready && playing && readyAfterStop && playingAfterStop
  {
    var s := new LoopbackStream();
    var ok := s.Init(true);
    assert s.streamReady && !s.playingContinue;
    ok := s.Play(true);
    ready := s.IsStreamReady();
    playing := s.IsPlayingContinue();
    s.Stop();
    readyAfterStop := s.IsStreamReady();
    playingAfterStop := s.IsPlayingContinue();
  }

  /** From any state, `deinit` twice ends where `deinit` once does: the second call changes nothing. */
  method DeinitTwice(s: LoopbackStream)
    requires s.Valid()
    modifies s
    ensures s.Valid()
    ensures !s.hasStream && !s.streamReady && !s.playingContinue && s.strError == old(s.strError)
    ensures s.nativeCalls == old(s.nativeCalls) + TeardownCalls(old(s.hasStream))
  {
    s.Deinit();
    ghost var once := (s.hasStream, s.streamReady, s.playingContinue, s.strError, s.nativeCalls);
    s.Deinit();
    assert once.4 + TeardownCalls(false) == once.4;
    assert (s.hasStream, s.streamReady, s.playingContinue, s.strError, s.nativeCalls) == once;
  }
}
