# MicrophoneLoopback core, modelled in Dafny

MicrophoneLoopback routes the sound captured by the default input device to
the default output device through one PortAudio duplex stream whose callback
copies each captured block to the block about to be played. This project
models three parts of it and proves what they promise:

- **The loopback stream** (`LoopbackStream`, module `Loopback`,
  `loopback_stream.dfy`): a class with the stream handle, the ready and
  playing flags and the error string; `Init`, `Deinit`, `Play`, `Stop`, the
  two queries and the audio callback, which copies bytes between two arrays.
  Every PortAudio call whose result the source checks takes its outcome as a
  boolean argument (`Init(openOk)`, `Play(startOk)`). A ghost trace records
  the PortAudio calls the object issues, and the object invariant says the
  trace is well-formed: no stream is opened while one is open, and no stream
  is started, stopped or closed unless it is open. Lemmas show that every
  opened stream is then closed exactly once, except the one still open.
- **The backend registry** (module `Backends`, `common.dfy`): the
  `BackendAudio` enumeration with its integer codes, `validateBackend`, the
  mapping from PortAudio host-API types, the list of available backends
  and the default backend. The host-API table PortAudio would report is an
  argument.
- **The command-line decision** (module `CommandLine`, `cmd_parser.dfy`): the
  `CMDParser` constructor as a function from what cxxopts parsed to an
  outcome (exit with success, exit with failure, or a parser object), and the
  two getters.

`wrappers.dfy` holds the `Option` datatype the others use.

Where the design description of the system and the code disagree, the model
follows the code:

- `stop` does not clear the playing flag (src/LoopbackStream.cpp:130-135), so
  `isPlayingContinue` still answers true after `stop`; only `deinit` and a
  failed `init` or `play` clear it.
- `getAvailablesBackend` does not skip host APIs the program does not know:
  each becomes a SYSTEM_DEFAULT entry (src/Common.cpp:45-46, 62-67), so the
  list always has one entry per host API plus the leading SYSTEM_DEFAULT.
- `init` takes no configuration and selects no backend: it opens a duplex
  stream on the default input and output devices with the fixed stream
  parameters set by the constructor.
- Only the combined duplex callback exists in the code; the split
  double-buffer and polling transports are declared for Linux
  (include/LoopbackStream.h:50-53, 66-70, 79-82) but have no implementation.

## Model

| member | source | states |
|---|---|---|
| `Backends.ValidateBackend` | src/Common.cpp:4-23 | a backend code is valid exactly when it is one of SYSTEM_DEFAULT..JACK (0..8); INVALID_API (-1) and every other integer are invalid |
| `Backends.ValidateBackendOnEnumerators` | include/Common.h:6-18 | of the ten enumerators, all but INVALID_API pass `validateBackend` |
| `Backends.CodeInjective` | include/Common.h:6-18 | distinct enumerators have distinct integer values |
| `Backends.FromHostApiToBackend` | src/Common.cpp:25-48 | each known host-API type maps to the backend that names that same host API, every other type to SYSTEM_DEFAULT and only those to it; the result is always valid, never INVALID_API |
| `Backends.FromHostApiToBackendInjective` | src/Common.cpp:27-44 | two known host-API types with the same backend are the same type |
| `Backends.FromHostApiToBackendOnto` | src/Common.cpp:27-44 | every backend that names a host API is the image of that host API |
| `Backends.GetAvailablesBackend` | src/Common.cpp:50-70 | empty when the host-API count is zero or negative; otherwise count + 1 entries, SYSTEM_DEFAULT first, then the backend of host API i at position i + 1 for every i in order; every entry is valid |
| `Backends.GetDefaultBackend` | src/Common.cpp:72-75 | the default backend is always valid, and is SYSTEM_DEFAULT exactly when the default host API is of an unknown type |
| `Backends.DefaultBackendIsAvailable` | src/Common.cpp:50-75 | when the default host API is one of the counted host APIs, the default backend appears in the available list |
| `Loopback.LoopbackStream.constructor` | src/LoopbackStream.cpp:4-13 | mono, 48000 Hz, 2 bytes per sample, 256 frames per buffer, a 512-byte callback block; no stream, not ready, not playing |
| `Loopback.LoopbackStream.Stop` | src/LoopbackStream.cpp:130-135 | issues a stream stop only when a stream exists; the ready and playing flags, the handle and the error string do not change |
| `Loopback.LoopbackStream.Deinit` | src/LoopbackStream.cpp:20-33 | from any state: stops and closes an existing stream, then no stream, not ready, not playing; the error string is kept; a second call issues no further PortAudio call |
| `Loopback.LoopbackStream.Init` | src/LoopbackStream.cpp:35-86 | always tears down first; on a failed open returns false, not ready, not playing, error "Failed to create the input stream."; on success returns true, a stream, ready and not playing |
| `Loopback.LoopbackStream.Play` | src/LoopbackStream.cpp:107-128 | when not ready: false, error "The stream is not ready.", playing unchanged, no PortAudio call; when ready: the start outcome is returned and becomes the playing flag, a failed start sets error "Failed to start the input stream."; readiness never changes |
| `Loopback.LoopbackStream.InputCallback` | src/LoopbackStream.cpp:101-105 | the first inputBufferSize bytes of the output equal those of the input, the rest of the output is untouched, and the result is paContinue |
| `Loopback.LoopbackStream.IsStreamReady` | src/LoopbackStream.cpp:137-140 | returns the ready flag and changes nothing; a ready stream holds a native stream |
| `Loopback.LoopbackStream.IsPlayingContinue` | src/LoopbackStream.cpp:142-145 | returns the playing flag and changes nothing; a playing stream is ready |
| `Loopback.TeardownCalls` | src/LoopbackStream.cpp:22-29 | the teardown issues PortAudio calls exactly when a stream exists, and its last call closes it |
| `Loopback.AppendCall` | src/LoopbackStream.cpp:20-135 | issuing one more PortAudio call steps the open/closed state and keeps the call order legal exactly when that call is permitted |
| `Loopback.Teardown` | src/LoopbackStream.cpp:20-33 | tearing down keeps the call order legal and leaves no stream open |
| `Loopback.WellFormedEveryCall` | src/LoopbackStream.cpp:20-135 | in a legal call order, every open happens with no stream open and every start, stop and close with one open |
| `Loopback.OpensMatchCloses` | src/LoopbackStream.cpp:20-86 | in a legal call order, successful opens equal closes plus one if a stream is still open: no handle leaked, none closed twice |
| `Loopback.LifecycleScenario` | src/LoopbackStream.cpp:35-135 | a successful init then play gives ready and playing, and both flags are still set after stop |
| `Loopback.DeinitTwice` | src/LoopbackStream.cpp:20-33 | from any state, calling deinit twice leaves the same state and call record as calling it once: no stream, not ready, not playing, error kept |
| `CommandLine.ParseCommandLine` | src/CMDParser.cpp:21-65 | without arguments nothing is parsed (no rate, rate 0); --version gives exit-success whatever else is given, then --help gives exit-success even with a bad rate, and exit-success happens for no other input; exit-failure exactly for a given rate below 16000; otherwise a parser is built: with no rate given it is unset with rate 0, else the rate is set, equals the given value and is at least 16000 |
| `CommandLine.AcceptedRateIsKept` | src/CMDParser.cpp:55-64 | any sample rate of 16000 or more, without --version or --help, is accepted and kept exactly |
| `CommandLine.CmdParser.IsSampleRateSet` | src/CMDParser.cpp:70-73 | true means the stored rate is at least 16000, false means it is 0 |
| `CommandLine.CmdParser.SampleRate` | src/CMDParser.cpp:75-78 | the stored rate is 0 or at least 16000 |

## Left out

- PortAudio itself (`Pa_OpenStream`, `Pa_StartStream`, `Pa_StopStream`, `Pa_CloseStream`, `Pa_GetHostApiCount`, `Pa_GetHostApiInfo`, `Pa_GetDefaultHostApi`, device queries): foreign code; their results are arguments, and the calls issued are recorded in a ghost trace.
- A failed `Pa_OpenStream` is taken to leave the stream handle null, as it was after the leading `deinit`.
- The stream parameters passed to `Pa_OpenStream` (default devices, `paInt16`, `paClipOff`) and the suggested latencies (src/LoopbackStream.cpp:43-63): platform-conditional floating-point hints that only reach PortAudio.
- `staticInputCallback` (src/LoopbackStream.cpp:88-99): only recovers the object from PortAudio's user-data pointer; `InputCallback` is modelled directly.
- The destructor `~LoopbackStream` (src/LoopbackStream.cpp:15-18): it runs `deinit`, which is modelled; Dafny has no destructors.
- The Linux PulseAudio variant (`pa_simple` streams, the worker thread, `m_data`/`m_data2`, `streamLoop`, `readingStream`, include/LoopbackStream.h:50-53, 66-70, 79-82): declared without an implementation in this source.
- `Loopback.LoopbackStream.InputCallback`: requires distinct input and output buffers of at least one block each, which PortAudio guarantees and `memcpy` needs.
- `Backends.GetAvailablesBackend`: requires the host-API table to cover the reported count, as `Pa_GetHostApiInfo` does for every index below it.
- `Backends.GetDefaultBackend`: requires the default host-API index to name a table entry; the source dereferences its info without a null check.
- `displayAvailableBackend` (include/Common.h:23) and the getters for frames per buffer, latencies, backend and `usePortAudio` (include/CMDParser.h:34-47): declared but not defined in this source.
- cxxopts and console output: the help and version texts and messages are not modelled, only the outcome; a parse error that cxxopts throws (an unknown option, a rate that is not an `int`) is not modelled.
- src/StreamApplication.cpp and src/main.cpp: signal handling, the global application pointer, the sleep-polling main loop and PortAudio initialisation are process plumbing and concurrency.
