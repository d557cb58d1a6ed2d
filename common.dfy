/**
 * The backend registry of MicrophoneLoopback (src/Common.cpp, include/Common.h).
 *
 * `BackendAudio` is the program's own enumeration of audio backends; a PortAudio
 * host API is identified by its `PaHostApiTypeId`, modelled as `HostApiType`.
 * The queries the source sends to PortAudio (`Pa_GetHostApiCount`,
 * `Pa_GetHostApiInfo`, `Pa_GetDefaultHostApi`) become arguments: the table of
 * host-API types, the reported count and the default index.
 */
module Backends {
  import opened Wrappers

  /** The enumeration `BackendAudio` of include/Common.h. */
  datatype BackendAudio =
    | InvalidApi
    | SystemDefault
    | DirectSound
    | Mme
    | Asio
    | Wasapi
    | Wdmks
    | Oss
    | Alsa
    | Jack
  {
    /** The integer value of the enumerator: INVALID_API is -1, the others count up from 0. */
    function Code(): int {
      match this
      case InvalidApi => -1
      case SystemDefault => 0
      case DirectSound => 1
      case Mme => 2
      case Asio => 3
      case Wasapi => 4
      case Wdmks => 5
      case Oss => 6
      case Alsa => 7
      case Jack => 8
    }
  }

  /** A PortAudio `PaHostApiTypeId`: the eight types the program knows, and every other one. */
  datatype HostApiType =
    | PaDirectSound
    | PaMme
    | PaAsio
    | PaWasapi
    | PaWdmks
    | PaOss
    | PaAlsa
    | PaJack
    | Other  // any other PortAudio type id (paCoreAudio, paInDevelopment, ...)

  /**
   * `validateBackend`. A C++ `enum class` value can carry any integer, so the
   * argument is the enumerator's integer code; the test compares it with each
   * of the nine real enumerators.
   */
  function ValidateBackend(code: int): (r: bool)
    ensures r <==> 0 <= code <= 8
  {
    code == SystemDefault.Code() || code == DirectSound.Code() || code == Mme.Code()
    || code == Asio.Code() || code == Wasapi.Code() || code == Wdmks.Code()
    || code == Oss.Code() || code == Alsa.Code() || code == Jack.Code()
  }

  /** An enumerator passes `validateBackend` exactly when it is not INVALID_API. */
  lemma ValidateBackendOnEnumerators(b: BackendAudio)
    ensures ValidateBackend(b.Code()) <==> b != InvalidApi
  {
  }

  /** Distinct enumerators have distinct integer codes. */
  lemma CodeInjective(a: BackendAudio, b: BackendAudio)
    ensures a.Code() == b.Code() ==> a == b
  {
  }

  /**
   * The host API a backend stands for, when it stands for one. This is a
   * reference table written independently of `FromHostApiToBackend`;
   * SYSTEM_DEFAULT and INVALID_API name no host API.
   */
  function HostApiOf(b: BackendAudio): (r: Option<HostApiType>)
    ensures r.Some? ==> !r.value.Other?
  {
    match b
    case DirectSound => Some(PaDirectSound)
    case Mme => Some(PaMme)
    case Asio => Some(PaAsio)
    case Wasapi => Some(PaWasapi)
    case Wdmks => Some(PaWdmks)
    case Oss => Some(PaOss)
    case Alsa => Some(PaAlsa)
    case Jack => Some(PaJack)
    case SystemDefault => None
    case InvalidApi => None
  }

  /**
   * `fromHostApiToBackend`: each known host-API type becomes the backend of the
   * same name, and every other type falls back to SYSTEM_DEFAULT. The mapping
   * never produces INVALID_API.
   */
  function FromHostApiToBackend(t: HostApiType): (r: BackendAudio)
    ensures ValidateBackend(r.Code())
    ensures r == SystemDefault <==> t.Other?
    ensures !t.Other? ==> HostApiOf(r) == Some(t)
  {
    match t
    case PaDirectSound => DirectSound
    case PaMme => Mme
    case PaAsio => Asio
    case PaWasapi => Wasapi
    case PaWdmks => Wdmks
    case PaOss => Oss
    case PaAlsa => Alsa
    case PaJack => Jack
    case Other => SystemDefault
  }

  /** The mapping is one-to-one on the eight known host-API types. */
  lemma FromHostApiToBackendInjective(t: HostApiType, u: HostApiType)
    requires !t.Other? && !u.Other?
    requires FromHostApiToBackend(t) == FromHostApiToBackend(u)
    ensures t == u
  {
  }

  /** Every backend that names a host API is reached from that host API. */
  lemma FromHostApiToBackendOnto(b: BackendAudio)
    requires HostApiOf(b).Some?
    ensures FromHostApiToBackend(HostApiOf(b).value) == b
  {
  }

  /**
   * The list `getAvailablesBackend` promises: nothing when PortAudio reports
   * no host API (or an error, a negative count); otherwise SYSTEM_DEFAULT
   * followed by the backend of every host API, in index order.
   */
  function AvailableBackends(hostApis: seq<HostApiType>, hostApiCount: int): (r: seq<BackendAudio>)
    requires hostApiCount <= |hostApis|
  {
    if hostApiCount <= 0 then []
    else [SystemDefault] + seq(hostApiCount, i requires 0 <= i < hostApiCount => FromHostApiToBackend(hostApis[i]))
  }

  /**
   * `getAvailablesBackend`. `hostApis[i]` is the type `Pa_GetHostApiInfo(i)`
   * reports, and `hostApiCount` is what `Pa_GetHostApiCount` returned; the
   * table is defined for every index below the count.
   */
  method GetAvailablesBackend(hostApis: seq<HostApiType>, hostApiCount: int) returns (r: seq<BackendAudio>)
    requires hostApiCount <= |hostApis|
    ensures hostApiCount <= 0 ==> r == []
    ensures hostApiCount > 0 ==> |r| == hostApiCount + 1 && r[0] == SystemDefault
    ensures forall i :: 0 <= i < hostApiCount ==> r[i + 1] == FromHostApiToBackend(hostApis[i])
    ensures forall k :: 0 <= k < |r| ==> ValidateBackend(r[k].Code())
    ensures r == AvailableBackends(hostApis, hostApiCount)
  {
    if hostApiCount <= 0 {
      return [];
    }
    r := [SystemDefault];
    var i := 0;
    while i < hostApiCount
      invariant 0 <= i <= hostApiCount
      invariant |r| == i + 1 && r[0] == SystemDefault
      invariant forall j :: 0 <= j < i ==> r[j + 1] == FromHostApiToBackend(hostApis[j])
      invariant forall k :: 0 <= k < |r| ==> ValidateBackend(r[k].Code())
    {
      r := r + [FromHostApiToBackend(hostApis[i])];
      i := i + 1;
    }
  }

  /**
   * `getDefaultBackend`: the backend of the host API PortAudio reports as the
   * default. The source dereferences `Pa_GetHostApiInfo` of that index, so the
   * index must name an entry of the table.
   */
  function GetDefaultBackend(hostApis: seq<HostApiType>, defaultHostApi: int): (r: BackendAudio)
    requires 0 <= defaultHostApi < |hostApis|
    ensures ValidateBackend(r.Code())
    ensures r == SystemDefault <==> hostApis[defaultHostApi].Other?
  {
    FromHostApiToBackend(hostApis[defaultHostApi])
  }

  /** The default backend is one of the backends `getAvailablesBackend` lists. */
  lemma DefaultBackendIsAvailable(hostApis: seq<HostApiType>, hostApiCount: int, defaultHostApi: int)
    requires hostApiCount <= |hostApis|
    requires 0 <= defaultHostApi < hostApiCount
    ensures GetDefaultBackend(hostApis, defaultHostApi) in AvailableBackends(hostApis, hostApiCount)
  {
    assert AvailableBackends(hostApis, hostApiCount)[defaultHostApi + 1] == GetDefaultBackend(hostApis, defaultHostApi);
  }
}
