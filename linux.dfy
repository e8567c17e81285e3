/**
 * The Linux platform layer: the server directory, the duplicate-id validator
 * and the dispatcher that starts a realtime thread on the Jack backend.
 *
 * The Jack backend is a foreign collaborator. Its `spawn_rt_thread` is passed
 * in as the function `jack` from a request to either a stream info and a
 * thread handle or an error; its `refresh_audio_server` is passed in as the
 * function `refresh` from the old directory entry to the new one. The stream
 * info (S), the thread handle (H), the process handler (P) and the error
 * callback (E) are opaque to this layer and are type parameters.
 */
module Linux {
  import opened Types
  import opened Repeats

  /** The one backend compiled into the Linux build. */
  const JACK: string := "Jack"

  /** The handle returned by a successful spawn. */
  datatype StreamHandle<S, H> = StreamHandle(streamInfo: S, jackServerHandle: Option<H>) {
    /** The configuration actually negotiated with the backend. */
    function StreamInfo(): S {
      streamInfo
    }
  }

  /** Everything the dispatcher hands to the Jack backend's `spawn_rt_thread`. */
  datatype JackSpawnRequest<P, E> = JackSpawnRequest(
    audioIn: seq<AudioDeviceConfig>,
    audioOut: seq<AudioDeviceConfig>,
    midiIn: seq<MidiDeviceConfig>,
    midiOut: seq<MidiDeviceConfig>,
    processHandler: P,
    errorCallback: E,
    useClientName: Option<string>)

  /** The fixed directory of audio servers: exactly one entry, created as "Jack". */
  class DeviceInfo {
    const audioServersInfo: array<AudioServerInfo>

    ghost predicate Valid()
      reads this
    {
      audioServersInfo.Length == 1
    }

    /**
     * Builds the one-entry directory and lets the backend refresh it. The
     * entry is still named "Jack" whenever the backend's refresh keeps names.
     */
    constructor (refresh: AudioServerInfo -> AudioServerInfo)
      ensures Valid() && fresh(audioServersInfo)
      ensures audioServersInfo[..] == [refresh(AudioServerInfo(JACK, None))]
    {
      audioServersInfo := new AudioServerInfo[] [AudioServerInfo(JACK, None)];
      new;
      RefreshAudioServers(refresh);
    }

    /** The backend rewrites the first (and only) entry in place. */
    method RefreshAudioServers(refresh: AudioServerInfo -> AudioServerInfo)
      requires Valid()
      modifies audioServersInfo
      ensures Valid()
      ensures audioServersInfo[..] == [refresh(old(audioServersInfo[0]))]
    {
      audioServersInfo[0] := refresh(audioServersInfo[0]);
    }

    /** The directory as a slice: always exactly one entry. */
    function AudioServerInfos(): (infos: seq<AudioServerInfo>)
      requires Valid()
      reads this, audioServersInfo
      ensures |infos| == 1 && infos[0] == audioServersInfo[0]
    {
      audioServersInfo[..]
    }
  }

  /** The logical ids of a list of device selections, in order. */
  function Ids(devices: seq<AudioDeviceConfig>): seq<string> {
    seq(|devices|, i requires 0 <= i < |devices| => devices[i].id)
  }

  /** All audio ids in the order they are validated: inputs, then outputs. */
  function AllIds(audio: AudioServerConfig): seq<string> {
    Ids(audio.useInDevices) + Ids(audio.useOutDevices)
  }

  /**
   * What `check_duplicate_ids` must return: `Ok` when no audio id repeats,
   * otherwise the first repeated id. The MIDI configuration is not consulted.
   */
  function DuplicateIdCheck(audio: AudioServerConfig, midi: Option<MidiServerConfig>): (r: Result<()>)
    ensures r.Err? ==> r.error.DeviceIdNotUnique?
    ensures audio.useInDevices == [] && audio.useOutDevices == [] ==> r == Ok(())
  {
    match FirstRepeat(AllIds(audio))
    case None => Ok(())
    case Some(id) => Err(DeviceIdNotUnique(id))
  }

  /**
   * The validator: scans the input ids and then the output ids, growing a set
   * of ids seen so far, and stops at the first id that is already in it.
   */
  method CheckDuplicateIds(audio: AudioServerConfig, midi: Option<MidiServerConfig>)
    returns (r: Result<()>)
    ensures r == DuplicateIdCheck(audio, midi)
    ensures r.Ok? <==> AllDistinct(AllIds(audio))
    ensures r.Err? ==> (r.error.DeviceIdNotUnique? &&
      exists k :: IsFirstRepeatAt(AllIds(audio), k) && AllIds(audio)[k] == r.error.id)
  {
    ghost var ids := AllIds(audio);
    var ins, outs := audio.useInDevices, audio.useOutDevices;
    var deviceIds: set<string> := {};

    for i := 0 to |ins|
      invariant forall id :: id in deviceIds <==> id in ids[..i]
      invariant AllDistinct(ids[..i])
    {
      var id := ins[i].id;
      assert ids[i] == id;
      if id in deviceIds {
        assert IsFirstRepeatAt(ids, i);
        FirstRepeatAt(ids, i);
        FirstRepeatNoneIff(ids);
        return Err(DeviceIdNotUnique(id));
      }
      assert ids[..i + 1] == ids[..i] + [id];
      DistinctSnoc(ids[..i], id);
      deviceIds := deviceIds + {id};
    }
    for j := 0 to |outs|
      invariant forall id :: id in deviceIds <==> id in ids[..|ins| + j]
      invariant AllDistinct(ids[..|ins| + j])
    {
      var id := outs[j].id;
      var k := |ins| + j;
      assert ids[k] == id;
      if id in deviceIds {
        assert IsFirstRepeatAt(ids, k);
        FirstRepeatAt(ids, k);
        FirstRepeatNoneIff(ids);
        return Err(DeviceIdNotUnique(id));
      }
      assert ids[..k + 1] == ids[..k] + [id];
      DistinctSnoc(ids[..k], id);
      deviceIds := deviceIds + {id};
    }
    assert ids[..|ins| + |outs|] == ids;
    FirstRepeatNoneIff(ids);
    return Ok(());
  }

  /** The validator accepts exactly the configurations whose audio ids are all distinct. */
  lemma DuplicateIdCheckOkIff(audio: AudioServerConfig, midi: Option<MidiServerConfig>)
    ensures DuplicateIdCheck(audio, midi).Ok? <==> AllDistinct(AllIds(audio))
  {
    FirstRepeatNoneIff(AllIds(audio));
  }

  /** A rejection names the id found at the earliest repeating position. */
  lemma DuplicateIdCheckReportsEarliest(audio: AudioServerConfig, midi: Option<MidiServerConfig>, k: int)
    requires IsFirstRepeatAt(AllIds(audio), k)
    ensures DuplicateIdCheck(audio, midi) == Err(DeviceIdNotUnique(AllIds(audio)[k]))
  {
    FirstRepeatAt(AllIds(audio), k);
  }

  /** Every rejection is a `DeviceIdNotUnique` at an earliest repeating position. */
  lemma DuplicateIdCheckErrIsEarliest(audio: AudioServerConfig, midi: Option<MidiServerConfig>)
    ensures var r := DuplicateIdCheck(audio, midi);
      r.Err? ==> (r.error.DeviceIdNotUnique? &&
        exists k :: IsFirstRepeatAt(AllIds(audio), k) && AllIds(audio)[k] == r.error.id)
  {
    FirstRepeatSome(AllIds(audio));
  }

  /** A repeat among the inputs is reported whatever the outputs are. */
  lemma InputRepeatReportedFirst(audio: AudioServerConfig, midi: Option<MidiServerConfig>, x: string)
    requires FirstRepeat(Ids(audio.useInDevices)) == Some(x)
    ensures DuplicateIdCheck(audio, midi) == Err(DeviceIdNotUnique(x))
  {
    FirstRepeatOfPrefix(Ids(audio.useInDevices), Ids(audio.useOutDevices));
  }

  /** With distinct inputs and distinct outputs sharing exactly one id, that id is reported. */
  lemma SharedIdReported(audio: AudioServerConfig, midi: Option<MidiServerConfig>, x: string)
    requires AllDistinct(Ids(audio.useInDevices)) && AllDistinct(Ids(audio.useOutDevices))
    requires x in Ids(audio.useInDevices) && x in Ids(audio.useOutDevices)
    requires forall y :: y in Ids(audio.useInDevices) && y in Ids(audio.useOutDevices) ==> y == x
    ensures DuplicateIdCheck(audio, midi) == Err(DeviceIdNotUnique(x))
  {
    FirstRepeatOfSharedElement(Ids(audio.useInDevices), Ids(audio.useOutDevices), x);
  }

  /** The scenario of one input and one output both named "a". */
  lemma SameIdInAndOutRejected(midi: Option<MidiServerConfig>)
    ensures DuplicateIdCheck(
      AudioServerConfig(JACK, [AudioDeviceConfig("a", ["X"])], [AudioDeviceConfig("a", ["Y"])]),
      midi) == Err(DeviceIdNotUnique("a"))
  {
    var audio := AudioServerConfig(JACK, [AudioDeviceConfig("a", ["X"])], [AudioDeviceConfig("a", ["Y"])]);
    assert Ids(audio.useInDevices) == ["a"] && Ids(audio.useOutDevices) == ["a"];
    SharedIdReported(audio, midi, "a");
  }

  /** The MIDI configuration never changes the verdict, and an empty audio configuration passes. */
  lemma DuplicateIdCheckIgnoresMidi(audio: AudioServerConfig, m1: Option<MidiServerConfig>, m2: Option<MidiServerConfig>)
    ensures DuplicateIdCheck(audio, m1) == DuplicateIdCheck(audio, m2)
    ensures audio.useInDevices == [] && audio.useOutDevices == [] ==> DuplicateIdCheck(audio, m1) == Ok(())
  {
  }

  /** The MIDI input ports handed to the backend: none when there is no MIDI configuration. */
  function MidiInDevices(midi: Option<MidiServerConfig>): seq<MidiDeviceConfig> {
    match midi
    case Some(m) => m.useInDevices
    case None => []
  }

  /** The MIDI output ports handed to the backend: none when there is no MIDI configuration. */
  function MidiOutDevices(midi: Option<MidiServerConfig>): seq<MidiDeviceConfig> {
    match midi
    case Some(m) => m.useOutDevices
    case None => []
  }

  /**
   * Validates the configuration, then dispatches on the server name: "Jack"
   * goes to the Jack backend, every other name is unavailable.
   */
  function SpawnRtThread<P, E, S, H>(
    audio: AudioServerConfig,
    midi: Option<MidiServerConfig>,
    useClientName: Option<string>,
    processHandler: P,
    errorCallback: E,
    jack: JackSpawnRequest<P, E> -> Result<(S, H)>
  ): (r: Result<StreamHandle<S, H>>)
    ensures r.Ok? ==> audio.serverName == JACK && r.value.jackServerHandle.Some?
    ensures audio.serverName != JACK ==>
      r.Err? && (r.error.DeviceIdNotUnique? || r.error == AudioServerUnavailable(audio.serverName))
  {
    var _ :- DuplicateIdCheck(audio, midi);
    if audio.serverName == JACK then
      var reply :- jack(JackSpawnRequest(
        audio.useInDevices, audio.useOutDevices,
        MidiInDevices(midi), MidiOutDevices(midi),
        processHandler, errorCallback, useClientName));
      Ok(StreamHandle(reply.0, Some(reply.1)))
    else
      Err(AudioServerUnavailable(audio.serverName))
  }

  /** A configuration with a repeated id is rejected with the earliest repeat, whatever the backend. */
  lemma SpawnRejectsDuplicateIds<P, E, S, H>(
    audio: AudioServerConfig, midi: Option<MidiServerConfig>, useClientName: Option<string>,
    processHandler: P, errorCallback: E, jack: JackSpawnRequest<P, E> -> Result<(S, H)>, k: int)
    requires IsFirstRepeatAt(AllIds(audio), k)
    ensures SpawnRtThread(audio, midi, useClientName, processHandler, errorCallback, jack)
      == Err(DeviceIdNotUnique(AllIds(audio)[k]))
  {
    DuplicateIdCheckReportsEarliest(audio, midi, k);
  }

  /** A valid configuration naming any server but "Jack" fails with that very name. */
  lemma SpawnUnknownServer<P, E, S, H>(
    audio: AudioServerConfig, midi: Option<MidiServerConfig>, useClientName: Option<string>,
    processHandler: P, errorCallback: E, jack: JackSpawnRequest<P, E> -> Result<(S, H)>)
    requires AllDistinct(AllIds(audio)) && audio.serverName != JACK
    ensures SpawnRtThread(audio, midi, useClientName, processHandler, errorCallback, jack)
      == Err(AudioServerUnavailable(audio.serverName))
  {
    DuplicateIdCheckOkIff(audio, midi);
  }

  /**
   * A valid "Jack" configuration reaches the backend with the audio device
   * lists, the MIDI lists (empty without a MIDI configuration), the handlers
   * and the client name; a backend error comes back unchanged, and a backend
   * success becomes a handle holding the backend's stream info and thread.
   */
  lemma SpawnReachesJack<P, E, S, H>(
    audio: AudioServerConfig, midi: Option<MidiServerConfig>, useClientName: Option<string>,
    processHandler: P, errorCallback: E, jack: JackSpawnRequest<P, E> -> Result<(S, H)>)
    requires AllDistinct(AllIds(audio)) && audio.serverName == JACK
    ensures
      var request := JackSpawnRequest(
        audio.useInDevices, audio.useOutDevices,
        if midi.Some? then midi.value.useInDevices else [],
        if midi.Some? then midi.value.useOutDevices else [],
        processHandler, errorCallback, useClientName);
      var r := SpawnRtThread(audio, midi, useClientName, processHandler, errorCallback, jack);
      match jack(request)
      case Err(e) => r == Err(e)
      case Ok(reply) =>
        r.Ok? && r.value.StreamInfo() == reply.0 && r.value.jackServerHandle == Some(reply.1)
  {
    DuplicateIdCheckOkIff(audio, midi);
  }

  /** A handle is returned only for distinct ids, the "Jack" server and a backend success. */
  lemma SpawnOkOnlyViaJack<P, E, S, H>(
    audio: AudioServerConfig, midi: Option<MidiServerConfig>, useClientName: Option<string>,
    processHandler: P, errorCallback: E, jack: JackSpawnRequest<P, E> -> Result<(S, H)>)
    ensures SpawnRtThread(audio, midi, useClientName, processHandler, errorCallback, jack).Ok? ==>
      AllDistinct(AllIds(audio)) && audio.serverName == JACK &&
      jack(JackSpawnRequest(
        audio.useInDevices, audio.useOutDevices, MidiInDevices(midi), MidiOutDevices(midi),
        processHandler, errorCallback, useClientName)).Ok?
  {
    DuplicateIdCheckOkIff(audio, midi);
  }

  /**
   * When validation fails or the server is not "Jack", the backend plays no
   * part: any two backends give the same result.
   */
  lemma SpawnErrorPathsIgnoreBackend<P, E, S, H>(
    audio: AudioServerConfig, midi: Option<MidiServerConfig>, useClientName: Option<string>,
    processHandler: P, errorCallback: E,
    jack1: JackSpawnRequest<P, E> -> Result<(S, H)>, jack2: JackSpawnRequest<P, E> -> Result<(S, H)>)
    requires !AllDistinct(AllIds(audio)) || audio.serverName != JACK
    ensures SpawnRtThread(audio, midi, useClientName, processHandler, errorCallback, jack1)
      == SpawnRtThread(audio, midi, useClientName, processHandler, errorCallback, jack2)
    ensures SpawnRtThread(audio, midi, useClientName, processHandler, errorCallback, jack1).Err?
  {
    DuplicateIdCheckOkIff(audio, midi);
  }

  /** The scenario of an unknown backend name with no devices. */
  lemma UnknownServerScenario<P, E, S, H>(
    processHandler: P, errorCallback: E, jack: JackSpawnRequest<P, E> -> Result<(S, H)>)
    ensures SpawnRtThread(AudioServerConfig("Unknown", [], []), None, None,
      processHandler, errorCallback, jack) == Err(AudioServerUnavailable("Unknown"))
  {
  }
}
