/**
 * Types shared by the Linux platform layer: the configuration records the
 * caller hands to `spawn_rt_thread`, the directory entry for an audio
 * server, and the error type of a failed spawn.
 */
module Types {

  datatype Option<+T> = None | Some(value: T)

  /** The ways `spawn_rt_thread` can fail. */
  datatype SpawnRtThreadError =
    | DeviceIdNotUnique(id: string)
    | AudioServerUnavailable(name: string)
      /** A failure reported by the backend itself (device busy, server unreachable, ...). */
    | PlatformSpecific(message: string)

  /** A result whose error side is always a `SpawnRtThreadError`; usable with `:-` like Rust's `?`. */
  datatype Result<+T> = Ok(value: T) | Err(error: SpawnRtThreadError) {
    predicate IsFailure() {
      Err?
    }

    function PropagateFailure<U>(): Result<U>
      requires Err?
    {
      Err(error)
    }

    function Extract(): T
      requires Ok?
    {
      value
    }
  }

  /** One audio device selection: a caller-chosen logical id and the system ports it binds. */
  datatype AudioDeviceConfig = AudioDeviceConfig(id: string, systemPorts: seq<string>)

  /** The audio part of a configuration: which server to use and the ordered device selections. */
  datatype AudioServerConfig = AudioServerConfig(
    serverName: string,
    useInDevices: seq<AudioDeviceConfig>,
    useOutDevices: seq<AudioDeviceConfig>)

  /** One MIDI device selection: a logical id and the system port it binds. */
  datatype MidiDeviceConfig = MidiDeviceConfig(id: string, systemPort: string)

  /** The optional MIDI part of a configuration. */
  datatype MidiServerConfig = MidiServerConfig(
    serverName: string,
    useInDevices: seq<MidiDeviceConfig>,
    useOutDevices: seq<MidiDeviceConfig>)

  /** A directory entry describing one audio server. */
  datatype AudioServerInfo = AudioServerInfo(name: string, version: Option<string>)
}
