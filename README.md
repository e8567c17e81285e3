# rainout: Linux platform layer, modelled in Dafny

This project models the Linux platform layer of rainout, a cross-platform
realtime audio/MIDI I/O abstraction. That layer does three things:

- It validates a requested configuration. `check_duplicate_ids` requires every
  logical device id to be unique across the audio inputs followed by the audio
  outputs.
- It dispatches `spawn_rt_thread` on the server name. `"Jack"` goes to the Jack
  backend. Any other name is unavailable.
- It keeps a fixed directory (`DeviceInfo`) that holds exactly one audio server
  entry, created with the name `"Jack"`.

Files:

- `types.dfy` (module `Types`): the configuration records, the directory entry,
  `SpawnRtThreadError`, and a `Result` that works with `:-` the way Rust's `?`
  does.
- `repeats.dfy` (module `Repeats`): the specification function `FirstRepeat`.
  It gives the element at the earliest position whose value already occurred
  earlier. The module also holds its characterisation lemmas.
- `linux.dfy` (module `Linux`): the validator as a method with two loops and a
  growing set, proved equal to the pure `DuplicateIdCheck`. It also holds the
  dispatcher `SpawnRtThread`, the `StreamHandle` record, the `DeviceInfo`
  class, and the lemmas about them.

The Jack backend is foreign code, so it is a parameter:

- Its `spawn_rt_thread` is a total function `jack` from a `JackSpawnRequest` to
  `Result<(S, H)>`.
- Its `refresh_audio_server` is a function `refresh` from the old directory
  entry to the new one.

The stream info `S`, the Jack thread handle `H`, the process handler `P` and the
error callback `E` pass through this layer untouched, so they are type
parameters. (`StreamInfo` has no fields yet in `src/run.rs:47-50`.) Because the
dispatcher is a pure function, "the backend is not invoked" is stated as "the
result does not depend on `jack`".

`check_duplicate_ids` never reads `midi_config`, so MIDI ids are not checked
for uniqueness. `DuplicateIdCheck` takes the MIDI argument and ignores it.

## Model

| member | source | states |
|---|---|---|
| `Linux.CheckDuplicateIds` | src/linux/mod.rs:134-152 | The loop over inputs and then outputs, with a growing id set, returns exactly `DuplicateIdCheck(audio, midi)`. It returns `Ok` iff all audio ids are distinct. On error it names the id at an earliest repeating position. |
| `Repeats.DistinctSnoc` | src/linux/mod.rs:141 | Adding one id to a set of distinct seen ids succeeds (stays distinct) exactly when the id is new. |
| `Repeats.FirstRepeatNoneIff` | src/linux/mod.rs:138-151 | `FirstRepeat(s)` is `None` iff no element of `s` occurs twice. |
| `Repeats.FirstRepeatSome` | src/linux/mod.rs:140-149 | A reported element sits at some position `k` where `s[k]` occurs in `s[..k]` and `s[..k]` has no repeat. |
| `Repeats.FirstRepeatAt` | src/linux/mod.rs:140-149 | Conversely, if `k` is such an earliest repeating position, `FirstRepeat(s)` is `Some(s[k])`. |
| `Repeats.FirstRepeatOfPrefix` | src/linux/mod.rs:140-144 | A repeat inside a prefix is the repeat of the whole sequence, whatever follows it. |
| `Repeats.FirstRepeatOfSharedElement` | src/linux/mod.rs:145-148 | For two distinct sequences sharing exactly one element `x`, the first repeat of their concatenation is `x`. |
| `Linux.DuplicateIdCheck` | src/linux/mod.rs:134-152 | The pure counterpart of `check_duplicate_ids`: `Ok` when `FirstRepeat` of inputs-then-outputs ids is `None`, else `DeviceIdNotUnique` of that repeat. Its contract says every error is a `DeviceIdNotUnique` and empty device lists pass; the lemmas below characterise it fully. |
| `Linux.DuplicateIdCheckOkIff` | src/linux/mod.rs:138-151 | The validator returns `Ok` iff the inputs' ids followed by the outputs' ids are all distinct. |
| `Linux.DuplicateIdCheckReportsEarliest` | src/linux/mod.rs:140-149 | If `k` is the earliest repeating position of inputs-then-outputs, the result is `DeviceIdNotUnique` of the id at `k`. |
| `Linux.DuplicateIdCheckErrIsEarliest` | src/linux/mod.rs:140-149 | Every rejection is a `DeviceIdNotUnique` whose id is at an earliest repeating position. |
| `Linux.InputRepeatReportedFirst` | src/linux/mod.rs:140-144 | If the inputs alone repeat an id, that input repeat is reported, whatever the outputs are. |
| `Linux.SharedIdReported` | src/linux/mod.rs:145-148 | Inputs and outputs that are each distinct and share exactly one id `x` are rejected with `DeviceIdNotUnique(x)`. |
| `Linux.SameIdInAndOutRejected` | src/linux/mod.rs:145-148 | Input `a` plus output `a` gives `DeviceIdNotUnique("a")`. |
| `Linux.DuplicateIdCheckIgnoresMidi` | src/linux/mod.rs:134-152 | The verdict is the same for any MIDI configuration. Empty input and output lists pass. |
| `Linux.MidiInDevices` | src/linux/mod.rs:111-113 | The MIDI input list handed to the backend: the configuration's inputs, or the empty list when there is no MIDI configuration (stated about the spawn in `SpawnReachesJack`). |
| `Linux.MidiOutDevices` | src/linux/mod.rs:114-116 | The MIDI output list handed to the backend: the configuration's outputs, or the empty list when there is no MIDI configuration (stated about the spawn in `SpawnReachesJack`). |
| `Linux.SpawnRtThread` | src/linux/mod.rs:94-132 | Validate with `?`, then match the server name: `"Jack"` calls the backend and wraps its reply in a handle, any other name is `AudioServerUnavailable`. Its contract: a success implies the `"Jack"` server and a stored thread handle; a name other than `"Jack"` always fails, either with a duplicate id or with `AudioServerUnavailable` of that name. |
| `Linux.StreamHandle.StreamInfo` | src/linux/mod.rs:20-22 | The accessor returns the stream info stored in the handle; `SpawnReachesJack` proves it is the backend's stream info. |
| `Linux.SpawnRejectsDuplicateIds` | src/linux/mod.rs:104 | A configuration with an earliest repeat at `k` makes the spawn fail with the validator's `DeviceIdNotUnique` of that id, for every backend. |
| `Linux.SpawnUnknownServer` | src/linux/mod.rs:127-130 | After validation passes, any server name other than `"Jack"` gives `AudioServerUnavailable` carrying the identical name. |
| `Linux.SpawnReachesJack` | src/linux/mod.rs:107-125 | On the `"Jack"` path the backend gets the audio lists, the MIDI lists (empty when there is no MIDI configuration), the handlers and the client name. Its error is returned unchanged. On success the handle's `StreamInfo()` is the backend's stream info and its thread handle is `Some` of the backend's handle. |
| `Linux.SpawnOkOnlyViaJack` | src/linux/mod.rs:104-131 | A handle comes back only if the ids are distinct, the server is `"Jack"`, and the backend succeeded. |
| `Linux.SpawnErrorPathsIgnoreBackend` | src/linux/mod.rs:104-130 | When validation fails or the name is not `"Jack"`, the result is an error and it is the same for any two backends. |
| `Linux.UnknownServerScenario` | src/linux/mod.rs:127-130 | Server `"Unknown"` with no devices gives `AudioServerUnavailable("Unknown")`. |
| `Linux.DeviceInfo.constructor` | src/linux/mod.rs:30-41 | The directory is created with one entry `("Jack", no version)` and then refreshed by the backend. It holds exactly `[refresh(that entry)]`. |
| `Linux.DeviceInfo.RefreshAudioServers` | src/linux/mod.rs:43-46 | The backend rewrites entry 0 in place. The directory keeps exactly one entry. |
| `Linux.DeviceInfo.AudioServerInfos` | src/linux/mod.rs:55-57 | The directory as a slice has exactly one entry: the stored one. |

## Left out

- `src/run.rs` is not modelled. Every function in it delegates in one line to the platform layer, and `ProcessHandler` and `ErrorHandler` are interfaces without bodies.
- The Jack backend's internals (`jack_backend::spawn_rt_thread` and `refresh_audio_server`) are not modelled. They are native client and port registration and realtime thread creation, and they appear here only as the parameters `jack` and `refresh`.
- Side effects of the backend are not modelled. "Not invoked" is stated as "the result does not depend on the backend".
- The realtime thread's lifecycle is not modelled: drop-based teardown, live reconfiguration, and the ordering between `init`, `process` and the error callbacks. These are concurrency, and this layer does not implement them.
- The commented-out `refresh_midi_servers`, `midi_server_info` and `estimated_latency` (src/linux/mod.rs:48-53, 59-91) are dead code.
- Linux.DeviceInfo.RefreshAudioServers: says nothing about the refreshed entry's contents, which the backend decides. It states only that the new entry is `refresh` of the old one and that there is still exactly one entry.
- Device selections and `AudioServerInfo` hold only the fields this layer reads or builds. `AudioDeviceConfig.systemPorts` and `MidiDeviceConfig.systemPort` are placeholders for the physical binding.
- `SpawnRtThreadError` has only the variants this layer builds plus `PlatformSpecific`, which this layer never builds: it stands for whatever error the Jack backend returns, whose real variants are not part of this model.
