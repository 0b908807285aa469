# zenoh-sandbox backend core, modelled in Dafny

zenoh-sandbox is a desktop application for starting local zenoh nodes
("runtimes") and watching them. Its native Rust backend keeps a registry of
the running runtimes, hands each one a port for zenoh's remote-API plugin,
stores captured log lines in a bounded buffer that the UI reads page by page,
and converts the configuration and log-level types it shares with the UI.
This project models those parts as sequential Dafny and proves what they
promise.

- `prelude.dfy` (`Prelude`): Rust's `Option`/`Result` and the `u8`, `u16`
  and `u64` ranges.
- `ts_log.dfy` (`TsLog`): `LogEntryLevel`, its `u8` discriminants, its
  bijection with tracing's `Level`, the string fallback and the ordering.
  tracing's `Level` is modelled the way tracing stores and compares it:
  TRACE is stored as 0 and ERROR as 4, and the comparison is reversed, so a
  more verbose level is the greater one.
- `ts_config.dfy` (`TsConfig`): a small JSON value type, the `ZenohMode` and
  `WhatAmI` bijection, Rust's `str::trim`, `ZenohConfigEdit::to_config` and
  its default, and `ZenohConfigJson` with `from_json`, `as_json` and
  `get_websocket_port` (which only reads a `u64` number and then cuts it to
  16 bits).
- `logs.dfy` (`Logs`): the shared most-recent-first vector (`LogVec`),
  `LogStorage` (`add_log`, `get_page`, `logs_ref`), `LogCaptureLayer::on_event`
  and the `MessageVisitor` that removes one pair of surrounding quotes.
- `runtimes.dfy` (`Runtimes`): the `ZenohRuntimes` class with its runtime map
  and port-tracker set. It models `allocate_port` (lowest untracked port from
  10000 up), `release_port`, and the registry part of start, stop, list and
  the configuration lookup. It also models `create_zenoh_config`.

The class invariant `ZenohRuntimes.Valid` says that each registered runtime
holds a tracked port of its own. The tracker may hold more ports than the
registered runtimes use. `zenoh_runtime_start` allocates its port before the
later steps that can fail, and none of its error returns releases that port. The
model keeps this behaviour: `Start` with a `FailedAfterAllocation` outcome
leaves one more port reserved and no new runtime registered. The scan in
`allocate_port` counts up in a `u16`, so it overflows when every port from
10000 to 65535 is taken. `AllocatePort` and `FirstFreePort` therefore require
a free port.

`lib.rs` and `logs.rs` come from different revisions of the backend. `lib.rs` calls
`add_log(zid, entry)`, `get_page(&zid, page)` and `clear_logs`, but
`logs.rs` has one global buffer with `add_log(entry)` and `get_page(page)`.
`logs.rs` is modelled as written.

Foreign behaviour enters as parameters. `TsConfig.Serde` holds zenoh's
default `Config`, serde's `from_str`, `to_value` and `from_value`. `FromStr`
takes tracing's `Level::from_str` as a function. `Start` takes the result of
the process and socket steps as a `StartOutcome`. `RecordDebug` takes the
`Debug` text of the field value. Ids, timestamps and zenoh's `Config` are
opaque types.

## Model

| member | source | states |
|---|---|---|
| `TsLog.DefaultLevel` | src-tauri/src/ts/log.rs:13-14 | the default level is the one with discriminant 2, INFO |
| `TsLog.ToU8` | src-tauri/src/ts/log.rs:19-23 | a level converts to a byte below 5 |
| `TsLog.TryFromU8` | src-tauri/src/ts/log.rs:25-37 | a byte converts to a level exactly when it is below 5; otherwise the error carries the byte |
| `TsLog.U8RoundTrip` | src-tauri/src/ts/log.rs:19-37 | `try_from(u8::from(l)) == Ok(l)` for every level |
| `TsLog.TryFromU8Inverse` | src-tauri/src/ts/log.rs:25-37 | every byte up to 4 decodes to the level whose discriminant it is; every byte from 5 up is rejected |
| `TsLog.DiscriminantValues` | src-tauri/src/ts/log.rs:10-16 | TRACE, DEBUG, INFO, WARN, ERROR are 0, 1, 2, 3, 4 |
| `TsLog.LevelRoundTrip` | src-tauri/src/ts/log.rs:45-67 | `LogEntryLevel` to `Level` and back is the identity, in both directions |
| `TsLog.ToLevelKeepsName` | src-tauri/src/ts/log.rs:57-67 | each level maps to the tracing level of the same name |
| `TsLog.FromLevel` | src-tauri/src/ts/log.rs:45-55 | a tracing level becomes the level whose discriminant is tracing's stored number for it |
| `TsLog.ToLevel` | src-tauri/src/ts/log.rs:57-67 | a level becomes the tracing level whose stored number is its discriminant |
| `TsLog.FromStr` | src-tauri/src/ts/log.rs:69-73 | a string the parser rejects gives the default level; an accepted one gives the level that maps back to the parsed tracing level |
| `TsLog.FromStrFallback` | src-tauri/src/ts/log.rs:69-73 | a rejected string gives INFO; an accepted one gives the converted parsed level |
| `TsLog.Cmp` | src-tauri/src/ts/log.rs:81-87 | `cmp(a, b)` is Equal exactly when `a == b`, and Less exactly when the discriminant of `b` is below that of `a` |
| `TsLog.CmpEqualIff` | src-tauri/src/ts/log.rs:81-87 | `cmp(a, b)` is Equal exactly when `a == b` |
| `TsLog.CmpReversesDiscriminants` | src-tauri/src/ts/log.rs:81-87 | `cmp(a, b)` is the comparison of the discriminants of `b` and `a`, the reverse of the `u8` order |
| `TsLog.CmpTotalOrder` | src-tauri/src/ts/log.rs:81-87 | the order is antisymmetric and transitive, with TRACE the greatest and ERROR the least level |
| `TsConfig.FromWhatAmI` | src-tauri/src/ts/config.rs:15-23 | a `WhatAmI` becomes the mode with the same (lower-case serialized) name |
| `TsConfig.ToWhatAmI` | src-tauri/src/ts/config.rs:25-33 | a mode becomes the `WhatAmI` with the same name |
| `TsConfig.DefaultMode` | src-tauri/src/ts/config.rs:35-39 | the default mode converts to zenoh's default `WhatAmI` |
| `TsConfig.ModeRoundTrip` | src-tauri/src/ts/config.rs:15-33 | `ZenohMode` to `WhatAmI` and back is the identity, in both directions |
| `TsConfig.TrimStart` | src-tauri/src/ts/config.rs:55 | the leading-whitespace half of `trim`: the result is the suffix of the input from its first non-whitespace character |
| `TsConfig.TrimEnd` | src-tauri/src/ts/config.rs:55 | the trailing-whitespace half of `trim`: the result is the prefix of the input up to its last non-whitespace character |
| `TsConfig.Trim` | src-tauri/src/ts/config.rs:55 | the result is a slice of the input with only whitespace before and after it, and it neither starts nor ends with whitespace |
| `TsConfig.TrimSurrounded` | src-tauri/src/ts/config.rs:55 | `trim` removes exactly the whitespace around a text that does not start or end with whitespace |
| `TsConfig.DefaultEdit` | src-tauri/src/ts/config.rs:71-77 | the default edit trims to `{}` |
| `TsConfig.ToConfig` | src-tauri/src/ts/config.rs:52-61 | content that trims to empty or `{}` gives the default configuration; any other content succeeds exactly when serde parses the untrimmed content, and then gives the parsed configuration |
| `TsConfig.ToConfigBlank` | src-tauri/src/ts/config.rs:55-56 | whitespace-only content gives the default configuration without parsing |
| `TsConfig.ToConfigEmptyObject` | src-tauri/src/ts/config.rs:55-56 | `{}` with any whitespace around it gives the default configuration without parsing |
| `TsConfig.DefaultEditGivesDefaultConfig` | src-tauri/src/ts/config.rs:71-77 | `to_config` on the default edit yields the default configuration |
| `TsConfig.FromJson` | src-tauri/src/ts/config.rs:105-116 | `from_json(j)` fails exactly when zenoh's deserializer rejects `j`, and on success `as_json` returns `j` unchanged |
| `TsConfig.AsJson` | src-tauri/src/ts/config.rs:114-116 | wrapping the returned JSON again gives back the same validated configuration |
| `TsConfig.GetWebsocketPort` | src-tauri/src/ts/config.rs:119-126 | a port is returned exactly when `plugins.remote_api.websocket_port` exists and is a non-negative integer, and it is that integer modulo 65536 |
| `TsConfig.StringPortIsNotRead` | src-tauri/src/ts/config.rs:124 | a `websocket_port` written as the string `"10000"` yields no port |
| `TsConfig.PortIsTruncated` | src-tauri/src/ts/config.rs:125 | `as u16` truncation: 70000 is read as 4464 |
| `TsConfig.MissingPluginsHasNoPort` | src-tauri/src/ts/config.rs:119-124 | a configuration that is not an object or has no `plugins` key yields no port |
| `Logs.InsertFront` | src-tauri/src/logs.rs:56-66 | insert-then-truncate: the length becomes `min(old + 1, max)`, the new entry is first when `max > 0`, and the older entries follow in their order |
| `Logs.InsertFrontDropsOldest` | src-tauri/src/logs.rs:60-65 | on a full buffer the oldest entry is dropped: the result is `[e] + old[..max - 1]` |
| `Logs.InsertFrontBounded` | src-tauri/src/logs.rs:62-65 | a buffer within its bound stays within it, and one below it loses nothing |
| `Logs.Page` | src-tauri/src/logs.rs:70-80 | a page holds at most 100 entries, is empty when `page * 100` is past the end, and is otherwise entries `page * 100` up to `min((page + 1) * 100, len)` |
| `Logs.PagesCoverBuffer` | src-tauri/src/logs.rs:68-80 | reading pages 0, 1, 2, … one after the other gives back the whole buffer |
| `Logs.PageOfIndex` | src-tauri/src/logs.rs:70-80 | entry `i` of the buffer is entry `i % 100` of page `i / 100` |
| `Logs.LogVec.constructor` | src-tauri/src/logs.rs:51 | the shared vector starts empty |
| `Logs.LogStorage.New` | src-tauri/src/logs.rs:48-53 | a new storage has the given bound and an empty, freshly allocated vector |
| `Logs.LogStorage.Default` | src-tauri/src/logs.rs:88-92 | the default storage keeps at most 10 000 entries |
| `Logs.LogStorage.AddLog` | src-tauri/src/logs.rs:56-66 | the vector becomes the insert-then-truncate of the old one, and stays within `max_entries` |
| `Logs.LogStorage.GetPage` | src-tauri/src/logs.rs:70-80 | returns the page of the current vector and changes nothing |
| `Logs.LogStorage.LogsRef` | src-tauri/src/logs.rs:83-85 | returns the storage's own vector, shared and not copied |
| `Logs.LogCaptureLayer.constructor` | src-tauri/src/logs.rs:105-107 | the layer writes into the vector and with the bound it is given |
| `Logs.LogCaptureLayer.OnEvent` | src-tauri/src/logs.rs:114-146 | the shared vector gets the same insert-then-truncate update as `add_log`, with the event's level name, target and message |
| `Logs.StripQuotes` | src-tauri/src/logs.rs:156-159 | a quoted text loses exactly its first and last quote; any other text is unchanged; the lone `"` is excluded because slicing it panics |
| `Logs.StripQuotesOfQuoted` | src-tauri/src/logs.rs:156-159 | quoting a text and then stripping gives back the text |
| `Logs.MessageVisitor.constructor` | src-tauri/src/logs.rs:150 | the visitor starts from the string it borrows |
| `Logs.MessageVisitor.RecordDebug` | src-tauri/src/logs.rs:153-161 | only the field named `message` changes the string, which becomes its Debug text without surrounding quotes |
| `Runtimes.FirstFreePort` | src-tauri/src/lib.rs:88-95 | the scan returns the smallest port from 10000 up that is not tracked, provided one exists |
| `Runtimes.CreateZenohConfig` | src-tauri/src/lib.rs:124-134 | succeeds exactly when conversion, serialization and validation all succeed, and then echoes the edit unchanged with the serialized configuration |
| `Runtimes.CreateDefaultConfig` | src-tauri/src/lib.rs:124-134 | the default edit validates to the serialized default configuration |
| `Runtimes.ZenohRuntimes.constructor` | src-tauri/src/lib.rs:71-84 | a new registry has no runtimes and no tracked ports |
| `Runtimes.ZenohRuntimes.AllocatePort` | src-tauri/src/lib.rs:88-96 | returns the lowest untracked port from 10000 up; the tracker becomes the old one plus that port |
| `Runtimes.ZenohRuntimes.ReleasePort` | src-tauri/src/lib.rs:99-102 | removes exactly the given port, and is a no-op for an untracked one |
| `Runtimes.ZenohRuntimes.Start` | src-tauri/src/lib.rs:186-456 | a conversion failure changes nothing; a later failure leaves one more port reserved and the map unchanged; the reserved or registered port is the lowest untracked one from 10000 up; a success registers the id with the configuration and that port |
| `Runtimes.ZenohRuntimes.Stop` | src-tauri/src/lib.rs:466-479 | an unknown id gives "not found" and changes nothing; a known id is removed and exactly its port is released |
| `Runtimes.ZenohRuntimes.List` | src-tauri/src/lib.rs:512-515 | returns exactly the registered ids, each once |
| `Runtimes.ZenohRuntimes.RuntimeConfig` | src-tauri/src/lib.rs:521-535 | returns the stored configuration unchanged for a registered id, and "not found" otherwise |
| `Runtimes.StartStopCycle` | src-tauri/src/lib.rs:435-479 | a successful start followed by a stop of the same id gives the tracker back as it was and unregisters the id |

## Left out

- Process, socket and file handling in `zenoh_runtime_start` and `zenoh_runtime_stop` (UDS listener, child spawn, log files, timeouts, the receiver task, `rand::random`): I/O and concurrency. Its result is the `StartOutcome` parameter of `Start`.
- The configuration edits of `zenoh_runtime_start` (adminspace, plugin loading, `websocket_port` inserted as a string): they change only zenoh's `Config` sent to the child. Their failures are `FailedAfterAllocation`.
- `TryFrom<ZenohConfigJson> for Config` (`config.try_into()` at the start of `zenoh_runtime_start`): serde behaviour. Its failure is the `ConversionFailed` outcome.
- Locking (`RwLock`, `parking_lot`): every operation is modelled as atomic and sequential.
- Parsing a `ZenohId` from a string and printing it: zenoh behaviour. The registry methods take ids, so the "invalid ZenohId" error paths are not modelled.
- `zenoh_runtime_config_json`, `zenoh_runtime_log`, `validate_config`, `get_default_config_json` and `compute_config_diff`: channel round-trips or delegation to serde and zenoh. `json_diff` is not part of this model.
- `clear_logs` in `zenoh_runtime_stop`: no such function exists in `logs.rs`.
- `Default for ZenohRuntimes` and the directories `ZenohRuntimes::new` creates: environment and file system.
- `ZenohConfigEdit::from_config`: pretty-printing by serde.
- zenoh's `Default for WhatAmI` is taken as `Peer`, zenoh's declared default.
- tracing's `Level::from_str` is a parameter of `FromStr`. The `Debug` text of a field value is a parameter of `RecordDebug`.
- `PartialOrd for LogEntryLevel` is `Some(cmp)` and is represented by `Cmp`.
- `Logs.LogCaptureLayer.OnEvent`: takes the event's level, target and extracted message as arguments; reading the event's metadata, running the visitor over its fields and `Utc::now()` are tracing and clock behaviour.
- `Logs.Page`: `page * LOG_PAGE_SIZE` is unbounded here, so the `usize` overflow for huge page numbers is not modelled.
- `Runtimes.ZenohRuntimes.AllocatePort`: requires a free port from 10000 up; with none, the `u16` counter overflows (a panic in debug builds).
- `Logs.MessageVisitor.RecordDebug`: requires the Debug text of `message` not to be the lone `"`, on which the source's slice panics.
- `bin/zenoh_runtime.rs`, `sandbox.rs` and `protocol.rs` are not part of this model. The visitor in `bin/zenoh_runtime.rs` is a copy of the one in `logs.rs`.
