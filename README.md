# Serial-stream data source, modelled in Dafny

A model of the serial-stream data source of tjet-server
(`src/core/data_sources/base/serial-stream/serial_stream.cpp`). The data source
reads a serial transport, keeps two status flags (`isOnline`, `hasError`) up to
date once per tick, and can mirror the raw stream into a capture file. The model
covers four parts of that file:

- **Option parsing and mode selection.** A string `filename` option turns
  capture on. The `mode` string then selects truncate (`overwrite`) or append
  (`append`, `new`); anything else is an error. An accepted configuration claims
  the configured filename in the process-wide dependency registry.
- **The capture path.** The configured name is home-expanded. In `new` mode the
  source tries `{stem}_{n}{ext}` for n = 0, 1, ... in the same directory until
  a path does not exist. The file is then opened, and a 1000 ms flush timer is
  created when it opens.
- **Teardown.** With capture on, the file is closed if it is open and the flush
  timer is dropped.
- **The connection state machine.** One tick either polls (online, transport
  open), goes offline with an error and closes the transport (online, transport
  closed), waits (offline, reconnect timer not fired) or tries to open the
  transport and re-derives both flags (offline, timer fired).

Files:

- `wrappers.dfy`: `Option` and `Outcome`.
- `paths.dfy`: paths as (directory, stem, extension), the decimal counter, the
  numbered siblings, and the `new`-mode search (`NextFreePath`, a loop) with the
  function that specifies it (`FirstFree`).
- `registry.dfy`: the dependency registry as a class holding a set of claims.
- `connection.dfy`: one tick as a pure function `Step`, runs of ticks, and the
  lemmas about them.
- `data_source.dfy`: the class `SerialStream`. `Configure` is the constructor
  body, `Teardown` the destructor and `Update` the per-tick update. Each is
  stated against the functions above.

Inputs from outside the process are parameters:
- home expansion and path splitting (`resolveRelativePathHome` and
  `fs::path`) form one function `string -> Path`;
- the set of paths that exist on disk is a `set<Path>`;
- whether the file stream opens is a `bool`;
- whether the transport reports open, whether the reconnect timer fired, and
  whether the transport reports open after `open()` are `bool`s.

Each tick returns the transport call it made (`Poll`, `CloseTransport`,
`OpenTransport` or `Wait`).

The member defaults are declared outside `serial_stream.cpp`. The model assumes
the `std::string` defaults (`filename` and `modeString` empty) and starts offline
without error. With the empty default, a missing `mode` is rejected like any
other unknown mode.

The registry's claim and release are implemented outside `serial_stream.cpp`.
The model assumes a claim is never released, including when the constructor
throws after the claim at `serial_stream.cpp:23` (a failed open at :42–45).

The data source keeps its connection state in two flags. The model keeps the
two flags and proves that they are never both set (`RunStaysConsistent`). That
proof rests on reading `isOpen()` once for both assignments at :73–74; two
reads that disagreed would leave the source online and in error.

## Model

| member | source | states |
|---|---|---|
| `Paths.Decimal` | src/core/data_sources/base/serial-stream/serial_stream.cpp:35 | The counter's text is non-empty, made of decimal digits only, and has no leading zero unless the counter is 0 (with `DecimalRoundTrip`, it is the canonical decimal form) |
| `Paths.DecimalRoundTrip` | src/core/data_sources/base/serial-stream/serial_stream.cpp:35 | Reading the decimal text of a counter back gives the counter, so distinct counters give distinct texts |
| `Paths.NumberedInjective` | src/core/data_sources/base/serial-stream/serial_stream.cpp:35-37 | Two counters that give the same sibling path `{stem}_{n}{ext}` are equal |
| `Paths.ExistingBound` | src/core/data_sources/base/serial-stream/serial_stream.cpp:34-38 | If siblings 0..m-1 all exist then at least m paths exist, so the do-while search ends whenever the set of existing paths is finite |
| `Paths.FirstFreeFrom` | src/core/data_sources/base/serial-stream/serial_stream.cpp:34-38 | Searching upward from a counter below which every sibling exists yields a counter at least as large, whose sibling is missing and below which every sibling exists |
| `Paths.FirstFree` | src/core/data_sources/base/serial-stream/serial_stream.cpp:32-38 | The search from counter 0 yields the smallest n whose sibling does not exist |
| `Paths.FirstFreeUnique` | src/core/data_sources/base/serial-stream/serial_stream.cpp:32-38 | There is only one smallest free counter |
| `Paths.NextFreePath` | src/core/data_sources/base/serial-stream/serial_stream.cpp:32-39 | The do-while loop with the post-incremented counter returns the sibling of the smallest free counter: a path that does not exist, in the same directory, with the same extension |
| `Paths.ThirdSiblingExample` | src/core/data_sources/base/serial-stream/serial_stream.cpp:32-39 | With `foo.txt`, `foo_0.txt` and `foo_1.txt` present, the search picks `foo_2.txt` |
| `Registry.DependencyRegistry.AssertDependency` | src/core/data_sources/base/serial-stream/serial_stream.cpp:23 | A claim succeeds exactly when the (kind, key) pair was not held before; afterwards it is held and no other claim changed |
| `Connection.Step` | src/core/data_sources/base/serial-stream/serial_stream.cpp:58-75 | A poll happens iff online and the transport reports open; a close iff online and the transport reports closed; an open attempt iff offline and the timer fired; otherwise nothing changes; after any transport call `hasError == !isOnline`, and the source is online iff it polled or its open attempt succeeded |
| `Connection.RunStaysConsistent` | src/core/data_sources/base/serial-stream/serial_stream.cpp:58-75 | Any number of ticks from a state that is not both online and in error never reaches one that is |
| `Connection.InitialRunsConsistent` | src/core/data_sources/base/serial-stream/serial_stream.cpp:58-75 | From the initial offline, error-free state, no run of ticks is ever both online and in error |
| `Connection.OfflineWaitsForTimer` | src/core/data_sources/base/serial-stream/serial_stream.cpp:68-75 | While offline and the reconnect timer does not fire, ticks leave both flags as they were and make no transport call |
| `Connection.TransportCallsGated` | src/core/data_sources/base/serial-stream/serial_stream.cpp:58-75 | In any run, an open attempt happens only on a tick whose timer fired, and a poll only on a tick whose transport reported open |
| `DataSource.ModeFor` | src/core/data_sources/base/serial-stream/serial_stream.cpp:13-22 | A mode is accepted iff it is `overwrite`, `append` or `new`, and it is truncate iff it is `overwrite` (so `append` and `new` both append) |
| `DataSource.ResolveTarget` | src/core/data_sources/base/serial-stream/serial_stream.cpp:28-40 | Outside `new` mode the capture path is the home-expanded configured path; in `new` mode it is a path that does not exist, in the same directory with the same extension, numbered with the smallest free counter |
| `DataSource.SerialStream.Configure` | src/core/data_sources/base/serial-stream/serial_stream.cpp:5-50 | Capture is on iff `filename` is a string. When capture is off, mode is ignored and nothing is claimed or opened. A rejected mode fails before any claim. An accepted mode claims the configured, unresolved filename. A filename that is already claimed fails. Otherwise the file opens at the resolved path, and the flush timer of period 1000 exists iff the open succeeded; a failed open is an error naming the file |
| `DataSource.SerialStream.Teardown` | src/core/data_sources/base/serial-stream/serial_stream.cpp:51-56 | With capture on, the file ends closed and the timer absent, and a close happens only if the file was open; with capture off nothing changes |
| `DataSource.TeardownTwice` | src/core/data_sources/base/serial-stream/serial_stream.cpp:51-56 | A second teardown closes nothing |
| `DataSource.SerialStream.Update` | src/core/data_sources/base/serial-stream/serial_stream.cpp:58-75 | The flags and the transport call of one tick are those `Step` gives; the capture state is untouched |
| `DataSource.SameFilenameTwice` | src/core/data_sources/base/serial-stream/serial_stream.cpp:23 | A second data source with the same capture filename is refused with a shared-filename error unless the mode itself is invalid (then both are refused for the mode) |

## Left out

- The serial transport's I/O (`pollBlocking`, `open`, `close`): a tick only reports which of these it calls. `isOpen()` is read twice at :73–74; the model takes one value for both reads.
- The file stream's contents, writes and flushing: only whether the file is open and whether the flush timer exists are modelled.
- The timers' clocks: whether the reconnect timer fired is an input of a tick.
- Logging (:44, :47) and the text of the exception messages: errors carry only the offending value.
- `resolveRelativePathHome` and the splitting done by `fs::path` are not part of this model. They form one function parameter, and paths are compared as (directory, stem, extension) records rather than as strings.
- The race between `fs::exists` and the later open, when another process creates the file in between.
- Releasing a registry claim: the model never releases a claim.
- DataSource.SameFilenameTwice: assumes the first source's claim outlives a construction that fails at the open (:42–45); if the registry released claims when a constructor throws, the second source would not be refused after such a failure.
- DataSource.SerialStream.Configure: assumes, likewise, that the claim stays in the registry after a failed open.
- Paths.NextFreePath: `fs::exists` at :38 can throw a filesystem error (for example for an unreadable parent directory); the model's existence test is a total membership test and has no such error path.
- Paths.NextFreePath: the counter is unbounded; the source's `int` counter would overflow after 2^31 - 1 siblings.
