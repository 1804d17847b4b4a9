# gitevents: simulated change source and volatile workspace storage

gitevents polls git sources on a schedule and fans every detected change out
to registered handlers. This project models the two sequential components of
its SDK crate:

- `GitSimulated` (module `Simulated`, file `simulated.dfy`): a git provider
  whose events are seeded in memory. `insert` pushes an event onto the end of
  its list, and `listen` pops from the end. Events therefore come back
  last-in-first-out, and a drained provider reports `None` forever. `GitEvent`
  is an empty struct, so the model takes the event type as a type parameter
  `E`. The list is a `seq<E>` field that `Insert` and `Listen` reassign.
- `VolatileStorage` (module `Volatile`, file `volatile.dfy`): the workspace
  allocator. It owns a root directory `<temp>/gitevents/storage/<uuid>` and a
  registry `paths` of the workspaces allocated beneath it. A path is a
  `seq<string>` of components. The temporary directory, the UUIDs and the
  outcome of creating a directory on disk are parameters of the model.
  `IoOutcome` is either `Created` or `IoFailed(reason)`.

Both classes are specified by pure functions: `Pop` for one `listen`, and
`AllocateStep` for one `allocate`. The methods are proved against those
functions, and the lemmas state what the functions promise over many calls:
`Drain`/`DrainOrder` cover repeated listens, `Replay` covers repeated
allocations. `wrappers.dfy` holds `Option` and `Result`. Rust's
`eyre::Result` is reduced to an error message.

The source's `dir.push("gitevents/storage")` pushes one relative path that
contains a separator. The model writes it as the two components `gitevents`
and `storage`, because that is what `PathBuf::push` yields on Unix.

## Model

| member | source | states |
|---|---|---|
| `Simulated.Pop` | crates/gitevents_sdk/src/git/simulated.rs:25 | `Vec::pop` on the event list reports no event exactly when the list is empty, and then leaves the list unchanged. Otherwise it reports the last event and leaves the list that, with that event pushed back, is the old list. |
| `Simulated.Drain` | crates/gitevents_sdk/src/git/simulated.rs:24-26 | `k` successive listens produce exactly `k` reports. |
| `Simulated.DrainEmpty` | crates/gitevents_sdk/src/git/simulated.rs:25 | Once the provider is empty, every further listen reports `None`, so listening when drained is idempotent. |
| `Simulated.DrainOrder` | crates/gitevents_sdk/src/git/simulated.rs:16-26 | Take a provider holding `e1..en` and listen `k >= n` times. Report `i` is the `(n-i)`-th event, from `en` back to `e1`, and every report after the `n`-th is `None`. |
| `Simulated.GitSimulated.constructor` | crates/gitevents_sdk/src/git/simulated.rs:10-14 | A new provider holds no events. |
| `Simulated.GitSimulated.Insert` | crates/gitevents_sdk/src/git/simulated.rs:16-19 | The event list becomes the old list with `value` appended: its length grows by one and earlier events are unchanged. |
| `Simulated.GitSimulated.Listen` | crates/gitevents_sdk/src/git/simulated.rs:24-26 | Always returns `Ok`. The reported event and the new list are those of `Pop` on the old list: LIFO removal of exactly the reported event, and no change when empty. |
| `Simulated.ListenAfterTwoInserts` | crates/gitevents_sdk/src/git/simulated.rs:10-26 | On a new provider, inserting `first` and then `second` makes three listens report `second`, then `first`, then `None`. |
| `Volatile.StorageRoot` | crates/gitevents_sdk/src/storage/volatile.rs:13-16 | The storage root extends the temporary directory by three components, the last one the storage's fresh id. |
| `Volatile.AllocateStep` | crates/gitevents_sdk/src/storage/volatile.rs:36-47 | One `allocate` succeeds exactly when directory creation succeeds. On success it returns the entry named by the fresh id directly inside `dir`, and the registry becomes the old one with that path appended. On failure it returns the creation error and leaves the registry unchanged. |
| `Volatile.Replay` | crates/gitevents_sdk/src/storage/volatile.rs:36-47 | Over any sequence of allocations, the registry is append-only. The old entries stay as they were, as a prefix. Exactly one entry, `dir/<id>`, is added per successful call, in call order. Failed calls add nothing. |
| `Volatile.DistinctPathsDistinctNames` | crates/gitevents_sdk/src/storage/volatile.rs:37-39 | For entries directly inside the root, two registered paths are equal exactly when their names (the UUIDs) are equal. |
| `Volatile.AllocateKeepsDistinct` | crates/gitevents_sdk/src/storage/volatile.rs:37-42 | An allocation whose id is not yet registered keeps every entry inside the root and keeps the registry free of duplicates. |
| `Volatile.VolatileStorage.constructor` | crates/gitevents_sdk/src/storage/volatile.rs:12-25 | The root is `<tempDir>/gitevents/storage/<storageId>` and the registry starts empty. |
| `Volatile.VolatileStorage.Allocate` | crates/gitevents_sdk/src/storage/volatile.rs:36-47 | The result and the new registry are those of `AllocateStep`. `dir` never changes, because the method works on a copy. A failed creation leaves `paths` untouched. Every entry stays directly inside `dir`. |
| `Volatile.AllocateOnFreshStorage` | crates/gitevents_sdk/src/storage/volatile.rs:70-74 | Allocate once on a new storage. The registry then holds exactly one entry: the returned path `<tempDir>/gitevents/storage/<storageId>/<newId>`. |

## Left out

- `create_dir_all` at volatile.rs:41 becomes the `IoOutcome` parameter of `Allocate`. The one at volatile.rs:19 is taken to succeed (see the next line). `remove_dir_all` in `Drop` (volatile.rs:28-33) is not modelled. `temp_dir()` and `Uuid::new_v4()` become parameters.
- `Volatile.VolatileStorage.constructor`: a failure to create the root directory panics in the source (`unwrap` at volatile.rs:19). The model always constructs, because a panic leaves no state to describe.
- `Volatile.AllocateKeepsDistinct`: the source relies on UUID v4 ids being fresh. The model takes freshness as a precondition and does not prove it.
- Tracing output (volatile.rs:18, :30, :44) is not modelled.
- `GitSimulated::insert` takes and returns the provider by value for builder-style chaining. The model mutates the provider in place, which has the same effect on the event list.
- `listen` is async in the source. The model is sequential, because the scheduler serialises each provider's calls behind a mutex.
- The scheduler, event bus and handler dispatch (`cron.rs`), the builder (`builder.rs`) and the real git provider (`generic.rs`, whose `listen` is `todo!()`) are not part of this model.
