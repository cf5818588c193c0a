# rosedbstore, modelled in Dafny

`rosedbstore` is a storage adapter: its `KV` type offers the blob key-value
contract (`Get`, `Put`, `Delete`, `List`, `Len`, `Close`) on top of a rosedb
database, which is an ordered, persistent byte-key store. This project models
that adapter and proves what each operation does to the stored keys and what it
returns:

- Rejecting the empty key before any engine call.
- Turning the engine's missing-key error into a not-found error that carries the caller's key.
- Probing for the key before a non-replacing write and before a delete.
- The ascending, early-stopping listing and how a callback's error comes back.
- Joining the compaction error and the release error at shutdown.

Files, one module each:

- `wrappers.dfy`: `Option` (also Go's nil-or-error) and `Result` (Go's value-and-error pair).
- `errors.dfy`: the error values the adapter meets, `Is` (Go's `errors.Is`) and `Join` (Go's `errors.Join`).
- `byte_strings.dfy`: `Byte` and `Bytes`, the byte strings used for keys and values.
- `byte_order.dfy`: lexicographic byte order (Go's `bytes.Compare`), proved a strict total order. It also defines `Ascending`, the one strictly ascending listing of a finite key set.
- `rosedb.dfy`: class `DB`, a stand-in for the engine. It holds an ordered map from byte keys to byte values, a closed flag and a per-call failure table. It has the calls the adapter makes: `Get`, `Exist`, `Put`, `Delete`, `AscendGreaterOrEqual`, `GetStat` (rosedb's `Stat`), `Merge` and `Close`. Every call except `GetStat` fails, changing nothing, with the error the table lists for it. Once closed, every call except `GetStat` fails with `DBErrClosed`. `GetStat` never fails.
- `rosedbstore.dfy`: class `KV` and the adapter operations. `Get` and `Len` are read-only functions of the engine's state. `Put`, `Delete` and `Close` are methods that change it. `List` is the engine's ascending scan followed by `VisitKeys`, the scan handler's loop, which is proved against the specification function `Visit`.
- `scenarios.dfy`: client methods that prove, from the contracts alone, the behaviour a blob store is expected to show. That covers a conflicting write that leaves the value alone, overwrite, delete then not-found, counting, ordered listing from the first key and from a later start, a quiet early stop, a returned callback error, and closing twice.

Go strings are byte strings, so the adapter's `string`/`[]byte` conversions are identities here. Keys are `seq<Byte>` throughout.

## Model

| member | source | states |
|---|---|---|
| `Errors.Join` | rosedbstore.go:110 | The joined error is nil exactly when both inputs are nil. Every error either input is (or wraps) can still be recognised in it, so neither masks the other. |
| `ByteOrder.LessIrreflexive` | rosedbstore.go:86 | No key comes before itself in the scan order. |
| `ByteOrder.LessTransitive` | rosedbstore.go:86 | The scan order is transitive. |
| `ByteOrder.LessTotal` | rosedbstore.go:86 | Any two different keys are ordered one way or the other. |
| `ByteOrder.LeastExists` | rosedbstore.go:86 | Every non-empty set of keys has a smallest key, so an ascending scan can always take a next key. |
| `ByteOrder.LeastUnique` | rosedbstore.go:86 | That smallest key is unique. |
| `ByteOrder.Ascending` | rosedbstore.go:86 | The listing of a key set has exactly as many entries as the set has keys. |
| `ByteOrder.AscendingLists` | rosedbstore.go:86 | The listing of a key set is strictly ascending and holds exactly the keys of the set, so each key appears once. |
| `ByteOrder.AscendingFirst` | rosedbstore.go:86 | The listing starts with the smallest key, followed by the listing of the rest. |
| `ByteOrder.AscendingUnique` | rosedbstore.go:86 | Any strictly ascending enumeration of a set is its listing, so the scan order is fully determined. |
| `ByteOrder.ListAscending` | rosedbstore.go:86 | Walking a key set smallest-first, as the engine walks its ordered index, produces exactly its ascending listing. |
| `RoseDB.DB.constructor` | rosedbstore.go:26-30 | The engine as opened on an empty directory: no keys, not closed, no failing calls. |
| `RoseDB.DB.Fault` | rosedbstore.go:42-111 | The failure table every engine error is stated over: a closed engine reports `DBErrClosed`; otherwise a call fails exactly when the table lists it, with the listed error. |
| `RoseDB.DB.Get` | rosedbstore.go:42 | The point read: it succeeds exactly when the call does not fail and the key is stored, and then gives the stored value. Otherwise it gives the listed error, or `DBErrKeyNotFound` for an absent key. |
| `RoseDB.DB.Exist` | rosedbstore.go:58 | The existence probe used before a non-replacing write and before a delete (also line 74): it succeeds exactly when the call does not fail, and then says whether the key is stored. An absent key is not an error. |
| `RoseDB.DB.GetStat` | rosedbstore.go:100 | The statistics read: its key count is the number of stored keys, and it never fails. |
| `RoseDB.DB.AscendGreaterOrEqual` | rosedbstore.go:86 | The scan from `start` yields the stored keys at or after `start`, ascending, each once. A failing scan yields nothing and reports its error. |
| `RoseDB.DB.Put` | rosedbstore.go:65 | The engine write: on success the key maps to the value and nothing else changes. On failure nothing changes. |
| `RoseDB.DB.Delete` | rosedbstore.go:80 | The engine delete: on success exactly the key is gone. On failure nothing changes. |
| `RoseDB.DB.Merge` | rosedbstore.go:105 | Compaction leaves the stored keys and values unchanged. It reports `DBErrClosed` on a closed engine. |
| `RoseDB.DB.Close` | rosedbstore.go:109 | Releasing the engine marks it closed unless it fails. The stored map is unchanged. |
| `RoseDBStore.Visit` | rosedbstore.go:85-95 | The keys handed to the callback are a prefix of the scan. When the listing returns an error, it is the callback's result on the last visited key, and that result is not a stop signal. |
| `RoseDBStore.VisitAll` | rosedbstore.go:85-95 | When the callback never errs, every scanned key is visited and the listing returns nil. |
| `RoseDBStore.VisitStopsAt` | rosedbstore.go:87-92 | When the callback first errs at position `i`, exactly the keys up to `i` are visited. The listing returns nil for a stop signal and the callback's error otherwise. |
| `RoseDBStore.VisitKeys` | rosedbstore.go:86-94 | The scan handler's loop calls the callback on the scanned keys in order and computes exactly `Visit`: the keys the callback saw and the error `List` returns. |
| `RoseDBStore.KV.constructor` | rosedbstore.go:34 | The adapter wraps the given engine handle. |
| `RoseDBStore.KV.Get` | rosedbstore.go:38-49 | The empty key gives the bare `ErrKeyNotFound`. A stored key gives its value. An absent key gives `KeyNotFound(key)`. An engine error that is `DBErrKeyNotFound` also becomes `KeyNotFound(key)`; any other engine error is returned unchanged. |
| `RoseDBStore.KV.Put` | rosedbstore.go:52-66 | The empty key gives `ErrKeyNotFound` and no write. Without replace: a failing probe returns its error unchanged, and a present key gives `KeyExists(key)`, both without writing. Otherwise the engine write's own result is returned. Success means the key maps to the data and every other key is unchanged; any error means the map is unchanged. |
| `RoseDBStore.KV.Delete` | rosedbstore.go:69-81 | The empty key gives `ErrKeyNotFound`. A failing probe returns its error unchanged. An absent key gives `KeyNotFound(key)`. A present key is handed to the engine delete. Success means the key was present and exactly that key was removed; any error means the map is unchanged. |
| `RoseDBStore.KV.List` | rosedbstore.go:84-96 | The visited keys and the result are `Visit` of the engine's ascending scan from `start`, so the callback sees stored keys at or after `start`, strictly ascending. A stop signal ends the listing with nil, and another callback error ends it and is returned. A failed scan is not reported: nothing is visited and the result is nil. |
| `RoseDBStore.KV.Len` | rosedbstore.go:99-101 | The count is the number of stored keys, and it never fails. |
| `RoseDBStore.KV.Close` | rosedbstore.go:104-111 | It compacts, then releases. A compaction error that is `DBErrClosed` is dropped. The result joins the remaining compaction error with the release error and is nil exactly when neither occurred. The stored map is untouched, and the engine is closed afterwards unless releasing failed. |

## Left out

- `Open`, `Opener` and `Options` (rosedbstore.go:22-35, 115): they open a directory with engine tuning (1 GiB segments, a once-a-minute merge schedule). That is filesystem I/O with no adapter logic. `DB`'s constructor stands for an engine opened on an empty directory.
- The `context.Context` parameters: the adapter never reads them.
- Concurrency: calls are sequential in the model. The probe-then-write in `Put` and the probe-then-delete in `Delete` are not atomic in the source, and that race is not modelled.
- rosedb internals are not part of this model: segment files, what compaction does, crash recovery, and how `Stat().KeysNum` is computed. The engine is a map plus failures. Which calls fail is an input, the failure table, not something the model predicts. A closed engine failing every call with `DBErrClosed` is an assumption of the stand-in, and so is `Stat` never failing.
- The blob package's error constructors are not part of this model. `KeyNotFound(key)` and `KeyExists(key)` are modelled as key errors that `Is` the bare sentinels.
- Errors.Join: its contract is stated only for targets that are not themselves joined errors. Go compares a joined error by identity, and this model compares values.
- RoseDBStore.KV.List: a callback can have side effects in Go, but here it is a pure function from a key to a nil-or-error. The engine's lazy scan is modelled as the ascending snapshot it walks (rosedb holds a read lock during the scan). The handler closure that sets `ferr` becomes the loop of `VisitKeys`, run over the scanned keys. A read failure part-way through a scan is modelled only as a scan that fails before its first key.
- RoseDBStore.KV.Len: the `int64` conversion of the key count is not modelled, since the count of a map is never near 2^63.
- A caller may expect every operation on a closed store to fail; this code does not. After `Close`, `List` drops the scan's error and returns nil, and `Len` still reports the statistic. The model follows the code.
- Namespace prefixes and a key codec do not exist in this adapter, so they are not modelled. One `KV` is the whole database.
- `Merge(false)`'s reopen flag is not modelled: it is engine scheduling.
