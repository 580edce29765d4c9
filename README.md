# Code-of-conduct conformance service: cache and request core

This project models the core of the web service that audits the
repositories of the `rust-lang`, `rust-lang-nursery` and
`rust-lang-deprecated` organizations for a conforming code of conduct. The
modelled part is `src/main.rs`:

- **The time-to-live cache** (`CacheItem`, `Cacheit`): a map from keys to
  entries that carry a value, a creation time and a lifetime. A read returns
  the value of a live entry and nothing for a missing or expired one, and never
  removes anything; a write inserts or replaces the entry for its key, stamped
  with the current time. `Cache.Lookup` and `Cache.Store` state what a read and
  a write mean on the map of entries; the class `Cache.Cacheit` holds that map
  as its one field, and its `Set` method changes it in place. Its `Get` is a
  function over the object that answers `Cache.Lookup` of its map, so a read
  cannot change the cache.
- **Collecting repositories** (`get_all_repos`): a loop that appends each
  organization's repository list in the fixed organization order. It is proved
  against `Repos.Flatten`, and the properties of `Flatten` (length, order,
  duplicates kept, empty organizations) are lemmas.
- **Cache-fronted handlers** (`conduct`, `get_conformance`): read a fixed key;
  on a live hit answer from the cache without computing; on a miss compute,
  write the result under the key with a lifetime of 5 or 3600 seconds, and
  answer it.

Time is an explicit parameter `now: nat` in whole seconds, in place of reading
the system clock. The library functions the service calls (listing an
organization's repositories, building the expected satellite document,
checking a list of repositories, encoding and decoding a report) are not
part of this model; they are parameters of the methods that call them, and the
report type is a type parameter. Each handler returns a flag `computed` that
says whether it consulted its producer.

An expired entry is not removed when it is read; it stays until its key is
written again. A cached report that does not decode fails the request, because
the code unwraps the decoding result; it is not recomputed.

A handler reads the clock twice: when it checks its cached entry (`now`) and
again when it stamps the entry it writes on a miss (`writeTime`), after the
producer has returned. The model takes both times as independent parameters,
so a wall clock that steps back between the two readings is covered too.

## Model

| member | source | states |
|---|---|---|
| `Cache.CacheItem.New` | src/main.rs:29-35 | a new entry holds the given value and lifetime, is stamped with the current time, and is expired exactly at the times after `now + ttl` |
| `Cache.CacheItem.IsExpired` | src/main.rs:37-39 | an entry is live exactly while `now <= createdOn + ttl` and expired at every time after that |
| `Cache.Cacheit.Get` | src/main.rs:53-61 | reading the cache object yields the stored value exactly when its key has an entry that is not expired, and nothing otherwise; being a function over the object, it cannot change the cache |
| `Cache.Lookup` | src/main.rs:53-61 | a read yields a value exactly when the key has an entry and `now <= created + ttl`, and then it is that entry's value; a missing or expired key yields nothing |
| `Cache.Store` | src/main.rs:63-65 | a write leaves the key set grown by the written key, the written key's entry holding the new value, lifetime and time, and every other key's entry unchanged |
| `Cache.Cacheit.constructor` | src/main.rs:47-51 | a new cache has no entries |
| `Cache.Cacheit.Set` | src/main.rs:63-65 | the cache's map afterwards is the old map with the write applied, and nothing else changes |
| `Cache.EmptyCacheMisses` | src/main.rs:47-61 | nothing can be read from a new cache |
| `Cache.StoreThenLookup` | src/main.rs:37-39 | a value written at `t` with lifetime `d` is read back at every time up to `t + d` inclusive and at no time after it: the expiry boundary is strict |
| `Cache.StoreThenLookupAtOnce` | src/main.rs:29-39 | a read at the moment of the write finds the value, for every lifetime including 0 |
| `Cache.StoreOverwrites` | src/main.rs:63-65 | two writes to one key leave one entry, that of the second write, and a live read yields only the second value |
| `Cache.StoreLeavesOtherKeys` | src/main.rs:63-65 | a write to one key leaves every other key's entry, and every read of it, as before |
| `Cache.ExpiryIsPermanent` | src/main.rs:53-61 | once an entry is expired, every later read of its key misses until the key is written again |
| `Repos.GetAllRepos` | src/main.rs:68-75 | the collected list equals the concatenation of the organizations' lists in organization order, by a loop invariant over the organizations processed so far |
| `Repos.AllReposInOrder` | src/main.rs:20 | the collected list is the `rust-lang`, `rust-lang-nursery` and `rust-lang-deprecated` lists one after the other |
| `Repos.FlattenConcat` | src/main.rs:69-72 | collecting over two runs of organizations in turn gives the two collections concatenated |
| `Repos.FlattenLength` | src/main.rs:68-75 | the collected list's length is the sum of the per-organization lengths |
| `Repos.FlattenKeepsDuplicates` | src/main.rs:68-75 | each repository name occurs in the collected list as often as in all organizations' lists together: nothing is deduplicated |
| `Repos.FlattenSegment` | src/main.rs:69-72 | each organization's list appears whole, in its own order, right after the lists of the organizations before it |
| `Repos.EmptyOrganizationContributesNothing` | src/main.rs:70-72 | an organization with no repositories adds nothing to the collected list |
| `Handlers.Conduct` | src/main.rs:82-92 | on a live hit of `"conduct"` it answers the cached text, does not compute and leaves the cache unchanged; on a miss it answers the produced document and stores it under `"conduct"` with lifetime 5, stamped with the write time `writeTime`; the `"conformance"` entry is untouched |
| `Handlers.GetConformance` | src/main.rs:94-108 | on a live hit of `"conformance"` it answers the decoded report (or fails if the text does not decode), does not compute and leaves the cache unchanged; on a miss it answers the check over all collected repositories and stores its encoding under `"conformance"` with lifetime 3600, stamped with the write time `writeTime` after the sweep; the `"conduct"` entry is untouched |
| `Handlers.ConductTwice` | src/main.rs:82-92 | after a computing `conduct` call written at `w1`, a second call read no later than `w1 + 5` answers the same text without computing |
| `Handlers.ConformanceTwice` | src/main.rs:94-108 | after a computing report request written at `w1`, a second request read no later than `w1 + 3600` answers the same report without computing, given that the produced report decodes back from its encoding |
| `Handlers.HandlersKeepToTheirKeys` | src/main.rs:82-108 | a write by either handler leaves what is read from the other handler's key unchanged |

## Left out

- The HTTP routes, JSON and template wrapping, the `index` page handler, the `healthcheck` constant, static file serving and the server start-up (src/main.rs:77-80, 110-132): framework glue with no logic of its own beyond calling `get_conformance`.
- The read/write lock around the cache: every handler is modelled as one sequential call, so racing misses and last-writer-wins are not modelled.
- The system clock: each clock read is a parameter (`now` for the expiry check, `writeTime` for the stamp of a write), counted in whole seconds, so the clock's sub-second resolution is not modelled: an entry written at 10.7 s with lifetime 5 is expired at 15.9 s in the code but, as 10 and 15 in whole seconds, still live in the model; overflow of the clock's addition is not modelled either.
- Listing an organization's repositories, building the expected satellite document, checking repositories for conformance, and the report's JSON encoding and decoding: library code not part of this model, taken as parameters; no document comparison is modelled.
- Handlers.GetConformance: encoding a report is taken to always succeed, so the panic of a failing encoding is not modelled; a failing decoding is modelled as a `Failure` result.
- `tests/validation_tests.rs`: file reads and network fetches compared as text, with no logic of its own.
