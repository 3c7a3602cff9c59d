# Trio instrument registry and TCP connection helpers, in Dafny

This project models two sequential pieces of Trio and proves properties of
them.

**The instrument registry** (`Instruments` in
`src/trio/_core/_instrumentation.py`). The run loop keeps a dict from hook
name to the instruments that override that hook. A reserved `"_all"` key
holds every active instrument. There are four operations:

- `__init__` activates the incoming instruments in order.
- `add_instrument` classifies an instrument by the public hook names it
  overrides and rolls back if classification raises.
- `remove_instrument` raises `KeyError` for an inactive instrument. Otherwise
  it deletes the instrument everywhere and drops hook buckets that become
  empty.
- `call` runs one hook on a snapshot of its bucket. An instrument whose hook
  raises is deactivated and logged.

The model (`Instrumentation`) is a map from key to a duplicate-free
sequence. The sequence stands for a dict used as an insertion-ordered set.

The invariant is stated through a reference table (`InstrumentsInvariant`).
`Table(all)` is the registry determined by the activation order `all`:

- each hook bucket lists, in order, the instruments of `all` that override
  the hook;
- hooks that no instrument overrides have no bucket.

A registry is `Valid` when it equals the table of its own `"_all"` bucket.
Activation, deactivation and dispatch (re-entrant registry calls from hooks
included) are proved to keep it valid.

Hooks may activate or deactivate instruments while they run. Each
instrument's hook behaviour is therefore an input: the registry calls it
makes, in order, and whether it raises afterwards.
`DispatchScenarios` works through two concrete runs. In one, a snapshot
entry deactivated earlier in the same dispatch is still invoked. In the
other, the `KeyError` of the fault path leaves `call`.

**The TCP helpers** (`src/trio/_highlevel_open_tcp_stream.py`):

- `reorder_for_rfc_6555_section_5_4` (`HappyEyeballs`) moves the first
  resolver result whose address family differs from the first result's to
  index 1. Section 5.4 of RFC 6555 asks for exactly this: the first two
  connection attempts use different families. The source loop is a method.
  It is proved equal to a reference definition given by where each entry
  ends up.
- `format_host_port` (`HostPort`) renders `host:port`. It brackets a host
  that contains `:`, the IP-literal form of section 3.2.2 of RFC 3986. A
  bytes host is ASCII-decoded first. Its partner is a splitter that takes
  the text apart again, and a round-trip lemma connects the two.

**Instrument classification.** An instrument is modelled by its identity and
four fields:

- `attrs`: the names `dir()` lists, in order.
- `custom`: the names whose attribute is not a method inherited unchanged
  from `trio.abc.Instrument`.
- `brokenAt`: optionally, the index of the one name whose `getattr` raises.
  This makes "classification raises" a possible outcome at any point of the
  loop.
- the identity itself.

The base class lives in `src/trio/_abc.py`, which is not part of this model.
Its public attributes are taken to be the nine lifecycle hooks: `before_run`,
`after_run`, `task_spawned`, `task_scheduled`, `task_exited`,
`before_task_step`, `after_task_step`, `before_io_wait` and
`after_io_wait`.

**How `call` behaves at its edges.**

- On the fault path, `call` deactivates the instrument with
  `remove_instrument` (`_instrumentation.py:111`). That call pops the
  instrument from `"_all"` (`_instrumentation.py:87`). It raises `KeyError`
  when a hook run earlier in the same dispatch already deactivated the
  instrument. Nothing catches that `KeyError`, so it leaves `call` and the
  rest of the snapshot is not visited.
  - `Instrumentation.DispatchFrom` returns this as a `Raised(NotActive(_))`
    outcome, and `DispatchScenarios.KeyErrorEscapesCall` exhibits it.
  - Full fault isolation is proved for the case where hooks make no
    registry calls: `InstrumentsInvariant.DispatchWithoutReentrancy`.
- `call` indexes `self.data[hookname]` (`_instrumentation.py:107`), which
  raises `KeyError` for a hook without a bucket. Its docstring
  (`_instrumentation.py:101-105`) asks callers to check membership first.
  `Instrumentation.Call` therefore requires the bucket to exist, and
  `Instrumentation.IsListening` is that check.

## Model

| member | source | states |
|---|---|---|
| Instrumentation.RegisterFrom | src/trio/_core/_instrumentation.py:56-67 | The classification loop from a given `dir()` position on raises exactly when a later public base-class name fails its lookup. Until then it adds the instrument to the bucket of every overriding public hook name it passes. |
| Instrumentation.AddInstrument | src/trio/_core/_instrumentation.py:43-70 | Activating an instrument that is already active changes nothing. A new instrument either succeeds or raises, and it raises exactly when classification raises. |
| InstrumentsInvariant.ClassifiedAreHooks | src/trio/_core/_instrumentation.py:56-62 | Every name an instrument is registered under is a public base-class hook name, never `"_all"`. |
| Seqs.Without | src/trio/_core/_instrumentation.py:87-90 | Deleting a key from an ordered set removes exactly that key. The remaining keys are kept, and a missing key leaves the set unchanged. |
| Seqs.WithoutAt | src/trio/_core/_instrumentation.py:87-90 | Deleting the key at index `i` of a duplicate-free ordered set cuts out exactly that position: the keys before it and after it keep their places. |
| Seqs.Purge | src/trio/_core/_instrumentation.py:87-92 | Removing a set of keys keeps exactly the other keys and changes nothing when none of them is present. |
| Seqs.PurgeAppend | src/trio/_core/_instrumentation.py:87-92 | Removing keys from a concatenation is removing them from each part, so the surviving keys keep their relative order. |
| Seqs.PurgeTwice | src/trio/_core/_instrumentation.py:87-92 | Removing keys in two rounds equals removing their union once. Two deactivations compose. |
| Seqs.WithoutAppended | src/trio/_core/_instrumentation.py:54-70 | Appending an absent key and then deleting it gives back the original sequence. The rollback relies on this. |
| Seqs.Dedup | src/trio/_core/_instrumentation.py:37-40 | The instruments activated from a sequence hold each instrument of the sequence exactly once, with no duplicates and none lost. |
| Seqs.DedupFirstOccurrenceOrder | src/trio/_core/_instrumentation.py:39-40 | The deduplicated sequence lists the instruments in the order of their first occurrences in the input, the order in which the constructor activates them. |
| Instrumentation.RemoveInstrument | src/trio/_core/_instrumentation.py:73-92 | It raises `NotActive` exactly when the instrument is not in `"_all"`, and then changes nothing. Otherwise no bucket holds the instrument afterwards and every other bucket keeps its members in order. A hook bucket is dropped exactly when it held only this instrument. No key is added. |
| InstrumentsInvariant.EmptyIsValid | src/trio/_core/_instrumentation.py:38 | The initial `{"_all": {}}` registry satisfies the invariant. |
| InstrumentsInvariant.BucketOfValid | src/trio/_core/_instrumentation.py:25-33 | In a valid registry every hook bucket is non-empty, duplicate-free and holds active instruments only. It lists them in activation order, filtered from `"_all"`. |
| InstrumentsInvariant.SubscribersInOrder | src/trio/_core/_instrumentation.py:54-67 | A hook's subscriber list is `"_all"` with the non-overriding instruments removed, so bucket order is activation order. |
| InstrumentsInvariant.SubscribersWithout | src/trio/_core/_instrumentation.py:87-92 | Deactivating an instrument removes it from each subscriber list and changes nothing else. |
| InstrumentsInvariant.AddMatchesTable | src/trio/_core/_instrumentation.py:52-67 | When a new instrument's classification succeeds, the result is the table of `"_all"` with the instrument appended. It appears at the end of exactly the buckets of its overridden hooks, and the result is valid. |
| InstrumentsInvariant.AddFailureRollsBack | src/trio/_core/_instrumentation.py:68-70 | When classification raises, the registry is restored exactly. The instrument is in neither `"_all"` nor any bucket, and the lookup error is re-raised. |
| InstrumentsInvariant.AddKeepsValid | src/trio/_core/_instrumentation.py:43-70 | Activation, successful or not, keeps a registry valid. |
| InstrumentsInvariant.RemoveMatchesTable | src/trio/_core/_instrumentation.py:86-92 | Deactivation keeps a registry valid. On success the result is the table of `"_all"` without the instrument. |
| InstrumentsInvariant.AddThenRemove | src/trio/_core/_instrumentation.py:43-92 | Activating a new instrument and then deactivating it restores the original registry. |
| InstrumentsInvariant.ListeningIffOverridden | src/trio/_core/_instrumentation.py:25-33 | In a valid registry a hook has a bucket exactly when some active instrument overrides it. Empty buckets never linger, so the hot-path `in` check is exact. |
| InstrumentsInvariant.ActivateNext | src/trio/_core/_instrumentation.py:39-40 | One turn of the constructor loop either raises exactly the classification error of that instrument or extends the valid registry. The extended registry's `"_all"` is the deduplicated longer prefix. |
| InstrumentsInvariant.NewInstruments | src/trio/_core/_instrumentation.py:37-40 | Construction succeeds exactly when no incoming instrument's classification raises. On success it yields the valid table of the deduplicated input. On failure it reports the first failing instrument's error. |
| Instrumentation.Invoke | src/trio/_core/_instrumentation.py:108-117 | One turn of `call` invokes exactly its instrument and logs at most one record for it. It ends with an error only when the fault-path removal finds the instrument inactive, and then nothing is logged. |
| Instrumentation.InvokeFaultPath | src/trio/_core/_instrumentation.py:108-117 | With re-entrant hooks, a turn whose hook returns logs nothing and keeps the registry the hook left. A log record implies the hook raised and the instrument is in no bucket afterwards. An error escapes exactly when the hook raised and its own registry calls had already deactivated the instrument; a raising hook whose instrument is still active is logged. |
| Instrumentation.DispatchFrom | src/trio/_core/_instrumentation.py:107-117 | The instruments invoked are a prefix of the snapshot, in order, and all of it when no error escapes. An escaping error is `NotActive` for the last invoked instrument. Every log record names this hook and an invoked instrument. |
| Instrumentation.Call | src/trio/_core/_instrumentation.py:94-117 | Dispatch requires the hook's bucket to exist. It invokes a prefix of that bucket, the whole bucket unless a removal error escapes, and any such error names an instrument of the bucket. |
| InstrumentsInvariant.RunHookKeepsValid | src/trio/_core/_instrumentation.py:109 | Whatever activations and deactivations a hook performs re-entrantly, the registry stays valid. |
| InstrumentsInvariant.DispatchKeepsValid | src/trio/_core/_instrumentation.py:107-117 | Dispatch keeps the registry valid for every hook behaviour, re-entrant calls included. |
| InstrumentsInvariant.DispatchWithoutReentrancy | src/trio/_core/_instrumentation.py:107-117 | Suppose hooks make no registry calls. Then every snapshot entry is invoked in order and no error escapes. Exactly the raising instruments are logged, once each in snapshot order, and deactivated. The others stay active in their order. |
| InstrumentsInvariant.CallWithoutReentrancy | src/trio/_core/_instrumentation.py:94-117 | The same for `call` on an existing bucket: fault isolation, one log record per faulty instrument, and the faulty ones removed from `"_all"`. |
| DispatchScenarios.BothIsReachable | src/trio/_core/_instrumentation.py:43-67 | The example registry is the one that activating `a` and then `b` produces. |
| DispatchScenarios.DeactivatedEntryStillInvoked | src/trio/_core/_instrumentation.py:107 | Because `call` walks a snapshot, `b` is still invoked after `a`'s hook deactivated it. |
| DispatchScenarios.KeyErrorEscapesCall | src/trio/_core/_instrumentation.py:86-87 | If `b`'s hook raises after `a`'s hook deactivated `b`, the fault-path `remove_instrument(b)` raises and that error leaves `call`. |
| HappyEyeballs.FirstOtherFamily | src/trio/_highlevel_open_tcp_stream.py:148-149 | Finds the lowest index at or after the start whose family differs from entry 0's. Reports none exactly when every later family matches. |
| HappyEyeballs.RemoveAt | src/trio/_highlevel_open_tcp_stream.py:153 | `pop(i)` drops the element at `i` and shifts the later ones left. |
| HappyEyeballs.InsertAt | src/trio/_highlevel_open_tcp_stream.py:153 | `insert(i, x)` places `x` at `i` and shifts the later ones right. |
| HappyEyeballs.MoveToSecond | src/trio/_highlevel_open_tcp_stream.py:152-153 | Moving entry `i` to index 1 keeps entry 0, shifts entries 1 through `i - 1` right by one and keeps the entries after `i`. |
| HappyEyeballs.MovePermutes | src/trio/_highlevel_open_tcp_stream.py:153 | That move is a permutation: the multiset of entries is unchanged. |
| HappyEyeballs.Reordered | src/trio/_highlevel_open_tcp_stream.py:137-154 | The reordered list is a permutation of the input, with the same length, and keeps entry 0. If any entry has another family than entry 0, the entry at index 1 then does. That entry is the first such one, the entries before its old place shift right and the ones after stay. With no differing family the list is unchanged. |
| HappyEyeballs.ReorderForRfc6555 | src/trio/_highlevel_open_tcp_stream.py:148-154 | The source loop, with its pop and insert and its break, computes exactly the reference reordering. |
| HappyEyeballs.ReorderIdempotent | src/trio/_highlevel_open_tcp_stream.py:148-154 | Reordering twice is reordering once. |
| HostPort.DecodeAscii | src/trio/_highlevel_open_tcp_stream.py:158 | ASCII decoding succeeds exactly when every byte is below 128 and maps each byte to the same code point. Otherwise it fails at the first byte that is 128 or above. |
| HostPort.DecodeEncode | src/trio/_highlevel_open_tcp_stream.py:158 | Decoding is the inverse of ASCII encoding. |
| HostPort.DecimalText | src/trio/_highlevel_open_tcp_stream.py:160-162 | The text of an integer port consists of a sign and decimal digits, so it never contains `:`. |
| HostPort.DecimalRoundTrip | src/trio/_highlevel_open_tcp_stream.py:160-162 | Parsing the decimal text of an integer gives the integer back. |
| HostPort.PortText | src/trio/_highlevel_open_tcp_stream.py:160-162 | An integer port's text parses back to the port and contains no `:`. |
| HostPort.FormatHostPort | src/trio/_highlevel_open_tcp_stream.py:157-162 | Formatting fails exactly when a bytes host holds a non-ASCII byte and reports such a byte. Otherwise it yields `[host]:port` when the host contains `:` and `host:port` when it does not. |
| HostPort.SplitHostPort | src/trio/_highlevel_open_tcp_stream.py:159-162 | Splitting a rendered text fails exactly when the text contains no `:`. |
| HostPort.FormatThenSplit | src/trio/_highlevel_open_tcp_stream.py:157-162 | Splitting the formatted text at its last `:` and unbracketing gives back the decoded host and the port text, whenever the port text has no `:`. |
| HostPort.IntPortRoundTrip | src/trio/_highlevel_open_tcp_stream.py:157-162 | With an integer port the host and the port number can always be recovered from the formatted text. |

## Left out

- `open_tcp_stream` and `close_all` from `src/trio/_highlevel_open_tcp_stream.py` are left out. They consist of DNS, sockets, task spawning, cancellation, timeouts and exception groups, which are concurrency and I/O.
- Python reflection in `add_instrument` (`dir`, `getattr`, the `types.MethodType` identity test) is replaced by the explicit instrument fields described above. A lookup that raises is modelled at one chosen position.
- Instrument classification: `getattr(Instrument, name)` at `_instrumentation.py:60` also finds attributes of the base class's metaclass (such as `register` or `mro`). An instrument with its own public method of such a name would get a bucket of that name. The model only registers the nine hook names.
- Instrument classification: the source calls `dir` and `getattr` again at every activation, so an instrument whose lookup failed once may classify later. The model fixes `attrs`, `custom` and `brokenAt` per instrument value, so an instrument that fails classification fails every time.
- Instrumentation.DispatchFrom: its contract says that each log record names an invoked instrument. It does not say that each record comes from a raising hook whose instrument was then deactivated. That holds per turn (`Instrumentation.InvokeFaultPath`) and over a whole dispatch without re-entrant hooks (`InstrumentsInvariant.DispatchWithoutReentrancy`). With re-entrant hooks, a later turn can activate a logged instrument again, so the property is stated per turn only.
- `INSTRUMENT_LOGGER.exception` is modelled as appending a (hook, instrument) record to a log. The message text and the captured traceback are left out.
- The `_public` decorator is left out because it is the identity function.
- Hook arguments (`*args` of `call`) are left out because the registry never inspects them. The `BaseException` a hook raises is reduced to "raises".
- Dict key order of the registry itself is not modelled (a Dafny map). The order inside each bucket and inside `"_all"` is.
- `src/trio/_abc.py` is not part of this model. The base-class hook names are the nine lifecycle hooks listed above.
- HostPort.FormatHostPort: an `int` port is rendered with `str()`. Subclasses of `int` with their own `__format__` (such as `bool`, which renders as `True`) are not modelled.
- HostPort.DecodeAscii: the error carries only the index of the first offending byte, not the full `UnicodeDecodeError`.
- HappyEyeballs.ReorderForRfc6555: the source mutates a `MutableSequence` in place. The model returns the new sequence, and the other tuple fields are carried along unchanged.
