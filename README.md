# Translation-entry collection and linked-document loader

A Dafny model of the ingestion core of a game-dialogue localisation tool
(`main.py`). Translation documents are nested `SECTION`/`TEXT` markup. A `TEXT`
tag either defines an entry (`KEY`, `VALUE`) or links another document
(`FILE`). The model covers:

- the `Collection`, which holds a section → ordered entries map and a
  key → entry map in which the first entry for a key wins;
- its two grouping projections, by sheet (the source file's basename) and by
  section;
- the `TEXTHandler` state machine, which fills the collection as a document is
  streamed;
- `load_from_xml`, which streams the root document and then each file the root
  links to, exactly one level deep, all into the same collection.

Modules, leaf first:

- `Entries` (`entries.dfy`): the `Entry` record, attribute maps, and the
  `Outcome` of an operation. `KeyError` models the exception raised for a
  missing attribute, and `MissingDocument` stands for whatever error the
  parser raises when the root document cannot be opened.
- `Stores` (`stores.dfy`): the two indices as a value (`Store`) and `Append`,
  the value-level effect of `Collection.append`. It also holds the history
  view (`FirstWins`, `InSection`, `Explains`), the structural invariant
  `WellFormed`, and `Grows`, which says what a series of operations may do to
  a store.
- `Groups` (`grouping.dfy`): `Basename` (the tail of `os.path.split`) and
  `Group`, the specification of both projections, with the proof that
  `Group` is characterised by its partition properties.
- `Collections` (`collection.dfy`): class `Collection`. It has the two maps as
  fields and a ghost `Log` of every entry created, in order. `Append` mutates
  the fields in place. The static `GroupBySheets` and `GroupBySections` build
  the buckets in loops.
- `Handlers` (`handler.dfy`): parse events, the pure transition functions
  `OnStart`/`OnEnd`/`Run`, and class `TextHandler` with `StartElement` and
  `EndElement`. `Parse` stands in for the markup parser that drives the
  callbacks.
- `Loader` (`loader.dfy`): `Load` (specification) and `LoadFromXml` (the loop
  over the root's linked files).
- `Scenarios` (`scenarios.dfy`): concrete runs of the handler and the loader on sample documents.

External inputs become parameters:

- A document is the sequence of `Start(tag, attributes)`/`End(tag)` events its
  parse delivers.
- The path of the document being streamed (the parser locator's system id) is
  the `file` parameter.
- The file system is a map `Files` from each existing path to its events.
  Presence in that map is the existence check.

Behaviour of the code worth noting:

- A `TEXT` tag with `VALUE` but no `KEY` is not an error. It is ignored, or
  queued as a link when it has `FILE`.
- A `TEXT` tag with `KEY` but no `VALUE` raises `KeyError("VALUE")`, and so
  does a `SECTION` tag without `NAME` (`KeyError("NAME")`). The error aborts
  the whole load, and what was collected before it is kept.
- The "key not yet in bucket" guard of the grouping loops never rejects,
  because input keys are unique. The loops assert this.

## Model

| member | source | states |
|---|---|---|
| `Collections.Collection.constructor` | main.py:26-29 | a new collection has `sections == {"ROOT": []}`, no entries, an empty history, and satisfies the invariant |
| `Stores.Append` | main.py:31-44 | the value-level effect of `Collection.append` on both indices; its contract is stated by `Stores.AppendEffect`, `Stores.AppendExplained` and `Stores.AppendGrows` |
| `Stores.AppendEffect` | main.py:31-44 | `Stores.Append`: `section` is always registered, and no other bucket changes; KeyError("KEY") / KeyError("VALUE") exactly when non-empty attributes lack one; without an entry nothing else changes; with one, the entry `(KEY, VALUE, section, file)` is appended at the end of its bucket, and the key index changes only if the key is new, gaining exactly that key → entry (first write wins) |
| `Collections.Collection.Append` | main.py:31-44 | the in-place update leaves the fields equal to `Stores.Append` of the old ones, keeps the invariant, and extends the history by exactly the created entry |
| `Stores.FirstWins` | main.py:43-44 | the index built from a history maps each key to an entry of the history carrying that key, and indexes every key of the history |
| `Stores.FirstWinsIsFirst` | main.py:43-44 | the entry indexed under `k` is the first entry of the history with key `k`, so its value is the VALUE of the first append with KEY `k` |
| `Stores.InSection` | main.py:39-40 | a section's filtered history holds only entries of that section taken from the history |
| `Stores.EmptyExplained` | main.py:28-29 | the fresh collection is explained by the empty history |
| `Stores.AppendExplained` | main.py:31-44 | `append` preserves the invariant: the index is `FirstWins` of the history, each bucket is the history filtered by section in order, every entry's section is registered, and ROOT stays |
| `Stores.AppendEntryExplained` | main.py:39-44 | filing an entry at the end of its bucket, and indexing it if its key is new, extends the explaining history by that entry |
| `Stores.FirstWinsPush` | main.py:43-44 | proof step (the definition unfolded at one more entry): one more entry in the history is indexed exactly when its key is not indexed yet, and the index is otherwise unchanged |
| `Stores.InSectionPush` | main.py:39-40 | proof step (the definition unfolded at one more entry): one more entry in the history joins the end of its own section's filtered history and no other |
| `Stores.BucketsPush` | main.py:39-40 | appending an entry to its own section's bucket keeps every bucket equal to the history filtered by its section |
| `Stores.ExplainedIsWellFormed` | main.py:28-44 | under the invariant, every `entries[k]` has key `k` and occurs in `sections[entries[k].section]`, every bucket entry belongs to that bucket's section and has its key indexed, and ROOT exists |
| `Stores.AppendGrows` | main.py:31-44 | `append` drops nothing, only appends to buckets, keeps every index binding, and adds only entries of its `file` |
| `Stores.GrowsTrans` | main.py:31-44 | successive appends compose: growth by files F and then G is growth by F ∪ G |
| `Groups.Basename` | main.py:59 | the tail of `os.path.split` of an entry's file; characterised by `Groups.BasenameIsTail` |
| `Groups.BasenameIsTail` | main.py:59 | the sheet name is the separator-free suffix of the path after its last separator (empty if the path ends in one) |
| `Groups.Group` | main.py:55-83 | the buckets partition the input: every key is in the bucket its label names, bound to the same entry; every bucket holds only input keys with that label; no bucket is empty |
| `Groups.GroupUnique` | main.py:55-83 | any bucket map with the three partition properties equals `Group`, so the result does not depend on iteration order |
| `Groups.PutKeepsGrouping` | main.py:61-66 | filing one new key into the bucket its label names (creating the bucket when missing) keeps the partition properties |
| `Groups.FileNext` | main.py:57-66 | the key a grouping loop takes next is in no bucket yet, and filing it keeps the partition properties for the keys handled so far |
| `Collections.Collection.GroupBySheets` | main.py:54-68 | the loop returns `Group(entries, BySheet)`: buckets named by the basename of each entry's file |
| `Collections.Collection.GroupBySections` | main.py:70-83 | the loop returns `Group(entries, BySection)`: buckets named by each entry's section |
| `Handlers.OnStart` | main.py:92-105 | the start-tag transition on the handler state; its contract is stated by `Handlers.OnStartEffect` |
| `Handlers.OnStartEffect` | main.py:92-105 | `Handlers.OnStart`: SECTION with NAME sets the current section and registers it exactly as `append` without attributes does, with nothing else changed; without NAME it is KeyError("NAME") with nothing changed; TEXT with KEY appends under the current section (KEY takes priority over FILE); TEXT with only FILE appends the path to the link queue; any other tag changes nothing; the current section stays registered |
| `Handlers.OnEnd` | main.py:107-110 | closing SECTION resets the current section to ROOT unconditionally; other end tags change nothing |
| `Handlers.TextHandler.constructor` | main.py:87-90 | a new handler is bound to the collection, in section ROOT, with no linked files |
| `Handlers.TextHandler.StartElement` | main.py:92-105 | the in-place callback matches `OnStart` on the handler and its collection, and keeps both invariants |
| `Handlers.TextHandler.EndElement` | main.py:107-110 | the in-place callback matches `OnEnd` |
| `Handlers.Deliver` | main.py:117-119 | delivering one event to a handler runs the matching callback, with the effect `Apply` gives on its state |
| `Handlers.Parse` | main.py:117-119 | streaming a document through a handler equals `Run`: the callbacks in order, stopping at the first error |
| `Handlers.Run` | main.py:117-119 | a document streamed through one handler, stopping at the first raised error; its properties are stated by `Handlers.RunPush`, `Handlers.RunStopsAtError`, `Handlers.RunGrows`, `Handlers.RunLinks` and the lemmas below |
| `Handlers.RunPush` | main.py:117-119 | proof step (the definition unfolded at one more event): streaming one more event applies it to the state reached so far, unless that run already failed |
| `Handlers.RunAdvance` | main.py:117-119 | proof step for the streaming loop: after a passing run of a document's first `n` events, the run of the first `n + 1` ends where event `n` takes the reached state |
| `Handlers.RunStopsAtError` | main.py:117-119 | once a callback raises, later events have no effect |
| `Handlers.ApplyGrows` | main.py:92-110 | one callback only grows the store, by entries of the current document |
| `Handlers.RunGrows` | main.py:92-110 | streaming a document only grows the collection, by entries whose file is that document |
| `Handlers.RunLinks` | main.py:101-105 | the queued links are the document's FILE-only TEXT targets in order with duplicates kept (a prefix of them if the run failed) |
| `Handlers.RunKeepsCurrentRegistered` | main.py:89-110 | the current section and ROOT stay registered throughout a run |
| `Handlers.RunRegistersSections` | main.py:98-100 | every section a completed run opened is registered, even one without TEXT children |
| `Loader.LoadLinked` | main.py:124-128 | one linked file, skipped when missing, else streamed with a fresh handler; implemented in place by `Loader.LoadLinkedFile` |
| `Loader.LoadLinks` | main.py:122-130 | the root's queued links in order, stopping at the first error; its properties are stated by `Loader.LoadLinksSkipsMissing`, `Loader.LoadLinksStopsAtError`, `Loader.LoadLinksAdvance`, `Loader.LoadLinksGrows` and `Loader.LoadLinksAgree` |
| `Loader.Load` | main.py:113-130 | the whole load as a value; its properties are stated by `Loader.LoadDepthOne` and `Loader.LoadOnlyReach`, and `Loader.LoadFromXml` is proved equal to it |
| `Loader.Present` | main.py:123-124 | the filtered links all exist and are links of the input |
| `Loader.Reach` | main.py:122-128 | the documents a load may read all exist |
| `Loader.LoadLinksSkipsMissing` | main.py:123-130 | processing the links equals processing only those that exist: a missing path leaves the collection untouched |
| `Loader.LoadLinksStopsAtError` | main.py:126-128 | an error in a linked file ends the load, and later links are not processed |
| `Loader.LoadLinksAdvance` | main.py:123-128 | proof step for the link loop: after the first `n` links all passed, processing link `n` as well ends where `LoadLinked` takes the reached collection |
| `Loader.LoadLinkedFile` | main.py:124-128 | the in-place step for one link equals `LoadLinked`: a missing path leaves the collection unchanged; an existing file is streamed with a fresh handler; the invariant is kept |
| `Loader.LoadLinksGrows` | main.py:122-128 | processing links adds only entries of existing linked files to the shared collection, and keeps everything already there |
| `Loader.LoadDepthOne` | main.py:113-130 | a load keeps everything the collection held, only appends to buckets, and adds index bindings and bucket entries only from the root and the existing files the root links to directly |
| `Loader.LoadOnlyReach` | main.py:113-130 | a load over the whole file system ends exactly as a load over only the root and the existing files it links to directly: a file linked only from a linked file has no effect at all, not even a registered section |
| `Loader.LoadLinksAgree` | main.py:123-128 | two file systems that agree on the existence and contents of every queued path load those links alike |
| `Loader.LoadFromXml` | main.py:113-130 | the in-place load leaves the collection equal to `Load` of its old value (MissingDocument for a missing root), and keeps its invariant |
| `Scenarios.FlatReset` | main.py:98-110 | SECTION A, SECTION B, close, TEXT: the entry lands in ROOT, and A is not restored |
| `Scenarios.DuplicateKeyKeepsFirst` | main.py:39-44 | two GREETING entries both land in the bucket in order; only the first is indexed |
| `Scenarios.RootDocumentOpens` | main.py:98-103 | the first events of the sample root document open UI and file OK_BUTTON under it |
| `Scenarios.RootDocumentRun` | main.py:92-110 | the sample root document registers UI, files OK_BUTTON there, and queues strings2.xml |
| `Scenarios.LinkedDocumentOpens` | main.py:98-103 | the first events of the sample linked document open DIALOG and file CANCEL_BUTTON under it |
| `Scenarios.LinkedDocumentRun` | main.py:92-110 | the sample linked document adds DIALOG with CANCEL_BUTTON |
| `Scenarios.LoadWithOneLink` | main.py:113-130 | the sample load ends with sections ROOT (empty), UI, DIALOG and entries OK_BUTTON, CANCEL_BUTTON |
| `Scenarios.DepthRootRun` | main.py:101-105 | a root with two link tags queues both paths in order |
| `Scenarios.DepthLinkedRun` | main.py:101-105 | a linked document files its entry and queues its own link on its own handler |
| `Scenarios.LoadStopsAtDepthOne` | main.py:122-130 | a missing link is skipped, a direct link is read, and a link of a linked file is never read |

## Left out

- `Collection.merge` (main.py:46-52): its body is `pass`, so a call leaves the collection unchanged. It is not modelled as a member.
- `main()` (main.py:133-147): the working-directory change, the hard-coded path and console printing are I/O glue.
- All `print` calls, including the reports of processed and missing linked files: they only report.
- The markup parser itself: parser construction, feature flags and well-formedness errors. A document is the event sequence the parser would deliver. `Parse` replays it, and the locator's system id is the `file` parameter.
- `os.path.exists`: replaced by presence of the path in the `Files` map. A path that exists but cannot be parsed is not modelled.
- `Groups.BasenameIsTail`: models the POSIX `os.path.split` (separator `/` only). The Windows variant, which also splits at `\` and strips a drive prefix, is not modelled.
- Python dictionaries keep insertion order, but Dafny maps do not. The order of section names and of keys in `sections`, `entries` and the grouping results is not modelled. Order within a bucket is modelled, as a sequence.
- `Collections.Collection.GroupBySheets`, `Collections.Collection.GroupBySections`: the loops take the keys in an arbitrary order rather than the dictionary's insertion order. `Groups.GroupUnique` shows that the result is the same for every order.
- Object identity: the source puts the same `Entry` object in both indices. The model uses values, so two equal entries cannot be told apart.
- Exceptions other than the `KeyError` for a missing attribute and the failure to open a missing root document are not modelled.
