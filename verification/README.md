# CAPIO-CL engine, documents and monitors: a verified model

CAPIO-CL keeps one entry of I/O rules for each path or glob pattern of a workflow. An engine holds
these entries and creates missing ones lazily, inheriting from the longest pattern that matches; a
serializer writes the engine out as a JSON document and a parser rebuilds an engine from one; a
multicast monitor spreads which files are committed and which host is a file's home; an API server
merges rule updates into a running engine; and a TOML file configures it all. This project models
those parts in Dafny and proves what they promise, and, where a promise fails, exactly when it holds.

The strongest results are these.

* **Round trip** (`RoundTripLimits.RoundTripExactly`). For every engine with separate keys, dumping and
  parsing back gives an equal engine, for every traversal order of the three hash maps and with or
  without the memory-only flag, if and only if the engine is `WellFormed`. The condition includes
  which kind (file or directory) an entry without producers must have: because fixing one directory's
  file count turns every path the parser has met so far into a directory, that depends on whether
  some order, or every order, fixes a count after meeting the path. `Kinds` decides it by who
  consumes the path and what depends on it. `RoundTrip.DumpAndParse` runs the two programs one after
  the other. Keys that do match one another survive too when they give each other nothing they do not
  hold (`Inheritance.InheritableRoundTrips`).
* **Meaning of a document** (`Parser.Parse`, `Shapes.ParsedMeaning`, `Meaning.DescribedReads`). The
  parser's long sequence of engine calls computes, for every document whose paths do not match one
  another, exactly one entry for each mentioned path. Its rules are read field by field off the
  document; `Shapes` adds which fixed counts and which children met make a directory of it, and how
  many children it counts.
* **Engine** (`Engines`, `Store`, `ChildCounts`). Each method updates the entry map in place and is
  proved against a relation on stores. Creation finds a longest match; its outcome is independent of the
  iteration order exactly when the longest matches agree; lazily creating a path is invisible to role
  queries, on every engine, exactly when the path matches nothing but itself; child counts equal the
  insertions made since a directory was inserted; and engine equality decides sameness of the maps
  exactly on engines whose lists hold no repetitions.
* **Concurrency** (`Threads`). Over every interleaving of any number of calls at the granularity of
  their lock sections: lists stay free of repetitions, added applications stay listed, retries are
  bounded, and everything is in memory from the end of `setAllStoreInMemory` on.
* **Monitors** (`Framing`, `CommitProtocol`, `HomeNodes`). Byte-exact framing with its exact limits,
  provenance under loss, duplication and reordering, delivery without loss in both
  protocols, and no broadcast storm.
* **Updates and configuration** (`Updates`, `Configuration`). The entry left by a stream of updates
  depends only on the accepted rules for its path, and nested tables flatten faithfully.

## How the model is built

`Store` holds the engine's state as a value: a map from path text to `Entry` and the flag that stores
everything in memory. Where the C++ code scans an `unordered_map` the result may depend on the order,
so creation is a relation (`Created`) that allows every longest match, and a run of actions (`Run`) is a
relation too. `Engines.Engine` is the class with the source's fields; its loops take the remaining keys
in any order. `false`, `None` or a failure constructor stands for an exception.

Every specification function is also pinned by a statement that does not use it: what a glob operator
takes on the pattern's text, what a created entry holds field by field, what an item's absent fields
read as, which datagrams are merged, and so on, with the literal values of the source.

`Documents` describes the version 1 document, the schema's rules and the actions each part stands for;
the loops of `Parser` are proved to run exactly these actions. `Projection` shows that, when no created
path matches another, the store at a path is the run of one cell, which turns statements about whole
stores into statements about single paths. `Serializer` is proved to produce the document of some
traversal orders of its maps (`IsDump`), so a statement about all dumps covers every order.

In the network models a node's listener and calls are methods of a class, and a state machine over all
nodes delivers, loses, repeats and reorders messages; a multicast reaches every subscriber, the sender
included.

## Where the code and its documentation differ

The model follows the code.

* `capiocl/engine.h` speaks of the longest prefix match; the code takes the longest matching pattern,
  by pattern length (src/Engine.cpp:173-181).
* Setting file dependencies is documented as making the rule `on_file`; `setFileDeps` leaves the
  commit rule alone (src/Engine.cpp:714-738).
* `isFile` on a path it had to create answers whether the new entry is permanent
  (src/Engine.cpp:573); `IsFile` states that.
* The bulk `add` neither checks rules nor removes repetitions (src/Engine.cpp:246-253), so equality of
  engines is not symmetric in general (`Entries.EqualityNotSymmetric`); it is so against
  repetition-free engines exactly for repetition-free ones (`Entries.EqualitySymmetricExactly`).
* The configuration table in `doxygen/configuration.md` gives both monitors as disabled by default;
  src/defaults.cpp enables them.
* A path with a space breaks the home-node protocol (`HomeNodes.SpacedPathCorrupts`), and a quoted TOML
  key with a dot can hide another key (`Configuration.DottedKeyCollides`); every leaf is found exactly
  when leaves with one flat key are rendered alike (`Configuration.LeavesFoundExactly`).
* An engine in which a produced directory counts its children automatically does not survive the round
  trip (`RoundTripLimits.AutomaticCountLost`): the serializer writes the count and the parser fixes it.

## Model

| member | source | states |
|---|---|---|
| Text.StoiOfIntText | src/parsers/v1.cpp:87-88 | decimal text written by `std::to_string` reads back through `std::stoi` as the same number exactly when an `int` holds it, and throws otherwise |
| Text.StoiReads | src/parsers/v1.cpp:87-88 | `std::stoi` reads the leading digits after white space and a minus sign, leading zeros included, whatever follows them, and throws when no int holds the number |
| Text.StripFixpoint | src/Engine.cpp:297 | erasing white space from an application name changes nothing exactly when there is none, and once is enough |
| Text.StripConcat | src/Engine.cpp:297 | stripping a name strips its parts: what survives keeps its order |
| Text.StripOne | src/Engine.cpp:297 | a single character is erased exactly when it is one of the six white-space characters |
| Glob.MatchIffSplits | src/Engine.cpp:176-177 | the backtracking matcher accepts a text exactly when it splits into one piece per pattern token, each piece fitting its token |
| Glob.StarMeaning | src/Engine.cpp:176-177 | `*` before a pattern matches exactly the texts of which some rest matches the pattern |
| Glob.QuestionMeaning | src/Engine.cpp:176-177 | `?` before a pattern takes exactly one character, any one |
| Glob.LiteralMeaning | src/Engine.cpp:176-177 | any other character, and a bracket that nothing closes, takes exactly itself |
| Glob.RangeMeaning | src/Engine.cpp:176-177 | `[x-y]` before a pattern takes one character between x and y, and with `!` or `^` one outside them |
| Glob.BracketMeaning | src/Engine.cpp:176-177 | a bracket set matches exactly the one-character texts among its characters, and a negated one exactly the other one-character texts |
| Glob.GlobFreeMatchesOnlyItself | src/Engine.cpp:176-177 | a pattern without `*`, `?` and `[` matches itself and nothing else, backslashes and slashes included |
| Glob.LoneTokens | src/Engine.cpp:176-177 | a pattern matches no non-empty text but itself exactly when all its tokens are literals or some bracket set takes no character |
| Glob.EscapedMatchesOnly | src/Engine.cpp:176-177 | writing each operator of a text as a one-character bracket set gives a pattern that matches that text and nothing else |
| Paths.OwnParentIsRoot | src/Engine.cpp:208 | only a path made of slashes is its own parent |
| Paths.ParentOfChild | src/Engine.cpp:208 | the parent of a name under a directory is that directory; a bare name has none, and one under the root has the root |
| Entries.MergeAssociative | src/Engine.cpp:1000-1024 | `operator+=` is associative on whole entries |
| Entries.CoversIsPermutation | src/Engine.cpp:1044-1077 | on a list without repetitions, equal sizes and one-sided inclusion hold exactly when the lists are permutations |
| Entries.EntryEqualsIsSameRules | src/Engine.cpp:1032-1080 | entry equality holds exactly when all rules agree up to the order of the three lists |
| Entries.EqualityDecidesSameMap | src/Engine.cpp:883-900 | engine equality holds exactly when the keys are the same and each pair of entries has the same rules, whatever the other engine holds |
| Entries.EqualityIsEquivalence | src/Engine.cpp:883-900 | on engines whose lists hold no repetitions, equality is reflexive, symmetric and transitive |
| Entries.EqualityNotSymmetric | src/Engine.cpp:883-900 | with repetitions symmetry can fail: two concrete engines, equal one way only |
| Entries.EqualityDecidesExactly | src/Engine.cpp:883-900 | an engine for which equality decides sameness of the maps against every other engine is one without repetitions, and conversely |
| Entries.EqualitySymmetricExactly | src/Engine.cpp:883-900 | an engine compares symmetrically with every repetition-free engine exactly when it is repetition-free |
| Store.LongestMatch | src/Engine.cpp:173-181 | a longest matching non-empty key, or the absence of any match, always exists |
| Store.CreationPossible | src/Engine.cpp:164-204 | creation never gets stuck |
| Store.PlacedFrame | src/Engine.cpp:201-220 | placing a new entry adds that key alone, and among the others only the parent changes, in count and kind, if it counts automatically |
| Store.CreationFrame | src/Engine.cpp:164-220 | a created path inherits everything but the memory flag from one of the longest matches, or is the default entry, and the root, its own parent, counts itself; all other entries keep all but the parent's count and kind |
| Store.CreatedReads | src/Engine.cpp:164-220 | field by field: a created entry has the lists, rules, counts and flags of one of the longest keys that match, or the literal defaults when none matches, and is in memory when that key or the engine is; a counting parent gains one child and becomes a directory, and nothing else changes |
| Store.CreationOrderIndependence | src/Engine.cpp:173-202 | for every path, creation has one outcome for all iteration orders exactly when all longest matches give the same new entry, in particular when the longest match is unique |
| Store.CreatedByDefault | src/Engine.cpp:183-200 | when no key matches, the outcome is unique: the default entry with the engine's memory flag |
| Store.MarkBeforeCreate | src/Engine.cpp:600-621 | the retry of `setDirectoryFileCount` on an unknown path, which marks all directories twice, comes to the same as creating the path first and marking once |
| Store.RetriedDependencies | src/Engine.cpp:724-738 | the retry of `setFileDeps` on an unknown path, which creates the dependencies twice, comes to the same sequence |
| Engines.Engine.constructor | src/Engine.cpp:148-162 | a new engine holds no entries and takes the workflow name from the environment, or the default |
| Engines.Engine.SetWorkflowName | src/Engine.cpp:798-801 | only the workflow name changes |
| Engines.Engine.NewFile | src/Engine.cpp:164-204 | the scanning loop realises creation from a longest match for every iteration order; an empty or known path changes nothing, and an unknown one leaves what `CreatedReads` states field by field |
| Engines.Engine.ComputeDirectoryEntryCount | src/Engine.cpp:206-220 | exactly an automatically counting parent gains a child and becomes a directory |
| Engines.Engine.AddProducer | src/Engine.cpp:287-312 | the stripped name is appended to the path's producers if not listed, on an entry created first if missing; the caller's name is left stripped |
| Engines.Engine.AddConsumer | src/Engine.cpp:314-334 | the same for consumers |
| Engines.Engine.SetCommitRule | src/Engine.cpp:357-376 | sets one of the four rules on the found or created entry; an unknown rule is refused with nothing changed, except on the empty path, which is accepted |
| Engines.Engine.SetFireRule | src/Engine.cpp:418-436 | the same for the two fire rules |
| Engines.Engine.SetPermanent | src/Engine.cpp:457-471 | sets the flag of the found or created entry and nothing else |
| Engines.Engine.SetExclude | src/Engine.cpp:510-523 | sets the flag of the found or created entry and nothing else |
| Engines.Engine.SetDirectory | src/Engine.cpp:525-539 | makes the found or created entry a directory |
| Engines.Engine.SetFile | src/Engine.cpp:541-555 | makes the found or created entry a file |
| Engines.Engine.SetCommitedCloseNumber | src/Engine.cpp:583-598 | sets the close count of the found or created entry |
| Engines.Engine.SetStoreFileInMemory | src/Engine.cpp:769-784 | stores the found or created entry in memory |
| Engines.Engine.SetStoreFileInFileSystem | src/Engine.cpp:808-821 | stores the found or created entry on the file system |
| Engines.Engine.NewFiles | src/Engine.cpp:724-726 | the paths are created one after the other, and no key disappears |
| Engines.Engine.SetFileDeps | src/Engine.cpp:714-738 | the dependencies become entries, in order, then the path's list is replaced; nothing happens for an empty path or list, and the commit rule stays |
| Engines.Engine.SetAllDirectories | src/Engine.cpp:606-609 | every known non-empty path becomes a directory and nothing else changes, in whatever order |
| Engines.Engine.SetDirectoryFileCount | src/Engine.cpp:600-621 | the path is created if missing, every path known by then becomes a directory, and the path's count is fixed |
| Engines.Engine.SetAllStoreInMemory | src/Engine.cpp:786-796 | the flag is raised and every known non-empty path is in memory, in whatever order |
| Engines.Engine.Remove | src/Engine.cpp:623-630 | erases the path's entry and no other |
| Engines.Engine.Add | src/Engine.cpp:234-254 | the bulk form: a created or found entry takes the eight given fields unchecked and keeps its counts, kind and storage |
| Engines.Engine.AddEntry | src/Engine.cpp:255-265 | an unknown path takes the entry as it is, without matching or counting; a known one merges it |
| Engines.Engine.GetCommitRule | src/Engine.cpp:378-396 | answers from the found or lazily created entry |
| Engines.Engine.IsFile | src/Engine.cpp:557-574 | answers the kind of a known path, and on a path it creates whether the new entry is permanent |
| Engines.Engine.IsProducer | src/Engine.cpp:689-712 | true exactly when some key matching the path lists the application as producer; nothing changes then, and otherwise the path is created |
| Engines.Engine.IsConsumer | src/Engine.cpp:642-666 | the same for consumers |
| Engines.RoleOfOneKey | src/Engine.cpp:642-712 | with one matching key the answer is membership in that key's producers or in its consumers |
| Engines.Engine.Equals | src/Engine.cpp:883-900 | the loop decides equality of sizes, keys and entries; without repetitions, that every key carries the same nine scalar fields and the same three lists up to order |
| Engines.LazyCreationInvisible | src/Engine.cpp:642-712 | creating a glob-free path changes no answer to any role query, for any path and application |
| Engines.CreationInvisibleExactly | src/Engine.cpp:642-712 | creating a path changes no answer on any engine exactly when the path, as a pattern, matches no other non-empty text; the condition is also given on its tokens |
| Engines.QueriesInvisible | src/Engine.cpp:642-712 | over any sequence of getters and role queries on such paths, every role query gets the answer it would have got at the start |
| Engines.GlobCreationVisible | src/Engine.cpp:164-204 | a pattern that matches more is seen: a query on `*` beside the key `[*]` makes an application a producer of `b` |
| Threads.CreatedKeeps | src/Engine.cpp:164-204 | a creating section removes nothing, keeps lists free of repetitions, takes no application off a list and adds no entry outside memory once the flag is raised |
| Threads.EditedKeeps | src/Engine.cpp:299-307 | so does an editing section, unless it stores the path on the file system |
| Threads.NextKeeps | src/Engine.cpp:287-334 | every lock section of every call keeps the bound on failed look-ups and the listing of finished calls |
| Threads.NextMarks | src/Engine.cpp:786-796 | every lock section keeps this for a `setAllStoreInMemory` that has raised the flag: an entry outside memory is one it has still to mark |
| Threads.RunKeeps | src/Engine.cpp:287-334 | the invariants hold after every number of steps of every interleaving |
| Threads.ConcurrentCallsSafe | src/Engine.cpp:287-334 | in every interleaving lists stay free of repetitions, a finished call's application is listed unless its path was erased since, and a call fails at most one look-up more than its path was erased during the call |
| Threads.AllStaysInMemory | src/Engine.cpp:786-796 | from the end of `setAllStoreInMemory` on every entry is in memory, whatever else runs, as long as no call that stores a path on the file system is under way once the flag is raised |
| ChildCounts.CountFollowsInsertions | src/Engine.cpp:206-220 | between a directory's removals and settings an automatic count grows by exactly the insertions of its children, and a fixed one does not move |
| ChildCounts.CountSinceInsertion | src/Engine.cpp:164-220 | an entry inserted where no key matches counts exactly the children inserted since |
| ChildCounts.PinnedCountStays | src/Engine.cpp:600-621 | a count set by `setDirectoryFileCount` stays until it is set again or the entry is removed |
| Projection.RunProjects | src/Engine.cpp:164-204 | when no created path matches another, what a run leaves at a path is the run of that path's cell, up to the counting of children |
| Projection.RunKeys | src/Engine.cpp:164-204 | the keys are created paths, and without removals all of them |
| Documents.ItemReads | schema/v1.json:7-104 | an item the schema admits carries a valid rule and mode, a close count only with `on_close`, and on files never `on_n_files` |
| Documents.ItemFieldsRead | src/parsers/v1.cpp:76-116 | on the item's own fields: no mode reads as `no_update`, no rule as `on_termination` with count 0; a text without colon is the rule itself, and one with a colon gives the rule before it and the number after it; dependencies are read for `on_file` only and file counts for directories only |
| Documents.CountRead | src/parsers/v1.cpp:78-92 | `on_close:` followed by a number reads as `on_close` with that number when an int holds it |
| Documents.ItemSchemaRead | schema/v1.json:7-104 | exactly which items the schema admits, spelt out rule by rule |
| Parser.ParsePath | src/parsers/v1.cpp:118-132 | the setters for one path of an item run exactly the item's actions on it |
| Parser.ParseItem | src/parsers/v1.cpp:53-133 | so do those of all its paths, unless its close count does not fit an `int` |
| Parser.ParseInputs | src/parsers/v1.cpp:36-40 | each input is created and gains the stripped application as consumer |
| Parser.ParseOutputs | src/parsers/v1.cpp:44-48 | each output is created and gains the stripped application as producer |
| Parser.ParseStreaming | src/parsers/v1.cpp:51-134 | the items run in order, up to the first whose count does not fit |
| Parser.ParseApp | src/parsers/v1.cpp:30-135 | inputs, then outputs, then items; the name, stripped in place by the first call, stays the same name |
| Parser.ParseGraph | src/parsers/v1.cpp:30-135 | all applications in order, failing exactly when some count does not fit |
| Parser.ParsePermanent | src/parsers/v1.cpp:138-144 | each listed path is created and made permanent |
| Parser.ParseExclude | src/parsers/v1.cpp:147-153 | each listed path is created and excluded |
| Parser.ParseStorage | src/parsers/v1.cpp:159-172 | each listed path is stored where its list says |
| Parser.ParseTail | src/parsers/v1.cpp:137-184 | permanent, exclude, memory, file system, and last the memory-only flag, in this order |
| Parser.Parse | src/parsers/v1.cpp:9-187 | refused exactly when the schema or a close count refuses; otherwise the engine has the document's name and is a run of the document's actions, and when no mentioned path matches another its keys are the mentioned paths and each entry is exactly the one the document means |
| Meaning.ParsedRules | src/parsers/v1.cpp:30-184 | the parsed entries have every described field but the kind and the automatic count, and these too where no count is fixed and no child mentioned |
| Shapes.ParsedMeaning | src/parsers/v1.cpp:30-184 | every engine parsed from a document without matching paths holds exactly the mentioned paths, each with the described entry, except that it is a directory when a fixed count or an entering child makes it one after the last item naming it, and that an automatic count is the number of children met after it |
| Shapes.RunFollows | src/Engine.cpp:164-220 | when no created path matches another, the kind and count at a path follow its own edits, the edits of all paths and the insertions of its children |
| Shapes.DocumentTrail | src/parsers/v1.cpp:30-178 | for kind and count the parser's actions come to the document's events: paths met, named and given a count, in document order |
| Shapes.RunTells | src/Engine.cpp:206-220 | what a sequence of events leaves: the last kind named unless a directory-making event follows, and as many children as are first met after the path |
| Shapes.DocumentEventsRead | src/parsers/v1.cpp:118-132 | in a document's events paths are named and counted only once met, and the last kind named is that of the last item naming the path |
| Meaning.DescribedReads | src/parsers/v1.cpp:30-184 | the description field by field, on the fields of the document: producers and consumers are exactly the listing applications, each once; rule, fire mode, close count and kind are read off the last item naming the path, with `on_termination`, `no_update` and 0 for what it leaves out; dependencies come from the last non-empty `on_file` list, a fixed count from the last directory item with one; memory from the storage lists or the flag |
| Meaning.ParsedKeys | src/parsers/v1.cpp:30-184 | the keys of the parsed engine are the non-empty mentioned paths, matching or not |
| Meaning.DocumentCreates | src/parsers/v1.cpp:30-184 | the actions of a document create exactly the mentioned paths and remove none |
| Meaning.DocumentCell | src/parsers/v1.cpp:30-184 | the document's actions leave at a path the described entry, up to its kind where counts are fixed |
| Serializer.Group | src/serializers/v1.cpp:35-40 | each application of a list gains the path, in the order of the keys |
| Serializer.Gather | src/serializers/v1.cpp:26-41 | the pass over the entries selects the flagged paths and groups the paths of each application, for some order of the keys |
| Serializer.Stream | src/serializers/v1.cpp:47-85 | one item per output, in order, each with the fields that `ItemForWrites` states |
| Serializer.ItemForWrites | src/serializers/v1.cpp:47-85 | field by field: the item names the path alone under its kind and carries the entry's fire rule, its dependencies whatever the rule, its count for directories, and `on_close:n` for a positive close count or else its rule |
| Serializer.Producing | src/serializers/v1.cpp:43-93 | one record per producing application; looking up its inputs adds the missing ones, empty |
| Serializer.IsRecorded | src/serializers/v1.cpp:97-103 | decides whether an application already has a record |
| Serializer.Consuming | src/serializers/v1.cpp:96-111 | one record for each application that only consumes, and no second record for any other |
| Serializer.Serialize | src/serializers/v1.cpp:8-118 | the document is the dump for some traversal orders of the three maps |
| Kinds.ParsedKind | src/parsers/v1.cpp:118-132 | an entry without producers is parsed as a directory exactly when, in the order of the dump, a file count is fixed after the path was met |
| Kinds.FileInEveryOrder | src/Engine.cpp:606-609 | if it is consumed only by applications that produce nothing and only the one counted directory, produced once, depends on it, no order makes it a directory |
| Kinds.DirectoryInEveryOrder | src/Engine.cpp:606-609 | if a consumer produces a counted directory, or two applications each produce a counted directory and a path depending on it, or one produces two counted directories depending on it, every order makes it a directory |
| Kinds.FileLostInSomeOrder | src/Engine.cpp:606-609 | when the first condition fails some order makes it a directory: the order is constructed |
| Kinds.DirectoryLostInSomeOrder | src/Engine.cpp:606-609 | when the second condition fails some order leaves it a file: the order is constructed |
| RoundTrip.DumpLists | src/serializers/v1.cpp:26-118 | whatever the traversal orders, a dump lists each application with exactly its paths, an item for each produced path, and every path under its flags |
| RoundTrip.ItemForReads | src/serializers/v1.cpp:50-82 | what the parser reads from a dumped item: a positive close count with `on_close`, back as the same count exactly when an `int` holds it, and otherwise the entry's own rule |
| RoundTrip.DumpAccepted | schema/v1.json:7-104 | a dump passes the schema and the count check exactly when every produced entry's item does |
| RoundTrip.DumpDescribes | src/parsers/v1.cpp:30-178 | what a dump describes for each key of the engine |
| RoundTrip.EntryReturns | src/Engine.cpp:1032-1080 | a well-formed entry equals the one parsed from its description if the kind comes back |
| RoundTrip.EntryForced | src/Engine.cpp:1032-1080 | and an entry equal to the one parsed is well formed |
| RoundTrip.KindReturns | src/Engine.cpp:606-609 | the kind of every entry that satisfies its condition comes back, whatever the orders |
| RoundTrip.DumpReturns | src/parsers/v1.cpp:30-178 | with well-formed entries and their kinds back, the parsed engine equals the dumped one |
| RoundTrip.WellFormedRoundTrips | tests/cpp/test_serialize_deserialize.hpp:6-124 | every dump of a well-formed engine with separate keys is accepted, and every engine parsed from it equals the original |
| RoundTrip.WellFormedNeedsNoRepair | src/serializers/v1.cpp:55-69 | in a well-formed engine a positive close count comes only with `on_close` |
| RoundTrip.RepairedRoundTrips | tests/cpp/test_serialize_deserialize.hpp:126-155 | an engine that is well formed but for positive close counts under other rules comes back with those rules set to `on_close` |
| RoundTrip.DumpAndParse | tests/cpp/test_serialize_deserialize.hpp:6-155 | serializing and then parsing as programs returns an equal engine of the same name when the engine is well formed, and the repaired one when only its rules under a close count are not |
| RoundTripLimits.RoundTripExactly | src/parsers/v1.cpp:30-184 | for separate keys the round trip holds for all orders exactly when the engine is well formed |
| RoundTripLimits.FileLost | src/Engine.cpp:606-609 | a produced file beside a produced directory with a fixed count is lost: the traversal that turns it into a directory is constructed |
| RoundTripLimits.AutomaticCountLost | src/serializers/v1.cpp:70-72 | even where keys are one another's parents, a produced directory with an automatic non-zero count breaks the round trip |
| Overlaps.OverlapLost | src/Engine.cpp:175-198 | a path named only by the storage lists breaks the round trip once another key matches it, if the keys that match it have producers: it comes back with their producers |
| Inheritance.InheritableRoundTrips | src/Engine.cpp:173-202 | a well-formed engine without fixed counts or keys that contain one another survives the round trip in every order, although its keys match, when each key's lists and flags contain those of every key matching it |
| Inheritance.LeadingRun | src/Engine.cpp:173-202 | over every run of actions that lead to the engine, whatever is inherited stays within what the engine holds |
| Inheritance.RunDone | src/parsers/v1.cpp:118-132 | and every edit has taken effect at the end, whatever the order |
| Inheritance.DumpLeads | src/serializers/v1.cpp:26-118 | a dump's actions lead to the dumped engine and contain the edits of each of its entries |
| Updates.Serve | src/api.cpp:58-99 | the receive loop folds the datagrams with `AfterAll`, of which `OneDatagram` and `RulesForRead` state what is taken |
| Updates.OneDatagram | src/api.cpp:58-99 | a datagram stores or merges its rule at its path exactly when it parses, names a path and carries the engine's own non-empty workflow name, and otherwise changes nothing |
| Updates.RulesForRead | src/api.cpp:58-99 | the rules taken for a path are exactly those of the messages naming it and the engine's workflow |
| Updates.StreamAtPath | src/api.cpp:58-99 | what a stream leaves at a path depends only on the entry found there and the accepted rules for that path |
| Updates.StreamsAgree | src/api.cpp:58-99 | streams with the same rules for every path come to the same engine |
| Updates.UpdatesCommute | src/Engine.cpp:255-265 | messages on different paths commute anywhere in a stream |
| Updates.FoldedInBatches | src/Engine.cpp:1000-1024 | folding a stream equals folding a first part and merging the fold of the rest |
| Updates.FoldedSums | src/Engine.cpp:1000-1018 | over a stream of any length lists concatenate and counts add |
| Updates.FoldedFlags | src/Engine.cpp:1014-1021 | flags combine with OR, automatic count and kind with AND, and the last rules win |
| Framing.CommitFraming | src/monitors/Multicast.cpp:215-219 | a commit message reads back as the sent path exactly when the path holds no NUL and has at most 8191 bytes |
| Framing.FrameText | src/monitors/Multicast.cpp:215-219 | the bytes of a message: `!` for SET or `?` for GET, a space, and the text up to 8191 bytes |
| Framing.FrameCut | src/monitors/Multicast.cpp:215-219 | what follows the first NUL of a text is not sent |
| Framing.Find | src/monitors/Multicast.cpp:179-186 | finds the next space, or that there is none |
| Framing.Tokenise | src/monitors/Multicast.cpp:177-191 | the find and substr loop computes the words of the text |
| Framing.WordsOfText | src/monitors/Multicast.cpp:177-191 | for every text, words are non-empty and space-free and together are the text without its spaces |
| Framing.WordsOfSpaced | src/monitors/Multicast.cpp:177-191 | any list of non-empty space-free words written with single spaces comes back |
| Framing.QueryFraming | src/monitors/Multicast.cpp:192-211 | a home-node query reads back exactly when its path is non-empty, free of spaces and NULs, and fits |
| Framing.AnnounceFraming | src/monitors/Multicast.cpp:285-287 | an announcement reads back exactly when path and host are plain and fit the buffer together |
| CommitProtocol.CarriedTwice | src/monitors/Multicast.cpp:215-219 | the path a receiver reads from a frame is the carried path of the network model, and carrying it again changes nothing |
| CommitProtocol.CommitNode.constructor | src/monitors/Multicast.cpp:225-242 | a new monitor has no committed path |
| CommitProtocol.CommitNode.Receive | src/monitors/Multicast.cpp:116-132 | a SET inserts its path unless listed; anything else is a query, answered with a SET exactly when the path is listed; on fewer than two bytes the listener fails, its list unchanged |
| CommitProtocol.CommitNode.Record | src/monitors/Multicast.cpp:278-282 | the local half of `setCommitted` inserts the path unless listed |
| CommitProtocol.CommitNode.Ask | src/monitors/Multicast.cpp:256-266 | `isCommitted` multicasts a query exactly when the path is not listed |
| CommitProtocol.StepProvenance | src/monitors/Multicast.cpp:116-132 | every step, loss and duplication included, keeps provenance and only extends the lists |
| CommitProtocol.EveryCommitStems | src/monitors/Multicast.cpp:116-132 | in every reachable state each committed path and each SET in flight stems from an earlier `setCommitted`, and no list holds a path twice |
| CommitProtocol.ListsGrow | src/monitors/Multicast.cpp:118-124 | each list is a prefix of every later one |
| CommitProtocol.QueryAnswered | src/monitors/Multicast.cpp:256-274 | without loss, once nothing is in flight a node that asked holds the path if a subscriber held it when it asked |
| CommitProtocol.AnnouncementReceived | src/monitors/Multicast.cpp:276-283 | and so does every node subscribed when a SET was sent |
| CommitProtocol.StepSettles | src/monitors/Multicast.cpp:116-132 | each delivery or loss lowers (N+1) times the GETs plus the SETs in flight, for N subscribers |
| CommitProtocol.FallsSilent | src/monitors/Multicast.cpp:116-132 | after the last call the network falls silent within that many steps |
| HomeNodes.HomeTable.constructor | src/monitors/Multicast.cpp:225-242 | a new monitor knows its hostname and no home |
| HomeNodes.HomeTable.Receive | src/monitors/Multicast.cpp:177-211 | an announcement overwrites the path's home; a query is answered exactly when the table names this host |
| HomeNodes.HomeTable.Store | src/monitors/Multicast.cpp:289-290 | the local half of `setHomeNode` stores this host |
| HomeNodes.HomeTable.Ask | src/monitors/Multicast.cpp:293-304 | `getHomeNode` multicasts the query of the network model exactly when the table has no home for the path |
| HomeNodes.StepProvenance | src/monitors/Multicast.cpp:192-211 | every step keeps: announcements in flight carry their sender's own hostname for a declared path, and stored homes were declared |
| HomeNodes.EveryHomeDeclared | src/monitors/Multicast.cpp:285-312 | so it is in every reachable state, when the declared paths are plain and fit |
| HomeNodes.AnswersAgree | src/monitors/Multicast.cpp:293-312 | if one hostname alone ever declares a path, every node answers with that hostname or with none |
| HomeNodes.QueryAnswered | src/monitors/Multicast.cpp:293-312 | without loss, once nothing is in flight a node that asked answers with the home of the path, if a subscriber took itself for it when asked and no other hostname declares the path |
| HomeNodes.AnnouncementReceived | src/monitors/Multicast.cpp:285-291 | and so does every node subscribed when the home was announced |
| HomeNodes.SpacedPathCorrupts | src/monitors/Multicast.cpp:285-291 | the condition is needed: declaring `a b` stores `b` as the home of `a` |
| Configuration.CapioClConfiguration.constructor | src/configuration.cpp:49-51 | a new configuration holds no key |
| Configuration.CapioClConfiguration.Set | src/configuration.cpp:49-51 | overwrites one key |
| Configuration.CapioClConfiguration.LoadTable | src/configuration.cpp:8-35 | the recursive loop stores the table's leaves, rendered, in traversal order |
| Configuration.CapioClConfiguration.Load | src/configuration.cpp:57-71 | an empty path or an unparseable file changes nothing and fails; otherwise the table is stored over what was there |
| Configuration.CapioClConfiguration.LoadDefaults | src/defaults.cpp:3-28 | the nine defaults are stored, each key with its literal value |
| Configuration.StoredAt | src/configuration.cpp:8-35 | for every table, a key holds the last leaf flattened to it, or what it held before |
| Configuration.DottedInjective | src/configuration.cpp:12-17 | distinct paths of non-empty dot-free keys have distinct dotted forms |
| Configuration.LeavesAreLeaves | src/configuration.cpp:8-35 | the traversal meets exactly the leaves of the nested table |
| Configuration.PlainTableFlattens | src/configuration.cpp:8-35 | each leaf of a plain table is stored at its dotted path, a string as its own text, a boolean as `true` or `false` and an integer in decimal; distinct leaves have distinct keys, and every other key keeps its value |
| Configuration.LeavesFoundExactly | src/configuration.cpp:8-35 | for every table, each leaf is found at its key, rendered, exactly when no two leaves with the same key are rendered differently |
| Configuration.IntegerReadsBack | src/configuration.cpp:73-81 | an integer leaf reads back as itself exactly when an `int` holds it |
| Configuration.DottedKeyCollides | src/configuration.cpp:12-17 | keys with dots can collide: a concrete table in which one leaf hides another |
| Settings.LoadedAt | src/configuration.cpp:37-71 | after the defaults and a plain table a parameter has the value of the leaf at its path or, without one, its default |
| Settings.ApiEndpoint | src/api.cpp:104-120 | the server's constructor reads the endpoint whose meaning after a load `EndpointAfterLoad` states |
| Settings.EndpointAfterLoad | src/api.cpp:104-120 | the server listens where the file says, and on the default address or port when the file gives none or a port that no int holds |

## Left out

- RoundTripLimits.RoundTripExactly: asks for separate keys (none empty, none matching another, and a key that is another's parent a produced directory with a fixed count). Outside that domain Inheritance.InheritableRoundTrips gives a family that survives and Overlaps.OverlapLost and RoundTripLimits.AutomaticCountLost two that fail; which of the remaining engines survive depends on whether every order creates a key before the keys it matches or contains, and is not characterised.
- Inheritance.InheritableRoundTrips: gives a sufficient condition only, because a key that matches another does harm only in the orders that create it first.
- Meaning.ParsedRules: leaves open the kind and the automatic count where counts are fixed or children mentioned; Shapes.ParsedMeaning states both.
- Shapes.ParsedMeaning: asks that no mentioned path match another; with matches, Meaning.ParsedKeys still fixes the keys.
- HomeNodes.EveryHomeDeclared: asks that declared paths be free of spaces and NULs and fit the message with the hostname; SpacedPathCorrupts shows why.
- HomeNodes.HomeTable.Receive: a message with fewer tokens than the listener reads is not delivered in the model, because the listener's behaviour on it is undefined.
- Threads.ConcurrentCallsSafe: covers `newFile`, adding applications, the setters, the lazy getters, `remove` and `setAllStoreInMemory`; `setFileDeps` and `setDirectoryFileCount` appear as the setter and creation calls they make, and both forms of `add` are left out because they overwrite or concatenate lists.
- Threads.AllStaysInMemory: the same calls; one that stores on the file system while or after the flag is raised undoes it on purpose.
- The file system monitor and the wrapper that combines monitors: their state is files on disk or a forwarded call.
- Version 1.1 of the parser and serializer: the same entry logic with a version and a configuration section.
- Sockets, polling, threads, sleeps and destructors: only sending, delivery, loss and lock sections remain, and `isCommitted` and `getHomeNode` are their look-ups before and after the wait.
- JSON and TOML syntax and the schema engine: documents and tables are datatypes, and the schema is the predicate `Documents.Schema`; TOML leaves other than strings, booleans and integers are not modelled.
- Path normalisation and resolving against a prefix: paths are text with a parent, the prefix is empty, and the dependencies of an entry are compared as text.
- Character classes, equivalence classes, collating symbols and locale order in bracket sets; NUL characters in paths given to the engine, which its calls to `fnmatch` would cut short.
- Overflow of `long` counters: they are mathematical integers, except where `std::stoi` bounds them.
- `addFileDependency`, `getDirectoryFileCount`, `contains`, `size`, `getPaths` and the remaining getters: the same lookup and creation pattern as the modelled ones.
- Aliasing of entries: the source's entries are values copied into the map, so the class keeps a map of values.
- Console output, Python bindings and exception classes.
