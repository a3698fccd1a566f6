# FIEA game engine core, modelled in Dafny

This project models the reflection, container and messaging core of the FIEA
game engine, and proves properties of the model:

- the **Datum** value cell (`Datum.cpp`): a typed, growable array whose type
  tag can be set once, with checked `get<T>` and type-checked `set<T>`;
- **VectorState** (`VectorState.cpp`): the vec4 storage strategy that
  reallocates, zeroes and re-points the buffer of its context Datum;
- the chained **HashMap** (`HashMap.h`): one bucket of (key, data) pairs per
  slot, 13 buckets by default, with a hash functor picking the bucket;
- the **DefaultHash** functors (`DefaultHashTest.cpp`): identity on
  integers, character-code sums on strings and C strings, and signed-byte sums
  on object representations, all in `uint32` arithmetic;
- the **EventQueue** (`EventQueue.h`): publishers queued with a delay and
  delivered by `Update` once that delay has passed;
- **ReactionAttributed** (`ReactionAttributed.cpp`): a reaction with a
  prescribed "Subtype" attribute. When the subtypes match, `notify` copies a
  message's attributes into the reaction;
- the **ActionList** behaviour tree (`ActionList.h`, with the behaviour
  pinned down in `ActionTest.cpp`): lists run their children once per update
  and only append the actions their ActionCreateAction children asked for
  after the pass.

## How each part is written

- **Objects whose fields the source updates in place are classes.** These
  are `Datum`, `VectorState`, `HashMap`, `EventQueue`, `ReactionAttributed`,
  the subscriber `Channel` and the top-level `ActionList`. Their methods
  carry `modifies` clauses and state the whole new state.
- **Datum and VectorState keep the buffer as an array.** The Datum buffer is
  a nullable `array<Value>`, which VectorState reallocates, copies and zeroes
  in place. The copy constructor shares the same array, as the source shares
  the pointer.
- **Loops stay loops.** The loops of `VectorState`, `HashMap::find`/`clear`,
  `EventQueue::Update`, `ReactionAttributed::notify` and `ActionList::update`
  are `while` loops. The loops of `notify` (`ReactionAttributed.cpp:39-44`)
  and `VectorState` are in the source shown. Those of `HashMap::find`/`clear`,
  `EventQueue::Update` and `ActionList::update` are in HashMap.inl,
  EventQueue.cpp and ActionList.cpp, which are not part of this model; their
  loops follow the documented behaviour.
  - The loops of `EventQueue::Update`, `notify` and `ActionList::update` are
    proved equal to a specification function (`Pending`/`Expired`, `Absorb`,
    `RunPass`). The properties are then proved as lemmas about those functions.
  - The loops of `HashMap::find` and `clear` are proved against postconditions
    over the table's contents map (`AllMap`), with lemmas about that map.
  - The loops of `VectorState` are proved against postconditions that state
    the resulting buffer slots directly.
- **Pure parts are recursive functions with lemmas.** These are the hash
  functors, attribute tables and the action tree.
- **Exceptions are error values.** A thrown `std::exception` is a `Fail` or
  `Err` result. `uint32` wrap-around is written out modulo 2^32.

## Where the code departs from its documented intent

The model follows the code wherever the code and its intent (doc comments,
exception messages) disagree.

- `VectorState::setSize`, `reserve` and `clear` do not refuse external storage
  (no UnsupportedOperation). `setSize` and `reserve` re-point an external Datum
  at a fresh buffer, and `clear` zeroes the live slots of external memory too
  (`VectorState.cpp:24-41`, `43-53`, `55-62`).
- `VectorState::setStorage` is documented to throw when the Datum's own memory
  is already in use (`VectorState.cpp:78`). In the code it fails only on an
  already typed Datum, with the type-reassignment error. Its second check can
  never fire, because the first has already rejected every type but Unknown
  (`VectorState.cpp:81-83`).
- `set<T>` has no bounds check, so it never raises IndexOutOfRange
  (`Datum.cpp:129-155`).
- `ReactionAttributed::notify` iterates over every attribute of the message,
  not only its auxiliary ones (`ReactionAttributed.cpp:39`). A message
  attribute named like a prescribed attribute of the reaction ("Subtype")
  therefore raises AttributeCollision. The loop stops there, and the
  attributes copied before it stay.
- `Datum.cpp` implements its members in `namespace Datum`, while
  `VectorState.cpp` and `ReactionAttributed.cpp` are in `namespace Library`.
  The latter use Datum members that `Datum.cpp` never touches: the vec4 union
  member `mData.v` (`VectorState.cpp:18`, `28-30`) and assignment from a string
  (`ReactionAttributed.cpp:14`, `55`).
  - `Reactions` models the Datum behaviour that notify relies on. Its loop
    body sets the message Datum's type on the reaction's Datum and then
    assigns the value.
  - If that Datum were the one in `Datum.cpp`, `type()` and `operator=` would
    be stubs. `type()` would report Unknown, so `setType(Unknown)` would
    throw TypeMismatch on every existing entry that already has a type
    (`Datum.cpp:102-106`). Every other pass would copy the name only, because
    the assignment changes nothing.
  - The model of `VectorState::operator=` shows the analogous consequence of
    calling the stub `Datum::setSize`; see Findings.

## Model

| member | source | states |
|---|---|---|
| Datums.TypeOf | source/Library.Desktop/Datum.cpp:129-193 | every element value belongs to a concrete (non-Unknown) Datum type: integers, floats, strings and RTTI pointers to the types whose get/set specialisations at these lines accept them, vectors to Vector, which VectorState handles instead |
| Datums.SetTypeResult | source/Library.Desktop/Datum.cpp:102-106 | setType succeeds iff the current type is Unknown or already the requested one; then the type is the requested one, otherwise TypeMismatch |
| Datums.SetTypeIdempotent | source/Library.Desktop/Datum.cpp:104 | repeating a successful setType with the same type succeeds with the same result |
| Datums.SetTypeIsFinal | source/Library.Desktop/Datum.cpp:102-106 | once a concrete type is set, setType with any other type fails with TypeMismatch |
| Datums.Datum.constructor | source/Library.Desktop/Datum.cpp:7-9 | a new Datum has type Unknown, size 0, capacity 13, internal storage and no buffer |
| Datums.Datum.OfType | source/Library.Desktop/Datum.cpp:13-15 | the typed constructor differs from the default one only in the type |
| Datums.Datum.Copy | source/Library.Desktop/Datum.cpp:23-25 | the copy has the same type, size, capacity and external flag, and shares the very same buffer |
| Datums.Datum.Assign | source/Library.Desktop/Datum.cpp:57-62 | copy assignment is a stub: it changes nothing and returns the receiver |
| Datums.Datum.MoveAssign | source/Library.Desktop/Datum.cpp:67-72 | move assignment is a stub: it changes nothing and returns the receiver |
| Datums.Datum.Equals | source/Library.Desktop/Datum.cpp:77-82 | operator== is a stub that reports every pair of Datums equal |
| Datums.Datum.NotEquals | source/Library.Desktop/Datum.cpp:87-90 | operator!= is exactly the negation of operator==, hence always false |
| Datums.Datum.Type | source/Library.Desktop/Datum.cpp:94-98 | type() is a stub that reports Unknown whatever the stored type |
| Datums.Datum.SetType | source/Library.Desktop/Datum.cpp:102-106 | succeeds iff the type was Unknown or the requested one; on success the type is the requested one, on failure unchanged, agreeing with SetTypeResult |
| Datums.Datum.Size | source/Library.Desktop/Datum.cpp:110-113 | returns the stored size and changes nothing |
| Datums.Datum.SetSize | source/Library.Desktop/Datum.cpp:117-121 | Datum's own setSize is a stub: the Datum and its buffer are unchanged |
| Datums.Datum.Clear | source/Library.Desktop/Datum.cpp:124-127 | Datum's own clear is a stub: the Datum and its buffer are unchanged |
| Datums.Datum.Reserve | source/Library.Desktop/Datum.cpp:196-199 | Datum's own reserve is a stub: the Datum and its buffer are unchanged |
| Datums.Datum.Get | source/Library.Desktop/Datum.cpp:157-193 | fails with TypeMismatch on a wrong type, then NullStorage on a null buffer, then IndexOutOfRange when index >= size; succeeds exactly otherwise, returning slot index |
| Datums.Datum.Set | source/Library.Desktop/Datum.cpp:129-155 | succeeds iff the value's type is the Datum's; then slot index holds the value and every other slot is unchanged; on failure no slot changes |
| VectorStates.VectorState.constructor | source/Library.Desktop/VectorState.cpp:7-9 | the state works on the Datum it is given |
| VectorStates.VectorState.CopyInto | source/Library.Desktop/VectorState.cpp:28-30 | a fresh buffer of the requested length whose first count slots equal the old buffer's |
| VectorStates.VectorState.AssignScalar | source/Library.Desktop/VectorState.cpp:14-20 | as written: fails iff size > 1; otherwise slot 0 holds the vector and every other slot is unchanged, but the size is unchanged, so an empty Datum stays empty |
| VectorStates.VectorState.AssignScalarGrowing | source/Library.Desktop/VectorState.cpp:14-20 | as intended: fails iff size > 1 and then changes nothing; otherwise the Datum holds exactly one element, the vector |
| VectorStates.VectorState.SetSize | source/Library.Desktop/VectorState.cpp:24-41 | capacity becomes max(capacity, n) and size n in a fresh buffer of that capacity; the first min(old size, n) slots are preserved, the vacated slots [n, old size) hold the zero vector, type and flag unchanged, size <= capacity kept |
| VectorStates.VectorState.Reserve | source/Library.Desktop/VectorState.cpp:43-53 | fails iff c < size and then changes nothing; otherwise capacity is c in a fresh buffer of c slots, size unchanged and the live slots preserved |
| VectorStates.VectorState.Clear | source/Library.Desktop/VectorState.cpp:55-62 | every previously live slot is the zero vector, every other slot unchanged, size 0, capacity and buffer unchanged; a no-op on an empty Datum |
| VectorStates.VectorState.SetStorage | source/Library.Desktop/VectorState.cpp:79-88 | fails with TypeMismatch unless the type is Unknown, changing nothing; otherwise the Datum is an external Vector Datum on the given buffer with capacity = size = count |
| VectorStates.VectorState.SetStorageFrom | source/Library.Desktop/VectorState.cpp:70-73 | setStorage(rhs) is setStorage(rhs's buffer, rhs's size) |
| VectorStates.AssignToEmptyDatum | source/Library.Desktop/VectorState.cpp:14-20 | the as-written assignment on an empty external Datum succeeds and writes slot 0, yet the Datum's size stays 0 |
| VectorStates.AssignGrowingToEmptyDatum | source/Library.Desktop/VectorState.cpp:14-20 | the intended assignment on the same Datum leaves size 1 with element 0 the vector |
| HashMaps.IndexOfKey | source/Library.Desktop/HashMap.h:42-45 | the first position in a bucket holding the key, or none iff no pair of the bucket has the key |
| HashMaps.BucketMapLookup | source/Library.Desktop/HashMap.h:11-12 | a bucket maps a key iff it has a pair with that key, to that pair's data |
| HashMaps.AllMapAt | source/Library.Desktop/HashMap.h:62-63 | when every pair lives in the bucket the functor selects, a key is in the table's map iff the selected bucket has it, with that bucket's data |
| HashMaps.SameKeysSameIndex | source/Library.Desktop/HashMap.h:48-51 | overwriting data in place keeps every key at its position |
| HashMaps.IndexOfKeyAppend | source/Library.Desktop/HashMap.h:48-51 | appending a pair with a new key finds it at the end and every other key where it was |
| HashMaps.UpdateBucket | source/Library.Desktop/HashMap.h:48-51 | replacing the entry's bucket by one that holds the entry and agrees on every other key changes the table's map at the entry's key only |
| HashMaps.EmptyBucketsMap | source/Library.Desktop/HashMap.h:72-73 | a table of empty buckets is the empty map |
| HashMaps.HashMap.Default | source/Library.Desktop/HashMap.h:17-20 | the default constructor creates 13 empty buckets, an empty map, with the default functor |
| HashMaps.HashMap.constructor | source/Library.Desktop/HashMap.h:22-24 | the sized constructor creates exactly hashMapSize empty buckets and an empty map with the given functor |
| HashMaps.HashMap.Copy | source/Library.Desktop/HashMap.h:29-31 | the copy has the same buckets, size, functor and contents; being values, the buckets are not shared |
| HashMaps.HashMap.Assign | source/Library.Desktop/HashMap.h:36-39 | after assignment this holds a deep copy of rhs's buckets, size, functor and contents |
| HashMaps.HashMap.InitializeBuckets | source/Library.Desktop/HashMap.h:72-73 | one empty bucket per slot, so the map is empty and the placement invariant holds |
| HashMaps.HashMap.Find | source/Library.Desktop/HashMap.h:42-46 | end iff the key is absent; otherwise an iterator at the key's pair, holding the key and its data |
| HashMaps.HashMap.Insert | source/Library.Desktop/HashMap.h:48-51 | afterwards the map is the old one with key mapped to the entry's data, the invariants hold, and the iterator refers to the stored entry |
| HashMaps.HashMap.Index | source/Library.Desktop/HashMap.h:53-56 | returns the key's data, inserting the default data first when the key is absent; afterwards the key maps to the returned data |
| HashMaps.HashMap.Clear | source/Library.Desktop/HashMap.h:58-59 | every bucket is empty and the map has no entries; the bucket count and functor stay |
| HashMaps.CopyIsIndependent | source/Library.Desktop/HashMap.h:29-39 | inserting into a copy changes the copy's contents and leaves the source's contents unchanged |
| DefaultHash.AccumulateIsWrappedSum | D-Squared-Engine/source/Test.Library.Shared/DefaultHashTest.cpp:32-37 | adding into a uint32 step by step equals the exact sum reduced modulo 2^32 |
| DefaultHash.IntHash | D-Squared-Engine/source/Test.Library.Shared/DefaultHashTest.cpp:42-46 | an int hashes to itself, converted to uint32 (a negative int to itself plus 2^32) |
| DefaultHash.OneHash | D-Squared-Engine/source/Test.Library.Shared/DefaultHashTest.cpp:45 | hash(1) is 1u |
| DefaultHash.StringHashIsSumOfCodes | D-Squared-Engine/source/Test.Library.Shared/DefaultHashTest.cpp:48-53 | a string hashes to the sum of its character codes modulo 2^32 |
| DefaultHash.StringHash | D-Squared-Engine/source/Test.Library.Shared/DefaultHashTest.cpp:48-53 | the `DefaultHash<std::string>` functor: no contract of its own; its meaning, the sum of character codes modulo 2^32, is StringHashIsSumOfCodes |
| DefaultHash.HelloHash | D-Squared-Engine/source/Test.Library.Shared/DefaultHashTest.cpp:51-52 | "hello" hashes to 'h'+'e'+'l'+'l'+'o' |
| DefaultHash.CString | D-Squared-Engine/source/Test.Library.Shared/DefaultHashTest.cpp:55-61 | the characters a char* designates: the longest NUL-free prefix of the memory, followed by a NUL when shorter than the memory |
| DefaultHash.CStringOfTerminated | D-Squared-Engine/source/Test.Library.Shared/DefaultHashTest.cpp:59 | a NUL-terminated copy of a NUL-free string designates exactly that string |
| DefaultHash.CStringHashMatchesStringHash | D-Squared-Engine/source/Test.Library.Shared/DefaultHashTest.cpp:55-61 | a char* hashes to the string hash of the same characters |
| DefaultHash.CStringHash | D-Squared-Engine/source/Test.Library.Shared/DefaultHashTest.cpp:55-61 | the `DefaultHash<char*>` functor: no contract of its own; CStringHashMatchesStringHash ties it to the string hash of the designated characters |
| DefaultHash.GenericHashIsByteSum | D-Squared-Engine/source/Test.Library.Shared/DefaultHashTest.cpp:26-40 | the generic hash is the sum of the representation's bytes read as int8, modulo 2^32 |
| DefaultHash.GenericHash | D-Squared-Engine/source/Test.Library.Shared/DefaultHashTest.cpp:26-40 | the generic `DefaultHash<T>` functor: no contract of its own; GenericHashIsByteSum states it is the signed byte sum modulo 2^32 |
| EventQueues.Entry.IsExpired | D-Squared-Engine/source/Library.Shared/EventQueue.h:45-49 | the due test: an entry is due once its enqueue time plus its delay has been reached; DeliveredIffDue ties delivery to it |
| EventQueues.Expired | D-Squared-Engine/source/Library.Shared/EventQueue.h:45-49 | the delivered entries: never more than queued, every one of them due |
| EventQueues.Pending | D-Squared-Engine/source/Library.Shared/EventQueue.h:45-49 | the kept entries: never more than queued, none of them due |
| EventQueues.UpdatePartitions | D-Squared-Engine/source/Library.Shared/EventQueue.h:45-49 | delivered and kept entries together are exactly the old queue as a multiset: none lost, none duplicated |
| EventQueues.DeliveredIffDue | D-Squared-Engine/source/Library.Shared/EventQueue.h:45-49 | a queued entry is delivered iff it is due, and kept iff it is not |
| EventQueues.NoneExpired | D-Squared-Engine/source/Library.Shared/EventQueue.h:45-49 | a queue with nothing due is delivered nothing and kept whole |
| EventQueues.UpdateIdempotent | D-Squared-Engine/source/Library.Shared/EventQueue.h:45-49 | a second Update at the same time delivers nothing and keeps the queue |
| EventQueues.PendingMonotone | D-Squared-Engine/source/Library.Shared/EventQueue.h:45-49 | an Update at an earlier time followed by one at a later time leaves the same queue as the later one alone |
| EventQueues.EventQueue.constructor | D-Squared-Engine/source/Library.Shared/EventQueue.h:16 | a new queue is empty |
| EventQueues.EventQueue.Enqueue | D-Squared-Engine/source/Library.Shared/EventQueue.h:30-37 | appends exactly one entry with the publisher, the current time and the delay (0 ms by default) |
| EventQueues.EventQueue.Send | D-Squared-Engine/source/Library.Shared/EventQueue.h:39-43 | delivers exactly that publisher, without touching the queue |
| EventQueues.EventQueue.Update | D-Squared-Engine/source/Library.Shared/EventQueue.h:45-49 | delivers the publishers of the due entries in queue order and keeps exactly the entries not yet due, in order |
| EventQueues.EventQueue.Clear | D-Squared-Engine/source/Library.Shared/EventQueue.h:51-54 | the queue becomes empty and nothing is delivered |
| EventQueues.EventQueue.IsEmpty | D-Squared-Engine/source/Library.Shared/EventQueue.h:56-60 | true iff no entry is queued; changes nothing |
| EventQueues.EventQueue.Size | D-Squared-Engine/source/Library.Shared/EventQueue.h:62-66 | the number of queued entries; changes nothing |
| EventQueues.DelayOrdering | D-Squared-Engine/source/Library.Shared/EventQueue.h:30-49 | P1 (10 ms) and P2 (5 ms) queued at t: Update(t+5) delivers only P2 and keeps P1, and Update(t+10) then delivers P1 |
| Reactions.IndexOfName | source/Library.Desktop/ReactionAttributed.cpp:41 | the first entry of a table with the name, or none iff no entry has it |
| Reactions.AppendAuxiliary | source/Library.Desktop/ReactionAttributed.cpp:41 | AttributeCollision iff the name is prescribed; otherwise the entry of that name, appended as an untyped empty Datum exactly when absent, with the rest of the table unchanged |
| Reactions.CopyAttribute | source/Library.Desktop/ReactionAttributed.cpp:41-43 | one loop pass succeeds iff the name is not prescribed and any existing entry of the name is untyped or of the message Datum's type; the error is AttributeCollision or TypeMismatch accordingly |
| Reactions.CopyKeepsFirst | source/Library.Desktop/ReactionAttributed.cpp:41-43 | a successful pass for an attribute of another name keeps the table's first entry, which is where "Subtype" sits |
| Reactions.CopyAttributeShape | source/Library.Desktop/ReactionAttributed.cpp:41-43 | after a successful pass the table holds the message attribute under its name, other entries keep their names and Datums, new entries carry only that name |
| Reactions.AbsorbStops | source/Library.Desktop/ReactionAttributed.cpp:39-44 | once a pass throws, the remaining attributes change nothing |
| Reactions.Absorb | source/Library.Desktop/ReactionAttributed.cpp:39-44 | notify's loop as a function: no contract of its own; AbsorbStops, PrescribedNameCollides and AbsorbSpec state what it does, and Notify is proved equal to it |
| Reactions.PrescribedNameCollides | source/Library.Desktop/ReactionAttributed.cpp:39-44 | a message attribute with a prescribed name, once reached, makes notify throw AttributeCollision, keeping the copies made before it |
| Reactions.AbsorbSpec | source/Library.Desktop/ReactionAttributed.cpp:37-45 | for a message with unique names, notify succeeds iff every attribute is accepted; existing entries keep names and, unless the message names them, Datums; new entries carry message names; on success every message attribute is present with its type and value |
| Reactions.MatchingSubtypeScenario | source/Library.Desktop/ReactionAttributed.cpp:37-45 | a "Foo" reaction notified with a "Foo" message whose walked table holds only an Integer attribute gains that attribute, type and value included |
| Reactions.SubtypeEntryCollides | source/Library.Desktop/ReactionAttributed.cpp:34-41 | a matching message whose walked table starts with its own "Subtype" entry makes notify throw AttributeCollision and leaves the reaction's table as it was |
| Reactions.Channel.constructor | source/Library.Desktop/ReactionAttributed.cpp:17 | a channel starts with no subscribers |
| Reactions.Channel.Subscribe | source/Library.Desktop/ReactionAttributed.cpp:17 | subscribing adds the subscriber and nothing else |
| Reactions.Channel.Unsubscribe | source/Library.Desktop/ReactionAttributed.cpp:22 | unsubscribing removes the subscriber and nothing else |
| Reactions.ReactionAttributed.constructor | source/Library.Desktop/ReactionAttributed.cpp:11-18 | "Subtype" is a String attribute holding "", recorded as a prescribed signature, and the reaction is subscribed to the channel |
| Reactions.ReactionAttributed.Dispose | source/Library.Desktop/ReactionAttributed.cpp:20-23 | destruction unsubscribes the reaction from the channel |
| Reactions.ReactionAttributed.GetSubtype | source/Library.Desktop/ReactionAttributed.cpp:48-51 | the single string of the "Subtype" entry, which the table finds first |
| Reactions.ReactionAttributed.SetSubtype | source/Library.Desktop/ReactionAttributed.cpp:53-56 | afterwards getSubtype returns the new subtype and only the "Subtype" entry changed |
| Reactions.ReactionAttributed.Notify | source/Library.Desktop/ReactionAttributed.cpp:25-46 | on another subtype nothing changes; on a match the table and outcome are those of copying the message's attributes in order (Absorb); in both cases the reaction's subtype is unchanged and the table keeps its Valid shape |
| Actions.Instantiate | source/Library.Desktop/ActionList.h:17-21 | a known class name yields a fresh action of that class named instanceName; an unknown one yields none |
| Actions.StepAll | source/Library.Desktop/ActionList.h:15 | a pass updates every child exactly once, in place and in order |
| Actions.Step | D-Squared-Engine/source/Test.Library.Shared/ActionTest.cpp:75-147 | one action's update: no contract of its own; its effect on each kind is stated by IncrementCounts (ActionIncrement), ListIfRunsOneBranch (ActionListIf), StepListRunsItsPass (a child ActionList) and StepCreatorIsIdle (ActionCreateAction); StepKeepsIdentity adds that names and kinds stay |
| Actions.RunPass | source/Library.Desktop/ActionList.h:15 | ActionList::update over a table: no contract of its own; PassRunsEachChildOnce, PassOverMixedTable and NoCreatorNoGrowth state it, and ActionList.Update is proved equal to it |
| Actions.Requests | D-Squared-Engine/source/Test.Library.Shared/ActionTest.cpp:103-117 | the requests collected during a pass: at most one per child; content in RequestsSpec, RequestsAppend and AppendedAreCreated |
| Actions.Materialize | D-Squared-Engine/source/Test.Library.Shared/ActionTest.cpp:103-117 | the flush after the pass: at most one action per request; content in MaterializeSpec, MaterializeAppend and AppendedAreCreated |
| Actions.PassRunsEachChildOnce | source/Library.Desktop/ActionList.h:15 | every action present at the start of a pass is updated exactly once and keeps its index |
| Actions.RequestsSpec | D-Squared-Engine/source/Test.Library.Shared/ActionTest.cpp:103-117 | the two pure cases: a table without creators records no requests, and a table of creators only records each one's (prototype, instance name) in order |
| Actions.MaterializeSpec | D-Squared-Engine/source/Test.Library.Shared/ActionTest.cpp:103-117 | every created action is fresh; when all prototypes are known there is one per request, in request order; when none is known nothing is created |
| Actions.RequestsAppend | source/Library.Desktop/ActionList.h:15 | the requests of two tables in a row are the first table's followed by the second's |
| Actions.MaterializeAppend | source/Library.Desktop/ActionList.h:15 | creating from two request lists in a row is creating from each in turn |
| Actions.CreatedBy | D-Squared-Engine/source/Test.Library.Shared/ActionTest.cpp:103-117 | one child creates exactly one action iff it is a creator with a known prototype, the factory's instance of it; otherwise none |
| Actions.AppendedAreCreated | D-Squared-Engine/source/Test.Library.Shared/ActionTest.cpp:103-117 | for any table, creators mixed with other children and known with unknown prototypes, the actions a pass appends are exactly those its creator children with known prototypes create, one each, in the children's order |
| Actions.PassOverMixedTable | source/Library.Desktop/ActionList.h:15 | a pass over any table is every child updated in place followed by the actions its creators create (Created) |
| Actions.NoCreatorNoGrowth | source/Library.Desktop/ActionList.h:15 | without creator children a pass only updates the children |
| Actions.IncrementCounts | D-Squared-Engine/source/Test.Library.Shared/ActionTest.cpp:75-93 | k updates of an ActionIncrement add exactly k to its count |
| Actions.ListIfRunsOneBranch | D-Squared-Engine/source/Test.Library.Shared/ActionTest.cpp:136-147 | an ActionListIf updates its "Then" list when the condition holds and its "Else" list otherwise, leaving the other list unchanged |
| Actions.StepListRunsItsPass | source/Library.Desktop/ActionList.h:15 | a child ActionList updates by running one pass over its own table, so nested lists update recursively |
| Actions.StepCreatorIsIdle | D-Squared-Engine/source/Test.Library.Shared/ActionTest.cpp:103-117 | an ActionCreateAction is unchanged by its own update; its effect is the request its owning list's pass records |
| Actions.StepKeepsIdentity | source/Library.Desktop/ActionList.h:15 | an update never changes an action's name or kind |
| Actions.CreatorScenario | D-Squared-Engine/source/Test.Library.Shared/ActionTest.cpp:103-117 | an ActionCreateAction with prototype "ActionList": after one list update, index 1 holds a new ActionList |
| Actions.ListIfScenario | D-Squared-Engine/source/Test.Library.Shared/ActionTest.cpp:176-186 | a true ActionListIf with an ActionIncrement under "Then": one update moves its count from 0 to 1 |
| Actions.ActionList.constructor | D-Squared-Engine/source/Test.Library.Shared/ActionTest.cpp:97-98 | a new list has the name "" and an empty table |
| Actions.ActionList.Name | D-Squared-Engine/source/Test.Library.Shared/ActionTest.cpp:95-101 | Name(): the stored name; the constructor and SetName state its values |
| Actions.ActionList.SetName | D-Squared-Engine/source/Test.Library.Shared/ActionTest.cpp:99-100 | afterwards Name() is the new name |
| Actions.ActionList.CreateAction | source/Library.Desktop/ActionList.h:17-21 | returns the factory's fresh action and appends it to the table; an unknown class leaves the table unchanged |
| Actions.ActionList.Update | source/Library.Desktop/ActionList.h:15 | the table becomes every child updated once in order, followed by the actions the creators requested (RunPass) |
| Actions.NameScenario | D-Squared-Engine/source/Test.Library.Shared/ActionTest.cpp:95-101 | a default list renamed "Dale" reports "Dale" |
| Actions.CreateActionScenario | D-Squared-Engine/source/Test.Library.Shared/ActionTest.cpp:67-73 | createAction("ActionList", ...) on an empty list returns an ActionList, stored at index 0 |

## Left out

- The Datum move constructor (`Datum.cpp:29-52`) is not modelled: it frees the buffer it has just aliased and leaves size, capacity and the external flag of the new Datum uninitialised.
- Memory management is not modelled: malloc, free and leaks. VectorState's reallocation is a fresh array, and `setSize` never frees the old buffer.
- `VectorState::setFromString` is an empty stub and is not modelled.
- glm::vec4 components are kept as float bit patterns; no float arithmetic is modelled. The zero vector is the vector of +0.0f bit patterns.
- Datum.h is not part of this model. The buffer of a default-constructed Datum is taken to be null.
- Datums.Datum.Set: requires the slot to lie inside the buffer. The source writes without a bounds check, and writing beyond the buffer is undefined behaviour.
- VectorStates.VectorState.SetSize, Reserve, Clear, AssignScalar and AssignScalarGrowing: these require the Datum invariant (size <= capacity <= buffer length). The source assumes it but does not check it.
- VectorStates.VectorState.AssignScalar: requires a buffer of at least one slot whenever the size is at most 1. On a default-constructed Datum, whose buffer is null, the source would write slot 0 through a null pointer (undefined behaviour).
- VectorStates.VectorState.SetStorage: requires count to fit the given memory, and a null pointer only with count 0. A view larger than its memory is undefined behaviour in the source.
- HashMap.inl, which holds the HashMap's member bodies, is not part of this model.
  - HashMap follows the documented behaviour.
  - insert overwrites the data of an existing key.
  - operator[] inserts the default-constructed data (passed in as `defaultData`) for an absent key.
  - find returns the documented iterator, although its declaration still returns void.
- HashMaps.HashMap.Find, Insert and Index: these require the functor to select an existing bucket for the key, because the source indexes mBuckets with its result.
- The body of `defaultHashFunctor` is not shown, so the functor is a constructor parameter.
- Datums.Datum.Get: returns a copy of the slot, not the `T&` reference of `get<T>` (`Datum.cpp:158`) through which the caller could write; writes go through Set.
- HashMaps.HashMap.Index: returns the data by value, not a reference through which the caller could write.
- The HashMap iterator's owner pointer is not modelled; an iterator is a bucket, an index and the pair.
- EventQueues.Entry: the enqueue time and the delay are kept per queue entry. The source's queue holds EventPublisher pointers (`EventQueue.h:70`), so the time stamp lives on the publisher, and enqueuing an already-queued publisher again would re-stamp its earlier entry as well; the model keeps two independent entries.
- Event delivery time: EventQueue.cpp is not part of this model. An entry is taken to be due when its enqueue time plus its delay is at most the update time.
- EventQueue concurrency (the mutex) and GameTime/chrono: time is a natural number of milliseconds, and delivery (notifyAll) is the returned sequence of publishers.
- The copy and move operations of EventQueue are deleted in the source and have no counterpart.
- The global per-type subscriber list of Event<T> is an explicit Channel object that is passed in.
- RTTI Is/As, downcasting and the `assert`s on the event's type: notify requires an attributed event as a precondition.
- Reactions: appendAuxiliaryAttribute (Attributed.cpp, not part of this model) is taken to fail with AttributeCollision on a prescribed name and otherwise to find an entry of that name or append an untyped empty one.
- Reactions.Message: EventMessageAttributed.h is not part of this model, so how a message stores its own subtype is unknown. The model keeps the subtype apart from the attribute table notify walks. Reactions.MatchingSubtypeScenario depends on this. If the message keeps its subtype as a "Subtype" attribute, as ReactionAttributed does, notify reaches that prescribed name and throws AttributeCollision (Reactions.SubtypeEntryCollides).
- Reactions: the Datum of namespace Library that ReactionAttributed uses is not part of this model; its entries are values (type and elements).
- The "this" attribute and the other Attributed/Scope machinery (parent links, nesting) are not modelled.
- The float and pointer hash tests are not modelled: they read bytes of float objects, and the pointer test reads sizeof(float*) bytes from a float, which overruns. The generic hash is modelled over an abstract int8 byte sequence.
- Character codes are Dafny character values. There is no char signedness or encoding.
- Actions: ActionList.cpp and the bodies of ActionCreateAction, ActionIncrement and ActionListIf are not part of this model. Three things follow the documented intent and the expectations of ActionTest.cpp rather than code: creation is deferred until after the pass, each kind's update (Step), and a new ActionListIf's false condition (IsFresh).
- ActionDestroyAction is not modelled, as no test asserts its effect. The model's factory therefore does not know the class name "ActionDestroyAction".
- ActionList's WorldState/GameTime parameters, XML loading (XmlParseHelperEntity), World/Sector/Entity and the factory registration objects are not modelled.
- Actions.IncrementCounts: ActionIncrement's step is taken to be 1, the only step the tests exercise.
- Actions.ActionList: the in-place edits tests make through child pointers (SetPrototype, SetCondition) are modelled on values in the scenario lemmas, not as aliasing through the table.

## Findings

| source | as written | input that shows it | evidently intended | confidence | as-written member | corrected member |
|---|---|---|---|---|---|---|
| source/Library.Desktop/VectorState.cpp:14-20 | on an empty Datum, `operator=(vec4)` calls the context's `setSize(1)`; with Datum.cpp's setSize, which is a stub, the size stays 0 while slot 0 is written | an untyped Datum given external storage of one slot with count 0, then assigned a vector: it succeeds, but the Datum still has size 0 | the Datum grows to one element, so afterwards element 0 is the assigned vector | low, not executed: the source's Datum class for namespace Library is not part of this model, and the finding holds only if the context's setSize is Datum.cpp's stub | VectorStates.AssignToEmptyDatum | VectorStates.AssignGrowingToEmptyDatum |
