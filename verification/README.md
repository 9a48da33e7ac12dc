# OpenSAND: a verified model of its configuration, event loop, FIFOs and resequencing

OpenSAND emulates a satellite system. This project models, in Dafny, the parts of it whose
correctness is least visible in any one function, and proves what they are for.

* **Configuration (opensand-conf).** A schema (`MetaModel`) is a tree of components, parameters and
  lists, each list with a pattern. It generates data models (`DataModel`). Any element may carry a
  reference: it is active only while a parameter elsewhere has an expected value. Schemas and data are
  cloned, instantiated and loaded by building a bare tree and looking both ends of every reference up
  again by path. Data are written to and read from XML, schemas to and from XSD.
  Modules `Paths`, `Numerals`, `Values`, `TypesLists`, `Elements`, `Edits`, `References`, `Copies`,
  `DataLists`, `DataTrees`, `Instances`, `Xml`, `Descendants`, `Loading`, `DataModels`, `MetaModels`,
  `Xsd`, `XsdTrees`, `XsdReferences`, `XsdDocuments`, `XsdContents`, `XsdReading`, `XsdModels`, `DataDocuments`.
* **Inter-thread FIFO (opensand-rt).** A semaphore, a mutex, a queue and a signalling pipe between any
  number of pushing threads and one event loop, as atomic steps with program counters, for every
  capacity. Module `RtFifo`.
* **Event loop (opensand-rt).** Deferred additions and removals of events, the descriptor set and its
  bound, the scan with its early exit, and the order in which events are served. Modules `RtEvents`,
  `EventLoops`.
* **UDP resequencing and delay (opensand-core).** The 256-slot reorder buffer with its modulo-256
  counters, against a reference on unbounded sequence numbers; and the delay queue with its binary
  search. Modules `UdpStacks`, `Resequencing`, `Flows`, `Watches`, `LateArrivals`, `Windows`,
  `UdpChannels`, `DelayFifos`.
* **Topology (opensand-core).** The index from spots to terminals against the direct scan, and the
  scaling of the ratios of a carrier. Modules `Topologies`, `Ratios`.

`dafny verify dfyconfig.toml` checks everything.

## How to read the model

The identity of an element of a tree is its position (`Elements.Pos`); a reference, a pointer in the
sources, is the number of a model and a position in it. `Built`, `Placed` and `Named` are what the
`add*` operations establish about ids and paths; `WellFormed` adds that every reference targets a
parameter of the same model and expects a value of its type. `CopyTree` is the copy that `clone` and
`createData` make, `Stamp` the one that `addItem` makes of a pattern, `Grown` a list after `addItem`.
A data model `Descends` from the fresh one by `addItem` and by setting values, anywhere, in patterns too; it
is an `Instance` of it when its patterns are as the schema made them. `Loading.Fits` and `Loading.Result` are the
documents that can be loaded, and what they give, item by item.

Some facts came out differently from what one would expect of the code:

* The resequencer is right for a datagram exactly when its number is at most 255 ahead of the last one handed
  up, which is more than half of the number space, and newer than it; a second copy of a packet that is held
  does no harm. After a datagram with any other number, some packets that come in the window make the channel
  hand up an old packet, or packets out of order, or lose one newer than all handed up before the datagram
  (`Windows.WindowIff`). Dropping a late datagram would do no harm; this channel takes it for a packet yet to come
  (`LateArrivals.LateUnsafe`). Four datagrams on a new channel show it (`Windows.OrderLost`).
* `operator<` on events is not a strict weak order with a clock that ticks faster than a microsecond:
  events can tie pairwise along a chain of which the ends do not tie. A longer tick can fail as well, when it
  is out of step with the 100 seconds of a priority level. `RtEvents.StrictWeakIff` gives the exact condition
  for every tick and number of levels; for any number of levels it is that the greatest common divisor of the
  tick and 100 seconds is a microsecond or more (`RtEvents.StrictWeakForAllLevelsIff`).
* The bound that the event loop passes to `select` covers its own pipe only because it is recomputed
  while the removed event is still in the map (`EventLoops.RtChannelBase.EraseRemovedEvents`).
* A signal that cannot be written after a message was queued costs the FIFO one place for good. Producers go
  on exactly while fewer signals were lost than the queue has places (`RtFifo.PermitComesIff`); the third loss
  blocks the FIFOs of the sources, which have three (`RtFifo.ThirdLostSignalBlocks`).
* `clone` of a reference that expects a string not yet set gives one that expects the empty string
  (`Copies.CopyMeaning`).
* A terminal that two assignments put in two spots is in both according to the index, and in the last
  one according to the scan (`Topologies.IndexIsScanIff`). Spot identifiers are cut to 8 bits.
* An enumeration type named "component" or "list" makes a schema that uses it unreadable, and so does
  one whose only value is the empty string (`XsdModels.SaveAndLoadSchema`).
* A parameter that holds the empty string comes back unset (`Xml.RoundTripExact`).

## Model

| member | source | states |
|---|---|---|
| Paths.SplitPath | opensand-conf/src/Path.cpp:40-58 | the non-empty pieces between separators, in order; for a path rendered from ids these are the ids |
| Paths.SegmentsRender | opensand-conf/src/Path.cpp:40-58 | splitting the path made of non-empty, separator-free ids gives these ids back |
| Paths.GetCommonPath | opensand-conf/src/Path.cpp:60-87 | equal paths are returned as they are; otherwise the path rendered from the longest common prefix of the two segment sequences |
| Paths.CommonPrefixLongest | opensand-conf/src/Path.cpp:60-87 | no common prefix of the two is longer than the one found |
| Paths.GetRelativePath | opensand-conf/src/Path.cpp:89-106 | the string prefix and the separators after it are cut off; a path that does not start with the parent is returned whole |
| Paths.RelativeOfRender | opensand-conf/src/Path.cpp:89-106 | on canonical paths the relative path names exactly the segments below the parent, and parent and relative path rebuild the path |
| Paths.CommonThenRelative | opensand-conf/src/Path.cpp:60-106 | common path and relative path split a canonical path at the deepest common ancestor |
| Paths.CommonBelow | opensand-conf/src/DataList.cpp:96-106 | the test by common path holds exactly for paths below the pattern |
| Paths.SegmentsSnoc | opensand-conf/src/DataElement.cpp:157-163 | appending an id to a path appends one segment, or none when the id is empty |
| Numerals.ParsePrint | opensand-conf/src/DataValue.h:207-225 | an integer in the range of its type is read back from what it prints |
| Numerals.ParseIff | opensand-conf/src/DataValue.h:218-225 | a number is read exactly from a text that starts, after blanks, with a sign or none and digits that spell a number in the range of the type |
| Numerals.DecInjective | opensand-conf/src/DataList.cpp:84-90 | different item numbers give different ids |
| Values.ReadBack | opensand-conf/src/DataValue.h:207-243 | `fromString` of `toString` restores every checked value |
| Values.ReadsIff | opensand-conf/src/DataValue.h:218-225 | `fromString` accepts exactly the texts that can be read as a value of the type, an enumeration only its own values, and stores that value |
| Values.Prints | opensand-conf/src/DataValue.h:207-216 | nothing without a value, `true` or `false`, a string as it is, a number in decimal without leading zeros |
| Values.PrintsEmpty | opensand-conf/src/DataValue.h:207-216 | a set value prints as nothing exactly when it is the empty string |
| Values.CopyReproduces | opensand-conf/src/DataValue.h:195-205 | `copy` into a fresh data of the same type reproduces a set value, and makes an unset string the set empty one if its type accepts that |
| TypesLists.BuiltInTypes | opensand-conf/src/MetaTypesList.cpp:50-69 | what values the built-in types have: `short`, `int` and `long` those of 16, 32 and 64 bits |
| TypesLists.GotType | opensand-conf/src/MetaTypesList.cpp:114-123 | the type of an id has the id; an id that is not built in is that of an enumeration or of none |
| TypesLists.KnowsMore | opensand-conf/src/MetaTypesList.cpp:140-153 | adding an enumeration changes no type that the list knows |
| TypesLists.ListingIs | opensand-conf/src/MetaTypesList.cpp:125-133 | the listing of a map or set has each element once |
| TypesLists.ListingAscends | opensand-conf/src/MetaTypesList.cpp:125-133 | and in ascending order |
| Elements.GetItemFromRoot | opensand-conf/src/DataElement.cpp:45-84 | the walk down the segments finds what following them one by one finds; nothing for the empty path |
| Elements.FindItem | opensand-conf/src/DataContainer.cpp:118-123 | the first item with the id, and none only when no item has it |
| Elements.PathLookup | opensand-conf/src/DataElement.cpp:45-84 | in every tree the `add*` operations build, looking up the path of an element gives that element if and only if it is not the root, no id on its way is empty and no item on it is named "*" |
| Elements.NamedPathLookup | opensand-conf/src/MetaElement.cpp:46-74 | with proper names the schema and item lookups agree, on the ways down they can take |
| Elements.ResolveSound | opensand-conf/src/DataElement.cpp:45-84 | what a lookup finds has exactly the ids of the path on its way down |
| Edits.AppendNames | opensand-conf/src/MetaComponent.cpp:95-174 | appending a child with a new separator-free id keeps ids distinct and parent paths right, and proper names when the id is proper |
| Edits.AppendOld | opensand-conf/src/MetaContainer.cpp:91-94 | appending changes nothing of what was there |
| References.VisitsOnce | opensand-conf/src/MetaModel.cpp:80-100 | the worklist, started at an element, visits every element below it exactly once and nothing else |
| References.WeightKids | opensand-conf/src/MetaModel.cpp:80-100 | every round makes the worklist lighter, so it ends |
| References.KeptOnce | opensand-conf/src/DataList.cpp:92-126 | a finished worklist has kept every element that passes its test, each once |
| References.FindReferenced | opensand-conf/src/MetaModel.cpp:80-100 | the first loop finds every element with a reference, each once |
| Copies.CopyReference | opensand-conf/src/MetaModel.cpp:101-124 | one reference is re-created from the paths of both ends, unless it is one of the root or `createData` finds no expected value |
| Copies.CopyReferences | opensand-conf/src/MetaModel.cpp:72-186 | both loops: the copy is complete if and only if the root has no reference and, for `createData`, every expected value is set; it is then the copied tree |
| Copies.CopyHolds | opensand-conf/src/MetaModel.cpp:72-186 | a clone says and holds what its source does; where a schema has a parameter, what `createData` makes has unset data of its type |
| Copies.CopyMeaning | opensand-conf/src/MetaModel.cpp:72-186 | same shape and paths; every reference targets the element of the copy, never of the source, with the path of the old target, by lookup too, and expects the same value, but that `clone` makes an unset string the empty string |
| Copies.CopyWellFormed | opensand-conf/src/MetaModel.cpp:72-186 | a copy is a well-formed model of its own |
| Copies.CloneOfClone | opensand-conf/src/DataModel.cpp:62-120 | cloning a clone is cloning the original |
| DataLists.DuplicateIsStamp | opensand-conf/src/DataElement.cpp:106-130 | duplication of a pattern succeeds and keeps every reference as it is |
| DataLists.FindInternal | opensand-conf/src/DataList.cpp:92-126 | the elements of the pattern whose reference targets a parameter below the pattern |
| DataLists.ThroughPatternIff | opensand-conf/src/DataList.cpp:104-112 | the test on paths picks exactly the targets below the pattern |
| DataLists.RelativeLookup | opensand-conf/src/DataList.cpp:127-143 | the path relative to the pattern leads, in the new item, to the corresponding element |
| DataLists.MoveReference | opensand-conf/src/DataList.cpp:127-147 | one internal reference is re-created at the corresponding ends of the new item |
| DataLists.MakeItem | opensand-conf/src/DataList.cpp:81-151 | the new item is the pattern with internal references moved; nothing when the pattern component itself refers into itself |
| DataTrees.AddItemRebinds | opensand-conf/src/DataList.cpp:81-151 | in the new item a reference that pointed inside the pattern points at the corresponding parameter of the same item, any other points where it did; both expect the same value |
| DataTrees.GrownOld | opensand-conf/src/DataList.cpp:148-150 | earlier items and everything else are untouched |
| DataTrees.ItemNumbers | opensand-conf/src/DataList.cpp:84-90 | item `i` is named `i` in decimal |
| DataTrees.GrownTree | opensand-conf/src/DataList.cpp:81-151 | `addItem` keeps ids distinct, paths right and references good |
| DataTrees.SetTree | opensand-conf/src/DataValue.h:233-243 | setting a checked value keeps the model well-formed |
| Instances.InstanceGrow | opensand-conf/src/DataList.cpp:81-151 | `addItem` at any depth outside the patterns keeps a data tree an instance of the fresh tree |
| Instances.InstanceSet | opensand-conf/src/DataValue.h:233-243 | so does setting a parameter |
| Instances.CreatedFresh | opensand-conf/src/MetaModel.cpp:127-186 | what `createData` makes has unset parameters and empty lists |
| Xml.ElementToXML | opensand-conf/src/Configuration.cpp:1150-1169 | the node of an element, by kind |
| Xml.ComponentToXML | opensand-conf/src/Configuration.cpp:1077-1104 | the node of a component: children in order, parameters without content left out |
| Xml.ListToXML | opensand-conf/src/Configuration.cpp:1106-1133 | the node of a list: every child named "item" |
| Xml.ParameterToXML | opensand-conf/src/Configuration.cpp:1135-1148 | the node of a parameter holds its printed value |
| Xml.NodeChildren | opensand-conf/src/Configuration.cpp:1077-1133 | the children of a node are those of the items in order, all but parameters that print as nothing |
| Xml.NodeIs | opensand-conf/src/Configuration.cpp:1077-1148 | a node has the id of its element, and text only for a parameter: what it prints |
| Xml.RoundTrip | opensand-conf/src/Configuration.cpp:1077-1254 | loading the document of any instance into the fresh tree succeeds and gives the instance back, but for empty strings |
| Xml.RoundTripExact | opensand-conf/src/Configuration.cpp:1077-1254 | the round trip is exact if and only if no parameter holds the empty string |
| Xml.LoadRestItems | opensand-conf/src/Configuration.cpp:1226-1246 | a list is rebuilt item by item, with its internal references re-bound as the original ones were |
| Descendants.StampDescends | opensand-conf/src/DataList.cpp:81-151 | stamping out a pattern with values and items of its own gives what the item of the pattern as it was could become, with every reference moved the same way |
| Descendants.DescendsGrow | opensand-conf/src/DataList.cpp:81-151 | `addItem` at any depth, inside patterns too, keeps a data tree a descendant of the fresh tree |
| Descendants.DescendsSet | opensand-conf/src/DataValue.h:233-243 | so does setting a parameter |
| Descendants.PristineInstance | opensand-conf/src/DataList.cpp:81-151 | a descendant with its patterns set back is an instance of the fresh tree |
| Descendants.PristineBlankedSame | opensand-conf/src/Configuration.cpp:1077-1254 | setting back the patterns and unsetting empty strings changes nothing if and only if there is no empty string and no pattern was changed |
| Loading.LoadIs | opensand-conf/src/Configuration.cpp:1200-1254 | for every document and every model: loading node by node succeeds exactly when each child, at any depth, names an item of its component, each text that is not empty can be read as a value of its parameter, and no list that gets an item refers into itself; then each parameter has the last text given to it, and each list a new item for each node "item", with what that node says |
| Loading.ItemsIs | opensand-conf/src/Configuration.cpp:1226-1246 | the same for a list |
| Loading.FitsStamped | opensand-conf/src/DataList.cpp:81-151 | an item can be loaded from a node exactly when its pattern can |
| DataModels.ValidateElement | opensand-conf/src/DataContainer.cpp:97-111 | an element is valid iff it is inactive, or a set parameter, or a container of valid items |
| DataModels.EnumerationsHold | opensand-conf/src/DataEnumType.cpp:67-76 | in every valid data model each set enumeration holds one of its values, and each reference that expects one expects one of them |
| DataModels.CloneInstance | opensand-conf/src/DataModel.cpp:62-120 | the clone of an instance is an instance of the clone |
| DataModels.CloneDescends | opensand-conf/src/DataModel.cpp:62-120 | the clone of a descendant descends from the clone |
| DataModels.DataModel.AddItem | opensand-conf/src/DataList.cpp:81-151 | the list, wherever it is, gets the new item, or nothing changes when the pattern refers into itself; the model stays valid |
| DataModels.DataModel.SetValue | opensand-conf/src/DataValue.h:233-243 | a value is stored, in a pattern too, unless the type is an enumeration that does not list it; nothing else changes |
| DataModels.DataModel.SetText | opensand-conf/src/DataValue.h:218-225 | the same from a text, exactly when it can be read as a value of the type |
| DataModels.DataModel.GetItemByPath | opensand-conf/src/DataModel.cpp:144-147 | the lookup among items |
| DataModels.DataModel.GetItemByMetaPath | opensand-conf/src/DataModel.cpp:149-152 | the lookup through patterns |
| DataModels.DataModel.Validate | opensand-conf/src/DataModel.cpp:122-125 | true iff every parameter is set that has no reference on it or on a container above it, or only met ones: the target is set, to the value expected |
| DataModels.DataModel.CloneModel | opensand-conf/src/DataModel.cpp:62-120 | always succeeds; a valid model of its own, equal up to its number |
| DataModels.DataModel.LoadComponent | opensand-conf/src/Configuration.cpp:1200-1254 | succeeds exactly when the node fits the component, which then holds what the node says; the model stays valid |
| DataModels.DataModel.LoadNodes | opensand-conf/src/Configuration.cpp:1200-1254 | the loop does that node by node |
| DataModels.DataModel.LoadList | opensand-conf/src/Configuration.cpp:1226-1246 | each "item" node adds an item and loads it |
| MetaModels.WalkToTarget | opensand-conf/src/MetaModel.cpp:208-226 | the walk reaches the target iff it meets no list |
| MetaModels.ReferableIff | opensand-conf/src/MetaModel.cpp:188-231 | a reference may be set iff the target is another element and no element from below the deepest common ancestor down to the target is a list |
| MetaModels.CommonIds | opensand-conf/src/MetaModel.cpp:193-207 | the common path of two elements is the path of their deepest common ancestor |
| MetaModels.MetaModel.constructor | opensand-conf/src/MetaModel.cpp:47-56 | an empty root named "Root" |
| MetaModels.MetaModel.AddComponent | opensand-conf/src/MetaComponent.cpp:95-108 | succeeds iff the id has no separator and is new among the siblings; the child is appended, and every invariant is kept |
| MetaModels.MetaModel.AddList | opensand-conf/src/MetaComponent.cpp:126-141 | the same for a list with its pattern "*"; only an unnamed list of the root breaks the paths |
| MetaModels.MetaModel.AddParameter | opensand-conf/src/MetaComponent.cpp:154-174 | the same for a parameter, whose type must be the list's type with that id |
| MetaModels.MetaModel.SetReference | opensand-conf/src/MetaModel.cpp:188-231 | succeeds iff the target lies strictly below the deepest common ancestor and no list is crossed on the way; sets that reference, with no expected value, and nothing else |
| MetaModels.MetaModel.SetExpected | opensand-conf/src/DataValue.h:233-243 | the expected value is stored unless its type is an enumeration that does not list it |
| MetaModels.MetaModel.AddEnum | opensand-conf/src/MetaTypesList.cpp:140-153 | refused without values or with a known id, otherwise filed |
| MetaModels.MetaModel.CloneModel | opensand-conf/src/MetaModel.cpp:72-125 | succeeds iff the root has no reference, whether or not the expected values are set; gives the copied tree in a valid model |
| MetaModels.MetaModel.CreateDataModel | opensand-conf/src/MetaModel.cpp:127-186 | succeeds iff the root has no reference and every expected value is set; gives a valid, fresh data model |
| MetaModels.ReferableSame | opensand-conf/src/MetaModel.cpp:188-231 | a reference that may be set stays one that may be set while the schema grows |
| Xsd.UniqueChildIff | opensand-conf/src/Configuration.cpp:356-391 | a child is found exactly when one and only one matches, and it is that one |
| Xsd.PropsRead | opensand-conf/src/Configuration.cpp:810-872 | what `createXSDNode` wrote is what `getElementFromXSD` reads |
| Xsd.ContentRead | opensand-conf/src/Configuration.cpp:874-883 | the content of a container node is the sequence that was written |
| Xsd.NoContent | opensand-conf/src/Configuration.cpp:874-900 | a parameter node has neither content nor pattern |
| XsdTrees.ItemRead | opensand-conf/src/Configuration.cpp:926-1016 | the node of an item is read back as the item without references, and fails exactly when a parameter below it has a type named "component" or "list" |
| XsdTrees.ComponentRead | opensand-conf/src/Configuration.cpp:926-1016 | the content of a component is read back in order, with the list of references to set |
| XsdTrees.PatternRead | opensand-conf/src/Configuration.cpp:885-900 | the pattern of a list is found again, with its names |
| XsdReferences.ExpectedRead | opensand-conf/src/Configuration.cpp:1059-1067 | an expected value is read back as it was, an empty one as unset |
| XsdReferences.ApplyPendings | opensand-conf/src/Configuration.cpp:1045-1068 | setting the references one after the other succeeds and sets those of the schema |
| XsdReferences.PendingSound | opensand-conf/src/Configuration.cpp:926-1016 | every reference collected while reading is one of the schema |
| XsdReferences.AllCovered | opensand-conf/src/Configuration.cpp:926-1016 | every reference of the schema is collected |
| XsdReferences.ReferencesRead | opensand-conf/src/Configuration.cpp:1018-1070 | reading and setting together give the copied schema |
| XsdDocuments.EnumRead | opensand-conf/src/Configuration.cpp:744-808 | an enumeration is read back with its id, name, description and non-empty values |
| XsdDocuments.TypesRead | opensand-conf/src/Configuration.cpp:481-521 | all enumerations are read back, unless one has no value but the empty string |
| XsdDocuments.DocumentRead | opensand-conf/src/Configuration.cpp:82-241 | version, root and enumerations are found again in the document |
| XsdDocuments.DocumentRoundTrip | opensand-conf/src/Configuration.cpp:82-241 | every schema the operations made is read back from its document if and only if it is restorable, with all but units, marks and empty strings |
| XsdDocuments.ReadBackShape | opensand-conf/src/Configuration.cpp:82-241 | same elements at the same paths, same kinds, names, descriptions and type ids |
| XsdDocuments.ReadBackReference | opensand-conf/src/Configuration.cpp:1018-1070 | every reference targets the element of the new schema with the old path and expects the same value, but for the empty string |
| XsdContents.DocumentSays | opensand-conf/src/Configuration.cpp:523-690 | for the element at any position the document has a node, found the way it is read, that says its id, name, description, type id, unit, whether it is advanced and whether it is read-only, the path of its target and the value expected |
| XsdContents.DocumentOccurs | opensand-conf/src/Configuration.cpp:600-690 | and its type for validators, that a parameter may be missing, and that a list may have any number of items |
| XsdContents.EnumerationSays | opensand-conf/src/Configuration.cpp:481-521 | and a node for every enumeration, which lists its values in ascending order and then the empty string |
| XsdContents.DocumentTidy | opensand-conf/src/Configuration.cpp:82-724 | there is text only in the leaves that say something |
| XsdContents.DocumentFrame | opensand-conf/src/Configuration.cpp:82-146 | what is around them |
| XsdReading.ContentIs | opensand-conf/src/Configuration.cpp:926-1016 | for every document, whoever wrote it: the content of a node is read exactly when it is a sequence of elements that say all that is asked for, each component and list has a new id without separator and a content that can be read, each parameter a known type, and the last element is added; the items and pending references are those of the elements added, in order |
| XsdReading.RootIs | opensand-conf/src/Configuration.cpp:1018-1070 | the same for the root, which must be a component with the id "root" and the name "Root" |
| XsdReading.ApplySets | opensand-conf/src/Configuration.cpp:1045-1068 | setting a reference that may be set succeeds unless the text to expect cannot be read as a value of the type of the target, and then expects what the text says |
| XsdReading.ApplySkips | opensand-conf/src/Configuration.cpp:1045-1068 | one that may not be set is left out, or fails when it expects a value and there was none before |
| XsdReading.EnumsIff | opensand-conf/src/Configuration.cpp:744-808 | for every document, the enumerations are read exactly when each one has a value that is not empty and a new id, and are filed under their ids |
| XsdReading.EnumIff | opensand-conf/src/Configuration.cpp:744-808 | what the node of an enumeration must have, and which values it names |
| XsdReading.DocumentIff | opensand-conf/src/Configuration.cpp:148-241 | what a document must have: one element with the version and the root, and simple types beside it |
| XsdReading.UniqueWithIff | opensand-conf/src/Configuration.cpp:393-432 | a child with an attribute is found exactly when one and only one has it, and it is that one |
| XsdModels.WritableIff | opensand-conf/src/Configuration.cpp:523-724 | a node can be made exactly when no item and no type of a parameter below has an empty id |
| XsdModels.ElementToXsd | opensand-conf/src/Configuration.cpp:583-690 | the node of an element, or none when a name or type id in it is empty |
| XsdModels.AddXsdChild | opensand-conf/src/Configuration.cpp:692-724 | the nodes of all children in order, or none |
| XsdModels.EnumerationsToXsd | opensand-conf/src/Configuration.cpp:481-521 | the nodes of the enumerations in the order of their ids |
| XsdModels.ToXsdDocument | opensand-conf/src/Configuration.cpp:82-146 | the document of a schema |
| XsdModels.LoadComponentFromXsd | opensand-conf/src/Configuration.cpp:926-1016 | changes the component as reading its content into the tree does, and fails exactly when that fails |
| XsdModels.LoadChildFromXsd | opensand-conf/src/Configuration.cpp:947-1014 | the same for one child: component, list with pattern, or parameter |
| XsdModels.ApplyReference | opensand-conf/src/Configuration.cpp:1045-1068 | sets one reference and its expected value; the outcome of `setReference` is ignored |
| XsdModels.LoadRootFromXsd | opensand-conf/src/Configuration.cpp:1018-1070 | the root must be named "Root"; tree first, references last |
| XsdModels.FromXsd | opensand-conf/src/Configuration.cpp:148-241 | fails exactly when reading the document fails, and otherwise builds the model that reading it gives; its invariants hold |
| XsdModels.SaveAndLoadSchema | opensand-conf/src/Configuration.cpp:82-241 | saving and loading a schema succeeds iff no parameter has a type with the id "", "component" or "list" and every enumeration has a non-empty value; the result is the schema but for what a document does not keep |
| DataDocuments.ToDocument | opensand-conf/src/Configuration.cpp:243-270 | the document of a data model |
| DataDocuments.FromXML | opensand-conf/src/Configuration.cpp:272-352 | succeeds iff the document of the schema can be made, the versions agree, a fresh data model can be created and the root node fits it; the result holds what the nodes say |
| DataDocuments.SaveAndLoad | opensand-conf/src/Configuration.cpp:243-352 | for every data model made by `createData`, `addItem` and setting values, in patterns too: saving and loading it as any other model succeeds iff the document of the schema can be made, and gives the same ids, list lengths and values, with every reference into the new model and the patterns of the schema; it is the clone of the first iff no parameter holds the empty string and no pattern was changed |
| RtFifo.RtSemaphore.WaitPermit | opensand-rt/src/RtMutex.cpp:49-54 | takes a permit, of which there must be one |
| RtFifo.RtSemaphore.NotifyPermit | opensand-rt/src/RtMutex.cpp:57-62 | gives one back |
| RtFifo.Fifo.Push | opensand-rt/src/RtFifo.cpp:77-110 | once a permit is free, is a run of the steps of a producer |
| RtFifo.Fifo.PopMessage | opensand-rt/src/RtFifo.cpp:113-139 | is a run of the steps of the consumer after its signal |
| RtFifo.Fifo.Handle | opensand-rt/src/MessageEvent.cpp:54-73 | reads a signal, then pops; on other words it fails and only the words are gone |
| RtFifo.StepInv | opensand-rt/src/RtFifo.cpp:77-139 | every step of every thread keeps: free permits + queued messages + pushes between permit and queue + pops between queue and permit = capacity; signals in the pipe, read or owed = queued messages; the mutex excludes; pushed history = popped history ++ queue |
| RtFifo.Safety | opensand-rt/src/RtFifo.cpp:77-139 | in every interleaving: order and exactness, at most capacity messages, at most 2 * capacity bytes in the pipe and no more than it can hold, and the "too big", "already empty" and wrong-signal errors never happen |
| RtFifo.NoErrors | opensand-rt/src/RtFifo.cpp:77-139 | what these errors are: whenever a message is enqueued there is room, whenever one is dequeued there is one, and what is read from the pipe starts with "GO" |
| RtFifo.MutualExclusion | opensand-rt/src/RtFifo.cpp:84-129 | at most one thread is inside the mutex |
| RtFifo.SomeStep | opensand-rt/src/RtFifo.cpp:77-139 | while producers are blocked and fewer signals were lost than the queue has places, some step that completes work is enabled |
| RtFifo.NotifyComes | opensand-rt/src/RtMutex.cpp:49-62 | from there such steps alone lead to a free permit within a bound |
| RtFifo.HelpfulRunsEnd | opensand-rt/src/RtMutex.cpp:49-62 | whichever of them are taken, they end within the bound, with a free permit |
| RtFifo.PermitComesIff | opensand-rt/src/RtFifo.cpp:77-139 | from every reachable state a permit can come free if and only if fewer signals were lost than the queue has places |
| RtFifo.AllLostBlocks | opensand-rt/src/RtFifo.cpp:80-108 | otherwise no thread moves on in any continuation |
| RtFifo.LostSignals | opensand-rt/src/RtFifo.cpp:96-108 | for every capacity: that many pushes of which the signal fails leave their messages in the queue and a permit for good each |
| RtFifo.ThirdLostSignalBlocks | opensand-rt/src/RtFifo.cpp:40-108 | a FIFO of the sources goes on after two lost signals; after the third the next push waits in every continuation, with a full queue and no signal |
| RtFifo.PushRun | opensand-rt/src/RtFifo.cpp:77-110 | what a whole push does to the state |
| RtFifo.PopRun | opensand-rt/src/RtFifo.cpp:113-139 | what a whole pop does to the state |
| RtEvents.LessIff | opensand-rt/src/RtEvent.cpp:88-93 | the comparison without its truncation: an event triggered earlier must be ahead by a whole microsecond |
| RtEvents.Irreflexive | opensand-rt/src/RtEvent.cpp:88-93 | no event goes before itself |
| RtEvents.Transitive | opensand-rt/src/RtEvent.cpp:88-93 | transitive for all priorities and times |
| RtEvents.PriorityFirst | opensand-rt/src/RtEvent.cpp:88-93 | the smaller priority number goes first iff it was not triggered 100 seconds (100,000,000,000 nanoseconds) or more later per level |
| RtEvents.StrictWeakIff | opensand-rt/src/RtEvent.cpp:88-93 | for every tick and every greatest priority: a strict weak order if and only if the clock stands, or ticks no faster than a microsecond and the level differences that can tie compose |
| RtEvents.StrictWeakForAllLevelsIff | opensand-rt/src/RtEvent.cpp:88-93 | for any number of priority levels if and only if the greatest common divisor of the tick and a level is at least a microsecond |
| RtEvents.TieLevels | opensand-rt/src/RtEvent.cpp:88-93 | which two events tie: the later one is more urgent and comes at the first tick that makes up for it, within a microsecond |
| RtEvents.FineTies | opensand-rt/src/RtEvent.cpp:88-93 | for every clock that ticks faster than a microsecond, three events of equal priority whose ties do not compose |
| RtEvents.Sort | opensand-rt/src/RtChannelBase.cpp:556-558 | what the library's sort promises: a permutation, ordered if the comparison is a strict weak order on the elements |
| RtEvents.OrderedByPriority | opensand-rt/src/RtChannelBase.cpp:556-558 | ordered events triggered within 100 seconds go by priority, then by waiting time up to a microsecond |
| EventLoops.AddedLast | opensand-rt/src/RtChannelBase.cpp:331-340 | a new event gets in unless a later one with the same descriptor replaces it |
| EventLoops.MaxFdBounds | opensand-rt/src/RtChannelBase.cpp:464-471 | the bound never falls and covers every new descriptor |
| EventLoops.EarlyExit | opensand-rt/src/RtChannelBase.cpp:519-523 | once as many ready descriptors were seen as announced, no other is ready |
| EventLoops.FullScanEnds | opensand-rt/src/RtChannelBase.cpp:515-554 | a scan comes to its end iff no ready event is the stop event or a signal that cannot be handled |
| EventLoops.FullScanServes | opensand-rt/src/RtChannelBase.cpp:515-554 | it has then handled every due event once, and no other |
| EventLoops.TriggeredKeeps | opensand-rt/src/RtChannelBase.cpp:560-576 | serving changes only trigger times, so no event is destroyed on the way |
| EventLoops.RtChannelBase.constructor | opensand-rt/src/RtChannelBase.cpp:95-147 | the pipe is monitored at once; the stop signal and the messages of the opposite channel wait for the first pass |
| EventLoops.RtChannelBase.AddEvent | opensand-rt/src/RtChannelBase.cpp:304-326 | refused iff the descriptor is watched already, otherwise it waits |
| EventLoops.RtChannelBase.RemoveEvent | opensand-rt/src/RtChannelBase.cpp:474-477 | the removal waits |
| EventLoops.RtChannelBase.AddInputFd | opensand-rt/src/RtChannelBase.cpp:464-471 | the descriptor is monitored and within the bound |
| EventLoops.RtChannelBase.UpdateMaxFd | opensand-rt/src/RtChannelBase.cpp:365-377 | the greatest descriptor of an event, at least 0 |
| EventLoops.RtChannelBase.EraseRemovedEvents | opensand-rt/src/RtChannelBase.cpp:342-361 | the removed events are gone, the bound stays |
| EventLoops.RtChannelBase.UpdateEvents | opensand-rt/src/RtChannelBase.cpp:329-362 | monitored are exactly the event descriptors and the pipe, all within the bound; removals win over additions |
| EventLoops.RtChannelBase.Select | opensand-rt/src/RtChannelBase.cpp:494-500 | the monitored descriptors below the bound that have input |
| EventLoops.RtChannelBase.Scan | opensand-rt/src/RtChannelBase.cpp:515-554 | the loop with its early exit does what the scan of all events does |
| EventLoops.RtChannelBase.Dispatch | opensand-rt/src/RtChannelBase.cpp:560-576 | events are served in order; what the block asks for meanwhile only waits |
| EventLoops.RtChannelBase.Pass | opensand-rt/src/RtChannelBase.cpp:480-578 | a pass that nothing ends serves every watched, ready event that could be handled exactly once, in the order of the comparison, which is by priority among events triggered less than 100 seconds apart; one that the stop signal ends serves none |
| UdpStacks.UdpStack.AddPacket | opensand-core/src/common/UdpChannel.cpp:604-617 | fills a slot; the counter is corrected when it was occupied |
| UdpStacks.UdpStack.RemovePacket | opensand-core/src/common/UdpChannel.cpp:620-630 | empties a slot and returns what was in it |
| UdpStacks.UdpStack.Reset | opensand-core/src/common/UdpChannel.cpp:640-653 | empties every slot |
| UdpStacks.AddCounted | opensand-core/src/common/UdpChannel.cpp:604-617 | the counter stays the number of occupied slots, in 8 bits |
| UdpStacks.RemoveCounted | opensand-core/src/common/UdpChannel.cpp:620-630 | the same for removal |
| UdpStacks.AddThenRemove | opensand-core/src/common/UdpChannel.cpp:604-630 | removing what was added to an empty slot gives the stack back |
| Resequencing.SkipFinds | opensand-core/src/common/UdpChannel.cpp:443-462 | within 255 steps the skip loop meets a packet iff there is one |
| Resequencing.SkipFirst | opensand-core/src/common/UdpChannel.cpp:443-462 | and it is the first one, counting numbers up |
| Resequencing.DrainCalls | opensand-core/src/common/UdpChannel.cpp:477-524 | draining takes at most one call more than there are packets |
| Resequencing.ReceiveTidy | opensand-core/src/common/UdpChannel.cpp:333-474 | `receive` keeps counters and slots consistent whatever arrives |
| Resequencing.BufferBound | opensand-core/src/common/UdpChannel.cpp:333-524 | whatever arrives, with content or without, if `receive` returns at most `max_stack` packets remain buffered for a sender once drained |
| Resequencing.SaneReturns | opensand-core/src/common/UdpChannel.cpp:443-462 | it returns when all packets have content |
| Flows.ArriveKeeps | opensand-core/src/common/UdpChannel.cpp:333-524 | the reference: what is handed up increases and is newer than before; handed up and held are what was held and the arrival |
| Flows.HandleRefines | opensand-core/src/common/UdpChannel.cpp:333-524 | for arrivals at most 255 ahead, new and not empty, the channel hands up what the reference does and implements its state |
| Flows.FirstRefines | opensand-core/src/common/UdpChannel.cpp:392-402 | the first datagram of a sender is handed up whatever its number |
| Flows.RunRefines | opensand-core/src/common/UdpChannel.cpp:333-524 | over every admissible run, with any number of senders, the same payloads in the same order |
| Flows.RunKeepsOrder | opensand-core/src/common/UdpChannel.cpp:333-524 | per sender strictly increasing send order, each packet at most once; handed up or still held is exactly what was held or arrived |
| Watches.HandleConserves | opensand-core/src/common/UdpChannel.cpp:333-524 | whatever arrives, in whatever state: the arrival is stored, and a packet no longer in its slot was handed up; only the packet in the slot of the arrival is lost |
| Watches.Overtaken | opensand-core/src/common/UdpChannel.cpp:333-524 | when a packet was handed up before an older one that was held or arrived, and is newer than those done with, some arrivals in the window break the order or lose that one |
| LateArrivals.TwinUnsafe | opensand-core/src/common/UdpChannel.cpp:333-524 | while the channel does what the reference would with a late datagram held in the place of a packet to come, some arrivals in the window make it hand up the late datagram, break the order, or lose a newer packet |
| LateArrivals.LateUnsafe | opensand-core/src/common/UdpChannel.cpp:333-524 | so do some after every late datagram with the slot of a packet in the window that is not held |
| Windows.SameSlotUnsafe | opensand-core/src/common/UdpChannel.cpp:333-524 | and some after every datagram, late or far ahead, with the slot of the last number handed up |
| Windows.WindowIff | opensand-core/src/common/UdpChannel.cpp:333-524 | for every state that implements a flow and every number: over all arrivals in the window afterwards only newer packets are handed up, in order, and no newer packet is lost, if and only if the number is newer than the last one handed up and at most 255 ahead of it; a late datagram may be dropped |
| Windows.OrderLost | opensand-core/src/common/UdpChannel.cpp:333-524 | a run from a new channel: a copy of the first packet, or one numbered 256 more, is handed up after the next packet and before the one after it |
| UdpChannels.UdpChannel.HandleSlot | opensand-core/src/common/UdpChannel.cpp:511-524 | takes the packet of one slot and tells whether the next one holds a packet |
| UdpChannels.UdpChannel.HandleStacked | opensand-core/src/common/UdpChannel.cpp:477-508 | one call for the stacked sender |
| UdpChannels.UdpChannel.SkipMissing | opensand-core/src/common/UdpChannel.cpp:443-462 | the skip loop; it ends because a packet is there |
| UdpChannels.UdpChannel.ReceiveDatagram | opensand-core/src/common/UdpChannel.cpp:333-474 | `receive` of a new datagram is the function on the sender's state, and no other sender changes |
| UdpChannels.UdpChannel.Receive | opensand-core/src/common/UdpChannel.cpp:333-474 | a stacked sender is served first, whoever the datagram is from, and the datagram is then not looked at |
| UdpChannels.UdpChannel.Send | opensand-core/src/common/UdpChannel.cpp:527-580 | the datagram carries the counter, which advances modulo 256 |
| UdpChannels.OnEvent | opensand-core/src/common/UdpChannel.cpp:333-524 | the loop of the caller hands up what handling a datagram and draining hands up |
| DelayFifos.DelayFifo.GetTickOutPosition | opensand-core/src/common/DelayFifo.cpp:175-209 | never -1; on a sorted queue the position with no later tick before it and only later ticks after it |
| DelayFifos.PositionUnique | opensand-core/src/common/DelayFifo.cpp:175-209 | there is only one such position |
| DelayFifos.DelayFifo.Push | opensand-core/src/common/DelayFifo.cpp:95-114 | refused iff full, otherwise inserted behind everything that leaves no later; true iff inserted |
| DelayFifos.DelayFifo.PushFront | opensand-core/src/common/DelayFifo.cpp:116-129 | keeps the queue sorted iff nothing leaves before the element |
| DelayFifos.DelayFifo.PushBack | opensand-core/src/common/DelayFifo.cpp:131-144 | keeps the queue sorted iff nothing leaves after the element |
| DelayFifos.DelayFifo.Pop | opensand-core/src/common/DelayFifo.cpp:145-161 | the head, if any |
| DelayFifos.DelayFifo.SetMaxSize | opensand-core/src/common/DelayFifo.cpp:64-72 | refused iff the queue is longer already |
| DelayFifos.DelayFifo.GetTickOut | opensand-core/src/common/DelayFifo.cpp:80-88 | the tick of the head, 0 when empty |
| DelayFifos.DelayFifo.Flush | opensand-core/src/common/DelayFifo.cpp:163-173 | empties the queue |
| DelayFifos.PopThenPushFront | opensand-core/src/common/DelayFifo.cpp:116-161 | restores the queue |
| DelayFifos.FirstLeast | opensand-core/src/common/DelayFifo.cpp:145-161 | the earliest inserted of the elements with the least tick |
| DelayFifos.StableSortPop | opensand-core/src/common/DelayFifo.cpp:145-161 | the head of the sorted queue is that element, the rest is the sorted rest |
| DelayFifos.RunRefines | opensand-core/src/common/DelayFifo.cpp:64-173 | over every run the FIFO answers as a bounded priority queue that is stable among equal ticks |
| DelayFifos.RunConserves | opensand-core/src/common/DelayFifo.cpp:64-161 | over every run without a flush: pushed and initial elements are popped and remaining ones, as multisets; sorted and within the bound throughout |
| Topologies.OpenSandModelConf.ReadTopology | opensand-core/src/conf/OpenSandModelConf.cpp:592-698 | succeeds iff every setting asked for is there and every terminal goes to a spot of the frequency plan; each spot then has exactly the terminals assigned to it, the default one the unassigned ones too, and the gateway of its last row |
| Topologies.ReadableIff | opensand-core/src/conf/OpenSandModelConf.cpp:592-698 | the condition in terms of the configuration alone |
| Topologies.MembersIff | opensand-core/src/conf/OpenSandModelConf.cpp:592-698 | a terminal is in a spot iff an assignment says so, or none names it and the spot is the default one |
| Topologies.Widths | opensand-core/src/conf/OpenSandModelConf.cpp:592-698 | spot identifiers are cut to 8 bits, those of terminals and gateways to 16; those in range stay as they are |
| Topologies.LastGatewayIs | opensand-core/src/conf/OpenSandModelConf.cpp:1460-1487 | the scan ends with the last assignment that names the terminal |
| Topologies.GetGwWithTalId | opensand-core/src/conf/OpenSandModelConf.cpp:1460-1487 | the gateway of the last assignment of the terminal, or the default |
| Topologies.ScanInIndex | opensand-core/src/conf/OpenSandModelConf.cpp:592-698 | after a successful read the scan succeeds for every terminal of the infrastructure, and the index has it in the spot found |
| Topologies.IndexIsScanIff | opensand-core/src/conf/OpenSandModelConf.cpp:592-698 | it is in that spot and no other if and only if its assignments agree on the spot |
| Ratios.Scale | opensand-core/src/conf/OpenSandModelConf.cpp:1925-1946 | every ratio is scaled by the total, in 32-bit arithmetic; fails iff there is not one ratio per wave form |
| Ratios.ScaledIs | opensand-core/src/conf/OpenSandModelConf.cpp:1943-1946 | a ratio is multiplied by 1000 modulo 2^32, then divided by the total |
| Ratios.FiledLast | opensand-core/src/conf/OpenSandModelConf.cpp:1929-1942 | of two ratios for one wave form the last one counts |
| Ratios.SharesSum | opensand-core/src/conf/OpenSandModelConf.cpp:1943-1946 | without overflow each share is at most 1000 and `n` shares sum to between 1000 - n + 1 and 1000 |
| Ratios.RatiosSum | opensand-core/src/conf/OpenSandModelConf.cpp:1929-1946 | the same for the ratios returned, for distinct wave forms |

## Left out

- Element objects: elements, data and events are values in a tree, a map or a list; shared pointers, aliasing between models and dangling pointers (for instance after `clearItems`) are not modelled, and `clearItems` and `resetReference` are left out.
- Copies.CopyReferences: `clone` is specified for references whose expected value is set or a string; for another type without a value the sources copy a number or a `bool` that was never initialised.
- MetaModels.MetaModel.SetReference: for schemas with proper names; with an empty id or an item named "*" paths are not unique, and `Elements.PathLookup` says exactly when a lookup goes wrong.
- DataDocuments.SaveAndLoad: the document is a tree of nodes; files, escaping, and the parsing of the generated schema and the validation against it, of which only an internal error makes `fromXML` fail, are not modelled.
- XsdModels.FromXsd: for documents in which no element node is named "" or "*", which every document of a schema with proper names satisfies; and a parameter that is refused although its node has a unit or a reference counts as a failure, where the sources follow a null pointer.
- XsdModels.ElementToXsd: a parameter without a name or type id counts as a failure, where the sources follow a null pointer.
- Values.ReadBack: `float` and `double` values print with six digits and are left out, as are types other than `bool`, `short`, `int`, `long`, `std::string` and enumerations.
- DataElement, DataContainer and MetaElement `equal`: they compare containers by pointer; the model compares trees.
- MetaModels.MetaModel.DescribeRoot: the other setters of texts, units and marks would only add easy members; the proofs hold for any values of them.
- Resequencing.BufferBound: for calls of `receive` that return; on a stack with too many packets, all of them empty, the skip loop of the sources does not end (`Resequencing.SkipFinds`).
- UdpChannels.OnEvent: for a datagram that comes when no sender is stacked, as the loop of the caller leaves it, and for which `receive` returns.
- Flows.RunRefines: for arrivals within the window; what late and far-ahead datagrams break is in `Windows.WindowIff`, and the bounds hold for every arrival.
- Windows.WindowIff: for one datagram outside the window, with distinct packets; arrivals after it are new and in the window of the reference, which ignores it. That a late packet is dropped is not counted as a loss.
- UdpChannels.UdpChannel.ReceiveDatagram: the write through the end iterator for a new sender is a no-op, sockets, multicast filters and error returns of the system are left out.
- RtFifo.Fifo.Push: selecting and writing the pipe is one outcome, the signal written or not; the pipe itself, its buffer size and the threads' scheduling are those of the system. A push without a permit waits, which is a disabled step of the machine and not a call of the method.
- RtFifo.RtSemaphore.WaitPermit: the call that finds a permit; until then the thread waits, as in `RtFifo.Enabled`.
- RtFifo.Fifo.Handle: is called when the pipe has something to read; on an empty pipe the read would wait.
- EventLoops.RtChannelBase.Select: descriptors come from the system, so none is negative or the pipe's own; the blocking read of the pipe after a failed select, the words left in the pipe, and the time reports are not modelled.
- EventLoops.RtChannelBase.Pass: events are values that the map files under their descriptor, with the kind of event reduced to what the loop looks at.
- RtEvents.StrictWeakForAllLevelsIff: the sources have 256 levels; for them `RtEvents.StrictWeakIff` with 255 is exact, and the divisor only sufficient.
- RtEvents.Less: the products stay far below the range of 64-bit integers and are not wrapped.
- DelayFifos.DelayFifo.GetTickOutPosition: positions are integers; the size of the queue has 16 bits, so the sources do not wrap either. The mutex and the ownership of elements are left out.
- Topologies.OpenSandModelConf.ReadTopology: the other settings of a spot are present or not; which satellites and regeneration levels they name is left out, and so are the files themselves.
- Ratios.Scale: tokens are numbers already; the bandwidth, which is floating point, is left out. A total of 0 divides by zero in the sources and is required not to happen.
- Interconnection channels, plugins, encapsulation, DVB, probes, output handlers, Python bindings and the tables of `createModels`: plumbing or data.
