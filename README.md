# DXRAM Graphalytics platform: graph ingestion, modelled in Dafny

This project models how the DXRAM driver for the LDBC Graphalytics benchmark gets a graph
into DXRAM's distributed chunk memory, and it proves properties of that model. It covers:

- **The platform driver** (`DxramPlatform`). `loadGraph` turns an undirected edge file into a
  symmetric, sorted `.2` edge file. `prepare` writes the one-line partition index file.
- **The platform configuration** (`DxramConfiguration`). It is parsed from a properties map and
  serialised for the job system.
- **The chunk types.** `Vertex`, `BFSVertex`, `List`, `Graph` and `Schema`, with their export,
  import and size functions.
- **`DirectVertex`.** A vertex stored as a raw 24-byte record in local chunk memory, with its
  neighbours in a second chunk of longs.
- **The binary ordered edge list reader** (`GraphalyticsOrderedEdgeList`). It reads big-endian
  records, builds the two id tables and translates neighbour ids.
- **The loader task** (`GraphLoadOrderedEdgeListTask`). It sets up the partition of one slave
  and loads its vertices into the chunk store in batches.
- **The text loading job** (`LoadGraphJob`). It groups the edge file into per-vertex runs, then
  creates one BFS vertex chunk per run and per vertex left over.

Serialisation goes through DXRAM's `Exporter`/`Importer`, whose code is not part of this
model. It is modelled as a stream of typed tokens (`Serial.Token`). A read whose next token is
missing or of another kind returns the default passed in and consumes nothing. The library's
sizes of strings, long arrays and booleans are a parameter (`Serial.SizeRules`).

Java `int` and `long` arithmetic is written out. `Numeric.WrapInt` and `Numeric.WrapLong`
wrap to 32 and 64 bits where the source adds or multiplies in those types, including every
`sizeofObject`. The few places where the model uses unbounded integers instead are listed
under "## Left out".

Some behaviour of the code is worth stating up front:

- The binary ordered edge list is read with `DataInputStream`, so it is big-endian
  (`BigEndian`).
- A neighbour array longer than 134217660 entries is only warned about, never truncated
  (`LoadTask.EdgesAreStored`).
- `LoadGraphJob` never flushes the run that is open when the edge stream ends (Findings below).
- The start vertex id of a partition is the slave's own vertex count times its slave id
  (Findings below). The loader's `execute` runs this set-up as written.

## Model

Source paths are relative to the repository root.

| member | source | states |
|---|---|---|
| DataVertex.RoundTrip | src/main/java/science/atlarge/graphalytics/dxram/graph/data/Vertex.java:52-67 | importing what `exportObject` wrote restores depth and neighbours, whatever the vertex held, and leaves the rest of the stream |
| DataVertex.SizeMatchesExport | src/main/java/science/atlarge/graphalytics/dxram/graph/data/Vertex.java:58-67 | `sizeofObject` (4 plus the long-array size, in int arithmetic) is the size of what export writes, wrapped to an int, and exactly that size while it fits |
| DataVertex.Vertex.constructor | src/main/java/science/atlarge/graphalytics/dxram/graph/data/Vertex.java:31-34 | a new vertex has the invalid id, depth -1 and no neighbours |
| DataVertex.Vertex.SetID | src/main/java/science/atlarge/graphalytics/dxram/graph/load/oel/GraphalyticsOrderedEdgeList.java:73 | `setID` changes the id only |
| DataVertex.Vertex.GetDepth | src/main/java/science/atlarge/graphalytics/dxram/graph/data/Vertex.java:36-38 | returns the depth |
| DataVertex.Vertex.SetDepth | src/main/java/science/atlarge/graphalytics/dxram/graph/data/Vertex.java:40-42 | changes the depth only |
| DataVertex.Vertex.GetNeighbors | src/main/java/science/atlarge/graphalytics/dxram/graph/data/Vertex.java:44-46 | returns the stored array itself (aliasing kept) |
| DataVertex.Vertex.SetNeighbors | src/main/java/science/atlarge/graphalytics/dxram/graph/data/Vertex.java:48-50 | stores the caller's array itself and changes nothing else |
| DataVertex.Vertex.ImportObject | src/main/java/science/atlarge/graphalytics/dxram/graph/data/Vertex.java:52-56 | the new value and remaining stream are the decode of the input from the old value; the id is kept |
| DataVertex.Vertex.SizeofObject | src/main/java/science/atlarge/graphalytics/dxram/graph/data/Vertex.java:58-61 | returns the size of the vertex's own export, wrapped to an int |
| DataVertex.Vertex.ExportObject | src/main/java/science/atlarge/graphalytics/dxram/graph/data/Vertex.java:63-67 | appends the depth token, then the neighbour-array token |
| BfsVertex.RoundTrip | src/main/java/science/atlarge/graphalytics/dxram/graph/BFSVertex.java:42-54 | with non-null neighbours, export succeeds and import restores id, depth and neighbours, each from its own token |
| BfsVertex.SizeVersusExport | src/main/java/science/atlarge/graphalytics/dxram/graph/BFSVertex.java:37-54 | the declared size `8*(2+n)` equals the exported size exactly when the library's long-array size has no header |
| BfsVertex.BFSVertex.constructor | src/main/java/science/atlarge/graphalytics/dxram/graph/BFSVertex.java:31-35 | a new BFS vertex has id -1, depth -1 and null neighbours |
| BfsVertex.BFSVertex.SizeofObject | src/main/java/science/atlarge/graphalytics/dxram/graph/BFSVertex.java:37-40 | null neighbours throw; otherwise `8*(2+n)` in int arithmetic |
| BfsVertex.BFSVertex.ImportObject | src/main/java/science/atlarge/graphalytics/dxram/graph/BFSVertex.java:42-47 | the new value and remaining stream are the decode of the input from the old value |
| BfsVertex.BFSVertex.ExportObject | src/main/java/science/atlarge/graphalytics/dxram/graph/BFSVertex.java:49-54 | appends id, depth and neighbours; null neighbours throw |
| DataList.EncodeFromPacked | src/main/java/science/atlarge/graphalytics/dxram/graph/data/List.java:19-31 | export of a list filled by `addElement` cannot fail and writes one token per filled slot (none for other classes) |
| DataList.RoundTrip | src/main/java/science/atlarge/graphalytics/dxram/graph/data/List.java:19-57 | importing a list's export into a new list of the same class restores capacity, contents and counter |
| DataList.ImportWithoutReset | src/main/java/science/atlarge/graphalytics/dxram/graph/data/List.java:43-56 | for every packed list and every importing list with counter c: the elements land at slots c.. of the new array; import succeeds iff they fit (or there are none), otherwise it stops with `IndexOutOfBounds` at the array's end |
| DataList.ImportShiftedFrom | src/main/java/science/atlarge/graphalytics/dxram/graph/data/List.java:52-55 | the `addElement` loop of import, from any slot on, places the remaining elements after the counter or overflows |
| DataList.ExportStreamSize | src/main/java/science/atlarge/graphalytics/dxram/graph/data/List.java:19-31 | export writes two ints plus element bytes per filled slot |
| DataList.SizeVersusExport | src/main/java/science/atlarge/graphalytics/dxram/graph/data/List.java:59-82 | the declared size counts the capacity, so it equals the exported size exactly when the list is full |
| DataList.List.Create | src/main/java/science/atlarge/graphalytics/dxram/graph/data/List.java:13-17 | a negative capacity throws; otherwise all slots are null and the counter is 0 |
| DataList.List.AddElement | src/main/java/science/atlarge/graphalytics/dxram/graph/data/List.java:70-73 | stores at the counter and advances it; a full list throws and is unchanged |
| DataList.List.GetData | src/main/java/science/atlarge/graphalytics/dxram/graph/data/List.java:75-77 | returns the backing array itself |
| DataList.List.SizeofObject | src/main/java/science/atlarge/graphalytics/dxram/graph/data/List.java:59-68 | two ints plus element bytes times capacity, in int arithmetic |
| DataList.List.ExportObject | src/main/java/science/atlarge/graphalytics/dxram/graph/data/List.java:19-31 | appends the encoding, or fails with the error of the first null or out-of-range slot |
| DataList.List.ImportObject | src/main/java/science/atlarge/graphalytics/dxram/graph/data/List.java:34-57 | a negative size throws; otherwise a new array receives `addElement`s from the unchanged counter, as `Decode` says |
| DataGraph.RoundTrip | src/main/java/science/atlarge/graphalytics/dxram/graph/data/Graph.java:23-50 | given an edge class that round-trips, import appends exactly the exported vertices and edges, and restores the graph when it was empty |
| DataGraph.SizeMatchesExport | src/main/java/science/atlarge/graphalytics/dxram/graph/data/Graph.java:52-65 | the declared size is the exported size wrapped to an int, given edges whose sizes match |
| DataGraph.Graph.constructor | src/main/java/science/atlarge/graphalytics/dxram/graph/data/Graph.java:12-15 | a new graph has empty vertex and edge lists |
| DataGraph.Graph.GetVertices | src/main/java/science/atlarge/graphalytics/dxram/graph/data/Graph.java:16-18 | returns the current vertex list (as a value) |
| DataGraph.Graph.GetEdges | src/main/java/science/atlarge/graphalytics/dxram/graph/data/Graph.java:19-21 | returns the current edge list (as a value) |
| DataGraph.Graph.ExportObject | src/main/java/science/atlarge/graphalytics/dxram/graph/data/Graph.java:23-32 | appends the vertex count, each vertex, the edge count and each edge |
| DataGraph.Graph.ImportObject | src/main/java/science/atlarge/graphalytics/dxram/graph/data/Graph.java:35-50 | appends the decoded vertices and edges; the old vertex objects are kept in place |
| DataGraph.Graph.ImportOneVertex | src/main/java/science/atlarge/graphalytics/dxram/graph/data/Graph.java:40-42 | appends one fresh vertex holding the decode from a new vertex |
| DataGraph.Graph.SizeofObject | src/main/java/science/atlarge/graphalytics/dxram/graph/data/Graph.java:52-65 | the wrapped sum of two ints and every vertex and edge size |
| Schema.Scalar | src/main/java/science/atlarge/graphalytics/dxram/graph/data/Schema.java:63-65 | the one-argument constructor gives a primitive, non-array type |
| Schema.ArrayOf | src/main/java/science/atlarge/graphalytics/dxram/graph/data/Schema.java:67-79 | the two-argument constructor gives an array exactly when the size is non-negative |
| Schema.GetSize | src/main/java/science/atlarge/graphalytics/dxram/graph/data/Schema.java:85-134 | always an int; 0 for a non-primitive type; between 1 and 8 bytes for a scalar |
| Schema.GetSizeIsWrappedExact | src/main/java/science/atlarge/graphalytics/dxram/graph/data/Schema.java:85-134 | `getSize` is the exact byte count wrapped to 32 bits |
| Schema.ScalarSizes | src/main/java/science/atlarge/graphalytics/dxram/graph/data/Schema.java:108-129 | scalar sizes are 1, 1, 2, 2, 4, 4, 8 and 8 bytes per Java type |
| Schema.ArraySize | src/main/java/science/atlarge/graphalytics/dxram/graph/data/Schema.java:86-107 | an array takes a 4-byte length plus n scalars, exactly while that fits in an int |
| Schema.AppendWellFormed | src/main/java/science/atlarge/graphalytics/dxram/graph/data/Schema.java:33-36 | appending at the running offset keeps every entry at the wrapped sum of the sizes before it |
| Schema.OffsetsNonDecreasing | src/main/java/science/atlarge/graphalytics/dxram/graph/data/Schema.java:33-36 | while the total fits in an int, offsets are exact prefix sums and do not decrease |
| Schema.Schema.constructor | src/main/java/science/atlarge/graphalytics/dxram/graph/data/Schema.java:28-31 | an empty schema at offset 0 |
| Schema.Schema.AddEntry | src/main/java/science/atlarge/graphalytics/dxram/graph/data/Schema.java:33-36 | appends the entry at the current offset, advances the offset by the size in int arithmetic and keeps the layout invariant |
| Configuration.Parse | src/main/java/science/atlarge/graphalytics/dxram/DxramConfiguration.java:98-130 | a missing file aborts; the home path is set only when its key is present; each count defaults to 1 |
| Configuration.RoundTrip | src/main/java/science/atlarge/graphalytics/dxram/DxramConfiguration.java:138-149 | the corrected import restores path, machines and threads from the export |
| Configuration.ImportLosesThreads | src/main/java/science/atlarge/graphalytics/dxram/DxramConfiguration.java:144-149 | as written, import stores the thread count into the machine count and keeps the old thread count |
| Configuration.ImportAsWrittenCounterexample | src/main/java/science/atlarge/graphalytics/dxram/DxramConfiguration.java:148 | exporting (h, 2, 3) and importing into a default configuration gives (h, 3, 1) |
| Configuration.SizeMatchesExport | src/main/java/science/atlarge/graphalytics/dxram/DxramConfiguration.java:132-142 | with a home path, the declared size is the size of the export wrapped to an int, and exactly that size while it fits |
| Configuration.DxramConfiguration.constructor | src/main/java/science/atlarge/graphalytics/dxram/DxramConfiguration.java:45-53 | no home path, one machine, one thread |
| Configuration.DxramConfiguration.GetHomePath | src/main/java/science/atlarge/graphalytics/dxram/DxramConfiguration.java:58-60 | returns the home path |
| Configuration.DxramConfiguration.SetHomePath | src/main/java/science/atlarge/graphalytics/dxram/DxramConfiguration.java:65-67 | changes the home path only |
| Configuration.DxramConfiguration.GetNumMachines | src/main/java/science/atlarge/graphalytics/dxram/DxramConfiguration.java:72-74 | returns the number of machines |
| Configuration.DxramConfiguration.SetNumMachines | src/main/java/science/atlarge/graphalytics/dxram/DxramConfiguration.java:79-81 | changes the number of machines only |
| Configuration.DxramConfiguration.SetNumThreads | src/main/java/science/atlarge/graphalytics/dxram/DxramConfiguration.java:86-88 | changes the number of threads only |
| Configuration.DxramConfiguration.GetNumThreads | src/main/java/science/atlarge/graphalytics/dxram/DxramConfiguration.java:93-95 | returns the number of threads |
| Configuration.DxramConfiguration.ParsePropertiesFile | src/main/java/science/atlarge/graphalytics/dxram/DxramConfiguration.java:98-130 | fails without a file; otherwise a fresh configuration holding `Parse` of the properties |
| Configuration.DxramConfiguration.SizeofObject | src/main/java/science/atlarge/graphalytics/dxram/DxramConfiguration.java:133-135 | the string size of the path plus two ints, in int arithmetic; a null path throws |
| Configuration.DxramConfiguration.ExportObject | src/main/java/science/atlarge/graphalytics/dxram/DxramConfiguration.java:138-142 | appends path, machines and threads; a null path throws |
| Configuration.DxramConfiguration.ImportObject | src/main/java/science/atlarge/graphalytics/dxram/DxramConfiguration.java:145-149 | the state after import is `DecodeAsWritten` of the input |
| Text.ParseLongToString | src/main/java/science/atlarge/graphalytics/dxram/DxramPlatform.java:108-110 | `Long.parseLong` reads back every long that `String.valueOf` wrote |
| Text.SplitPair | src/main/java/science/atlarge/graphalytics/dxram/DxramPlatform.java:131 | splitting "a b" on whitespace gives [a, b] for non-empty tokens without spaces |
| BigEndian.ReadLongBytes | src/main/java/science/atlarge/graphalytics/dxram/graph/load/oel/GraphalyticsOrderedEdgeList.java:65 | `readLong` reads back the 8 big-endian bytes of any long |
| BigEndian.ReadIntBytes | src/main/java/science/atlarge/graphalytics/dxram/graph/load/oel/GraphalyticsOrderedEdgeList.java:67 | `readInt` reads back the 4 big-endian bytes of any int |
| OrderedEdgeList.Load | src/main/java/science/atlarge/graphalytics/dxram/graph/load/oel/GraphalyticsOrderedEdgeList.java:56-87 | a replaced id table has exactly `numberOfVertices` entries |
| OrderedEdgeList.TranslateNeighborsMeaning | src/main/java/science/atlarge/graphalytics/dxram/graph/load/oel/GraphalyticsOrderedEdgeList.java:82-86 | translation succeeds exactly when every neighbour is in the map, and then maps each one |
| OrderedEdgeList.TranslateAllMeaning | src/main/java/science/atlarge/graphalytics/dxram/graph/load/oel/GraphalyticsOrderedEdgeList.java:82-86 | the queue translation succeeds exactly when every vertex's does; ids are kept and neighbours mapped |
| OrderedEdgeList.DecodeTruncated | src/main/java/science/atlarge/graphalytics/dxram/graph/load/oel/GraphalyticsOrderedEdgeList.java:57-79 | a file that ends inside a record keeps every earlier record, and the cut record's id once its 8 bytes are there |
| OrderedEdgeList.LoadRoundTrip | src/main/java/science/atlarge/graphalytics/dxram/graph/load/oel/GraphalyticsOrderedEdgeList.java:56-87 | loading encoded records with distinct ids gives vertex k the id k and the table entry of record k; it fails exactly when a neighbour is no record's id; else each neighbour indexes its global id |
| OrderedEdgeList.LoadIdsInTable | src/main/java/science/atlarge/graphalytics/dxram/graph/load/oel/GraphalyticsOrderedEdgeList.java:63-76 | after a first load, every queued vertex id indexes the id table |
| OrderedEdgeList.IdTables.constructor | src/main/java/science/atlarge/graphalytics/dxram/graph/load/oel/GraphalyticsOrderedEdgeList.java:38-39 | the static tables start null and empty |
| OrderedEdgeList.ReadNeighbors | src/main/java/science/atlarge/graphalytics/dxram/graph/load/oel/GraphalyticsOrderedEdgeList.java:68-71 | the inner loop reads the `n` big-endian longs that follow |
| OrderedEdgeList.DecodeRecordsInto | src/main/java/science/atlarge/graphalytics/dxram/graph/load/oel/GraphalyticsOrderedEdgeList.java:63-79 | the record loop fills the table, map and queue as `Decode` says, stopping at end of file |
| OrderedEdgeList.TranslateNeighborsInPlace | src/main/java/science/atlarge/graphalytics/dxram/graph/load/oel/GraphalyticsOrderedEdgeList.java:83-85 | the translation loop of one vertex equals `TranslateNeighbors` |
| OrderedEdgeList.TranslateQueue | src/main/java/science/atlarge/graphalytics/dxram/graph/load/oel/GraphalyticsOrderedEdgeList.java:82-86 | the translation loop over the queue equals `TranslateAll` |
| OrderedEdgeList.GraphalyticsOrderedEdgeList.constructor | src/main/java/science/atlarge/graphalytics/dxram/graph/load/oel/GraphalyticsOrderedEdgeList.java:48-54 | keeps path and count; not loaded; empty queue |
| OrderedEdgeList.GraphalyticsOrderedEdgeList.LoadFromBoelFile | src/main/java/science/atlarge/graphalytics/dxram/graph/load/oel/GraphalyticsOrderedEdgeList.java:56-87 | the tables and queue after loading are those of `Load`; a new table is fresh and holds its ids |
| OrderedEdgeList.GraphalyticsOrderedEdgeList.ReadVertex | src/main/java/science/atlarge/graphalytics/dxram/graph/load/oel/GraphalyticsOrderedEdgeList.java:89-97 | the first call loads, then every call polls the queue head, or null once empty |
| LoadTask.RoundTrip | src/main/java/science/atlarge/graphalytics/dxram/graph/load/GraphLoadOrderedEdgeListTask.java:198-214 | with non-null paths, import restores all five settings |
| LoadTask.SizeMatchesExport | src/main/java/science/atlarge/graphalytics/dxram/graph/load/GraphLoadOrderedEdgeListTask.java:198-223 | size and export fail together on a null path; otherwise the size is the exported size wrapped to an int, and exactly that size while it fits |
| LoadTask.Setup | src/main/java/science/atlarge/graphalytics/dxram/graph/load/GraphLoadOrderedEdgeListTask.java:234-271 | the corrected set-up of the Findings row: as written, except that the first vertex id is the count of all earlier partitions |
| LoadTask.SetupAsWritten | src/main/java/science/atlarge/graphalytics/dxram/graph/load/GraphLoadOrderedEdgeListTask.java:234-271 | the set-up as written: null when a file is missing; a missing own or next entry throws; the range runs from the slave's start offset to the next one's or `Long.MAX_VALUE`; the first vertex id is `slaveId * count(slaveId)` wrapped to a long |
| LoadTask.StartVertexIdCounterexample | src/main/java/science/atlarge/graphalytics/dxram/graph/load/GraphLoadOrderedEdgeListTask.java:263-267 | with partitions of 3 and 5 vertices, slave 1 starts at 5 as written, where 3 is intended |
| LoadTask.ConsecutivePartitions | src/main/java/science/atlarge/graphalytics/dxram/graph/load/GraphLoadOrderedEdgeListTask.java:249-267 | consecutive slaves get adjacent byte ranges and vertex id ranges that follow each other |
| LoadTask.AsWrittenAgreesOnRange | src/main/java/science/atlarge/graphalytics/dxram/graph/load/GraphLoadOrderedEdgeListTask.java:242-267 | the set-up as written fails exactly when the corrected one does and gives the same byte range; with equal partition sizes before the slave, the two agree entirely |
| LoadTask.Rebased | src/main/java/science/atlarge/graphalytics/dxram/graph/load/GraphLoadOrderedEdgeListTask.java:321-326 | rebasing in place keeps the length |
| LoadTask.BatchesShape | src/main/java/science/atlarge/graphalytics/dxram/graph/load/GraphLoadOrderedEdgeListTask.java:306-349 | the batches hold 1 to size chunks each, all but the last full, and concatenate to all chunks in order |
| LoadTask.StoredLastWins | src/main/java/science/atlarge/graphalytics/dxram/graph/load/GraphLoadOrderedEdgeListTask.java:352-354 | a chunk id holds the value of the last chunk put under it |
| LoadTask.IdMapLastWins | src/main/java/science/atlarge/graphalytics/dxram/graph/load/GraphLoadOrderedEdgeListTask.java:314-316 | each global id maps to the chunk id of the last loaded vertex carrying it |
| LoadTask.IdMapKeys | src/main/java/science/atlarge/graphalytics/dxram/graph/load/GraphLoadOrderedEdgeListTask.java:305-316 | the id map's keys are exactly the global ids of the loaded vertices |
| LoadTask.EdgesAreStored | src/main/java/science/atlarge/graphalytics/dxram/graph/load/GraphLoadOrderedEdgeListTask.java:328-339 | the edge total equals the neighbours stored; no array is cut short |
| LoadTask.EdgeCountBounds | src/main/java/science/atlarge/graphalytics/dxram/graph/load/GraphLoadOrderedEdgeListTask.java:339 | every loaded neighbour array counts in full towards the edge total |
| LoadTask.CountCheck | src/main/java/science/atlarge/graphalytics/dxram/graph/load/GraphLoadOrderedEdgeListTask.java:378-393 | with both filters off, loading succeeds exactly when both totals match the index entry; with either on it succeeds |
| LoadTask.ExecuteOutcome | src/main/java/science/atlarge/graphalytics/dxram/graph/load/GraphLoadOrderedEdgeListTask.java:129-184 | the result is 0 or an error code from -1 to -4, and 0 exactly when the index, the set-up as written and the load all succeed |
| LoadTask.ChunkStore.CreateAndPut | src/main/java/science/atlarge/graphalytics/dxram/graph/load/GraphLoadOrderedEdgeListTask.java:352-354 | a batch is put in order and logged; the count is what `put` reports |
| LoadTask.GraphLoadOrderedEdgeListTask.constructor | src/main/java/science/atlarge/graphalytics/dxram/graph/load/GraphLoadOrderedEdgeListTask.java:69-71 | the default settings |
| LoadTask.GraphLoadOrderedEdgeListTask.Make | src/main/java/science/atlarge/graphalytics/dxram/graph/load/GraphLoadOrderedEdgeListTask.java:85-96 | the five given settings |
| LoadTask.GraphLoadOrderedEdgeListTask.SetLoadVertexBatchSize | src/main/java/science/atlarge/graphalytics/dxram/graph/load/GraphLoadOrderedEdgeListTask.java:104-106 | changes the batch size only |
| LoadTask.GraphLoadOrderedEdgeListTask.SetLoadVertexPath | src/main/java/science/atlarge/graphalytics/dxram/graph/load/GraphLoadOrderedEdgeListTask.java:114-116 | changes the vertex path only |
| LoadTask.GraphLoadOrderedEdgeListTask.SetLoadEdgePath | src/main/java/science/atlarge/graphalytics/dxram/graph/load/GraphLoadOrderedEdgeListTask.java:124-126 | changes the edge path only |
| LoadTask.GraphLoadOrderedEdgeListTask.ExportObject | src/main/java/science/atlarge/graphalytics/dxram/graph/load/GraphLoadOrderedEdgeListTask.java:199-205 | appends the encoding; a null path throws |
| LoadTask.GraphLoadOrderedEdgeListTask.ImportObject | src/main/java/science/atlarge/graphalytics/dxram/graph/load/GraphLoadOrderedEdgeListTask.java:208-214 | the settings after import are `Decode` of the input from the old settings |
| LoadTask.GraphLoadOrderedEdgeListTask.SizeofObject | src/main/java/science/atlarge/graphalytics/dxram/graph/load/GraphLoadOrderedEdgeListTask.java:217-223 | the size function of the settings, in int arithmetic |
| LoadTask.GraphLoadOrderedEdgeListTask.StartVertexId | src/main/java/science/atlarge/graphalytics/dxram/graph/load/GraphLoadOrderedEdgeListTask.java:263-267 | the loop as written: 0 for slave 0; otherwise the slave's own count added `slaveId` times in long arithmetic, or null when its entry is missing |
| LoadTask.GraphLoadOrderedEdgeListTask.SetupOrderedEdgeListForCurrentSlave | src/main/java/science/atlarge/graphalytics/dxram/graph/load/GraphLoadOrderedEdgeListTask.java:234-271 | returns `SetupAsWritten`, what the source hands to the reader |
| LoadTask.GraphLoadOrderedEdgeListTask.Execute | src/main/java/science/atlarge/graphalytics/dxram/graph/load/GraphLoadOrderedEdgeListTask.java:129-184 | returns `ExecuteOutcome`; on -1, -2, -3 or an exception, the tables and store are unchanged; on 0 or -4, `VERTEX_ID_TO_CID` is the load's id map and the store holds the load's chunks, handed over in its batches |
| LoadTask.GraphLoadOrderedEdgeListTask.LoadGraphPartition | src/main/java/science/atlarge/graphalytics/dxram/graph/load/GraphLoadOrderedEdgeListTask.java:283-394 | the result, id map, stored chunks and batch log are those of `LoadPartition` |
| LoadTask.LoadVertices | src/main/java/science/atlarge/graphalytics/dxram/graph/load/GraphLoadOrderedEdgeListTask.java:284-372 | loads every supplied vertex (none for batch size 0), in batches of size; totals, id map and store follow |
| LoadTask.LoadRound | src/main/java/science/atlarge/graphalytics/dxram/graph/load/GraphLoadOrderedEdgeListTask.java:306-372 | one round reads and stores one batch; it reads nothing exactly at the end of the supply |
| LoadTask.StoreBatch | src/main/java/science/atlarge/graphalytics/dxram/graph/load/GraphLoadOrderedEdgeListTask.java:346-354 | the buffer is trimmed to the vertices read, then created and put |
| LoadTask.ReadBatch | src/main/java/science/atlarge/graphalytics/dxram/graph/load/GraphLoadOrderedEdgeListTask.java:307-340 | reads up to a buffer of renamed vertices; the id map and edge total are updated per vertex |
| Platform.ParseEdge | src/main/java/science/atlarge/graphalytics/dxram/DxramPlatform.java:108-110 | a parsed edge is two longs from a line of at least two tokens |
| Platform.AscendingFacts | src/main/java/science/atlarge/graphalytics/dxram/DxramPlatform.java:125-126 | the sorted key list is strictly increasing and holds exactly the keys |
| Platform.ReadIsParseThenAdd | src/main/java/science/atlarge/graphalytics/dxram/DxramPlatform.java:106-123 | reading fails on the first bad line, and otherwise adds every parsed edge |
| Platform.AddAllNeighbours | src/main/java/science/atlarge/graphalytics/dxram/DxramPlatform.java:113-121 | y is a neighbour of x exactly when some edge joins x and y in either direction |
| Platform.AddAllKeys | src/main/java/science/atlarge/graphalytics/dxram/DxramPlatform.java:113-118 | a vertex is a key exactly when some edge touches it |
| Platform.EmitKeysInOrder | src/main/java/science/atlarge/graphalytics/dxram/DxramPlatform.java:128-134 | the written pairs are strictly ascending, by left vertex and then by right |
| Platform.EmitKeysCount | src/main/java/science/atlarge/graphalytics/dxram/DxramPlatform.java:128-134 | one line per element of each neighbour set |
| Platform.LinesReadBack | src/main/java/science/atlarge/graphalytics/dxram/DxramPlatform.java:131-132 | the written lines parse back to the written pairs |
| Platform.SymmetricOutput | src/main/java/science/atlarge/graphalytics/dxram/DxramPlatform.java:93-141 | when every input line parses, the output reads back as an ascending pair list holding (x, y) exactly when an input edge joins them |
| Platform.LoadGraph | src/main/java/science/atlarge/graphalytics/dxram/DxramPlatform.java:93-141 | a directed graph is passed through; an existing `.2` file fails; otherwise `.2` holds the symmetric output, or is left empty on failure |
| Platform.Symmetrize | src/main/java/science/atlarge/graphalytics/dxram/DxramPlatform.java:99-137 | the output is created, then filled with `Undirected` of the input; false when the input is missing or malformed |
| Platform.ReadAll | src/main/java/science/atlarge/graphalytics/dxram/DxramPlatform.java:106-123 | the read loop equals `ReadEdges` |
| Platform.WriteAscending | src/main/java/science/atlarge/graphalytics/dxram/DxramPlatform.java:125-134 | the write loop emits the lines of the sorted adjacency |
| Platform.WriteRow | src/main/java/science/atlarge/graphalytics/dxram/DxramPlatform.java:130-133 | one key's row of lines appended in set order |
| Platform.SortAscending | src/main/java/science/atlarge/graphalytics/dxram/DxramPlatform.java:125-126 | returns the keys in ascending order |
| Platform.Prepared | src/main/java/science/atlarge/graphalytics/dxram/DxramPlatform.java:148-163 | the `.gpi` file is added only when absent, with the line "0, V, E, 0"; no other file changes |
| Platform.Prepare | src/main/java/science/atlarge/graphalytics/dxram/DxramPlatform.java:148-163 | the files after `prepare` are `Prepared` of those before |
| Platform.PrepareIdempotent | src/main/java/science/atlarge/graphalytics/dxram/DxramPlatform.java:154-156 | preparing twice is preparing once |
| LoadGraphJob.VertexIdOf | src/main/java/science/atlarge/graphalytics/dxram/job/LoadGraphJob.java:81-82 | a vertex id is a long from a line of at least one token |
| LoadGraphJob.EdgeOf | src/main/java/science/atlarge/graphalytics/dxram/job/LoadGraphJob.java:98-100 | an edge is two longs |
| LoadGraphJob.EdgeOfAgreesWithPlatform | src/main/java/science/atlarge/graphalytics/dxram/job/LoadGraphJob.java:98-100 | the job parses an edge line exactly as the platform's symmetriser does |
| LoadGraphJob.ReadLinesAt | src/main/java/science/atlarge/graphalytics/dxram/job/LoadGraphJob.java:77-89 | the values read are those of the first lines in order, and a failure is that of the next line |
| LoadGraphJob.VertexIds | src/main/java/science/atlarge/graphalytics/dxram/job/LoadGraphJob.java:76-89 | on success, one id per line |
| LoadGraphJob.RemoveFirst | src/main/java/science/atlarge/graphalytics/dxram/job/LoadGraphJob.java:109 | `List.remove(Object)` removes one occurrence when present and changes nothing otherwise |
| LoadGraphJob.Leftovers | src/main/java/science/atlarge/graphalytics/dxram/job/LoadGraphJob.java:130-135 | each listed vertex is created without neighbours, in list order |
| LoadGraphJob.RunsKeepTargets | src/main/java/science/atlarge/graphalytics/dxram/job/LoadGraphJob.java:102-120 | no edge is lost by the grouping: created neighbour lists plus the open run are all the destinations, in order |
| LoadGraphJob.HeadsLeaveList | src/main/java/science/atlarge/graphalytics/dxram/job/LoadGraphJob.java:107-109 | each closed run removes one occurrence of its head from the vertex list |
| LoadGraphJob.EveryListedVertexCreated | src/main/java/science/atlarge/graphalytics/dxram/job/LoadGraphJob.java:102-136 | every vertex of the vertex list is created at least once on completion |
| LoadGraphJob.LeftoversSpreadNothing | src/main/java/science/atlarge/graphalytics/dxram/job/LoadGraphJob.java:130-135 | leftover vertices add no neighbours |
| LoadGraphJob.LastRunDropped | src/main/java/science/atlarge/graphalytics/dxram/job/LoadGraphJob.java:93-126 | as written, the job loses exactly the neighbours of the run open at the end |
| LoadGraphJob.LastRunLostExample | src/main/java/science/atlarge/graphalytics/dxram/job/LoadGraphJob.java:93-136 | edges (1,2), (1,3): vertex 1 is created as a leftover and no vertex has a neighbour |
| LoadGraphJob.FlushedKeepsEveryTarget | src/main/java/science/atlarge/graphalytics/dxram/job/LoadGraphJob.java:107-119 | with the last run closed, every edge's destination is a neighbour, in edge order |
| LoadGraphJob.RepeatedHeadCreatedTwice | src/main/java/science/atlarge/graphalytics/dxram/job/LoadGraphJob.java:105-116 | a source with non-adjacent runs is created twice, and the graph keeps the second chunk |
| LoadGraphJob.RegisteredKeys | src/main/java/science/atlarge/graphalytics/dxram/job/LoadGraphJob.java:116 | a vertex is registered exactly when some chunk was created for it |
| LoadGraphJob.RegisteredLastWins | src/main/java/science/atlarge/graphalytics/dxram/job/LoadGraphJob.java:116 | a registered vertex keeps the chunk id of its last creation |
| LoadGraphJob.ChunkStore.CreateAndPut | src/main/java/science/atlarge/graphalytics/dxram/job/LoadGraphJob.java:114-115 | the chunk is appended, and its id is its position |
| LoadGraphJob.ReadVertexFile | src/main/java/science/atlarge/graphalytics/dxram/job/LoadGraphJob.java:76-89 | the vertex-file loop equals `VertexIds` |
| LoadGraphJob.ReadEdgeFile | src/main/java/science/atlarge/graphalytics/dxram/job/LoadGraphJob.java:93-126 | the edge-file loop creates and registers what `AcceptAll` creates on the lines read |
| LoadGraphJob.ConsumeLine | src/main/java/science/atlarge/graphalytics/dxram/job/LoadGraphJob.java:97-121 | one `accept` call equals `Accept` on the parsed edge; a bad line changes nothing |
| LoadGraphJob.CreateLeftovers | src/main/java/science/atlarge/graphalytics/dxram/job/LoadGraphJob.java:130-136 | appends `Leftovers` of the list and registers them |
| LoadGraphJob.Execute | src/main/java/science/atlarge/graphalytics/dxram/job/LoadGraphJob.java:66-142 | the store gains the chunks of `Outcome`; a malformed line ends the job with its exception; otherwise the registrations are returned |
| DirectVertex.Layout | src/main/java/science/atlarge/graphalytics/dxram/graph/data/DirectVertex.java:28-48 | the four fields lie back to back in a 24-byte record |
| DirectVertex.AllocManyFacts | src/main/java/science/atlarge/graphalytics/dxram/graph/data/DirectVertex.java:66-82 | n creations give consecutive fresh ids at consecutive fresh addresses, and change nothing else |
| DirectVertex.RemovedAllCount | src/main/java/science/atlarge/graphalytics/dxram/graph/data/DirectVertex.java:209-213 | a bulk remove removes all its ids exactly when they are distinct and all present |
| DirectVertex.ReserveFacts | src/main/java/science/atlarge/graphalytics/dxram/graph/data/DirectVertex.java:142-150 | reserving creates exactly the given ids, at fresh addresses |
| DirectVertex.ChunkStore.CreateRecords | src/main/java/science/atlarge/graphalytics/dxram/graph/data/DirectVertex.java:66-72 | all of count records are created, or none |
| DirectVertex.ChunkStore.Pin | src/main/java/science/atlarge/graphalytics/dxram/graph/data/DirectVertex.java:186 | pins the chunk and returns its address |
| DirectVertex.ChunkStore.Remove | src/main/java/science/atlarge/graphalytics/dxram/graph/data/DirectVertex.java:194 | removes the chunk when present and reports how many were removed |
| DirectVertex.StoredReadsBack | src/main/java/science/atlarge/graphalytics/dxram/graph/data/DirectVertex.java:235-249 | a stored vertex reads back its depth and neighbours |
| DirectVertex.DefaultIsNewVertex | src/main/java/science/atlarge/graphalytics/dxram/graph/data/DirectVertex.java:50-64 | the default record stores a new vertex: depth -1, no neighbours |
| DirectVertex.Create | src/main/java/science/atlarge/graphalytics/dxram/graph/data/DirectVertex.java:50-64 | fails when no chunk can be created; otherwise one new default record under the next id |
| DirectVertex.CreateMany | src/main/java/science/atlarge/graphalytics/dxram/graph/data/DirectVertex.java:66-82 | a negative count fails at allocation and too many at creation; otherwise `count` new default records with consecutive ids |
| DirectVertex.WriteNeighbors | src/main/java/science/atlarge/graphalytics/dxram/graph/data/DirectVertex.java:96-106 | writes the count and links a new, pinned chunk of neighbours, or the invalid id for none; it fails only when that chunk cannot be created |
| DirectVertex.CreateFrom | src/main/java/science/atlarge/graphalytics/dxram/graph/data/DirectVertex.java:84-110 | fails exactly when too few chunks are free; otherwise a fresh id storing the vertex. The record is unpinned on success and only a neighbour chunk stays pinned. When the neighbour chunk cannot be created, the new record stays pinned |
| DirectVertex.CopyAll | src/main/java/science/atlarge/graphalytics/dxram/graph/data/DirectVertex.java:120-136 | copies every vertex into its record, failing exactly when the neighbour chunks do not fit |
| DirectVertex.CreateFromAll | src/main/java/science/atlarge/graphalytics/dxram/graph/data/DirectVertex.java:112-140 | fails exactly when too few chunks are free; otherwise consecutive fresh ids each storing its vertex, with empty neighbours at address 0 |
| DirectVertex.CreateReserved | src/main/java/science/atlarge/graphalytics/dxram/graph/data/DirectVertex.java:142-174 | fails exactly when the ids cannot be reserved or chunks run out; otherwise each given id stores its vertex and stays pinned |
| DirectVertex.Remove | src/main/java/science/atlarge/graphalytics/dxram/graph/data/DirectVertex.java:185-198 | as written: the state and result are `Erased` with the neighbour id read as an int |
| DirectVertex.RemoveFixed | src/main/java/science/atlarge/graphalytics/dxram/graph/data/DirectVertex.java:185-198 | corrected: the neighbour id is read as a long |
| DirectVertex.RemoveFixedErases | src/main/java/science/atlarge/graphalytics/dxram/graph/data/DirectVertex.java:185-198 | corrected removal erases the record and its neighbour chunk and leaves every other chunk unchanged |
| DirectVertex.RemoveLeaksWideNeighbors | src/main/java/science/atlarge/graphalytics/dxram/graph/data/DirectVertex.java:189 | as written, a neighbour id beyond 32 bits is truncated: removal succeeds but the neighbour chunk survives |
| DirectVertex.WideIdLosesNode | src/main/java/science/atlarge/graphalytics/dxram/graph/data/DirectVertex.java:189 | the chunk id 0x0001_0000_0000_0002 is read as 2 |
| DirectVertex.RemoveAll | src/main/java/science/atlarge/graphalytics/dxram/graph/data/DirectVertex.java:200-214 | each neighbour chunk is unlinked, then all records are removed; a short count throws |
| DirectVertex.GetDepth | src/main/java/science/atlarge/graphalytics/dxram/graph/data/DirectVertex.java:216-220 | returns the stored depth |
| DirectVertex.WithDepthReads | src/main/java/science/atlarge/graphalytics/dxram/graph/data/DirectVertex.java:222-226 | after `setDepth`, the depth reads back and no vertex's neighbours change |
| DirectVertex.SetDepth | src/main/java/science/atlarge/graphalytics/dxram/graph/data/DirectVertex.java:222-226 | the state is `WithDepth` of the old one |
| DirectVertex.GetNeighborsLength | src/main/java/science/atlarge/graphalytics/dxram/graph/data/DirectVertex.java:228-232 | returns the stored count |
| DirectVertex.GetNeighbors | src/main/java/science/atlarge/graphalytics/dxram/graph/data/DirectVertex.java:235-249 | returns the stored neighbours |
| DirectVertex.SetNeighbors | src/main/java/science/atlarge/graphalytics/dxram/graph/data/DirectVertex.java:251-275 | the old neighbour chunk is unpinned and removed. On success the new neighbours read back, the depth is kept, the record is unpinned again and a new neighbour chunk stays pinned. On failure the record stays pinned |
| DirectVertex.Services.Init | src/main/java/science/atlarge/graphalytics/dxram/graph/data/DirectVertex.java:37-43 | the first call installs the services; later calls change nothing |
| DirectVertex.Services.Use | src/main/java/science/atlarge/graphalytics/dxram/graph/data/DirectVertex.java:176-183 | before init, an error; otherwise a pinned handle on the chunk's address |
| DirectVertex.DirectVertex.GetDepth | src/main/java/science/atlarge/graphalytics/dxram/graph/data/DirectVertex.java:284-286 | returns the depth at the handle's address |
| DirectVertex.DirectVertex.SetDepth | src/main/java/science/atlarge/graphalytics/dxram/graph/data/DirectVertex.java:288-290 | changes only the depth at the handle's address |
| DirectVertex.DirectVertex.GetNeighbors | src/main/java/science/atlarge/graphalytics/dxram/graph/data/DirectVertex.java:292-301 | returns the neighbours linked from the handle's record |
| DirectVertex.DirectVertex.SetNeighbors | src/main/java/science/atlarge/graphalytics/dxram/graph/data/DirectVertex.java:303-325 | through the handle's address: the old neighbour chunk is removed and unpinned, the new neighbours read back with the depth kept, it fails iff neighbours are given and no chunk is free, and the pins are stated on both outcomes (a new neighbour chunk stays pinned only on success) |
| DirectVertex.DirectVertex.Close | src/main/java/science/atlarge/graphalytics/dxram/graph/data/DirectVertex.java:328-332 | removes one pin of the chunk and changes nothing else |

## Left out

- **I/O.**
  - Files are passed in as their contents: lines for text files, bytes for the binary edge list.
  - A file that cannot be opened is `None`.
  - Logging, `printStackTrace` and `System.out` are not modelled.
  - Errors of the US-ASCII charset decoder are not modelled.
- **Reader of the partition.** `GraphLoadOrderedEdgeListTask` reads its partition through the
  5-argument `GraphalyticsOrderedEdgeList` constructor, which is not part of this model. The
  set-up returns the range and start id it would be given, and the vertices read are a
  parameter.
- **Unseen DXRAM services.** These are all parameters:
  - `ChunkID.getChunkID`;
  - the partition index's rebasing;
  - the count `put` returns;
  - the name service.
- **Job and platform machinery.** The job service, `startup`, `run`, `finalize`, `terminate`,
  `initDxram` and `registerJobTypes` are not modelled. They only start DXRAM and time the run.
- **The loader's progress log.** `LoadTask` does not model the floating-point progress messages
  in `loadGraphPartition`, because they only log.
- **Unbounded totals.**
  - LoadTask.LoadGraphPartition: the vertex and edge totals are unbounded naturals. A long
    overflow at 2^63 edges is not modelled.
  - LoadTask.LoadVertices: the buffer is allocated after the partition-entry check. The
    negative-size exception is still raised first.
- **Members `LoadGraphJob` calls that its classes do not have.** `LoadGraphJob` calls
  `new BFSVertex(long)`, `BFSVertex.setNeighbors`, `Graph.putVertexCID`, `Graph.build` and
  `Graph.CONSTRUCTED_GRAPH` (LoadGraphJob.java:110-116 and 131-140). `graph/BFSVertex.java` has
  only the no-argument constructor and no `setNeighbors`. `graph/Graph.java` has only the fields
  `headId`, `vertices` and `constructed` and empty import, export and size methods. So
  `LoadGraphJob` does not compile against these classes as they stand. The model assumes the
  following:
  - the constructor gives a chunk that holds the vertex id;
  - `setNeighbors` gives it the neighbours of the run (`Creation.neighbors`, `None` when never
    called);
  - `create` and `put` store the chunk under an id equal to its position in the store
    (LoadGraphJob.ChunkStore.CreateAndPut);
  - `putVertexCID` records vertex id to chunk id, and a later registration of the same vertex
    replaces the earlier one (LoadGraphJob.RegisteredLastWins);
  - LoadGraphJob.Execute returns these registrations instead of building a graph object. `build`
    and `CONSTRUCTED_GRAPH` are not modelled.
  - The edge class of `graph.data.Graph` is not part of this model. It is a parameter whose
    round trip and size are assumed as preconditions.
- **Lists returned by `Graph`.**
  - DataGraph.Graph.GetVertices: returns the vertex list as a value. The source returns the
    `ArrayList` itself, so a caller's `add` to it changes the graph; that aliasing is not modelled.
  - DataGraph.Graph.GetEdges: the same for the edge list.
- **Short puts.** LoadTask.ChunkStore.CreateAndPut: the store holds the whole batch whatever
  count `put` reports. The loader only logs a count that differs from the batch size, and the
  chunks a short put would leave unwritten are not modelled.
- **Freshness of imported vertices.** DataGraph.Graph.ImportObject states the values of the
  appended vertices but not that each is a fresh object. That is stated per vertex on
  DataGraph.Graph.ImportOneVertex.
- **DirectVertex memory.**
  - DirectVertex.ChunkStore.ReadInt: DXRAM raw memory is not byte-addressed here. A record is
    four typed fields, and reading the 8-byte chunk-id field as an int gives its low 32 bits,
    as on a little-endian node.
  - Pinning is a multiset of chunk ids.
- **DirectVertex creation.**
  - DirectVertex.ChunkStore.CreateRecords: creation is all or nothing. It stands in for DXRAM's
    `create`, which may create fewer chunks.
  - DirectVertex.WriteNeighbors: `Long.BYTES * length` is not wrapped to 32 bits. With 2^28 or
    more neighbours the source would ask for a wrong size.
- **DirectVertex services.**
  - The static methods take the store as a parameter. Calling them before `init` (a
    `NullPointerException`) is not modelled.
  - `Address.INVALID` is a store parameter.
  - Local chunk ids are not bounded.
  - The global `CHUNK_SERVICE` removal is treated as local.
- **DirectVertex pins.**
  - DirectVertex.CopyAll: which pins remain after the copy is stated only for
    `createReserved`.
  - DirectVertex.CreateFromAll: the unpinning after each copy is not stated.
- **DirectVertex preconditions.** DirectVertex.GetDepth, DirectVertex.GetNeighbors and the
  other accessors require the record to exist. Reading a missing chunk is undefined in DXRAM
  and not modelled.
- **Oversized neighbour lists.** `loadGraphPartition` warns about neighbour lists over
  134217660 entries but does not truncate them, and the model follows the code.

## Findings

| source | as written | input that shows it | evidently intended | confidence | as-written member | corrected member |
|---|---|---|---|---|---|---|
| src/main/java/science/atlarge/graphalytics/dxram/DxramConfiguration.java:148 | `importObject` reads the thread count into `numMachines` | export (h, 2 machines, 3 threads), import into a default configuration: (h, 3, 1) | `this.numThreads = p_importer.readInt(this.numThreads)` | high; not executed | Configuration.ImportAsWrittenCounterexample | Configuration.RoundTrip |
| src/main/java/science/atlarge/graphalytics/dxram/graph/load/GraphLoadOrderedEdgeListTask.java:265-267 | the start vertex id adds the slave's OWN vertex count `slaveId` times | partitions of 3 and 5 vertices: slave 1 starts at 5 | add the counts of partitions 0 to slaveId-1 | high; not executed | LoadTask.StartVertexIdCounterexample | LoadTask.ConsecutivePartitions |
| src/main/java/science/atlarge/graphalytics/dxram/job/LoadGraphJob.java:93-126 | the run open when the edge stream ends is never flushed | edges (1,2), (1,3) with vertices 1-4: vertex 1 is created without neighbours | create the last run's head with its neighbours | high; not executed | LoadGraphJob.LastRunLostExample | LoadGraphJob.FlushedKeepsEveryTarget |
| src/main/java/science/atlarge/graphalytics/dxram/graph/data/DirectVertex.java:189 | the 8-byte neighbour chunk id is read with `readInt` | neighbour chunk id 0x0001_0000_0000_0002 is read as 2; the chunk is not removed | `readLong` | medium; not executed | DirectVertex.RemoveLeaksWideNeighbors | DirectVertex.RemoveFixedErases |
