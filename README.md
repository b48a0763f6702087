# 3DS storage core, modelled in Dafny

3DS is a decentralised store for 3D models. This project models its core and proves properties of that model. The core has four parts:

- **The chunked model store** (`pkg/core/storage.go`, `pkg/core/model.go`). An upload is read through a 5 MiB buffer. Each read is written as a file `chunk_<i>` in a fresh directory named by a generated ID. An in-memory catalog records each model's metadata. `StreamModel` writes the chunks back in index order.
- **The content-addressed block store** (`pkg/blocks/store.go`) and the block service over it (`pkg/blocks/service.go`). A model file is imported into vertices. Each vertex becomes a 64-byte block named by the SHA-256 of its bytes.
- **The bookkeeping of package core.** `object.go` covers objects made of vertex blocks. `organizer.go` covers collections. `referencer.go` covers references between objects.
- **The importers and the overlay.** The OBJ, MTL and binary FBX importers live in `pkg/importers`. The peer-to-peer overlay's own rules live in `pkg/p2p/network.go`: the backoff loop, bootstrap, the self-message filter, the shutdown order and the message codes. The pure helpers of `pkg/api/api.go` are modelled too.

## How the model is built

Each Go object whose fields change becomes a Dafny `class` with the same fields. This covers `Storage`, `Store`, `Service`, `ObjectService`, `Organizer`, `Collection`, `Referencer`, `VertexImporter`, `MaterialImporter` and `Network`.

Each Go loop becomes a `method` with a loop. The method is proved equal to a recursive specification function, and the properties are lemmas about that function.

Some parts of the environment become parameters:

| Environment | Modelled as |
|---|---|
| File system | Maps: block files by name, chunk files by model ID and index, object metadata by object ID |
| Faults of the operating system | Boolean parameters, or `nat -> bool` for the i-th operation of a loop |
| Context cancellation | A boolean observed before each step |
| SHA-256 | A `Hasher` function parameter |
| `uuid.New` | An injective `nat -> string` applied to a counter of issued IDs |
| `strconv.ParseFloat` and `1.0 - v` | The `FloatOps` oracle; floats are carried as their 64-bit patterns |
| libp2p | Each connection attempt, close and subscription read is an oracle parameter |
| Go panics (index or slice out of range) | The error `Panic` |

Results proved that are worth knowing:

- **Idempotent blocks.** Storing a block twice gives the same hash and one copy (`BlockStore.StoreTwice`). A block read back holds the stored bytes, unless a block of the same name was already there; its contents then collide with the new data under SHA-256 (`BlockStore.StoreThenGet`).
- **Upload round trip.** Storing an upload and streaming it back gives exactly the bytes read, and a 12 MiB upload becomes chunks of 5, 5 and 2 MiB (`ModelStorage.StoreThenStream`, `ModelStorage.TwelveMiBUpload`). After a delete the model can be neither found nor streamed (`ModelStorage.DeleteThenGet`).
- **Codec round trips.** A vertex block decodes back to its vertex. An FBX geometry, or a list of Material nodes, written after a header is read back by the importers (`Vertices.ParseFbxOfEncoded`, `Materials.FbxMaterialsOfEncoded`).
- **Blocks are not reference-counted.** Deleting an object removes blocks that another object still lists (`Objects.DeleteSharedBlock`).
- **Some objects can never be deleted.** A model in which a vertex repeats lists the same block hash twice. `DeleteObject` then removes the block at the first occurrence and fails with "no such file" at the second, whatever else happens (`Objects.RepeatedVertexBlocksDelete`).
- **Collections all share one ID.** `CreateCollection` never sets an ID. Every collection is filed under the empty ID and replaces the one created before it (`Organizing.CreateTwice`).
- **The backoff schedule.** It sleeps 1, 2, 4, 8, 16 and 32 seconds, 63 seconds in all. A seventh attempt runs after the 32-second sleep, with the backoff at 64 seconds, and "max backoff reached" is reported exactly when all seven attempts fail (`P2P.TotalSleep`, `P2P.AttemptsOutcome`).
- **Shutdown stops at the first DHT error.** `Stop` returns as soon as the DHT fails to close, and leaves the host open (`P2P.Network.Stop`).

## Model

| member | source | states |
|---|---|---|
| Common.PutU64RoundTrip | pkg/blocks/service.go:77-90 | The eight little-endian bytes written for a 64-bit value read back as that value |
| Common.HexDigestEqual | pkg/blocks/store.go:93-96 | Two lower-case hex digests are equal exactly when the SHA-256 digests are |
| Text.ScanLines | pkg/importers/vertex.go:35-44 | The lines a default bufio.Scanner yields contain no newline |
| Text.ScanLinesOfJoinLines | pkg/importers/vertex.go:35-44 | Lines written each followed by a newline, with no newline inside and no trailing carriage return, are read back exactly |
| Text.FieldsOfJoinSpace | pkg/importers/vertex.go:47 | strings.Fields of words joined by single spaces gives back those words |
| Text.TrimSpaceOfJoinSpace | pkg/importers/vertex.go:42 | TrimSpace leaves a line of words joined by single spaces unchanged |
| Text.AtoiOfNatToString | pkg/importers/vertex.go:246-250 | strconv.Atoi reads back the decimal text of a natural number |
| Fbx.CheckHeader | pkg/importers/vertex.go:141-152 | The header is accepted exactly when there are 27 bytes, the magic matches and the uint32 version at byte 23 is at least 7100. A file of 20 to 26 bytes that starts with the magic is a panic. A missing magic is "invalid FBX". An older version is "unsupported" and names the version |
| Fbx.CheckHeaderOfHeader | pkg/importers/material.go:172-182 | A header written for a version is accepted exactly when the version is at least 7100, and the version reads back |
| Fbx.ReadNode | pkg/importers/vertex.go:277-302 | A node header read at an offset: the end offset it reports is the uint32 there and lies within the data. A read of the unchecked name-length byte past the data is a panic exactly in the case the code reaches it |
| Fbx.ReadNodeOfEncoded | pkg/importers/material.go:187-211 | A node record written at an offset reads back with its name, body start and end |
| Vertices.ParseFloats | pkg/importers/vertex.go:168-182 | The values parse one by one. The first value ParseFloat rejects is the error, and every value before it parsed |
| Vertices.Vector3Of | pkg/importers/vertex.go:168-182 | Fewer than three values is "not enough values". Otherwise the result is OK exactly when the first three parse, and it holds those three |
| Vertices.Vector2Of | pkg/importers/vertex.go:184-198 | The same for two values |
| Vertices.ParseVector3 | pkg/importers/vertex.go:168-182 | The loop computes Vector3Of |
| Vertices.ParseVector2 | pkg/importers/vertex.go:184-198 | The loop computes Vector2Of |
| Vertices.ParseIndex | pkg/importers/vertex.go:246-266 | OK exactly when Atoi succeeds with k in 1..max or -k in 1..max. A positive k gives k-1, a negative k gives max+k, and the result is below max. Text that is not a number is a bad-number error |
| Vertices.ParseIndexZero | pkg/importers/vertex.go:246-266 | Index "0" is always out of bounds |
| Vertices.ParseIndexOneBased | pkg/importers/vertex.go:246-266 | The text of k+1 names element k |
| Vertices.ParseIndexFromEnd | pkg/importers/vertex.go:246-266 | "-j" names the j-th element from the end |
| Vertices.FaceVertex | pkg/importers/vertex.go:208-240 | A face entry's position is a declared position. Texture coordinates and normal are declared ones when their field is present and non-empty, and zero otherwise. A bad position index is that index's error |
| Vertices.FaceBuildMeaning | pkg/importers/vertex.go:201-243 | processFace keeps one vertex per entry, in order, up to the first failing entry, and fails with that entry's error. It passes exactly when every entry gives a vertex |
| Vertices.BuildFaceVertex | pkg/importers/vertex.go:208-240 | The loop body computes FaceVertex |
| Vertices.ObjLineOfWords | pkg/importers/vertex.go:42-50 | A line of words that does not start with '#' is handled by its words |
| Vertices.PositionLine | pkg/importers/vertex.go:53-61 | A "v x y z" line whose numbers parse appends one position and builds no vertex |
| Vertices.ShortPositionLine | pkg/importers/vertex.go:54-56 | A "v" line with two numbers stops the import with "invalid vertex position" |
| Vertices.FaceLine | pkg/importers/vertex.go:83-86 | An "f" line builds the vertices processFace builds and leaves the tables alone |
| Vertices.PlainEntry | pkg/importers/vertex.go:201-243 | A bare index entry picks that position, with zero normal and zero texture coordinates |
| Vertices.PlainTriangle | pkg/importers/vertex.go:201-243 | Face "1 2 3" builds the triangle of the first three positions |
| Vertices.TriangleImport | pkg/importers/vertex.go:34-91 | Three "v" lines then "f 1 2 3" import as that triangle |
| Vertices.FaceBeforePositions | pkg/importers/vertex.go:83-86 | A face before any position fails with index 0 out of bounds |
| Vertices.FloatArray | pkg/importers/vertex.go:322-342 | Fewer than 4 bytes gives nothing. Otherwise it gives min(count, whole values present) values, each the uint64 at its own offset |
| Vertices.ExtractFloatArray | pkg/importers/vertex.go:322-342 | The loop computes FloatArray |
| Vertices.FloatArrayRoundTrip | pkg/importers/vertex.go:322-342 | A written count-and-values array reads back as the values |
| Vertices.LaterVerticesOverride | pkg/importers/vertex.go:305-312 | A later Vertices node replaces what an earlier one found |
| Vertices.ExtractGeometryData | pkg/importers/vertex.go:269-319 | The node walk computes the geometry specification, including Diverges for a walk that comes back to an offset |
| Vertices.ParseFbx | pkg/importers/vertex.go:141-160 | A header CheckHeader rejects is that error |
| Vertices.GeometriesOfEncoded | pkg/importers/vertex.go:269-319 | Vertices, Normals and UV nodes written one after another are found again |
| Vertices.ParseFbxOfEncoded | pkg/importers/vertex.go:141-160 | A file of a supported version with those nodes parses to the geometry written, and imports as the vertices built from it |
| Vertices.FbxBuildMeaning | pkg/importers/vertex.go:107-135 | The FBX vertex loop appends, in order, the vertices of the triples before the first that panics. It fails only with a panic, at a triple whose reads go out of range |
| Vertices.FbxBuildPasses | pkg/importers/vertex.go:107-135 | On whole triples the loop passes exactly when the normal array does not end inside a triple and the UV array does not end inside a pair. It then yields one vertex per triple |
| Vertices.VertexImporter.constructor | pkg/importers/vertex.go:27-31 | An importer starts with no vertices |
| Vertices.VertexImporter.ProcessFace | pkg/importers/vertex.go:201-243 | Appends exactly the vertices Face builds and returns its outcome |
| Vertices.VertexImporter.ImportLine | pkg/importers/vertex.go:41-87 | One OBJ line updates the tables, appends the vertices and returns the outcome the line specification gives |
| Vertices.VertexImporter.ImportFields | pkg/importers/vertex.go:52-87 | The same for the fields of a non-blank line |
| Vertices.VertexImporter.ImportFromOBJ | pkg/importers/vertex.go:34-91 | Appends the vertices of the OBJ text's lines in order, up to the first failing line |
| Vertices.VertexImporter.ImportFromFBX | pkg/importers/vertex.go:94-138 | Appends the vertices the FBX file gives and returns its outcome |
| Materials.PropertyOf | pkg/importers/material.go:61-130 | Ka/Kd/Ks set a colour when three values parse and fail with "invalid … color" otherwise. Ns and d set the parsed value. Tr sets one minus the parsed value. map_Kd, map_Bump/bump and map_Ks set the remaining fields joined by spaces |
| Materials.FieldsCommand | pkg/importers/material.go:50-131 | newmtl starts a material named by the joined fields. A property keyword with no current material is "specified before material". Short lines and unknown keywords are skipped |
| Materials.Perform | pkg/importers/material.go:56-130 | Applying a line keeps the current material in the table, keeps every material under its own name, and removes no name |
| Materials.PerformFrame | pkg/importers/material.go:56-130 | A line changes at most the material it leaves current and adds no other name |
| Materials.PerformSet | pkg/importers/material.go:61-130 | A property is set on the current material |
| Materials.MtlFromKeeps | pkg/importers/material.go:40-135 | An MTL import, successful or not, removes no material and keeps each under its own name |
| Materials.LineCommandOfWords | pkg/importers/material.go:45-53 | A line of words not starting with '#' is handled by its words |
| Materials.PropertyBeforeMaterial | pkg/importers/material.go:61-130 | Any property line before the first newmtl is rejected and the table is unchanged |
| Materials.NewMaterialLine | pkg/importers/material.go:56-59 | newmtl starts a fresh material under its name, replacing one of that name, and makes it current |
| Materials.TransparencyLine | pkg/importers/material.go:101-112 | "Tr v" stores one minus v as the transparency, "d v" stores v, and nothing else changes |
| Materials.ReadPropertyMeaning | pkg/importers/material.go:253-265 | A property panics exactly when its value runs past the end of the file. Otherwise Name, the three colours and Shininess set their field from the value bytes, and other names change nothing |
| Materials.ReadRecord | pkg/importers/material.go:234-251 | A property record's value starts after its header and name, inside the node |
| Materials.MaterialWalk | pkg/importers/material.go:187-224 | The node walk keeps materials keyed by name and never drops a name |
| Materials.FbxMaterials | pkg/importers/material.go:171-227 | A header CheckHeader rejects is that error. Otherwise the result is keyed by name |
| Materials.MaterialNodePass | pkg/importers/material.go:234-268 | One pass of parseMaterialNode's loop either ends with the specification's result or continues to the state the specification continues with |
| Materials.ParseMaterialNode | pkg/importers/material.go:230-271 | The loop computes the node specification |
| Materials.MaterialWalkPass | pkg/importers/material.go:187-224 | One pass of parseFBXMaterials's loop ends with, or continues as, the specification |
| Materials.ParseFbxMaterials | pkg/importers/material.go:171-227 | The loop computes the file specification |
| Materials.NodePropsOfEncoded | pkg/importers/material.go:230-271 | Property records laid out in a node are read back and applied in order |
| Materials.MaterialNodeOfEncoded | pkg/importers/material.go:230-271 | A node body of property records is the material those records set |
| Materials.StoreLast | pkg/importers/material.go:219 | Of several materials with one name, the last is kept |
| Materials.StoreOthers | pkg/importers/material.go:219 | A name no new material has keeps its entry |
| Materials.MaterialWalkOfEncoded | pkg/importers/material.go:187-224 | The walk over laid-out Material nodes stores each node's material in file order |
| Materials.FbxMaterialsOfEncoded | pkg/importers/material.go:171-227 | Material nodes written after a supported header parse to their materials, the later of two with one name kept |
| Materials.MaterialImporter.constructor | pkg/importers/material.go:33-37 | An importer starts with no materials |
| Materials.MaterialImporter.GetMaterial | pkg/importers/material.go:160-163 | Found exactly when the name is in the table, with that entry |
| Materials.MaterialImporter.ImportMtlLine | pkg/importers/material.go:44-131 | One MTL line changes the table as the specification says; a rejected line changes nothing and returns its error |
| Materials.MaterialImporter.ImportFromOBJ | pkg/importers/material.go:40-135 | The table and outcome are those of the MTL import of the text; no material is lost and every one stays under its own name |
| Materials.MaterialImporter.ImportFromFBX | pkg/importers/material.go:138-157 | A file that parses adds its materials, each replacing one of its name. A file that fails changes nothing and returns the error |
| Materials.MaterialImporter.Merge | pkg/importers/material.go:152-154 | The table becomes the old table overridden by the parsed materials |
| ModelRecords.CalculateHash | pkg/core/model.go:29-33 | The metadata hash is 64 lower-case hex digits |
| ModelRecords.HashIgnoresContent | pkg/core/model.go:29-33 | Size, chunks, owner and permissions do not affect the hash |
| ModelRecords.HashSeesOnlyConcatenation | pkg/core/model.go:29-33 | Records whose ID, name and format concatenate to the same text have the same hash |
| ModelRecords.ConcatenationCollision | pkg/core/model.go:29-33 | ID "ab" with name "c" and ID "a" with name "bc" collide |
| BlockStore.BlockHash | pkg/blocks/store.go:93-96 | A block's name is 64 hex digits |
| BlockStore.BlockHashEqual | pkg/blocks/store.go:93-96 | Two blocks get the same name exactly when SHA-256 gives their contents the same digest |
| BlockStore.Store.constructor | pkg/blocks/store.go:27-35 | A store opened on a directory holds the blocks already there, each file named by the hash of its bytes |
| BlockStore.Store.StoreBlock | pkg/blocks/store.go:38-57 | A present block is not rewritten and its hash is returned. A failed write returns "" and an error and changes nothing. Otherwise the block is added under its hash |
| BlockStore.Store.GetBlock | pkg/blocks/store.go:60-78 | Found exactly when stored, with its size and contents, which hash to the name; otherwise "block not found" |
| BlockStore.Store.DeleteBlock | pkg/blocks/store.go:81-87 | A missing block is "no such file", a failed remove changes nothing, otherwise exactly that block goes |
| BlockStore.StoreTwice | pkg/blocks/store.go:38-57 | Storing the same data twice returns the same hash and leaves one copy |
| BlockStore.StoreThenGet | pkg/blocks/store.go:38-78 | A stored block is found under the returned name with its size. It holds the stored bytes when the name was new. Otherwise it holds the earlier contents, which the store does not overwrite; those then differ from the new data only by a SHA-256 collision |
| ModelStorage.SplitChunksMeaning | pkg/core/storage.go:87-124 | The split succeeds exactly when the reader reaches EOF with no failed write. It is cancelled exactly when the context is seen cancelled first. On success the chunks concatenate to the bytes read, each is at most 5 MiB, and the size is their total |
| ModelStorage.BlocksShape | pkg/core/storage.go:87-124 | A 5 MiB buffer cuts data into ceil(n / 5 MiB) non-empty pieces, all full but the last |
| ModelStorage.ByteReaderSplit | pkg/core/storage.go:87-124 | An in-memory upload is stored as ceil(n / 5 MiB) chunks, all full but the last, concatenating back to the data |
| ModelStorage.TwelveMiBUpload | pkg/core/storage.go:87-124 | 12 MiB is stored as chunks of 5, 5 and 2 MiB |
| ModelStorage.EmptyUpload | pkg/core/storage.go:87-124 | An empty upload stores no chunk |
| ModelStorage.StreamFromComplete | pkg/core/storage.go:210-237 | With all chunk files present and no fault, the writer receives the chunks concatenated |
| ModelStorage.StoreInvAdd | pkg/core/storage.go:50-85 | Cataloguing a model under a newly issued ID with a consistent directory keeps the store invariant |
| ModelStorage.StoreInvRemove | pkg/core/storage.go:168-183 | Dropping a catalog entry, with or without its directory, keeps the store invariant |
| ModelStorage.StoreInvIssue | pkg/core/storage.go:130-132 | Issuing more IDs keeps the store invariant |
| ModelStorage.Storage.constructor | pkg/core/storage.go:39-47 | A store opened on a directory holds the object records already there, an empty table of models, and is valid |
| ModelStorage.Storage.GenerateUuid | pkg/core/storage.go:130-132 | Each call returns the next ID from the injective generator |
| ModelStorage.Storage.GetModel | pkg/core/storage.go:157-166 | Found exactly when catalogued, with its entry, which carries that ID; otherwise "model not found" |
| ModelStorage.Storage.StoreModel | pkg/core/storage.go:50-85 | A fresh ID is used. A mkdir or split failure returns the error and leaves catalog and directories unchanged. Otherwise the entry with the size, chunk IDs and hash is catalogued, the directory holds the chunks, and the store invariant holds |
| ModelStorage.Storage.SplitAndStoreChunks | pkg/core/storage.go:87-124 | The read loop writes the split's chunks into the model's directory with one fresh ID each, or returns the split's error |
| ModelStorage.Storage.StoreChunk | pkg/core/storage.go:126-128 | The chunk is appended to its directory, or a failed write changes nothing |
| ModelStorage.Storage.StreamModel | pkg/core/storage.go:210-237 | An unknown ID is "model not found". Otherwise the chunk files go to the writer in index order, stopping at the first cancellation, missing file or failed write. With no fault the writer receives the model's bytes |
| ModelStorage.Storage.DeleteModel | pkg/core/storage.go:168-183 | An unknown ID changes nothing. Otherwise the entry goes, and the directory goes unless its removal fails |
| ModelStorage.Storage.ListModels | pkg/core/storage.go:134-144 | One copy of every catalog entry, without repeats |
| ModelStorage.Storage.GetStatus | pkg/core/storage.go:186-207 | The model count, the sum of sizes and one summary per entry |
| ModelStorage.Storage.StoreObject | pkg/core/storage.go:249-275 | An object without an ID gets a fresh one. The record is written under its ID, or a failure changes nothing |
| ModelStorage.Storage.GetObject | pkg/core/storage.go:278-297 | Found exactly when stored, otherwise "object not found" |
| ModelStorage.Storage.DeleteObject | pkg/core/storage.go:300-306 | The record goes, and an absent one is not an error. A failed removal changes nothing |
| ModelStorage.StoreThenStream | pkg/core/storage.go:50-237 | A model stored from a reader that ends in EOF streams back exactly the bytes read |
| ModelStorage.DeleteThenGet | pkg/core/storage.go:168-246 | After a delete the model can be neither found nor streamed, and after a successful delete its directory is gone |
| BlockService.EncodeVertexLayout | pkg/blocks/service.go:77-90 | Bytes 8k to 8k+8 of a vertex block are the little-endian bits of its k-th component |
| BlockService.DecodeEncodeVertex | pkg/blocks/service.go:77-90 | A vertex block decodes back to the vertex |
| BlockService.EncodeVertexInjective | pkg/blocks/service.go:77-90 | Two vertices encode to the same 64 bytes exactly when they are equal bit for bit |
| BlockService.SameBlockSameVertex | pkg/blocks/service.go:77-90 | Two vertices share a block exactly when they are equal, or when they differ and SHA-256 collides on their encodings |
| BlockService.StoreFromKeeps | pkg/blocks/service.go:49-56 | Storing vertex blocks keeps every old block, and every new block is keyed by its own hash |
| BlockService.StoreFromHashes | pkg/blocks/service.go:49-56 | On success there is one hash per vertex, in order, each the hash of that vertex's block |
| BlockService.StoreFromKeys | pkg/blocks/service.go:49-56 | On success the store holds exactly the old blocks and the vertices' blocks |
| BlockService.StoreFromFails | pkg/blocks/service.go:49-56 | A failure is an I/O failure of some write, and with no failing write the loop succeeds |
| BlockService.SharedVertexSameHash | pkg/blocks/service.go:49-56 | A repeated vertex gets the same hash at both positions |
| BlockService.FetchBlocks | pkg/blocks/service.go:62-74 | OK exactly when every hash is stored, then the blocks in order; otherwise "block not found" |
| BlockService.Service.constructor | pkg/blocks/service.go:19-23 | The service wraps the given store |
| BlockService.Service.ProcessModelData | pkg/blocks/service.go:26-59 | An unsupported format or import error stores nothing and returns it. Otherwise the vertices' blocks are stored in order as the specification says, and the store stays valid |
| BlockService.Service.StoreVertices | pkg/blocks/service.go:49-56 | The loop stores the blocks and returns the hashes the specification gives |
| BlockService.Service.GetModelBlocks | pkg/blocks/service.go:62-74 | Computes FetchBlocks on the store |
| BlockService.Service.DeleteBlock | pkg/blocks/service.go:93-95 | Deletes as the store does |
| Objects.DeleteFromShrinks | pkg/core/object.go:69-84 | Deleting an object's blocks only removes blocks and leaves the others unchanged |
| Objects.DeleteFromPasses | pkg/core/object.go:69-84 | The block deletions all succeed exactly when the hashes are distinct, all stored and no removal fails. Then exactly those blocks are gone |
| Objects.RepeatedHashFailsDelete | pkg/core/object.go:69-84 | A repeated hash makes the block deletions fail |
| Objects.RepeatedVertexBlocksDelete | pkg/core/object.go:38-84 | The block list of a model with a repeated vertex can never be deleted completely |
| Objects.ObjectService.constructor | pkg/core/object.go:30-35 | The service wraps the given block service and storage |
| Objects.ObjectService.CreateObject | pkg/core/object.go:38-61 | The blocks are those ProcessModelData leaves. Its error is returned with storage unchanged. Otherwise a fresh ID is issued, and the record with the block hashes is stored, or an I/O failure leaves the records unchanged |
| Objects.ObjectService.GetObject | pkg/core/object.go:64-66 | Found exactly when stored, otherwise "object not found" |
| Objects.ObjectService.DeleteObject | pkg/core/object.go:69-84 | An unknown ID changes nothing. Otherwise the blocks are deleted in order up to the first failure, and the record is removed only when everything passed |
| Objects.DeleteSharedBlock | pkg/core/object.go:69-84 | Deleting one of two objects that share a block removes the block the other still lists |
| Organizing.Collection.constructor | pkg/core/organizer.go:42-46 | A new collection has no objects and no metadata |
| Organizing.Organizer.constructor | pkg/core/organizer.go:30-35 | No collections |
| Organizing.Organizer.CreateCollection | pkg/core/organizer.go:38-50 | A fresh empty collection with an empty ID becomes the only one, under the empty ID |
| Organizing.Organizer.AddToCollection | pkg/core/organizer.go:53-64 | An unknown collection is "collection not found". Otherwise the object ID is appended, duplicates included, and the metadata is unchanged |
| Organizing.Organizer.GetCollection | pkg/core/organizer.go:67-77 | Found exactly when present, with that collection, otherwise "collection not found" |
| Organizing.CreateTwice | pkg/core/organizer.go:38-77 | The second collection replaces the first under the empty ID, any other ID is not found, and added objects go to the second |
| References.Lookup | pkg/core/referencer.go:38-45 | An absent ID reads as the empty list |
| References.AddKeepsMirrored | pkg/core/referencer.go:24-35 | Recording a reference keeps each reference matched by one back reference |
| References.Referencer.constructor | pkg/core/referencer.go:16-21 | Both maps start empty and mirrored |
| References.Referencer.AddReference | pkg/core/referencer.go:24-35 | Never fails. It appends to from's references and to to's back references, repeats included, and keeps the maps mirrored |
| References.Referencer.GetReferences | pkg/core/referencer.go:38-45 | The ID's references, or none, each counted as often as the matching back references |
| References.Referencer.GetBackReferences | pkg/core/referencer.go:48-55 | The ID's back references, or none, each counted as often as the matching references |
| P2P.Code | pkg/p2p/network.go:267-275 | The message codes are below 5 |
| P2P.CodesRoundTrip | pkg/p2p/network.go:267-275 | The codes are exactly 0 to 4, one per message type, in both directions |
| P2P.LastAttempt | pkg/p2p/network.go:284-305 | Among the first seven attempts, only the seventh backoff exceeds 60 seconds |
| P2P.AttemptsSleeps | pkg/p2p/network.go:284-305 | The sleeps after failed attempts are 2^i, 2^(i+1) and so on, at most one per attempt before the seventh |
| P2P.AttemptsSum | pkg/p2p/network.go:284-305 | n sleeps from attempt i add up to 2^(i+n) - 2^i |
| P2P.TotalSleep | pkg/p2p/network.go:284-305 | At most six sleeps, 63 seconds in all |
| P2P.AttemptsOutcome | pkg/p2p/network.go:284-305 | Success exactly when some attempt up to the seventh connects uncancelled after uncancelled failures. "Max backoff reached" exactly when all seven fail uncancelled. Otherwise cancelled |
| P2P.BootstrapKeys | pkg/p2p/network.go:153-170 | Bootstrap keeps every known peer and adds exactly the parsed peers whose backoff loop connects |
| P2P.StopAt | pkg/p2p/network.go:189-195 | The read loop stops at the first error seen with the context cancelled |
| P2P.DispatchFilters | pkg/p2p/network.go:187-206 | Exactly the messages read before the loop ends and not from the local peer are dispatched, and none from the local peer |
| P2P.ClosesInOrder | pkg/p2p/network.go:244-264 | Components close in the order subscription, topic, DHT, host, each once |
| P2P.ClosesWhich | pkg/p2p/network.go:244-264 | Every existing component closes, except the host when the DHT fails to close |
| P2P.Network.constructor | pkg/p2p/network.go:39-44 | A network starts with no peers and no components |
| P2P.Network.ConnectToPeer | pkg/p2p/network.go:172-185 | The peer is recorded under its ID exactly when the connection succeeds |
| P2P.Network.ConnectToPeerWithBackoff | pkg/p2p/network.go:284-305 | The loop's outcome and sleeps are the backoff specification's, and the peer is recorded only on success |
| P2P.Network.ConnectToBootstrapPeers | pkg/p2p/network.go:153-170 | Always nil; the peer table is the bootstrap specification's |
| P2P.Network.GetPeers | pkg/p2p/network.go:233-242 | Every peer ID exactly once |
| P2P.Network.HandleMessages | pkg/p2p/network.go:187-206 | The loop dispatches what the dispatch specification gives |
| P2P.Network.Stop | pkg/p2p/network.go:244-264 | Closes the components the shutdown specification gives. Nil exactly when neither the DHT close nor the host close fails, otherwise an I/O failure |
| Api.ContentTypeCases | pkg/api/api.go:273-286 | gltf, glb and obj each have their own type, and every other format is an octet stream |
| Api.ExtFromMeaning | pkg/api/api.go:288-295 | The extension scan finds the suffix from the last '.' of the last path element, or "" when there is none |
| Api.ExtMeaning | pkg/api/api.go:288-295 | filepath.Ext is "" exactly when the last element has no '.'; otherwise a suffix that starts with '.' and holds no other '.' or '/' |
| Api.LowerIsLower | pkg/api/api.go:288-295 | Lower-casing leaves no upper-case letter and is idempotent |
| Api.FormatFromFilenameMeaning | pkg/api/api.go:288-295 | The format is "" without an extension, otherwise the lower-cased text after the last '.', with no '.', '/' or capital |
| Api.FormatExamples | pkg/api/api.go:288-295 | "Model.GLTF" gives gltf, "a.tar.GZ" gives gz, "file." and "dir.v1/model" give "" |
| Api.UploadFormat | pkg/api/api.go:122-127 | The form's format when it is not empty, otherwise the one guessed from the file name |

## Left out

- SHA-256 and UUID generation are parameters. The model assumes only that the UUID generator never repeats. Nothing is assumed of the hash: where a result about block contents depends on it, the SHA-256 collision case is stated as a case.
- `strconv.ParseFloat`, `1.0 - v` and all float64 arithmetic are an oracle. Floats are kept as bit patterns, and no numeric property of floats is stated.
- File-system and network faults are parameters that say which operation fails. Go's error message texts and `%w` wrapping are reduced to error kinds.
- BlockStore.Store.constructor: the failure of `os.MkdirAll` is not modelled; the store is opened on a directory that exists.
- ModelStorage.Storage.constructor: the failure of `os.MkdirAll` is not modelled. Model directories left from an earlier run are not in the in-memory table and are not modelled, since a fresh UUID never names them.
- BlockStore.Store.DeleteBlock: only hash-shaped names are modelled, each naming one file in the base directory. Go joins the name to the base path, so the empty name removes the base directory itself when it is empty, and a name with `/` or `..` reaches another path; the model treats every name as a block file.
- BlockStore.Store.GetBlock: only hash-shaped names are modelled. Go joins the name to the base path, so the empty name reads the base directory and fails with an error other than "block not found", and a name with `/` or `..` reads another path; the model reports a missing block.
- ModelStorage.Storage.StoreModel: the error of the `os.RemoveAll` cleanup after a failed split is ignored in Go, and the model takes the cleanup to succeed; chunk files left behind by a failed cleanup are not modelled.
- P2P.Bootstrap: the cancellation oracle is not required to stay cancelled, while Go's shared context, once cancelled, stays so for every later attempt and address. Every lemma about it holds for every oracle, monotone ones included.
- Read errors other than "not found" in `GetBlock` and `GetObject`, and in the directory listing of `StreamModel`, are not modelled separately.
- JSON encoding and decoding of object metadata (`StoreObject`, `GetObject`) are not modelled; the record is stored as a value.
- The 64 KiB token limit of `bufio.Scanner` is not modelled: every line is read whole.
- Text is read one byte per character, so multi-byte UTF-8 text is not decoded. `strings.Fields` and `TrimSpace` split only on ASCII white space. `strings.ToLower` is modelled on ASCII letters only.
- `io.ReadAll` is modelled as the whole input already in memory.
- ModelStorage.WellFormedReader: only readers that eventually stop, with EOF, an error or a cancelled context, are modelled. A reader that delivers data forever would keep `splitAndStoreChunks` looping forever, and the model has no such run.
- FBX inputs of 4 GiB or more are excluded by a precondition, because the uint32 offsets would wrap before the length check.
- The FBX walks are bounded by the number of bytes plus one. A walk that runs longer is reported as `Diverges`. That such a walk revisits an offset and would loop forever in Go is argued in the comments beside the walks, not proved.
- Fbx.CheckHeader: for a file of 20 to 26 bytes that starts with the magic, Go slices the version past the length, within the capacity of the buffer `io.ReadAll` returned. It then reads whatever lies there, for example "unsupported FBX version: 0", instead of panicking. The model treats this as a panic, because the buffer's capacity and the bytes beyond its length are not known.
- Materials.ReadProperty: Go can reslice a property's value past the node, up to the capacity of the underlying file buffer. The model allows this up to the end of the file and treats anything beyond as a panic, because the buffer's capacity beyond its length is not known.
- Mutexes and concurrency are not modelled: each operation is atomic. The same goes for the goroutines that handle messages and the pointer aliasing of map values handed to callers.
- Timestamps are parameters. The sleeps of the backoff loop are returned as a list rather than performed. The 10-second connection timeout is not modelled.
- The libp2p host, DHT, PubSub and mDNS bring-up (`Start`, `createHost`, `initDHT`, `initPubSub`, `initMDNS`, `HandlePeerFound`) are foreign calls and are not modelled. So are `Broadcast`, `SendToPeer` and the empty `processMessage`.
- P2P.Network.Stop: the errors of `topic.Close` and the cancellation of the subscription are not reported by the code and are not modelled.
- The HTTP surface of `pkg/api` (routing, multipart parsing, responses) is not modelled; only its pure helpers are.
- Collection metadata values are modelled as strings.
- Process start-up and configuration (`cmd/main.go`, `pkg/config`, `pkg/core/node.go`) are not modelled.
