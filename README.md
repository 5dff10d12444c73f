# Layer-data decoding and annotation assembly, modelled in Dafny

This project models two Python modules.

`ReadMLD.py` decodes a binary layer-data file (an "MLD" file):
- a 12-byte header with a magic tag, a version and a layer count;
- for each layer, a 69-byte header found by a byte-by-byte resynchronising scan, then a
  length-prefixed buffer of shape records (polygon, ellipse, circle, polyline, line,
  rectangle, square, text);
- trailing sections introduced by null-terminated tags.

`vtoq.py` turns the objects of the `ROI` layer into annotation features:
- it simplifies outlines (`reduce_polygon`);
- it packs classification colours;
- it closes rings (`Feature.add_polygon`);
- it filters and classifies objects in the `do_convert` loop.

The modules follow the source:

| file | module | what it models |
|---|---|---|
| `outcomes.dfy` | `Outcomes` | `Option`, `Result`, and each exception the source can raise as an `Error` value |
| `little_endian.dfy` | `LittleEndian` | little-endian two's-complement integers (`b`, `i`, `q`) |
| `floats.dfy` | `Floats` | coordinates as symbolic float terms, and the 101 sample angles |
| `structs.dfy` | `Structs` | `convert` and `read_text` over a file cursor (class `Stream`) |
| `shapes.dfy` | `Shapes` | the shape readers and `ReadObject` |
| `container.dfy` | `Layers` | `ReadMLDFile` |
| `simplify.dfy` | `Simplify` | `reduce_polygon` |
| `annotations.dfy` | `Assemble` | `Classification`, `Feature` and the `do_convert` loop |

Each reader is modelled twice:
- as a function of the bytes and a cursor position, which returns `Done(value, new
  position)` or `Crash(error)`;
- as a method on a `Stream` object, which advances its `pos` field as the source advances
  the file.

Each method is proved to return exactly what its function describes. The properties are
then proved about the functions. The loops of `ReadMLDFile`, `read_text`, `reduce_polygon`
and `do_convert` are `while`/`for` loops with invariants that tie them to those functions.

Floats are terms, not numbers: a raw 4- or 8-byte field, an integer constant, an angle
sample, or `+ - * / cos sin` of such terms. Vertex counts, de-interleaving and ring
closure (first vertex equals last) are therefore exact statements. The float tests of the
converter are parameters:
- the two `reduce_polygon` tests;
- the `x < -1e38` background sentinel;
- the affine map with its `astype(int)`.

## Model

| member | source | states |
|---|---|---|
| `LittleEndian.Signed` | ReadMLD.py:44 | the value of a k-byte field lies in the signed k-byte range, and is either its unsigned little-endian value or that value minus 256^k |
| `LittleEndian.UnsignedOfEncode` | ReadMLD.py:44 | the unsigned little-endian value of the k-byte encoding of n < 256^k is n |
| `LittleEndian.EncodeOfUnsigned` | ReadMLD.py:44 | encoding the unsigned value of a byte string gives the same bytes back |
| `LittleEndian.SignedOfEncode` | ReadMLD.py:44 | decoding the two's-complement encoding of any value in the signed range gives the value back |
| `LittleEndian.EncodeOfSigned` | ReadMLD.py:44 | encoding a decoded signed field gives its bytes back, so decoding is a bijection onto the signed range |
| `LittleEndian.Int32Value` | ReadMLD.py:87 | an `<i` field is b0 + 2^8 b1 + 2^16 b2 + 2^24 b3, minus 2^32 when the top byte is at least 0x80 |
| `LittleEndian.Int8Value` | ReadMLD.py:166 | a `b` field is its byte, minus 256 when the byte is at least 0x80 |
| `Floats.Sample` | ReadMLD.py:129 | sample k of the angle grid is the float 0 exactly when k = 0 |
| `Floats.Angles` | ReadMLD.py:129-130 | there are 101 angles, the last (the appended 0) equals the first, and angle k is the k-th sample of a turn |
| `Structs.UnpackField` | ReadMLD.py:44 | each field code yields a value of its kind: n raw bytes for `ns`, a boolean for `?`, an integer in the 1-, 4- or 8-byte signed range, a 4- or 8-byte float |
| `Structs.Unpack` | ReadMLD.py:44 | `struct.unpack` yields one value per field, each of the kind its code gives |
| `Structs.UnpackCons` | ReadMLD.py:44 | unpacking a format splits into its first field over the first bytes and the rest over the remaining bytes |
| `Structs.Repeat` | ReadMLD.py:91 | the format `<nX` has n fields, all X, and n times the size of X |
| `Structs.UnpackSingles` | ReadMLD.py:91 | value k of `<nf` is the binary32 held in bytes [4k, 4k + 4) |
| `Structs.Take` | ReadMLD.py:35 | `f.read(n)` returns min(n, bytes remaining) bytes, which are the file's bytes at the cursor |
| `Structs.ConvertAt` | ReadMLD.py:31-44 | `convert` returns None exactly when fewer bytes than the format size remain, and then leaves the cursor at the end of the file; otherwise it advances the cursor by exactly the format size and returns the unpacked values of those bytes |
| `Structs.TextAt` | ReadMLD.py:57-61 | a successful `read_text` moves the cursor forward and not past the end of the file |
| `Structs.TextRead` | ReadMLD.py:57-61 | a successful `read_text` stops at a 0 byte, after only non-zero ASCII bytes, and returns those bytes as characters; a failed one met a byte of 128 or more, or the end of the file |
| `Structs.TextFound` | ReadMLD.py:57-61 | conversely, when a 0 byte follows only non-zero ASCII bytes, `read_text` returns exactly those bytes and leaves the cursor just past the 0 |
| `Structs.Stream.Open` | ReadMLD.py:232 | an opened file holds the given bytes, with the cursor at 0 |
| `Structs.Stream.Read` | ReadMLD.py:35 | `f.read(n)` returns the bytes `Take` gives and advances the cursor by their number |
| `Structs.Stream.Seek` | ReadMLD.py:243 | `f.seek(p)` puts the cursor at p, even past the end of the file |
| `Structs.Convert` | ReadMLD.py:31-44 | the `convert` method returns, and leaves the cursor, as `ConvertAt` describes |
| `Structs.ReadText` | ReadMLD.py:57-61 | the byte-at-a-time loop of `read_text` returns, or raises, as `TextAt` describes |
| `Shapes.FormatSizes` | ReadMLD.py:87-166 | the record formats `<i`, `<2b`, `<4d`, `<i3d`, `<i4d`, `<i5d` and `<i2d` take 4, 2, 32, 28, 36, 44 and 20 bytes |
| `Shapes.Deinterleave` | ReadMLD.py:95-96 | `pts[::2]` and `pts[1::2]` of an even-length tuple each have half its length, with x[k] = pts[2k] and y[k] = pts[2k + 1] |
| `Shapes.CirclePoints` | ReadMLD.py:128-136 | a circle is a closed ring of 101 vertices |
| `Shapes.EllipsePoints` | ReadMLD.py:114-126 | the single-read ellipse is a closed ring of 101 vertices |
| `Shapes.RectanglePoints` | ReadMLD.py:138-147 | a rectangle is a closed ring of 5 vertices |
| `Shapes.SquarePoints` | ReadMLD.py:149-157 | a square is a closed ring of 5 vertices |
| `Shapes.EllipseAsWrittenAlwaysRaises` | ReadMLD.py:114-126 | the ellipse reader as written raises on every input, and with a KeyError on `maj_axis` whenever the 72 bytes of both reads are there |
| `Shapes.CountValue` | ReadMLD.py:87 | with 4 bytes left, `convert(f, '<i')` returns their signed value and advances by 4 |
| `Shapes.PolygonLayout` | ReadMLD.py:87-100 | a polygon with no count raises; a count n of 0 or less gives None after 4 bytes; a file too short for the 8n bytes of points gives None with the cursor at the end |
| `Shapes.PolygonVertices` | ReadMLD.py:87-100 | a polygon with count n > 0 and 8n bytes present consumes 4 + 8n bytes and is the vertex pairs of those 8n bytes |
| `Shapes.PairsLayout` | ReadMLD.py:91-96 | such a polygon has n x and n y values; vertex k is the binary32 at bytes [8k, 8k + 4) for x and [8k + 4, 8k + 8) for y |
| `Shapes.PairAt` | ReadMLD.py:91-96 | vertex k of such a polygon has x from the binary32 at bytes [8k, 8k + 4) and y from the one at [8k + 4, 8k + 8) |
| `Shapes.BodyShapes` | ReadMLD.py:171-191 | every reader returns as many x as y: circle and ellipse give closed 101-vertex rings, rectangle and square closed 5-vertex rings, and a line 2 vertices; text is tagged RECTANGLE with an anchor and no points; codes 0 and 8 are tagged POLYGON and code 3 POLYLINE |
| `Shapes.ObjectHeader` | ReadMLD.py:166-191 | an incomplete 2-byte header gives None; an unknown shape code gives None right after the header; code 8 is read as a polygon; a payload error or a missing polygon is passed on |
| `Shapes.HeaderValues` | ReadMLD.py:166-170 | the header is two signed bytes, shape then type |
| `Shapes.ObjectFields` | ReadMLD.py:193-198 | a decoded object is its payload, then the `text` and `additional` strings read after it, and its type is the second header byte |
| `Shapes.ObjectWellFormed` | ReadMLD.py:165-198 | a decoded object has as many x as y values, and reading it never moves the cursor back (it moves it forward when an object is returned) |
| `Shapes.BodyAdvances` | ReadMLD.py:171-191 | no shape reader moves the cursor back |
| `Shapes.ReadPolygon` | ReadMLD.py:83-100 | the method returns, and moves the cursor, as `PolygonAt` describes |
| `Shapes.ReadPolyLine` | ReadMLD.py:102-105 | as `PolyLineAt`: the polygon re-tagged POLYLINE, raising when there is none |
| `Shapes.ReadLine` | ReadMLD.py:107-112 | as `LineAt`: the two end points of `<4d` |
| `Shapes.ReadEllipse` | ReadMLD.py:114-126 | as `EllipseAt`, the single-read ellipse (see Findings) |
| `Shapes.ReadCircle` | ReadMLD.py:128-136 | as `CircleAt` |
| `Shapes.ReadRectangle` | ReadMLD.py:138-147 | as `RectangleAt` |
| `Shapes.ReadSquare` | ReadMLD.py:149-157 | as `SquareAt` |
| `Shapes.ReadTextObject` | ReadMLD.py:159-163 | as `TextObjectAt`: the anchor of `<i2d`, tagged RECTANGLE |
| `Shapes.ReadObject` | ReadMLD.py:165-198 | the dispatch method returns, and moves the cursor, as `ObjectAt` describes |
| `Layers.ContainerSizes` | ReadMLD.py:234-244 | the file header `<4s2i` takes 12 bytes, a layer header `<64s?i` 69, and a section length `<q` 8 |
| `Layers.StripNulSpec` | ReadMLD.py:247 | `rstrip(b'\0')` keeps a prefix that does not end in 0 and removes only 0 bytes |
| `Layers.LayerFields` | ReadMLD.py:244-246 | a layer header is 64 name bytes, one flag byte and a signed 32-bit object count |
| `Layers.ScanAt` | ReadMLD.py:242-251 | a found layer header lies wholly inside the file, and the cursor is left just past it |
| `Layers.ScanResult` | ReadMLD.py:242-251 | the scan stops at the first position at or after the cursor whose name, with trailing NULs stripped, is ROI, Label or Annotation; there is no accepted header before it; it returns that header's name and count; it fails only when no accepted header follows |
| `Layers.ScanFinds` | ReadMLD.py:242-251 | any accepted header at or after the cursor is found, unless an earlier one is |
| `Layers.ObjectReaderSound` | ReadMLD.py:274 | every object `ReadObject` returns has as many x as y values |
| `Layers.ObjectLoopStops` | ReadMLD.py:270-286 | the object loop keeps fewer than `nobjects` objects with the cursor short of `obj_pos + buf_size` only when, after m < `nobjects` records that were all objects, it read a record that was not an object, holding then its final objects, and stopped where that record ended |
| `Layers.ObjectLoopGrows` | ReadMLD.py:270-286 | the object loop keeps the objects it started with as a prefix and adds at most one object per record |
| `Layers.ObjectLoopWellFormed` | ReadMLD.py:270-286 | with a reader of well-formed objects, all the objects of the loop are well formed |
| `Layers.LayerObjectsShort` | ReadMLD.py:264-265 | `nobjects <= 0` gives no objects and reads nothing; otherwise a missing buffer size raises |
| `Layers.LayerObjectsBounds` | ReadMLD.py:264-288 | for `nobjects > 0` the cursor always ends at `obj_pos + buf_size`, whatever the loop read, and at most `nobjects` objects are kept |
| `Layers.LayerObjectsWellFormed` | ReadMLD.py:264-290 | every object of a layer has as many x as y values |
| `Layers.LayerName` | ReadMLD.py:242-258 | every layer read is named ROI, Label or Annotation |
| `Layers.LayerReaderNamed` | ReadMLD.py:248-258 | the layer reader only yields those three names |
| `Layers.LayerNames` | ReadMLD.py:237-290 | the names of the layers already stored stay keys, and only ROI, Label and Annotation are added |
| `Layers.LayerReaderSound` | ReadMLD.py:260-290 | the layer reader yields only well-formed objects |
| `Layers.LayersSound` | ReadMLD.py:237-290 | after the layer loop every stored object is well formed |
| `Layers.Classify` | ReadMLD.py:297-333 | the `if`/`elif` chain on a tag: the empty tag exactly when it is `''`; the LDFF branch exactly when the tag starts with `LDFF`; the LayerImage branch exactly for `[LayerImage]`; a section exactly for `[LayerConfigs]` and `[LayerAtlas]`, keyed `LayerConfigs` or `LayerAtlas`; the `else` branch exactly for every other non-empty tag |
| `Layers.StopTags` | ReadMLD.py:297-304 | an empty tag, an `LDFF...` tag or an unknown tag ends the tagged-section loop just past the tag, and only the `LDFF` tag is recorded |
| `Layers.LayerImageTag` | ReadMLD.py:305-323 | `[LayerImage]` ends the loop after an empty name and raises after any other name |
| `Layers.SectionLength` | ReadMLD.py:326 | with 8 bytes left, `convert(f, '<q')` returns their signed value and advances by 8 |
| `Layers.SectionStep` | ReadMLD.py:325-330 | a section tag followed by its 8-byte length L stores, under the tag without its brackets, the next min(L, remaining) bytes (none when L <= 0), and the loop goes on just past them |
| `Layers.SectionTruncated` | ReadMLD.py:325-330 | a section tag without a complete 8-byte length raises |
| `Layers.SectionKey` | ReadMLD.py:325-330 | a section tag is its key in brackets, and the key is `magic[1:-1]` |
| `Layers.TrailingStep` | ReadMLD.py:294-333 | a pass of the tagged-section loop that goes on has moved the cursor forward and stays within the file |
| `Layers.StepShape` | ReadMLD.py:294-333 | one pass keeps the trailer's keys to the two section names, and any recorded LDFF tag starts with `LDFF` |
| `Layers.TrailerKeys` | ReadMLD.py:294-333 | the whole tagged-section loop keeps that invariant |
| `Layers.FileFields` | ReadMLD.py:234 | with 12 bytes present, the header is the 4-byte magic and two signed 32-bit integers |
| `Layers.DecodeFileShape` | ReadMLD.py:231-336 | a file shorter than 12 bytes raises; a decoded file has the magic, version and layer count of its first 12 bytes, layers only named ROI, Label or Annotation (none when the count is 0 or less), and sections only named LayerConfigs or LayerAtlas |
| `Layers.DecodedWellFormed` | ReadMLD.py:231-336 | every object of a decoded file has as many x as y values |
| `Layers.ScanLayerHeader` | ReadMLD.py:242-251 | the scan loop returns, and leaves the cursor, as `ScanAt` describes |
| `Layers.ReadRecord` | ReadMLD.py:274 | one record is read as the loop's record reader describes |
| `Layers.ReadRecords` | ReadMLD.py:270-286 | the `for i in range(nobjects)` loop returns as `ObjectLoop` describes |
| `Layers.ReadLayerObjects` | ReadMLD.py:264-288 | a layer's objects are read, and the cursor moved, as `LayerObjectsAt` describes |
| `Layers.ReadLayer` | ReadMLD.py:238-290 | one pass of the layer loop behaves as `LayerAt` describes |
| `Layers.ReadLayers` | ReadMLD.py:237-290 | the `for layer_index` loop returns as `LayersAt` describes |
| `Layers.ReadTrailingStep` | ReadMLD.py:295-333 | one pass of the `while 1` tag loop behaves as `TrailingStep` describes |
| `Layers.ReadTrailing` | ReadMLD.py:294-333 | the tag loop returns as `TrailingAt` describes |
| `Layers.ReadMLDFile` | ReadMLD.py:231-336 | reading a file returns exactly `DecodeFile` of its bytes |
| `Simplify.MarksFrom` | vtoq.py:28-38 | every index marked from i on is at least i and lies before the last two vertices |
| `Simplify.MarksFromExactly` | vtoq.py:28-38 | the marks from an even i on are exactly the marked vertices at or after i |
| `Simplify.PassMarks` | vtoq.py:28-38 | a pass marks exactly the even vertices before the last two whose distance or angle test holds, with vertex 0 tested against the last vertex; a vertex with both edges short is marked whatever its angle; odd vertices and the last two are never marked |
| `Simplify.Delete` | vtoq.py:40 | `np.delete` never lengthens the polygon |
| `Simplify.DeleteNothing` | vtoq.py:40 | deleting no index leaves the polygon unchanged |
| `Simplify.DeleteShrinks` | vtoq.py:40 | deleting an index of the polygon shortens it |
| `Simplify.DeleteKeeps` | vtoq.py:40 | an unlisted vertex is kept, right after the kept vertices before it |
| `Simplify.DeleteSubsequence` | vtoq.py:40 | the result of a deletion is a subsequence of the polygon |
| `Simplify.DeleteKeepsTail` | vtoq.py:40 | a deletion that spares the last two vertices keeps them as its last two |
| `Simplify.Reduced` | vtoq.py:22-41 | the loop of passes terminates (each pass that marks something shortens the polygon), and never lengthens it |
| `Simplify.ReducedSubsequence` | vtoq.py:22-41 | the result keeps a subset of the vertices, in their order |
| `Simplify.ReducedFixedPoint` | vtoq.py:22-41 | on the result a further pass marks nothing, so simplifying twice equals simplifying once |
| `Simplify.ReducedKeepsTail` | vtoq.py:28-41 | a polygon of two or more vertices keeps its last two vertices |
| `Simplify.ReducedUnchanged` | vtoq.py:22-41 | a polygon of fewer than three vertices, or any polygon when neither test ever holds, comes back unchanged |
| `Simplify.ReducedToTwo` | vtoq.py:22-41 | with tests that always hold, the triangle [a, b, c] becomes [b, c]: the loop does not stop at three vertices |
| `Simplify.MarkPass` | vtoq.py:27-38 | the `for i in range(0, len(polygon)-2, 2)` loop builds exactly the marks of a pass |
| `Simplify.ReducePolygon` | vtoq.py:22-41 | the `while len(points_removed)` loop returns `Reduced` of its input |
| `Assemble.NewClassification` | vtoq.py:66-77 | the setter keeps the name and stores a 24-bit colour as a word in [-2^24, 0) |
| `Assemble.Color` | vtoq.py:70-72 | the getter always yields a 24-bit colour |
| `Assemble.ColorRoundTrip` | vtoq.py:66-77 | reading the colour back gives the colour set, for every 24-bit colour (and the colour modulo 2^24 in general) |
| `Assemble.ColorWordRoundTrip` | vtoq.py:66-77 | every stored word in [-2^24, 0) is what its own colour stores, so setter and getter are inverse bijections |
| `Assemble.IgnoreClass` | vtoq.py:134 | the hole class is named Ignore with colour 0xb4b4b4 |
| `Assemble.CloseRingCloses` | vtoq.py:57-60 | the stored ring is closed and starts with the given coordinates; the first point is appended exactly when it differs from the last; closing a closed ring changes nothing |
| `Assemble.Feature.constructor` | vtoq.py:44-55 | a new feature has the given name and class, and no rings |
| `Assemble.Feature.AddPolygon` | vtoq.py:57-63 | `add_polygon` appends the closed ring, `size()` grows by exactly one, and name and class are unchanged |
| `Assemble.KeptVertices` | vtoq.py:138-142 | simplification keeps a subset of the vertices, in their order, with the last two; when `distance_th <= 0` every vertex is kept |
| `Assemble.ExportRaises` | vtoq.py:137-168 | objects of other shapes are skipped; an exported shape raises exactly when it has no points (a text object, tagged RECTANGLE: KeyError), or when it passes the filters with a non-zero type and `classes` is None (AttributeError) |
| `Assemble.ExportedWhen` | vtoq.py:137-168 | an object gives a feature exactly when its shape is 0, 1, 2, 5 or 6, it has points, at least three remain after simplification, its first raw x is not the background sentinel, and it is a hole or `classes` is given |
| `Assemble.ExportedFeature` | vtoq.py:156-173 | such a feature has one closed ring of at least three points, starting with the transformed kept vertices; type 0 is named Hole with the Ignore class; any other type has no name and the class of its type in `classes`, or none when `classes` lacks it |
| `Assemble.ExportFromAppends` | vtoq.py:136-173 | the loop keeps the features it started with in front and appends at most one feature per object, each with one closed ring of at least three points |
| `Assemble.ExportedFeatures` | vtoq.py:136-173 | there are at most as many exported features as objects |
| `Assemble.ExportFromValue` | vtoq.py:136-173 | a loop that does not raise ends with the features it started with followed by exactly the exported features, one per exported object, in object order |
| `Assemble.ExportedIncluded` | vtoq.py:136-173 | the feature of every object that gives one is among the exported features |
| `Assemble.ExportedSource` | vtoq.py:136-173 | the j-th exported feature is the feature `ExportAt` gives for some object at index j or later |
| `Assemble.ExportFromRaises` | vtoq.py:136-173 | the loop raises exactly when some object raises |
| `Assemble.ExportFromFirstError` | vtoq.py:136-173 | a loop that raises has the error of the first object that raises, every object before it having passed |
| `Assemble.DecodedConvertible` | vtoq.py:127-138 | the ROI objects of any decoded file meet what the conversion needs of them |
| `Assemble.ExportObject` | vtoq.py:137-173 | one loop iteration, built on `ReducePolygon`, a new `Feature` and `AddPolygon`, gives what `ExportAt` describes |
| `Assemble.DoConvert` | vtoq.py:111-178 | the `for obj in mld['ROI']` loop returns `Assembled`: an error for a container without an ROI layer, otherwise the loop `ExportFromValue` describes |

## Left out

- `ReadXML` and `parse_xml`: XML parsing of ImageInfo files, outside the decoder.
- `GetMask`: file system and image calls. It also calls a `create_polygon` that is not defined anywhere.
- `get_scale_offset`: TIFF metadata and float arithmetic. The affine map and its `astype(int)` are the `transform` parameter of `Assemble.Settings`.
- `Shapes.ObjectAt` dispatches code 1 to the corrected `EllipseAt`, so here a file with an ellipse record decodes, where the source's reader always raises (see Findings).
- Opening and closing files, and `json.load`/`json.dump` of the feature document: the bytes of the file are a parameter; the loaded features are the `loaded` parameter of `Assemble.DoConvert` (empty when overwriting), and the features are its result.
- `uuid4` feature ids, the fixed GeoJSON keys, and the `debug` printing.
- The values of `cos`, `sin`, `norm`, `arccos` and the float comparisons: floats are symbolic terms, and each comparison is an opaque parameter.
- The `[LayerImage]` payload: its reads are unreachable, indented under a `break`. An empty name stops the loop; a non-empty name raises (`LayerImageData`), because `data` is never assigned.
- The placeholder-name branch of the layer-name decode: only ASCII names leave the scan, so the decode cannot fail.
- The extra keys of the result dictionary (`magic`, `version`, `nlayers`) and the layer and section maps are separate fields of `Layers.Container`. Section payloads are bytes; the `''` stored for a length of 0 or less is the empty byte sequence.
- The dictionary of a shape record is the `Obj` datatype: the shape, the type, the points (or the anchor of a text object) and the two strings. The `garbage` word is read and dropped. The shape parameters the dictionaries also carry are not kept: `x_orig`, `y_orig` and `radius` of a circle; `x_orig`, `y_orig`, `maj_axis`, `min_axis` and `angle` of an ellipse; `x_orig`, `y_orig`, `width`, `height` and `angle` of a rectangle; `x_orig`, `y_orig`, `width` and `angle` of a square (ReadMLD.py:114-157). Only the points are used by `do_convert`.
- `Structs.TextAt`: at the end of the file, `read_text` loops for ever, appending empty strings. Here that is the error `Unterminated`.
- `Layers.ScanAt`: when no accepted layer header follows the cursor, the scan loops for ever. Here that is the error `NoLayerHeader`.
- Calls that raise on a `None` are errors, not preconditions: a count `convert` could not read, `ReadPolyLine` with no polygon, and a text object exported by `do_convert`. The model stays total on every byte string.
- `Assemble.ExportAt` requires an object to have as many x as y values. Every decoded object does (`Layers.DecodedWellFormed`). `np.array` of ragged lists is not modelled.
- `Assemble.Feature.AddPolygon` requires non-empty coordinates. The source indexes `coordinates[0]`, and `do_convert` only calls it with at least three points.
- `Layers.DecodeFileShape` states that a short file raises `ShortHeader`. It does not state the converse, that `ShortHeader` is only raised for short files.
- Holes are kept as separate features of the Ignore class, as `do_convert` builds them. They are not merged as extra rings of the preceding feature.
- `Simplify.Reduced`: the pass loop of `reduce_polygon` tests only even indices and has no lower bound on the number of vertices, so a polygon can end with two (`Simplify.ReducedToTwo`); `do_convert` then drops outlines of fewer than three points.

## Findings

| source | as written | input that shows it | evidently intended | confidence | as-written member | corrected member |
|---|---|---|---|---|---|---|
| ReadMLD.py:114-126 | `ReadEllipse` reads `<i5d`, then reads `<i3d` again and takes `maj_axis` and `min_axis` from the second dictionary, which has no such keys; `y_pts` is shifted by `x_orig` | any ellipse record with at least 72 bytes after its header raises a KeyError (shorter ones a TypeError), so no ellipse is ever decoded | one `<i5d` read giving centre, axes and angle, with `y_pts` shifted by `y_orig`: a closed ring of 101 vertices | not executed | `Shapes.EllipseAsWrittenAlwaysRaises` | `Shapes.ReadEllipse` |
