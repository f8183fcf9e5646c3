# Temporary layer loader — Dafny model

This project models `addTempLayer`, the function of the map view that loads a
user-picked geospatial file as a temporary overlay. It takes the file and a
completion callback and does the following:

- it refuses files larger than 5,242,880 bytes;
- it picks one decode pipeline from the file-name suffix (`.zip` zipped
  shapefile, `.kmz` zipped KML, `.geojson`/`.json` GeoJSON);
- it maps every failure inside a pipeline to one fixed message per format
  naming the file;
- on success it builds an overlay in which points become circle markers and
  every feature with a properties object gets an HTML popup.

The model is made of pure functions and lemmas, in two modules:

- `Text` (`text.dfy`): the JavaScript string operations the loader relies
  on, `endsWith` and `join`, with their algebra (suffixes of suffixes, join
  of a concatenation, length of a join).
- `TempLayer` (`temp_layer.dfy`): the size guard, the suffix dispatch, the
  choice of the `.kml` entry, the per-format error mapping, the popup text,
  the overlay items and the sequence of callback invocations of one call
  (`Ingest`).

The file reader and the decoders are parameters. The zipped-shapefile
decoder, the zip archive reader, the XML parser with the KML converter and
the JSON parser appear as values in an `Environment` record: `None` where
the collaborator throws or rejects, the decoded data otherwise. The overlay
widget is not a parameter: it is the fixed function `BuildOverlay`, which
refuses data a decoder yields as `NotGeoJson`. The callback is modelled by
the list of reports it receives, so "called exactly once", "never called"
and "called twice" are all statements about that list's length; whether it
throws is two flags of the environment, one for the success call and one
for the error call.

Three behaviours of the code are worth knowing before reading the model:

- An archive may hold several `.kml` entries; the code takes the first one,
  in key order, whose name ends with `.kml` (`FindKml`).
- A feature with an empty properties object gets a popup with empty text;
  only a feature without a properties object gets none (`Render`).
- The callback is sometimes not called and sometimes called twice (see
  Findings, and `IngestAsWritten`).

## Model

| member | source | states |
|---|---|---|
| Text.EndsWith | app/static/app/js/classes/TempLayer.js:21-23 | a name that ends with a suffix is at least as long as it and agrees with it on the last character; every name ends with the empty suffix |
| Text.SuffixOfSuffix | app/static/app/js/classes/TempLayer.js:21-23 | if a name ends with two suffixes, the shorter one ends the longer one |
| Text.Join | app/static/app/js/classes/TempLayer.js:84 | no parts give the empty string; otherwise the result starts with the first part and ends with the last |
| Text.JoinAppend | app/static/app/js/classes/TempLayer.js:82-84 | joining two non-empty lists gives the two joins with one separator between them |
| Text.JoinSnoc | app/static/app/js/classes/TempLayer.js:84 | the join agrees with the left-to-right accumulation of ECMAScript's `Array.prototype.join`: adding one element adds one separator and that element |
| Text.JoinLength | app/static/app/js/classes/TempLayer.js:84 | n parts give their own characters plus exactly n - 1 separators |
| TempLayer.SuffixesExclusive | app/static/app/js/classes/TempLayer.js:21-23 | no name ends with two of `.zip`, `.kmz`, `.geojson`, `.json` |
| TempLayer.KindOf | app/static/app/js/classes/TempLayer.js:21-69 | each kind is chosen exactly when its own suffix test holds; Unsupported exactly when none holds |
| TempLayer.Classify | app/static/app/js/classes/TempLayer.js:14-23 | too large exactly when size > 5242880, carrying the file name; otherwise admitted with the suffix's kind |
| TempLayer.SizeBoundary | app/static/app/js/classes/TempLayer.js:8-14 | a size of exactly 5242880 is admitted and 5242881 is refused |
| TempLayer.SuffixCaseSensitive | app/static/app/js/classes/TempLayer.js:21-23 | `a.ZIP`, `map.KMZ` and `data.GeoJSON` are unsupported, while `a.zip` and `data.geojson` are recognised |
| TempLayer.FindKml | app/static/app/js/classes/TempLayer.js:40 | the result is absent iff no entry ends with `.kml`; otherwise it is an entry ending with `.kml`, non-empty, with no earlier `.kml` entry |
| TempLayer.FindKmlFirst | app/static/app/js/classes/TempLayer.js:40 | whenever entry i ends with `.kml` and no earlier one does, the search returns entry i |
| TempLayer.FoundIsTruthy | app/static/app/js/classes/TempLayer.js:40-44 | the truthiness test on the found name holds iff some entry ends with `.kml` |
| TempLayer.KmzPipeline | app/static/app/js/classes/TempLayer.js:37-50 | an unreadable archive or one without a `.kml` entry makes the chain fail |
| TempLayer.KmzReadsFirstKml | app/static/app/js/classes/TempLayer.js:39-48 | the chain reads and converts exactly the first `.kml` entry in key order |
| TempLayer.Fragments | app/static/app/js/classes/TempLayer.js:82-83 | one `<strong>key:</strong> value` fragment per attribute, in attribute order |
| TempLayer.PopupContent | app/static/app/js/classes/TempLayer.js:82-84 | the popup text is empty iff there are no attributes; otherwise it starts with the first attribute's fragment and ends with the last one's |
| TempLayer.PopupAppend | app/static/app/js/classes/TempLayer.js:82-84 | the popup of two attribute runs is the two popups with one `<br />` between them |
| TempLayer.PopupSmall | app/static/app/js/classes/TempLayer.js:82-84 | no attributes give the empty text; a single attribute gives its fragment, e.g. `<strong>name:</strong> A` |
| TempLayer.PopupLength | app/static/app/js/classes/TempLayer.js:82-84 | the popup of n attributes is n fragments plus n - 1 line breaks long |
| TempLayer.PopupValuesNotEscaped | app/static/app/js/classes/TempLayer.js:83 | values are inserted unescaped: one attribute and two attributes can give the same popup |
| TempLayer.Channel | app/static/app/js/classes/TempLayer.js:11 | each sampled colour channel lies in 0..255 |
| TempLayer.ChannelReachable | app/static/app/js/classes/TempLayer.js:11 | every channel value 0..255 is produced by some sample |
| TempLayer.Render | app/static/app/js/classes/TempLayer.js:74-86 | points get radius-6 circle markers; opacity 1 and fill opacity 0.7; a popup of max height 200 is bound iff the properties object exists, empty text for an empty one |
| TempLayer.BuildOverlay | app/static/app/js/classes/TempLayer.js:72-88 | the builder fails iff the data is not GeoJSON; otherwise there is one drawn item per feature, in order |
| TempLayer.FailureMessage | app/static/app/js/classes/TempLayer.js:30-65 | shapefiles get "not a proper zipped shapefile", KMZ files "invalid KMZ file", JSON files "not a proper JSON file"; each names the file and is neither the size message nor the unsupported-format message |
| TempLayer.FailureMessagesDistinct | app/static/app/js/classes/TempLayer.js:30-65 | two pipeline failures get the same message iff they are of the same format and the same file name |
| TempLayer.Finish | app/static/app/js/classes/TempLayer.js:25-66 | a pipeline succeeds iff its decoder yields GeoJSON, reporting the file name and one item per feature; any other outcome is the format's fixed message |
| TempLayer.Guard | app/static/app/js/classes/TempLayer.js:30-65 | each pipeline's error handler: a region that did not throw is left as it is; a region that threw keeps its reports, gets the format's message naming the file appended, and throws again iff the callback throws on errors |
| TempLayer.Settle | app/static/app/js/classes/TempLayer.js:30-65 | a pipeline from decoding through its error handler, with the success callback inside or after the caught region: at least one report, and the run ends by throwing iff the callback throws on its last invocation (a throw of the success call inside the region is caught) |
| TempLayer.DeliverAsWritten | app/static/app/js/classes/TempLayer.js:30-65 | with the callback inside the caught region, the callback gets the pipeline's report, followed by the format's error exactly when it throws on success |
| TempLayer.ThrowingCallbackCalledTwice | app/static/app/js/classes/TempLayer.js:58-66 | a valid empty `a.json` whose callback throws on success is reported as added and then as not proper JSON |
| TempLayer.Deliver | app/static/app/js/classes/TempLayer.js:89-90 | with the success callback after the caught region, each pipeline reports exactly its one report, whatever the callback does |
| TempLayer.DeliverAgreesUnlessCallbackThrows | app/static/app/js/classes/TempLayer.js:30-65 | the corrected delivery differs from the written one iff the callback throws on success |
| TempLayer.Reaches | app/static/app/js/classes/TempLayer.js:26-29 | decoding is reached only from the load handler; for `.kmz` and JSON files exactly when the read loads, for `.zip` files only when in addition the reader is done without error |
| TempLayer.IngestWith | app/static/app/js/classes/TempLayer.js:7-92 | no report for a missing handle; the size message for an oversized file; the unsupported message for an unknown suffix; otherwise the selected pipeline's run if its read loads, nothing if not |
| TempLayer.IngestAsWritten | app/static/app/js/classes/TempLayer.js:7-92 | the loader as written: at most two reports, and two exactly when an admitted file's read loads, its pipeline succeeds and the callback throws on success |
| TempLayer.Ingest | app/static/app/js/classes/TempLayer.js:7-92 | with the corrected delivery: at most one report; none iff the handle is missing or an admitted file's read never reaches decoding; oversized files get the size message; unknown suffixes the unsupported message; an admitted `.zip`, `.kmz` or `.geojson`/`.json` file whose read loads gets exactly its pipeline's report; success carries the original file name |
| TempLayer.IngestAsWrittenExtendsIngest | app/static/app/js/classes/TempLayer.js:30-65 | the written loader reports what the corrected one reports plus at most the format's error after a success whose callback threw on success |
| TempLayer.OversizeIgnoresDecoders | app/static/app/js/classes/TempLayer.js:14-18 | an oversized file's report does not depend on the read or any decoder |
| TempLayer.OnlySelectedPipelineMatters | app/static/app/js/classes/TempLayer.js:25-70 | with the corrected delivery, the report depends only on the read and on the inputs of the pipeline the suffix selects |
| TempLayer.ShapefileFailuresShareMessage | app/static/app/js/classes/TempLayer.js:30-33 | every shapefile failure, of the decoder or of the overlay builder, is reported as not a proper zipped shapefile naming the file |
| TempLayer.KmzFailuresShareMessage | app/static/app/js/classes/TempLayer.js:37-55 | every KMZ failure, whatever its cause, is reported as an invalid KMZ naming the file |
| TempLayer.KmzWithoutKmlFails | app/static/app/js/classes/TempLayer.js:40-44 | a KMZ archive without a `.kml` entry is reported as an invalid KMZ |
| TempLayer.JsonFailuresShareMessage | app/static/app/js/classes/TempLayer.js:59-65 | a parse error and an overlay builder that throws on the parsed value are both reported as not a proper JSON file naming the file |
| TempLayer.SuccessKeepsFeatures | app/static/app/js/classes/TempLayer.js:57-90 | with the corrected delivery, a decoded GeoJSON file is reported once, with no error, its own name and one drawn item per feature |

## Findings

| source | as written | input that shows it | evidently intended | confidence | as-written member | corrected member |
|---|---|---|---|---|---|---|
| app/static/app/js/classes/TempLayer.js:30-65 | the success callback runs inside the `try` block (or in the `then` before the `catch`), so an exception thrown by the caller's callback is caught, relabelled with the format's error and the callback is invoked again | `a.json` holding an empty feature collection, with a callback that throws on success | the callback is invoked exactly once per ingestion | medium, not executed | TempLayer.DeliverAsWritten | TempLayer.Deliver |

`Ingest` uses the corrected `Deliver`; `IngestAsWritten` uses `DeliverAsWritten`. Both are instances of `Settle`, which models the caught region. `Ingest` differs from the code only when the caller's callback throws on success (`DeliverAgreesUnlessCallbackThrows`).

## Left out

- Reading the file (`FileReader`, array-buffer and text reads) and the promise sequencing: whether the load event fires, the reader's state in the shapefile handler and each read's content are inputs. Only a load handler is installed, so a read that fails reports nothing, for every format.
- The decoders (zipped shapefile, zip archive, XML parser, KML converter, JSON parser): their results are inputs, `None` when they throw or reject. What a decoder produces from given bytes is not modelled.
- The overlay widget: its construction is modelled as failing on data that is not GeoJSON and otherwise drawing one item per feature, in order (`BuildOverlay`). Bounds computation and the widget's own popup handling are not modelled.
- Features whose geometry is null, which the widget skips, cannot be expressed: every modelled feature has a geometry and is drawn.
- Colours: sampled from `Math.random` on every style or marker call; only one channel's range is modelled (`Channel`), not the CSS `rgb(...)` text.
- Geometry: only whether a feature is a point is kept; multi-point features and coordinates are not modelled.
- Attribute values are taken in their string form; JavaScript's conversion of non-string values, and properties that are not objects, are not modelled. Key order is taken as given (the engine's own key ordering is not modelled).
- Localisation: messages are constructors standing for the templates; their translated text is not modelled.
- Error objects: only their message is modelled. A failure whose thrown value is not an object, on which the message cannot be set, is not modelled.
- A missing file handle is modelled as producing no report; the TypeError it raises in the caller is not modelled.
- Concurrent ingestions and the order of their callbacks.
