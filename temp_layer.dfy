/** The temporary-layer loader of the map view: `addTempLayer` takes a file
    the user picked and a completion callback, rejects files over 5 MiB,
    picks a decode pipeline from the file-name suffix, and on success builds
    a styled overlay whose features carry attribute popups.

    Reading the file and the decoders (zipped shapefile, zip archive, XML
    and KML conversion, JSON) are collaborators whose results are
    parameters here; the overlay widget is the fixed function `BuildOverlay`,
    which refuses data that is not GeoJSON. What the loader itself decides
    is modelled:
    the size guard, the suffix dispatch, the choice of the KML entry, the
    mapping of every failure to one message per format, the popup text and
    the sequence of callback invocations. */
module TempLayer {
  import opened Text

  datatype Option<T> = None | Some(value: T)

  /** Largest accepted file size in bytes (5 MiB). */
  const MaxSize: nat := 5242880

  /** The file handle: its name and its size in bytes. */
  datatype InputFile = InputFile(name: string, size: nat)

  datatype FileKind = Shapefile | Kmz | GeoJson | Unsupported

  /** Outcome of the synchronous checks made before any read. */
  datatype Admission = TooLarge(name: string) | Admitted(kind: FileKind)

  /** The `message` of the error handed to the callback. Each constructor
      stands for one localised template; all but the last substitute the
      file name. */
  datatype Message =
    | BiggerThan5MB(file: string)
    | NotProperShapefile(file: string)
    | InvalidKmzFile(file: string)
    | NotProperJson(file: string)
    | UnsupportedFormat

  /** A feature's attributes, in the iteration order of its properties
      object, each value already in its string form. */
  type Properties = seq<(string, string)>

  /** Only whether a geometry is a point matters to the loader: points get
      a circle marker, everything else the path style. */
  datatype Geometry = Point | Shape

  /** A GeoJSON feature; `properties` is None when the feature has none. */
  datatype Feature = Feature(geometry: Geometry, properties: Option<Properties>)

  /** What a decoder hands to the overlay builder: a feature collection, or
      a value the overlay builder refuses by throwing. */
  datatype GeoData = Features(features: seq<Feature>) | NotGeoJson

  // ---------------------------------------------------------------------
  // Size guard and suffix dispatch
  // ---------------------------------------------------------------------

  /** The four suffixes are pairwise exclusive: a name ends with at most
      one of them, so exactly one branch of the dispatch can apply. */
  lemma SuffixesExclusive(name: string)
    ensures !(EndsWith(name, ".zip") && EndsWith(name, ".kmz"))
    ensures !(EndsWith(name, ".zip") && (EndsWith(name, ".geojson") || EndsWith(name, ".json")))
    ensures !(EndsWith(name, ".kmz") && (EndsWith(name, ".geojson") || EndsWith(name, ".json")))
    ensures !(EndsWith(name, ".json") && EndsWith(name, ".geojson"))
  {
    if EndsWith(name, ".zip") && EndsWith(name, ".kmz") {
      SuffixOfSuffix(name, ".zip", ".kmz");
      assert false;
    }
    if EndsWith(name, ".zip") && EndsWith(name, ".json") {
      SuffixOfSuffix(name, ".zip", ".json");
      assert false;
    }
    if EndsWith(name, ".zip") && EndsWith(name, ".geojson") {
      SuffixOfSuffix(name, ".zip", ".geojson");
      assert false;
    }
    if EndsWith(name, ".kmz") && EndsWith(name, ".json") {
      SuffixOfSuffix(name, ".kmz", ".json");
      assert false;
    }
    if EndsWith(name, ".kmz") && EndsWith(name, ".geojson") {
      SuffixOfSuffix(name, ".kmz", ".geojson");
      assert false;
    }
    if EndsWith(name, ".json") && EndsWith(name, ".geojson") {
      SuffixOfSuffix(name, ".json", ".geojson");
      assert false;
    }
  }

  /** The dispatch on the name: `.zip` first, then `.kmz`, then `.geojson`
      or `.json`. Because the suffixes exclude each other, each kind is
      chosen exactly when its own suffix test holds. */
  function KindOf(name: string): (k: FileKind)
    ensures k == Shapefile <==> EndsWith(name, ".zip")
    ensures k == Kmz <==> EndsWith(name, ".kmz")
    ensures k == GeoJson <==> EndsWith(name, ".geojson") || EndsWith(name, ".json")
    ensures k == Unsupported <==>
      !EndsWith(name, ".zip") && !EndsWith(name, ".kmz") &&
      !EndsWith(name, ".geojson") && !EndsWith(name, ".json")
  {
    SuffixesExclusive(name);
    if EndsWith(name, ".zip") then Shapefile
    else if EndsWith(name, ".kmz") then Kmz
    else if EndsWith(name, ".geojson") || EndsWith(name, ".json") then GeoJson
    else Unsupported
  }

  /** The size guard runs before the dispatch: a file strictly larger than
      MaxSize is refused under its own name whatever its name says, and a
      file of exactly MaxSize bytes is admitted. */
  function Classify(name: string, size: nat): (a: Admission)
    ensures a.TooLarge? <==> size > MaxSize
    ensures a.TooLarge? ==> a.name == name
    ensures a.Admitted? ==> (a.kind == Shapefile <==> EndsWith(name, ".zip"))
    ensures a.Admitted? ==> (a.kind == Kmz <==> EndsWith(name, ".kmz"))
    ensures a.Admitted? ==> (a.kind == GeoJson <==> EndsWith(name, ".geojson") || EndsWith(name, ".json"))
  {
    if size > MaxSize then TooLarge(name) else Admitted(KindOf(name))
  }

  /** Suffixes are compared case-sensitively: upper-case extensions are not
      recognised, while the lower-case ones are. */
  lemma SuffixCaseSensitive()
    ensures KindOf("a.ZIP") == Unsupported
    ensures KindOf("a.zip") == Shapefile
    ensures KindOf("map.KMZ") == Unsupported
    ensures KindOf("data.GeoJSON") == Unsupported
    ensures KindOf("data.geojson") == GeoJson
  {
  }

  /** Sizes on either side of the limit. */
  lemma SizeBoundary(name: string)
    ensures Classify(name, MaxSize) == Admitted(KindOf(name))
    ensures Classify(name, MaxSize + 1) == TooLarge(name)
  {
  }

  // ---------------------------------------------------------------------
  // Choice of the KML entry inside a KMZ archive
  // ---------------------------------------------------------------------

  predicate IsKml(name: string)
  {
    EndsWith(name, ".kml")
  }

  /** No entry of the list ends with `.kml`. */
  predicate NoKml(names: seq<string>)
  {
    forall i :: 0 <= i < |names| ==> !IsKml(names[i])
  }

  /** JavaScript truthiness of the found entry: absent and the empty name
      are both falsy. */
  predicate Truthy(found: Option<string>)
  {
    found.Some? && found.value != ""
  }

  /** The first entry name, in the archive's key order, that ends with
      `.kml`; None when there is none. */
  function FindKml(names: seq<string>): (r: Option<string>)
    ensures r.None? <==> NoKml(names)
    ensures r.Some? ==> IsKml(r.value) && r.value != ""
    ensures r.Some? ==> exists i :: 0 <= i < |names| && names[i] == r.value && NoKml(names[..i])
  {
    if |names| == 0 then None
    else if IsKml(names[0]) then
      assert names[..0] == [];
      Some(names[0])
    else
      var rest := FindKml(names[1..]);
      if rest.Some? then
        var i :| 0 <= i < |names[1..]| && names[1..][i] == rest.value && NoKml(names[1..][..i]);
        assert names[..i + 1] == [names[0]] + names[1..][..i];
        assert names[i + 1] == rest.value && NoKml(names[..i + 1]);
        rest
      else
        assert forall i :: 0 < i < |names| ==> names[i] == names[1..][i - 1];
        rest
  }

  /** Whenever entry i ends with `.kml` and no earlier entry does, the
      search finds entry i. */
  lemma {:induction false} FindKmlFirst(names: seq<string>, i: nat)
    requires i < |names| && IsKml(names[i]) && NoKml(names[..i])
    ensures FindKml(names) == Some(names[i])
  {
    if i > 0 {
      assert names[0] == names[..i][0];
      assert names[1..][..i - 1] == names[..i][1..];
      FindKmlFirst(names[1..], i - 1);
    }
  }

  /** The found name is never the empty string, so testing it for
      truthiness is exactly testing whether one was found. */
  lemma FoundIsTruthy(names: seq<string>)
    ensures Truthy(FindKml(names)) <==> !NoKml(names)
  {
  }

  // ---------------------------------------------------------------------
  // Popup content
  // ---------------------------------------------------------------------

  const Separator: string := "<br />"
  const PopupMaxHeight: nat := 200

  /** One attribute: its key in bold, a colon, a space and the value,
      inserted as it is (nothing is escaped). */
  function Fragment(key: string, value: string): string
  {
    "<strong>" + key + ":</strong> " + value
  }

  /** One fragment per attribute, in attribute order. */
  function Fragments(props: Properties): (r: seq<string>)
    ensures |r| == |props|
    ensures forall i :: 0 <= i < |props| ==> r[i] == Fragment(props[i].0, props[i].1)
  {
    if |props| == 0 then []
    else [Fragment(props[0].0, props[0].1)] + Fragments(props[1..])
  }

  /** The popup text: the fragments joined by line breaks. */
  function PopupContent(props: Properties): (r: string)
    ensures r == "" <==> props == []
    ensures |props| > 0 ==> Fragment(props[0].0, props[0].1) <= r
    ensures |props| > 0 ==> EndsWith(r, Fragment(props[|props| - 1].0, props[|props| - 1].1))
  {
    Join(Fragments(props), Separator)
  }

  /** Attributes in two consecutive runs give the two runs' popups with one
      line break between them. */
  lemma PopupAppend(p: Properties, q: Properties)
    requires |p| > 0 && |q| > 0
    ensures PopupContent(p + q) == PopupContent(p) + Separator + PopupContent(q)
  {
    assert Fragments(p + q) == Fragments(p) + Fragments(q);
    JoinAppend(Fragments(p), Fragments(q), Separator);
  }

  /** No attributes give the empty text; one attribute gives its fragment
      alone, for instance `<strong>name:</strong> A` for name = A. */
  lemma PopupSmall(key: string, value: string)
    ensures PopupContent([]) == ""
    ensures PopupContent([(key, value)]) == "<strong>" + key + ":</strong> " + value
    ensures PopupContent([("name", "A")]) == "<strong>name:</strong> A"
  {
    assert Fragments([(key, value)]) == [Fragment(key, value)];
    assert Fragments([("name", "A")]) == [Fragment("name", "A")];
  }

  /** The text of n attributes is n fragments and n - 1 line breaks long. */
  lemma PopupLength(props: Properties)
    requires |props| > 0
    ensures |PopupContent(props)| == TotalLength(Fragments(props)) + (|props| - 1) * |Separator|
  {
  }

  /** Because values are inserted unescaped, a value can impersonate
      further attributes: one attribute and two attributes may give the
      same popup text. */
  lemma PopupValuesNotEscaped()
    ensures PopupContent([("a", "<br /><strong>b:</strong> c")])
         == PopupContent([("a", ""), ("b", "c")])
  {
  }

  // ---------------------------------------------------------------------
  // Overlay building
  // ---------------------------------------------------------------------

  const Opacity: real := 1.0
  const FillOpacity: real := 0.7
  const MarkerRadius: nat := 6

  /** One colour channel, `floor(u * 256)` for a uniform sample u in [0, 1). */
  function Channel(u: real): (c: int)
    requires 0.0 <= u < 1.0
    ensures 0 <= c <= 255
  {
    (u * 256.0).Floor
  }

  /** Every channel value 0..255 is produced by some sample. */
  lemma ChannelReachable(c: int)
    requires 0 <= c <= 255
    ensures Channel(c as real / 256.0) == c
  {
  }

  /** How a feature is drawn. The colour is sampled again on every call of
      the style and marker functions and is therefore not part of it. */
  datatype Symbol =
    | CircleMarker(radius: nat, opacity: real, fillOpacity: real)
    | StyledPath(opacity: real, fillOpacity: real)

  datatype Popup = Popup(content: string, maxHeight: nat)

  datatype Rendered = Rendered(symbol: Symbol, popup: Option<Popup>)

  datatype Overlay = Overlay(items: seq<Rendered>)

  /** A feature as drawn: points become circle markers, and a popup is
      bound exactly when the feature has a properties object, even an
      empty one. */
  function Render(f: Feature): (r: Rendered)
    ensures r.symbol.CircleMarker? <==> f.geometry == Point
    ensures r.symbol.opacity == 1.0 && r.symbol.fillOpacity == 0.7
    ensures r.symbol.CircleMarker? ==> r.symbol.radius == 6
    ensures r.popup.Some? <==> f.properties.Some?
    ensures f.properties == Some([]) ==> r.popup == Some(Popup("", 200))
    ensures r.popup.Some? ==> r.popup.value.maxHeight == 200
    ensures r.popup.Some? ==> r.popup.value.content == PopupContent(f.properties.value)
  {
    var symbol :=
      if f.geometry == Point then CircleMarker(MarkerRadius, Opacity, FillOpacity)
      else StyledPath(Opacity, FillOpacity);
    var popup :=
      match f.properties
      case None => None
      case Some(props) => Some(Popup(PopupContent(props), PopupMaxHeight));
    Rendered(symbol, popup)
  }

  /** The overlay for decoded data: one drawn item per feature, in order;
      None when the overlay builder throws on data that is not GeoJSON. */
  function BuildOverlay(data: GeoData): (r: Option<Overlay>)
    ensures r.Some? <==> data.Features?
    ensures r.Some? ==> |r.value.items| == |data.features|
    ensures r.Some? ==> forall i :: 0 <= i < |data.features| ==> r.value.items[i] == Render(data.features[i])
  {
    match data
    case NotGeoJson => None
    case Features(fs) => Some(Overlay(seq(|fs|, i requires 0 <= i < |fs| => Render(fs[i]))))
  }

  // ---------------------------------------------------------------------
  // Pipelines and callback reports
  // ---------------------------------------------------------------------

  /** What the KMZ collaborators produce; None wherever a step throws or
      its promise rejects. */
  datatype KmzDecoders = KmzDecoders(
    archive: Option<seq<string>>,           // opened archive: entry names in key order
    entryText: string -> Option<string>,    // text of the named entry
    kmlToGeoJson: string -> Option<GeoData>) // XML parse and KML conversion of that text

  /** The caller's callback: whether it throws when handed a success, and
      whether it throws when handed an error. */
  datatype Callback = Callback(throwsOnSuccess: bool, throwsOnError: bool)

  /** Everything outside the loader that decides how an ingestion ends. */
  datatype Environment = Environment(
    loaded: bool,                 // the reader's load event fires (the read succeeded)
    zipReadComplete: bool,        // the reader is done and has no error when its load handler runs
    shapefile: Option<GeoData>,   // the zipped-shapefile decoder
    kmz: KmzDecoders,
    json: Option<GeoData>,        // the JSON parser
    callback: Callback)           // how the caller's callback behaves

  /** One invocation of the callback: an error, or the overlay with the
      original file name. */
  datatype Report = Failed(message: Message) | Added(overlay: Overlay, fileName: string)

  /** The KMZ chain: open the archive, take the first `.kml` entry, read it
      as text, convert it. Any failing step makes the whole chain fail. */
  function KmzPipeline(d: KmzDecoders): (r: Option<GeoData>)
    ensures d.archive.None? ==> r.None?
    ensures r.Some? ==> d.archive.Some? && !NoKml(d.archive.value)
  {
    match d.archive
    case None => None
    case Some(names) =>
      var found := FindKml(names);
      if !Truthy(found) then None
      else
        match d.entryText(found.value)
        case None => None
        case Some(text) => d.kmlToGeoJson(text)
  }

  /** The entry the KMZ chain reads is the first `.kml` entry in key order:
      the chain's result is that entry's conversion. */
  lemma KmzReadsFirstKml(d: KmzDecoders, i: nat)
    requires d.archive.Some? && i < |d.archive.value|
    requires IsKml(d.archive.value[i]) && NoKml(d.archive.value[..i])
    ensures KmzPipeline(d) ==
      match d.entryText(d.archive.value[i])
      case None => None
      case Some(text) => d.kmlToGeoJson(text)
  {
  }

  /** The per-format message: each format has its own template, and each
      names the file. */
  function FailureMessage(kind: FileKind, name: string): (m: Message)
    requires kind != Unsupported
    ensures m.NotProperShapefile? <==> kind == Shapefile
    ensures m.InvalidKmzFile? <==> kind == Kmz
    ensures m.NotProperJson? <==> kind == GeoJson
    ensures m != UnsupportedFormat && !m.BiggerThan5MB? && m.file == name
  {
    match kind
    case Shapefile => NotProperShapefile(name)
    case Kmz => InvalidKmzFile(name)
    case GeoJson => NotProperJson(name)
  }

  /** The message tells the format and the file apart: two failures get the
      same message only for the same format and the same file name. */
  lemma FailureMessagesDistinct(k1: FileKind, n1: string, k2: FileKind, n2: string)
    requires k1 != Unsupported && k2 != Unsupported
    ensures FailureMessage(k1, n1) == FailureMessage(k2, n2) <==> k1 == k2 && n1 == n2
  {
  }

  /** The overlay a pipeline ends with; None when its decoder failed or the
      overlay builder threw on what it produced. */
  function Built(decoded: Option<GeoData>): (o: Option<Overlay>)
    ensures o.Some? <==> decoded.Some? && decoded.value.Features?
  {
    match decoded
    case None => None
    case Some(data) => BuildOverlay(data)
  }

  /** The report of a pipeline: any failure, of the decoder or of the
      overlay builder, becomes the format's fixed message naming the file;
      success reports the overlay of every decoded feature with the file
      name. */
  function Finish(kind: FileKind, name: string, decoded: Option<GeoData>): (r: Report)
    requires kind != Unsupported
    ensures r.Added? <==> decoded.Some? && decoded.value.Features?
    ensures r.Added? ==> r.fileName == name && |r.overlay.items| == |decoded.value.features|
    ensures r.Failed? ==> r.message == FailureMessage(kind, name)
  {
    match Built(decoded)
    case None => Failed(FailureMessage(kind, name))
    case Some(overlay) => Added(overlay, name)
  }

  // ---------------------------------------------------------------------
  // Callback invocations and the caught region
  // ---------------------------------------------------------------------

  /** A stretch of execution: the reports the callback received, and whether
      it ended by throwing. */
  datatype Run = Run(calls: seq<Report>, threw: bool)

  /** Runs `first`, then `next` unless `first` threw. */
  function Then(first: Run, next: Run): (r: Run)
    ensures first.threw ==> r == first
    ensures !first.threw ==> r.calls == first.calls + next.calls && r.threw == next.threw
  {
    if first.threw then first else Run(first.calls + next.calls, next.threw)
  }

  /** Whether the caller's callback throws on the given report. */
  predicate Throws(callback: Callback, r: Report)
  {
    if r.Added? then callback.throwsOnSuccess else callback.throwsOnError
  }

  /** Invoking the callback with one report; the run throws when the
      callback throws on that report. */
  function Invoke(r: Report, callback: Callback): Run
  {
    Run([r], Throws(callback, r))
  }

  /** Decoding and building: throws exactly when there is no overlay. */
  function Attempt(built: Option<Overlay>): Run
  {
    Run([], built.None?)
  }

  /** The format's handler around a region: if the region threw, whatever
      it threw is caught and the callback receives the format's message (a
      throw from that call escapes); otherwise the region's run stands. */
  function Guard(region: Run, kind: FileKind, name: string, callback: Callback): (r: Run)
    requires kind != Unsupported
    ensures !region.threw ==> r == region
    ensures region.threw ==>
      r.calls == region.calls + [Failed(FailureMessage(kind, name))] && r.threw == callback.throwsOnError
  {
    if region.threw then Then(Run(region.calls, false), Invoke(Failed(FailureMessage(kind, name)), callback))
    else region
  }

  /** One pipeline from its decoder's result to the end of its handler.
      With `notifyInside` the success callback runs inside the caught
      region, as the loader is written (inside the `try` block, or in the
      `then` step before the `catch`); without it the callback runs after
      the region, and only when the region did not fail. Either way the
      callback is invoked at least once, and the run ends by throwing
      exactly when the callback threw on its last invocation: a throw on an
      earlier one was caught. */
  function Settle(kind: FileKind, name: string, decoded: Option<GeoData>, callback: Callback, notifyInside: bool): (run: Run)
    requires kind != Unsupported
    ensures |run.calls| >= 1
    ensures run.threw == Throws(callback, run.calls[|run.calls| - 1])
  {
    var built := Built(decoded);
    var notify := if built.Some? then Invoke(Added(built.value, name), callback) else Run([], false);
    var region := if notifyInside then Then(Attempt(built), notify) else Attempt(built);
    var handled := Guard(region, kind, name, callback);
    if notifyInside || region.threw then handled else Then(handled, notify)
  }

  /** The callback invocations of a pipeline as the loader is written: a
      callback that throws on success is invoked a second time, with the
      format's error; otherwise it gets the pipeline's one report. */
  function DeliverAsWritten(kind: FileKind, name: string, decoded: Option<GeoData>, callback: Callback): (calls: seq<Report>)
    requires kind != Unsupported
    ensures callback.throwsOnSuccess && Finish(kind, name, decoded).Added? ==>
      calls == [Finish(kind, name, decoded), Failed(FailureMessage(kind, name))]
    ensures !(callback.throwsOnSuccess && Finish(kind, name, decoded).Added?) ==>
      calls == [Finish(kind, name, decoded)]
  {
    Settle(kind, name, decoded, callback, true).calls
  }

  /** A concrete ingestion where the callback is invoked twice: a valid
      empty GeoJSON file whose success callback throws is then reported as
      not being proper JSON. */
  lemma ThrowingCallbackCalledTwice()
    ensures DeliverAsWritten(GeoJson, "a.json", Some(Features([])), Callback(true, false))
         == [Added(Overlay([]), "a.json"), Failed(NotProperJson("a.json"))]
  {
  }

  /** The callback invocations of a pipeline with the success callback
      outside the caught region: exactly the pipeline's one report, whatever
      the callback does. */
  function Deliver(kind: FileKind, name: string, decoded: Option<GeoData>, callback: Callback): (calls: seq<Report>)
    requires kind != Unsupported
    ensures calls == [Finish(kind, name, decoded)]
  {
    Settle(kind, name, decoded, callback, false).calls
  }

  /** The corrected delivery differs from the written one only when the
      callback throws on success. */
  lemma DeliverAgreesUnlessCallbackThrows(kind: FileKind, name: string, decoded: Option<GeoData>, callback: Callback)
    requires kind != Unsupported
    ensures DeliverAsWritten(kind, name, decoded, callback) == Deliver(kind, name, decoded, callback)
        <==> !(callback.throwsOnSuccess && Finish(kind, name, decoded).Added?)
  {
  }

  // ---------------------------------------------------------------------
  // One ingestion
  // ---------------------------------------------------------------------

  /** What the selected pipeline's decoders produce. */
  function Decoded(kind: FileKind, env: Environment): Option<GeoData>
    requires kind != Unsupported
  {
    match kind
    case Shapefile => env.shapefile
    case Kmz => KmzPipeline(env.kmz)
    case GeoJson => env.json
  }

  /** Whether the selected pipeline's load handler gets as far as decoding:
      the load event fires only for a successful read, and the shapefile
      handler also returns early unless the reader is done without error. */
  predicate Reaches(kind: FileKind, env: Environment)
    ensures Reaches(kind, env) ==> env.loaded
    ensures kind != Shapefile ==> (Reaches(kind, env) <==> env.loaded)
    ensures kind == Shapefile && !env.zipReadComplete ==> !Reaches(kind, env)
  {
    env.loaded && (kind == Shapefile ==> env.zipReadComplete)
  }

  /** The callback invocations of one call of the loader, with the success
      callback inside (`notifyInside`) or after the caught region. A missing
      file handle passes the size test but fails on reading its name, so
      nothing is reported. */
  function IngestWith(file: Option<InputFile>, env: Environment, notifyInside: bool): (calls: seq<Report>)
    ensures file.None? ==> calls == []
    ensures file.Some? && file.value.size > MaxSize ==> calls == [Failed(BiggerThan5MB(file.value.name))]
    ensures file.Some? && file.value.size <= MaxSize && KindOf(file.value.name) == Unsupported ==>
      calls == [Failed(UnsupportedFormat)]
    ensures file.Some? && file.value.size <= MaxSize && KindOf(file.value.name) != Unsupported ==>
      var kind := KindOf(file.value.name);
      calls == if Reaches(kind, env)
               then Settle(kind, file.value.name, Decoded(kind, env), env.callback, notifyInside).calls
               else []
  {
    match file
    case None => []
    case Some(f) =>
      match Classify(f.name, f.size)
      case TooLarge(n) => [Failed(BiggerThan5MB(n))]
      case Admitted(Unsupported) => [Failed(UnsupportedFormat)]
      case Admitted(kind) =>
        if Reaches(kind, env) then Settle(kind, f.name, Decoded(kind, env), env.callback, notifyInside).calls
        else []
  }

  /** One call of the loader as written. */
  function IngestAsWritten(file: Option<InputFile>, env: Environment): (calls: seq<Report>)
    ensures |calls| <= 2
    ensures |calls| == 2 <==>
      file.Some? && file.value.size <= MaxSize && KindOf(file.value.name) != Unsupported &&
      Reaches(KindOf(file.value.name), env) && env.callback.throwsOnSuccess &&
      Finish(KindOf(file.value.name), file.value.name, Decoded(KindOf(file.value.name), env)).Added?
  {
    IngestWith(file, env, true)
  }

  /** One call of the loader with the success callback outside the caught
      region. An oversized file and an unsupported name are reported at
      once; an admitted file whose read succeeds gets its pipeline's report:
      the overlay with the file name, or the format's message. Nothing is
      reported for a missing handle or a read that never loads. */
  function Ingest(file: Option<InputFile>, env: Environment): (calls: seq<Report>)
    ensures |calls| <= 1
    ensures calls == [] <==>
      file.None? ||
      (file.value.size <= MaxSize && KindOf(file.value.name) != Unsupported && !Reaches(KindOf(file.value.name), env))
    ensures file.Some? && file.value.size > MaxSize ==> calls == [Failed(BiggerThan5MB(file.value.name))]
    ensures file.Some? && file.value.size <= MaxSize && KindOf(file.value.name) == Unsupported ==>
      calls == [Failed(UnsupportedFormat)]
    ensures (file.Some? && file.value.size <= MaxSize && KindOf(file.value.name) == Shapefile &&
             env.loaded && env.zipReadComplete) ==>
      calls == [Finish(Shapefile, file.value.name, env.shapefile)]
    ensures file.Some? && file.value.size <= MaxSize && KindOf(file.value.name) == Kmz && env.loaded ==>
      calls == [Finish(Kmz, file.value.name, KmzPipeline(env.kmz))]
    ensures file.Some? && file.value.size <= MaxSize && KindOf(file.value.name) == GeoJson && env.loaded ==>
      calls == [Finish(GeoJson, file.value.name, env.json)]
    ensures calls != [] && calls[0].Added? ==> file.Some? && calls[0].fileName == file.value.name
  {
    IngestWith(file, env, false)
  }

  /** The written loader reports what the corrected one reports, and at
      most one report more: the format's error after a success whose
      callback threw. */
  lemma IngestAsWrittenExtendsIngest(file: Option<InputFile>, env: Environment)
    ensures |Ingest(file, env)| <= |IngestAsWritten(file, env)| <= |Ingest(file, env)| + 1
    ensures IngestAsWritten(file, env)[..|Ingest(file, env)|] == Ingest(file, env)
    ensures |IngestAsWritten(file, env)| > |Ingest(file, env)| ==>
      env.callback.throwsOnSuccess && Ingest(file, env)[0].Added? &&
      IngestAsWritten(file, env)[1] == Failed(FailureMessage(KindOf(file.value.name), file.value.name))
  {
    if file.Some? && file.value.size <= MaxSize && KindOf(file.value.name) != Unsupported && Reaches(KindOf(file.value.name), env) {
      var kind := KindOf(file.value.name);
      assert IngestWith(file, env, true) == DeliverAsWritten(kind, file.value.name, Decoded(kind, env), env.callback);
    }
  }

  /** An oversized file is refused before any decoding: the result does not
      depend on anything the decoders would produce. */
  lemma OversizeIgnoresDecoders(f: InputFile, env1: Environment, env2: Environment)
    requires f.size > MaxSize
    ensures Ingest(Some(f), env1) == Ingest(Some(f), env2) == [Failed(BiggerThan5MB(f.name))]
  {
  }

  /** Exactly one pipeline runs: the report depends only on the read and on
      the inputs of the pipeline the name selects. */
  lemma OnlySelectedPipelineMatters(f: InputFile, env: Environment, other: Environment)
    requires f.size <= MaxSize
    ensures KindOf(f.name) == Shapefile ==>
      Ingest(Some(f), env) == Ingest(Some(f), other.(loaded := env.loaded, zipReadComplete := env.zipReadComplete, shapefile := env.shapefile))
    ensures KindOf(f.name) == Kmz ==>
      Ingest(Some(f), env) == Ingest(Some(f), other.(loaded := env.loaded, kmz := env.kmz))
    ensures KindOf(f.name) == GeoJson ==>
      Ingest(Some(f), env) == Ingest(Some(f), other.(loaded := env.loaded, json := env.json))
    ensures KindOf(f.name) == Unsupported ==> Ingest(Some(f), env) == Ingest(Some(f), other)
  {
  }

  /** Every shapefile failure, of the decoder or of the overlay builder, is
      reported as not a proper zipped shapefile naming the file. */
  lemma ShapefileFailuresShareMessage(f: InputFile, env: Environment)
    requires f.size <= MaxSize && KindOf(f.name) == Shapefile && env.loaded && env.zipReadComplete
    requires env.shapefile.None? || env.shapefile == Some(NotGeoJson)
    ensures Ingest(Some(f), env) == [Failed(NotProperShapefile(f.name))]
  {
  }

  /** Every KMZ failure, whether the archive is unreadable, has no `.kml`
      entry, or its entry cannot be read or converted, or the overlay
      builder throws, is reported with the same message naming the file. */
  lemma KmzFailuresShareMessage(f: InputFile, env: Environment)
    requires f.size <= MaxSize && KindOf(f.name) == Kmz && env.loaded
    requires KmzPipeline(env.kmz).None? || KmzPipeline(env.kmz) == Some(NotGeoJson)
    ensures Ingest(Some(f), env) == [Failed(InvalidKmzFile(f.name))]
  {
  }

  /** A KMZ archive without a `.kml` entry is reported as an invalid KMZ. */
  lemma KmzWithoutKmlFails(f: InputFile, env: Environment)
    requires f.size <= MaxSize && KindOf(f.name) == Kmz && env.loaded
    requires env.kmz.archive.Some? && NoKml(env.kmz.archive.value)
    ensures Ingest(Some(f), env) == [Failed(InvalidKmzFile(f.name))]
  {
  }

  /** Every JSON failure, a parse error or an overlay builder that throws on
      the parsed value, is reported as not a proper JSON file naming it. */
  lemma JsonFailuresShareMessage(f: InputFile, env: Environment)
    requires f.size <= MaxSize && KindOf(f.name) == GeoJson && env.loaded
    requires env.json.None? || env.json == Some(NotGeoJson)
    ensures Ingest(Some(f), env) == [Failed(NotProperJson(f.name))]
  {
  }

  /** A successful ingestion reports no error, the original file name and
      one drawn item per decoded feature. */
  lemma SuccessKeepsFeatures(f: InputFile, env: Environment, fs: seq<Feature>)
    requires f.size <= MaxSize && env.loaded
    requires KindOf(f.name) == GeoJson && env.json == Some(Features(fs))
    ensures |Ingest(Some(f), env)| == 1
    ensures Ingest(Some(f), env)[0].Added?
    ensures Ingest(Some(f), env)[0].fileName == f.name
    ensures Ingest(Some(f), env)[0].overlay.items == seq(|fs|, i requires 0 <= i < |fs| => Render(fs[i]))
  {
  }
}
