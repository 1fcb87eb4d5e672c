/**
 * The layer import form: the checks `handleFileUpload` makes on the chosen
 * file and the layer name, and the layer record it hands to the WebGIS page.
 * Reading the file and `JSON.parse` are outside the model; the parse result
 * and the clock readings are parameters.
 */
module LayerImport {
  import opened JsValues
  import opened JsText
  import opened WebGis

  datatype SelectedFile = SelectedFile(name: string)

  /** The result of `JSON.parse` on the file's text. */
  datatype ParseResult = Parsed(value: JsValue) | SyntaxError

  /**
   * How one call of the handler ends. `Failed` carries the message of an
   * `Error` the handler throws; `Crashed` is an exception from the platform
   * (a `SyntaxError` from `JSON.parse`, or a TypeError from reading `type`
   * of `null`) whose message the JavaScript engine chooses.
   */
  datatype ImportOutcome =
    | Ignored                   // no file chosen
    | NameRequired              // the "Nome necessário" toast, before the file is looked at
    | Failed(message: string)
    | Crashed
    | Accepted(layer: Layer)

  const UnsupportedMessage: string := "Tipo de arquivo não suportado. Use GeoJSON, KML ou GPX."
  const InvalidGeoJsonMessage: string := "Arquivo GeoJSON inválido. Deve ser um FeatureCollection."
  const ComingSoonMessage: string := "KML e GPX serão suportados em breve. Use GeoJSON por enquanto."

  const AllowedTypes: seq<string> := [".geojson", ".json", ".kml", ".gpx"]

  /**
   * `name.toLowerCase().substring(name.lastIndexOf('.'))`: a negative start
   * counts as 0, so a name without a dot gives the whole lower-cased name.
   */
  function Extension(name: string): (r: string)
    ensures '.' in name ==> r == ToLower(name[LastIndexOf(name, '.')..])
    ensures '.' in name ==> |r| >= 1 && r[0] == '.' && '.' !in r[1..]
    ensures '.' !in name ==> r == ToLower(name) && '.' !in r
  {
    var i := LastIndexOf(name, '.');
    var lower := ToLower(name);
    var r := lower[if i < 0 then 0 else i..];
    assert r == ToLower(name[if i < 0 then 0 else i..]);
    assert forall k :: 0 <= k < |r| ==> (r[k] == '.' <==> name[(if i < 0 then 0 else i) + k] == '.');
    r
  }

  datatype FileKind = GeoJson | KmlOrGpx | Unsupported

  /** Which branch of the handler an extension takes. */
  function KindOf(ext: string): (k: FileKind)
    ensures k == Unsupported <==> ext !in AllowedTypes
    ensures k == GeoJson <==> ext == ".geojson" || ext == ".json"
    ensures k == KmlOrGpx <==> ext == ".kml" || ext == ".gpx"
  {
    if ext == ".geojson" || ext == ".json" then GeoJson
    else if ext == ".kml" || ext == ".gpx" then KmlOrGpx
    else Unsupported
  }

  /** A name without a dot never passes the type check. */
  lemma NoDotRejected(name: string)
    requires '.' !in name
    ensures Extension(name) !in AllowedTypes
    ensures KindOf(Extension(name)) == Unsupported
  {
    var ext := Extension(name);
    forall k | 0 <= k < |AllowedTypes| ensures ext != AllowedTypes[k] {
      assert AllowedTypes[k][0] == '.';
    }
  }

  /** `!data.type || data.type !== 'FeatureCollection'` fails exactly when `type` is that string. */
  predicate IsFeatureCollection(data: JsValue)
  {
    data.Obj? && "type" in data.fields && data.fields["type"] == Str("FeatureCollection")
  }

  /** The layer handed to the page for a GeoJSON document read at time `timestamp`. */
  function NewLayer(timestamp: nat, layerName: string, fileName: string, data: JsValue, now: string): (l: Layer)
    ensures l.id == "imported_" + DecimalString(timestamp)
    ensures l.name == layerName && l.kind == Overlay && l.visible && l.imported
    ensures l.description == "Camada importada: " + fileName
    ensures l.data == Some(data) && l.uploadDate == Some(now) && l.category.None?
  {
    Layer("imported_" + DecimalString(timestamp), layerName, Overlay, None, true,
          "Camada importada: " + fileName, Some(data), true, Some(now))
  }

  /**
   * `handleFileUpload`: no file does nothing; a blank layer name is refused
   * before the file is inspected; then the extension must be allowed, KML and
   * GPX are refused for now, and a JSON document must be a FeatureCollection.
   */
  function HandleFileUpload(file: Option<SelectedFile>, layerName: string, parsed: ParseResult,
                            timestamp: nat, now: string): (r: ImportOutcome)
    ensures file.None? <==> r.Ignored?
    ensures r.NameRequired? <==> file.Some? && Trim(layerName) == ""
    ensures r.Accepted? <==>
      && file.Some? && Trim(layerName) != ""
      && KindOf(Extension(file.value.name)) == GeoJson
      && parsed.Parsed? && IsFeatureCollection(parsed.value)
    ensures r.Accepted? ==> r.layer == NewLayer(timestamp, layerName, file.value.name, parsed.value, now)
    ensures file.Some? && Trim(layerName) != "" && KindOf(Extension(file.value.name)) == Unsupported ==>
      r == Failed(UnsupportedMessage)
    ensures file.Some? && Trim(layerName) != "" && KindOf(Extension(file.value.name)) == KmlOrGpx ==>
      r == Failed(ComingSoonMessage)
    ensures file.Some? && Trim(layerName) != "" && KindOf(Extension(file.value.name)) == GeoJson ==>
      r == ReadGeoJson(parsed, timestamp, layerName, file.value.name, now)
    ensures r.Crashed? ==> parsed.SyntaxError? || parsed.value.Null? || parsed.value.Undefined?
  {
    if file.None? then Ignored
    else if Trim(layerName) == "" then NameRequired
    else
      var kind := KindOf(Extension(file.value.name));
      if kind == Unsupported then Failed(UnsupportedMessage)
      else if kind == GeoJson then ReadGeoJson(parsed, timestamp, layerName, file.value.name, now)
      else Failed(ComingSoonMessage)
  }

  /** The GeoJSON branch: the parsed document must be a FeatureCollection. */
  function ReadGeoJson(parsed: ParseResult, timestamp: nat, layerName: string, fileName: string, now: string)
    : (r: ImportOutcome)
    ensures r.Accepted? || r.Crashed? || r == Failed(InvalidGeoJsonMessage)
    ensures r.Accepted? <==> parsed.Parsed? && IsFeatureCollection(parsed.value)
    ensures r.Accepted? ==> r.layer == NewLayer(timestamp, layerName, fileName, parsed.value, now)
    ensures r.Crashed? <==> parsed.SyntaxError? || parsed.value.Null? || parsed.value.Undefined?
  {
    match parsed
    case SyntaxError => Crashed
    case Parsed(data) =>
      match GetProperty(data, "type")
      case TypeError => Crashed
      case Value(t) =>
        if !Truthy(t) || t != Str("FeatureCollection") then Failed(InvalidGeoJsonMessage)
        else Accepted(NewLayer(timestamp, layerName, fileName, data, now))
  }

  /** An imported layer's id is not the id of any layer the page starts with. */
  lemma ImportedIdFresh(timestamp: nat)
    ensures !HasId(InitialLayers(), "imported_" + DecimalString(timestamp))
  {
    var id := "imported_" + DecimalString(timestamp);
    var layers := InitialLayers();
    forall i | 0 <= i < |layers| ensures layers[i].id != id {
      // Only "income" starts with the same letter, and it is shorter.
      assert id[0] == 'i' && |id| >= 10;
      assert layers[i].id[0] != 'i' || |layers[i].id| < 10;
    }
  }

  /** Importing into the initial page and removing the new layer again gives back the initial list. */
  lemma ImportThenRemove(file: Option<SelectedFile>, layerName: string, parsed: ParseResult,
                         timestamp: nat, now: string, uploadDate: string)
    requires HandleFileUpload(file, layerName, parsed, timestamp, now).Accepted?
    ensures var l := HandleFileUpload(file, layerName, parsed, timestamp, now).layer;
      WithoutLayer(InitialLayers() + [AsImported(l, uploadDate)], l.id) == InitialLayers()
  {
    ImportedIdFresh(timestamp);
    RemoveUndoesImport(InitialLayers(), HandleFileUpload(file, layerName, parsed, timestamp, now).layer, uploadDate);
  }
}
