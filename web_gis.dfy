/**
 * The WebGIS page's layer list: the map layer record, the fourteen layers
 * the page starts with, and the three operations the page applies to its
 * `layers` state — toggling a layer's visibility, appending an imported
 * layer and removing a layer — together with the counters shown in the
 * statistics card. The page replaces its list on every operation; the model
 * keeps the list in a field of `LayerPanel` that each method reassigns.
 */
module WebGis {
  import opened JsValues
  import opened JsArray

  datatype LayerKind = Base | Overlay

  datatype Category = Equipment | Biome | Statistics | Urban | Imported

  /** A map layer. An absent `imported` flag reads as `false`. */
  datatype Layer = Layer(
    id: string,
    name: string,
    kind: LayerKind,
    category: Option<Category>,
    visible: bool,
    description: string,
    data: Option<JsValue>,
    imported: bool,
    uploadDate: Option<string>)

  function Catalogued(id: string, name: string, category: Category, description: string): (l: Layer)
    ensures l.kind == Overlay && !l.visible && !l.imported && l.id == id
  {
    Layer(id, name, Overlay, Some(category), false, description, None, false, None)
  }

  /** Id, name, category and description of the layers the page is created with. */
  const InitialCatalogue: seq<(string, string, Category, string)> := [
    ("schools", "Escolas Públicas", Equipment, "Localização das escolas municipais"),
    ("health_units", "Unidades de Saúde", Equipment, "UBS e hospitais públicos"),
    ("fire_stations", "Bombeiros", Equipment, "Estações do corpo de bombeiros"),
    ("police_stations", "Delegacias", Equipment, "Delegacias de polícia civil"),
    ("vegetation", "Cobertura Vegetal", Biome, "Áreas de vegetação nativa"),
    ("water_bodies", "Corpos d'Água", Biome, "Rios, lagos e represas"),
    ("conservation_units", "Unidades de Conservação", Biome, "Parques e reservas ambientais"),
    ("population", "Densidade Populacional", Statistics, "Densidade por setor censitário"),
    ("income", "Renda Média", Statistics, "Renda média por bairro"),
    ("education_index", "Índice de Educação", Statistics, "IDEB por região"),
    ("neighborhoods", "Limites de Bairros", Urban, "Divisão administrativa municipal"),
    ("roads", "Sistema Viário", Urban, "Ruas, avenidas e rodovias"),
    ("zoning", "Zoneamento", Urban, "Zoneamento urbano municipal"),
    ("public_transport", "Transporte Público", Urban, "Linhas de ônibus e estações")
  ]

  /** The layers the page is created with. */
  function InitialLayers(): (r: seq<Layer>)
    ensures |r| == |InitialCatalogue|
    ensures forall i :: 0 <= i < |r| ==> r[i].id == InitialCatalogue[i].0
  {
    CatalogueLayers(InitialCatalogue)
  }

  /** A catalogue as layers, each an invisible overlay that was not imported. */
  function CatalogueLayers(catalogue: seq<(string, string, Category, string)>): (r: seq<Layer>)
    ensures |r| == |catalogue|
    ensures forall i :: 0 <= i < |r| ==> r[i].id == catalogue[i].0
    ensures forall i :: 0 <= i < |r| ==> r[i].kind == Overlay && !r[i].visible && !r[i].imported
  {
    seq(|catalogue|, i requires 0 <= i < |catalogue| =>
      var e := catalogue[i];
      Catalogued(e.0, e.1, e.2, e.3))
  }

  predicate DistinctIds(layers: seq<Layer>)
  {
    forall i, j :: 0 <= i < j < |layers| ==> layers[i].id != layers[j].id
  }

  predicate HasId(layers: seq<Layer>, id: string)
  {
    exists i :: 0 <= i < |layers| && layers[i].id == id
  }

  // ---------------------------------------------------------------------------
  // Counters

  function IsVisible(l: Layer): bool { l.visible }
  function IsImported(l: Layer): bool { l.imported }

  /** "Camadas ativas": the number of visible layers. */
  function ActiveCount(layers: seq<Layer>): (n: nat)
    ensures n <= |layers|
  {
    Count(IsVisible, layers)
  }

  /** "Camadas importadas": the number of layers flagged as imported. */
  function ImportedCount(layers: seq<Layer>): (n: nat)
    ensures n <= |layers|
  {
    Count(IsImported, layers)
  }

  /** Every initial layer is an invisible overlay that was not imported, so none starts active. */
  lemma InitialLayersHidden()
    ensures var layers := InitialLayers();
      && (forall i :: 0 <= i < |layers| ==> layers[i].kind == Overlay && !layers[i].visible && !layers[i].imported)
      && ActiveCount(layers) == 0
      && ImportedCount(layers) == 0
  {
    CatalogueHidden(InitialCatalogue);
  }

  lemma CatalogueHidden(catalogue: seq<(string, string, Category, string)>)
    ensures ActiveCount(CatalogueLayers(catalogue)) == 0
    ensures ImportedCount(CatalogueLayers(catalogue)) == 0
  {
    var layers := CatalogueLayers(catalogue);
    FilterNone(IsVisible, layers);
    FilterNone(IsImported, layers);
  }

  /** No two initial layers share an id; there are fourteen of them. */
  lemma InitialLayersDistinct()
    ensures |InitialLayers()| == 14
    ensures DistinctIds(InitialLayers())
  {
    var layers := InitialLayers();
    forall i, j | 0 <= i < j < |layers| ensures layers[i].id != layers[j].id {
      // Any two of the ids differ in length or in their first letter.
      assert |layers[i].id| != |layers[j].id| || layers[i].id[0] != layers[j].id[0];
    }
  }

  lemma {:induction false} FilterNone<T>(p: T -> bool, s: seq<T>)
    requires forall i :: 0 <= i < |s| ==> !p(s[i])
    ensures Filter(p, s) == []
  {
    if |s| > 0 {
      FilterNone(p, s[1..]);
    }
  }

  // ---------------------------------------------------------------------------
  // The three operations, on values

  /** `layers.map(l => l.id === id ? { ...l, visible: !l.visible } : l)`. */
  function Toggled(layers: seq<Layer>, id: string): (r: seq<Layer>)
    ensures |r| == |layers|
    ensures forall i :: 0 <= i < |r| ==> r[i].(visible := layers[i].visible) == layers[i]
    ensures forall i :: 0 <= i < |r| ==> (r[i].visible != layers[i].visible <==> layers[i].id == id)
  {
    seq(|layers|, i requires 0 <= i < |layers| =>
      if layers[i].id == id then layers[i].(visible := !layers[i].visible) else layers[i])
  }

  /** Toggling the same id twice gives back the list. */
  lemma ToggleTwice(layers: seq<Layer>, id: string)
    ensures Toggled(Toggled(layers, id), id) == layers
  {
    var once := Toggled(layers, id);
    var twice := Toggled(once, id);
    forall i | 0 <= i < |layers| ensures twice[i] == layers[i] {
      assert once[i].id == layers[i].id;
    }
  }

  /** Toggling an id no layer has changes nothing. */
  lemma ToggleAbsent(layers: seq<Layer>, id: string)
    requires !HasId(layers, id)
    ensures Toggled(layers, id) == layers
  {
    var r := Toggled(layers, id);
    forall i | 0 <= i < |layers| ensures r[i] == layers[i] {
      assert layers[i].id != id;
    }
  }

  /** `{ ...newLayer, category: 'imported', imported: true, uploadDate }`. */
  function AsImported(newLayer: Layer, uploadDate: string): (l: Layer)
    ensures l.category == Some(Imported) && l.imported && l.uploadDate == Some(uploadDate)
    ensures l.(category := newLayer.category, imported := newLayer.imported, uploadDate := newLayer.uploadDate)
         == newLayer
  {
    newLayer.(category := Some(Imported), imported := true, uploadDate := Some(uploadDate))
  }

  function KeepsOtherId(id: string): Layer -> bool
  {
    (l: Layer) => l.id != id
  }

  /** `layers.filter(l => l.id !== id)`: imported or not, every layer with that id goes. */
  function WithoutLayer(layers: seq<Layer>, id: string): (r: seq<Layer>)
    ensures !HasId(r, id)
    ensures |r| <= |layers|
    ensures forall i :: 0 <= i < |r| ==> r[i] in layers
    ensures forall i :: 0 <= i < |layers| && layers[i].id != id ==> layers[i] in r
  {
    var r := Filter(KeepsOtherId(id), layers);
    assert forall i :: 0 <= i < |r| ==> KeepsOtherId(id)(r[i]);
    r
  }

  /** Removal keeps the order of the remaining layers. */
  lemma WithoutLayerConcat(a: seq<Layer>, b: seq<Layer>, id: string)
    ensures WithoutLayer(a + b, id) == WithoutLayer(a, id) + WithoutLayer(b, id)
  {
    FilterConcat(KeepsOtherId(id), a, b);
  }

  /** Removing an id no layer has changes nothing. */
  lemma WithoutAbsent(layers: seq<Layer>, id: string)
    requires !HasId(layers, id)
    ensures WithoutLayer(layers, id) == layers
  {
    FilterKeepsAll(KeepsOtherId(id), layers);
  }

  /** Importing a layer under a fresh id and then removing that id gives back the list. */
  lemma RemoveUndoesImport(layers: seq<Layer>, newLayer: Layer, uploadDate: string)
    requires !HasId(layers, newLayer.id)
    ensures WithoutLayer(layers + [AsImported(newLayer, uploadDate)], newLayer.id) == layers
  {
    var l := AsImported(newLayer, uploadDate);
    WithoutLayerConcat(layers, [l], newLayer.id);
    WithoutAbsent(layers, newLayer.id);
    assert [l][1..] == [];
  }

  /** An import raises the total and the imported counter by one each. */
  lemma ImportCounts(layers: seq<Layer>, newLayer: Layer, uploadDate: string)
    ensures var after := layers + [AsImported(newLayer, uploadDate)];
      && |after| == |layers| + 1
      && ImportedCount(after) == ImportedCount(layers) + 1
      && ActiveCount(after) == ActiveCount(layers) + (if newLayer.visible then 1 else 0)
  {
    CountAppend(IsImported, layers, AsImported(newLayer, uploadDate));
    CountAppend(IsVisible, layers, AsImported(newLayer, uploadDate));
  }

  /** With distinct ids, a toggle changes the active counter by exactly one when the id is present. */
  lemma {:induction false} ToggleActiveCount(layers: seq<Layer>, id: string)
    requires DistinctIds(layers)
    ensures !HasId(layers, id) ==> ActiveCount(Toggled(layers, id)) == ActiveCount(layers)
    ensures forall i :: 0 <= i < |layers| && layers[i].id == id ==>
      ActiveCount(Toggled(layers, id)) == ActiveCount(layers) + (if layers[i].visible then -1 else 1)
  {
    if |layers| > 0 {
      var rest := layers[1..];
      assert DistinctIds(rest);
      ToggleActiveCount(rest, id);
      ToggleCountHead(layers, id);
      if layers[0].id == id {
        assert !HasId(rest, id);
        ToggleAbsent(rest, id);
      } else {
        forall i | 0 <= i < |layers| && layers[i].id == id
          ensures ActiveCount(Toggled(layers, id)) == ActiveCount(layers) + (if layers[i].visible then -1 else 1)
        {
          assert rest[i - 1] == layers[i];
        }
      }
    }
  }

  /** The counts of a list and of its toggle, split into the first layer and the rest. */
  lemma ToggleCountHead(layers: seq<Layer>, id: string)
    requires |layers| > 0
    ensures ActiveCount(Toggled(layers, id))
         == ActiveCount(Toggled(layers[1..], id)) + (if Toggled(layers, id)[0].visible then 1 else 0)
    ensures ActiveCount(layers) == ActiveCount(layers[1..]) + (if layers[0].visible then 1 else 0)
  {
    var t := Toggled(layers, id);
    assert t[1..] == Toggled(layers[1..], id);
    assert t == [t[0]] + t[1..];
    assert layers == [layers[0]] + layers[1..];
    CountCons(IsVisible, t[0], t[1..]);
    CountCons(IsVisible, layers[0], layers[1..]);
  }

  lemma CountCons<T>(p: T -> bool, x: T, s: seq<T>)
    ensures Count(p, [x] + s) == Count(p, s) + (if p(x) then 1 else 0)
  {
    assert ([x] + s)[1..] == s;
  }

  // ---------------------------------------------------------------------------
  // The page state

  class LayerPanel {
    var layers: seq<Layer>

    /** The page's initial state. */
    constructor()
      ensures layers == InitialLayers()
    {
      layers := InitialLayers();
    }

    /** `toggleLayer(id)`: only the visibility of the layers with that id changes. */
    method ToggleLayer(id: string)
      modifies this
      ensures layers == Toggled(old(layers), id)
    {
      layers := Toggled(layers, id);
    }

    /** `handleLayerImported(newLayer)` with the clock reading `uploadDate`. */
    method ImportLayer(newLayer: Layer, uploadDate: string)
      modifies this
      ensures layers == old(layers) + [AsImported(newLayer, uploadDate)]
    {
      layers := layers + [AsImported(newLayer, uploadDate)];
    }

    /** `removeImportedLayer(id)`. */
    method RemoveLayer(id: string)
      modifies this
      ensures layers == WithoutLayer(old(layers), id)
    {
      layers := WithoutLayer(layers, id);
    }

    /** The three numbers of the statistics card: active, imported and total layers. */
    function Counters(): (r: (nat, nat, nat))
      reads this
      ensures r.0 <= r.2 && r.1 <= r.2 && r.2 == |layers|
    {
      (ActiveCount(layers), ImportedCount(layers), |layers|)
    }
  }
}
