/**
 * The map legend: which layers it lists and the swatches drawn beside each
 * entry.
 */
module MapLegend {
  import opened JsValues
  import opened JsArray
  import opened WebGis

  function IsLegendLayer(l: Layer): bool
  {
    l.visible && l.kind == Overlay
  }

  /** `layers.filter(l => l.visible && l.type === 'overlay')`. */
  function LegendLayers(layers: seq<Layer>): (r: seq<Layer>)
    ensures |r| <= |layers|
    ensures forall i :: 0 <= i < |r| ==> r[i] in layers && r[i].visible && r[i].kind == Overlay
    ensures forall i :: 0 <= i < |layers| && layers[i].visible && layers[i].kind == Overlay ==> layers[i] in r
  {
    Filter(IsLegendLayer, layers)
  }

  /** The legend keeps the order of the layer list. */
  lemma LegendOrder(a: seq<Layer>, b: seq<Layer>)
    ensures LegendLayers(a + b) == LegendLayers(a) + LegendLayers(b)
  {
    FilterConcat(IsLegendLayer, a, b);
  }

  /** The marks drawn beside a legend entry. */
  datatype Swatch = BlueSquare | RedSquare | PurpleOutline | PopulationGradient | ImportedGreen

  /** One legend entry; `scale` is the low-to-high caption shown under the population gradient. */
  datatype LegendEntry = LegendEntry(id: string, name: string, swatches: seq<Swatch>, scale: bool)

  /** The swatches of a layer, in the order they are drawn. */
  function Swatches(l: Layer): (r: seq<Swatch>)
    ensures ImportedGreen in r <==> l.imported
    ensures BlueSquare in r <==> l.id == "schools"
    ensures RedSquare in r <==> l.id == "health_units"
    ensures PurpleOutline in r <==> l.id == "neighborhoods"
    ensures PopulationGradient in r <==> l.id == "population"
    ensures |r| <= 2
  {
    (if l.id == "schools" then [BlueSquare] else [])
    + (if l.id == "health_units" then [RedSquare] else [])
    + (if l.id == "neighborhoods" then [PurpleOutline] else [])
    + (if l.id == "population" then [PopulationGradient] else [])
    + (if l.imported then [ImportedGreen] else [])
  }

  function Entry(l: Layer): (e: LegendEntry)
    ensures e.id == l.id && e.name == l.name
    ensures e.scale <==> l.id == "population"
  {
    LegendEntry(l.id, l.name, Swatches(l), l.id == "population")
  }

  /** The rendered legend: nothing when no layer qualifies, else one entry per qualifying layer. */
  function Legend(layers: seq<Layer>): (r: Option<seq<LegendEntry>>)
    ensures r.None? <==> forall i :: 0 <= i < |layers| ==> !(layers[i].visible && layers[i].kind == Overlay)
    ensures r.Some? ==> |r.value| == |LegendLayers(layers)| > 0
    ensures r.Some? ==> forall i :: 0 <= i < |r.value| ==> r.value[i] == Entry(LegendLayers(layers)[i])
  {
    var shown := LegendLayers(layers);
    if |shown| == 0 then None
    else
      assert shown[0] in layers;
      Some(seq(|shown|, i requires 0 <= i < |shown| => Entry(shown[i])))
  }

  /** Every layer the page imported is listed with the imported swatch once it is visible. */
  lemma ImportedLayerListed(layers: seq<Layer>, newLayer: Layer, uploadDate: string)
    requires newLayer.visible && newLayer.kind == Overlay
    ensures var after := layers + [AsImported(newLayer, uploadDate)];
      && Legend(after).Some?
      && Entry(AsImported(newLayer, uploadDate)) == Legend(after).value[|Legend(after).value| - 1]
      && ImportedGreen in Legend(after).value[|Legend(after).value| - 1].swatches
  {
    var l := AsImported(newLayer, uploadDate);
    var after := layers + [l];
    LegendOrder(layers, [l]);
    assert [l][1..] == [];
    assert LegendLayers([l]) == [l];
    assert after[|layers|] == l;
  }
}
