/** get_boundary_layer_data: one setting per usable MeshBoundaryLayer object, with the
    derived thickness, hwall_t and hfar, and bl_boundary_list, the boundary elements claimed
    so far (first layer wins). */
module BoundaryLayers {
  import opened Options
  import opened Assoc
  import opened FemObjects
  import opened Diagnostics
  import Regions

  /** r ** i for a natural exponent (Python gives 0 ** 0 == 1 as well). */
  function Pow(r: real, i: nat): real
    decreases i
  {
    if i == 0 then 1.0 else Pow(r, i - 1) * r
  }

  /** sum([hwall_n * ratio ** i for i in range(n)]), summed left to right; 0 when n <= 0. */
  function Thickness(hwallN: real, ratio: real, n: int): real
    decreases n
  {
    if n <= 0 then 0.0 else Thickness(hwallN, ratio, n - 1) + hwallN * Pow(ratio, n - 1)
  }

  /** hfar: clmax when it lies strictly between 0.8 and 1.6 times the thickness, else the
      thickness. Either way the far cell size is one of the two and, for a positive
      thickness, stays strictly inside the window around it. */
  function HFar(clmax: real, thickness: real): (r: real)
    ensures r == clmax || r == thickness
    ensures thickness > 0.0 ==> thickness * 0.8 < r < thickness * 1.6
  {
    if clmax > thickness * 0.8 && clmax < thickness * 1.6 then clmax else thickness
  }

  lemma {:induction false} PowOne(i: nat)
    ensures Pow(1.0, i) == 1.0
  {
    if i > 0 {
      PowOne(i - 1);
    }
  }

  lemma {:induction false} PowPositive(r: real, i: nat)
    requires r > 0.0
    ensures Pow(r, i) > 0.0
  {
    if i > 0 {
      PowPositive(r, i - 1);
    }
  }

  /** With growth ratio 1 every layer is hwall_n thick. */
  lemma {:induction false} ThicknessUniform(hwallN: real, n: nat)
    ensures Thickness(hwallN, 1.0, n) == hwallN * (n as real)
  {
    if n > 0 {
      ThicknessUniform(hwallN, n - 1);
      PowOne(n - 1);
    }
  }

  /** The geometric series in closed form: (ratio - 1) * thickness == hwall_n * (ratio^n - 1). */
  lemma {:induction false} ThicknessGeometric(hwallN: real, ratio: real, n: nat)
    ensures (ratio - 1.0) * Thickness(hwallN, ratio, n) == hwallN * (Pow(ratio, n) - 1.0)
  {
    if n > 0 {
      ThicknessGeometric(hwallN, ratio, n - 1);
      var p := Pow(ratio, n - 1);
      var t := Thickness(hwallN, ratio, n - 1);
      assert (ratio - 1.0) * (t + hwallN * p) == (ratio - 1.0) * t + hwallN * (p * ratio - p);
    }
  }

  /** With positive wall thickness and ratio, the layers are at least hwall_n thick. */
  lemma {:induction false} ThicknessAtLeastWall(hwallN: real, ratio: real, n: int)
    requires hwallN > 0.0 && ratio > 0.0 && n >= 1
    ensures Thickness(hwallN, ratio, n) >= hwallN
    decreases n
  {
    if n > 1 {
      ThicknessAtLeastWall(hwallN, ratio, n - 1);
      PowPositive(ratio, n - 1);
      assert hwallN * Pow(ratio, n - 1) > 0.0;
    } else {
      assert Thickness(hwallN, ratio, 0) == 0.0;
    }
  }

  /** For a positive thickness, hfar is clmax exactly when clmax lies strictly inside the
      window or equals the thickness (where both choices coincide). */
  lemma HFarChoice(clmax: real, thickness: real)
    requires thickness > 0.0
    ensures HFar(clmax, thickness) == clmax <==>
      (thickness * 0.8 < clmax < thickness * 1.6 || clmax == thickness)
  {
  }

  /** The key under which a setting holds its boundary elements. */
  datatype ListKey = EdgesList | FacesList

  /** One entry of bl_setting_list. list is None when the dimension is neither "2" nor "3":
      the setting is appended without any element list. emptySum holds when NumberOfLayers <= 0: the sum of no terms is then Python's int 0,
      and so are hwall_t and hfar, which are copied from it. */
  datatype BLSetting = BLSetting(hwallN: real, ratio: real, thickness: real, hwallT: real,
                                 hfar: real, emptySum: bool, list: Option<(ListKey, seq<string>)>)

  function KeyName(k: ListKey): string {
    match k
    case EdgesList => "EdgesList"
    case FacesList => "FacesList"
  }

  /** A value of the setting dict: a float, an int or a list of element names. */
  datatype SettingValue = Scalar(x: real) | Whole(n: nat) | Elements(names: seq<string>)

  /** A value derived from the layer sum: the int 0 for an empty sum, a float otherwise. */
  function SumValue(x: real, emptySum: bool): SettingValue {
    if emptySum then Whole(0) else Scalar(x)
  }

  /** The list-valued keys the writer recognises. */
  const ListKeyNames: set<string> := {"EdgesList", "FacesList"}

  /** The setting dict in insertion order. */
  function Entries(s: BLSetting): (es: seq<(string, SettingValue)>)
    ensures forall i :: 0 <= i < |es| ==> (es[i].0 in ListKeyNames <==> es[i].1.Elements?)
  {
    [("hwall_n", Scalar(s.hwallN)), ("ratio", Scalar(s.ratio)),
     ("thickness", SumValue(s.thickness, s.emptySum)), ("hwall_t", SumValue(s.hwallT, s.emptySum)),
     ("hfar", SumValue(s.hfar, s.emptySum))]
    + (match s.list
       case Some((k, names)) => [(KeyName(k), Elements(names))]
       case None => [])
  }

  /** The element names of a setting (none when it has no list). */
  function Listed(s: BLSetting): seq<string> {
    match s.list
    case Some((_, names)) => names
    case None => []
  }

  function AllListed(ss: seq<BLSetting>): seq<string>
    decreases |ss|
  {
    if ss == [] then [] else AllListed(ss[..|ss| - 1]) + Listed(ss[|ss| - 1])
  }

  /** The setting built for a layer object whose elements belem were accepted. */
  function MakeSetting(layer: MeshBoundaryLayer, clmax: real, dimension: string, belem: seq<string>): BLSetting {
    var t := Thickness(layer.minimumThickness, layer.growthRate, layer.numberOfLayers);
    BLSetting(layer.minimumThickness, layer.growthRate, t, t, HFar(clmax, t), layer.numberOfLayers <= 0,
              if dimension == "2" then Some((EdgesList, belem))
              else if dimension == "3" then Some((FacesList, belem))
              else None)
  }

  /** The state of the element loops: bl_boundary_list, the layer's belem_list, the reports. */
  datatype BoundaryWalk = BoundaryWalk(boundary: seq<string>, belem: seq<string>, diags: seq<Diag>)

  /** The body of the innermost loop for one element entry. */
  function ClaimBoundary(w: BoundaryWalk, layer: MeshBoundaryLayer, ref: Reference, el: RefElement): BoundaryWalk {
    var w1 := if Regions.NotFound(ref, el) then w.(diags := w.diags + [LayerElementNotFound(layer.name)]) else w;
    var e := Regions.Resolved(ref, el);
    if e !in w1.boundary then w1.(belem := w1.belem + [e], boundary := w1.boundary + [e])
    else w1.(diags := w1.diags + [LayerElementClaimed(e, layer.name)])
  }

  function WalkLayerElements(w: BoundaryWalk, layer: MeshBoundaryLayer, ref: Reference, els: seq<RefElement>): BoundaryWalk
    decreases |els|
  {
    if els == [] then w
    else ClaimBoundary(WalkLayerElements(w, layer, ref, els[..|els| - 1]), layer, ref, els[|els| - 1])
  }

  function WalkLayerReferences(w: BoundaryWalk, layer: MeshBoundaryLayer, refs: seq<Reference>): BoundaryWalk
    decreases |refs|
  {
    if refs == [] then w
    else
      var last := refs[|refs| - 1];
      WalkLayerElements(WalkLayerReferences(w, layer, refs[..|refs| - 1]), layer, last, last.elements)
  }

  /** What get_boundary_layer_data has built so far. */
  datatype LayerWalk = LayerWalk(settings: seq<BLSetting>, boundary: seq<string>, diags: seq<Diag>)

  /** A layer object yields a setting when its MinimumThickness is positive and its
      References list is not empty. */
  predicate UsableLayer(layer: MeshBoundaryLayer) {
    layer.minimumThickness > 0.0 && layer.references != []
  }

  function DimensionReport(dimension: string): seq<Diag> {
    if dimension == "2" || dimension == "3" then [] else [LayerDimensionUnsupported]
  }

  function WalkLayer(w: LayerWalk, layer: MeshBoundaryLayer, clmax: real, dimension: string): LayerWalk {
    if layer.minimumThickness > 0.0 then
      if layer.references != [] then
        var inner := WalkLayerReferences(BoundaryWalk(w.boundary, [], w.diags), layer, layer.references);
        LayerWalk(w.settings + [MakeSetting(layer, clmax, dimension, inner.belem)], inner.boundary,
                  inner.diags + DimensionReport(dimension))
      else w.(diags := w.diags + [LayerEmptyReferences(layer.name)])
    else w.(diags := w.diags + [LayerZeroThickness(layer.name)])
  }

  function WalkLayers(w: LayerWalk, layers: seq<MeshBoundaryLayer>, clmax: real, dimension: string): LayerWalk
    decreases |layers|
  {
    if layers == [] then w
    else WalkLayer(WalkLayers(w, layers[..|layers| - 1], clmax, dimension), layers[|layers| - 1], clmax, dimension)
  }

  function CompoundWarning(part: Part): seq<Diag> {
    if part.shapeType == "Compound" then [LayersOnCompound] else []
  }

  /** bl_setting_list, bl_boundary_list and the reports after get_boundary_layer_data. */
  function BoundaryLayerData(part: Part, layers: seq<MeshBoundaryLayer>, clmax: real, dimension: string,
                             diags: seq<Diag>): LayerWalk {
    if layers == [] then LayerWalk([], [], diags)
    else WalkLayers(LayerWalk([], [], diags + CompoundWarning(part)), layers, clmax, dimension)
  }

  // ---- Reference view: the boundary claims in walk order.

  function ElementClaims(ref: Reference, els: seq<RefElement>): (cs: seq<string>)
    ensures |cs| == |els| && forall i :: 0 <= i < |els| ==> cs[i] == Regions.Resolved(ref, els[i])
  {
    seq(|els|, i requires 0 <= i < |els| => Regions.Resolved(ref, els[i]))
  }

  function ReferenceClaims(refs: seq<Reference>): seq<string>
    decreases |refs|
  {
    if refs == [] then []
    else ReferenceClaims(refs[..|refs| - 1]) + ElementClaims(refs[|refs| - 1], refs[|refs| - 1].elements)
  }

  function LayerClaims(layer: MeshBoundaryLayer): seq<string> {
    if UsableLayer(layer) then ReferenceClaims(layer.references) else []
  }

  function AllLayerClaims(layers: seq<MeshBoundaryLayer>): seq<string>
    decreases |layers|
  {
    if layers == [] then [] else AllLayerClaims(layers[..|layers| - 1]) + LayerClaims(layers[|layers| - 1])
  }

  /** The numbers a setting holds besides its list, and its list key. */
  datatype SettingHead = SettingHead(hwallN: real, ratio: real, thickness: real, hwallT: real,
                                     hfar: real, emptySum: bool, key: Option<ListKey>)

  function Head(s: BLSetting): SettingHead {
    SettingHead(s.hwallN, s.ratio, s.thickness, s.hwallT, s.hfar, s.emptySum,
                match s.list case Some((k, _)) => Some(k) case None => None)
  }

  function Heads(ss: seq<BLSetting>): (hs: seq<SettingHead>)
    ensures |hs| == |ss| && forall i :: 0 <= i < |ss| ==> hs[i] == Head(ss[i])
  {
    seq(|ss|, i requires 0 <= i < |ss| => Head(ss[i]))
  }

  /** Reference definition of the derived settings, one per usable layer in list order:
      thickness the geometric sum (Python's int 0 when there are no layers), hwall_t equal
      to it, hfar from the 0.8x/1.6x window, and the list key from the dimension. */
  function ExpectedHeads(layers: seq<MeshBoundaryLayer>, clmax: real, dimension: string): seq<SettingHead>
    decreases |layers|
  {
    if layers == [] then []
    else
      var l := layers[|layers| - 1];
      var t := Thickness(l.minimumThickness, l.growthRate, l.numberOfLayers);
      ExpectedHeads(layers[..|layers| - 1], clmax, dimension)
      + (if UsableLayer(l)
         then [SettingHead(l.minimumThickness, l.growthRate, t, t, HFar(clmax, t), l.numberOfLayers <= 0,
                           if dimension == "2" then Some(EdgesList)
                           else if dimension == "3" then Some(FacesList) else None)]
         else [])
  }

  /** r continues w: bl_boundary_list and the reports only grow at their end, and belem_list
      grows by exactly the elements appended to bl_boundary_list. */
  predicate Grows(w: BoundaryWalk, r: BoundaryWalk) {
    && |r.boundary| >= |w.boundary| && r.boundary[..|w.boundary|] == w.boundary
    && r.belem == w.belem + r.boundary[|w.boundary|..]
    && |r.diags| >= |w.diags| && r.diags[..|w.diags|] == w.diags
  }

  lemma GrowsTransitive(a: BoundaryWalk, b: BoundaryWalk, c: BoundaryWalk)
    requires Grows(a, b) && Grows(b, c)
    ensures Grows(a, c)
  {
    PrefixTransitive(a.boundary, b.boundary, c.boundary);
    TailSplit(a.boundary, b.boundary, c.boundary);
    PrefixTransitive(a.diags, b.diags, c.diags);
    AppendAssoc(a.belem, b.boundary[|a.boundary|..], c.boundary[|b.boundary|..]);
  }

  lemma ClaimBoundaryGrows(w: BoundaryWalk, layer: MeshBoundaryLayer, ref: Reference, el: RefElement)
    ensures Grows(w, ClaimBoundary(w, layer, ref, el))
    ensures ClaimBoundary(w, layer, ref, el).boundary == AppendNew(w.boundary, [Regions.Resolved(ref, el)])
  {
    var r := ClaimBoundary(w, layer, ref, el);
    var e := Regions.Resolved(ref, el);
    assert [e][..0] == [];
    if e !in w.boundary {
      assert r.boundary[|w.boundary|..] == [e];
    } else {
      assert r.boundary[|w.boundary|..] == [];
    }
  }

  /** The element loop of one reference: bl_boundary_list takes the new claims in order. */
  lemma {:induction false} WalkLayerElementsClaims(w: BoundaryWalk, layer: MeshBoundaryLayer, ref: Reference, els: seq<RefElement>)
    ensures WalkLayerElements(w, layer, ref, els).boundary == AppendNew(w.boundary, ElementClaims(ref, els))
    ensures Grows(w, WalkLayerElements(w, layer, ref, els))
    decreases |els|
  {
    if els == [] {
      assert w.boundary[|w.boundary|..] == [];
    } else {
      var init := els[..|els| - 1];
      var mid := WalkLayerElements(w, layer, ref, init);
      WalkLayerElementsClaims(w, layer, ref, init);
      ClaimBoundaryGrows(mid, layer, ref, els[|els| - 1]);
      GrowsTransitive(w, mid, WalkLayerElements(w, layer, ref, els));
      assert ElementClaims(ref, els) == ElementClaims(ref, init) + [Regions.Resolved(ref, els[|els| - 1])];
      AppendNewAppend(w.boundary, ElementClaims(ref, init), [Regions.Resolved(ref, els[|els| - 1])]);
    }
  }

  lemma {:induction false} WalkLayerReferencesClaims(w: BoundaryWalk, layer: MeshBoundaryLayer, refs: seq<Reference>)
    ensures WalkLayerReferences(w, layer, refs).boundary == AppendNew(w.boundary, ReferenceClaims(refs))
    ensures Grows(w, WalkLayerReferences(w, layer, refs))
    decreases |refs|
  {
    if refs == [] {
      assert w.boundary[|w.boundary|..] == [];
    } else {
      var init := refs[..|refs| - 1];
      var last := refs[|refs| - 1];
      var mid := WalkLayerReferences(w, layer, init);
      WalkLayerReferencesClaims(w, layer, init);
      WalkLayerElementsClaims(mid, layer, last, last.elements);
      GrowsTransitive(w, mid, WalkLayerReferences(w, layer, refs));
      AppendNewAppend(w.boundary, ReferenceClaims(init), ElementClaims(last, last.elements));
    }
  }

  /** The reports only grow at their end. */
  predicate ReportsGrow(w: LayerWalk, r: LayerWalk) {
    |r.diags| >= |w.diags| && r.diags[..|w.diags|] == w.diags
  }

  /** In 2D/3D the settings list exactly the elements of bl_boundary_list. */
  predicate ListsMatch(w: LayerWalk, dimension: string) {
    (dimension == "2" || dimension == "3") ==> AllListed(w.settings) == w.boundary
  }

  /** The setting a usable layer adds lists, in 2D/3D, the elements it appended. */
  lemma UsableLayerClaims(w: LayerWalk, layer: MeshBoundaryLayer, clmax: real, dimension: string)
    requires UsableLayer(layer)
    ensures WalkLayer(w, layer, clmax, dimension).boundary == AppendNew(w.boundary, LayerClaims(layer))
    ensures WalkLayer(w, layer, clmax, dimension).settings == w.settings + [WalkLayer(w, layer, clmax, dimension).settings[|w.settings|]]
    ensures ListsMatch(w, dimension) ==> ListsMatch(WalkLayer(w, layer, clmax, dimension), dimension)
    ensures ReportsGrow(w, WalkLayer(w, layer, clmax, dimension))
  {
    var r := WalkLayer(w, layer, clmax, dimension);
    var w0 := BoundaryWalk(w.boundary, [], w.diags);
    var inner := WalkLayerReferences(w0, layer, layer.references);
    WalkLayerReferencesClaims(w0, layer, layer.references);
    assert r.diags[..|w.diags|] == inner.diags[..|w.diags|];
    if dimension == "2" || dimension == "3" {
      assert Listed(r.settings[|w.settings|]) == inner.belem;
      assert r.settings[..|r.settings| - 1] == w.settings;
      assert inner.boundary == inner.boundary[..|w.boundary|] + inner.boundary[|w.boundary|..];
    }
  }

  /** One layer object: its accepted elements extend bl_boundary_list, the settings grow by
      the expected one, and in 2D or 3D that setting lists exactly the accepted elements. */
  lemma WalkLayerClaims(w: LayerWalk, layer: MeshBoundaryLayer, clmax: real, dimension: string)
    ensures WalkLayer(w, layer, clmax, dimension).boundary == AppendNew(w.boundary, LayerClaims(layer))
    ensures Heads(WalkLayer(w, layer, clmax, dimension).settings) ==
      Heads(w.settings) + ExpectedHeads([layer], clmax, dimension)
    ensures ListsMatch(w, dimension) ==> ListsMatch(WalkLayer(w, layer, clmax, dimension), dimension)
    ensures ReportsGrow(w, WalkLayer(w, layer, clmax, dimension))
  {
    assert [layer][..0] == [];
    if UsableLayer(layer) {
      UsableLayerClaims(w, layer, clmax, dimension);
    } else {
      assert LayerClaims(layer) == [];
      assert w.diags[..|w.diags|] == w.diags;
    }
  }

  lemma ReportsGrowTransitive(a: LayerWalk, b: LayerWalk, c: LayerWalk)
    requires ReportsGrow(a, b) && ReportsGrow(b, c)
    ensures ReportsGrow(a, c)
  {
    assert c.diags[..|a.diags|] == c.diags[..|b.diags|][..|a.diags|];
  }

  lemma ExpectedHeadsLast(layers: seq<MeshBoundaryLayer>, clmax: real, dimension: string)
    requires layers != []
    ensures ExpectedHeads(layers, clmax, dimension) ==
      ExpectedHeads(layers[..|layers| - 1], clmax, dimension) + ExpectedHeads([layers[|layers| - 1]], clmax, dimension)
  {
    assert [layers[|layers| - 1]][..0] == [];
  }

  lemma {:induction false} WalkLayersClaims(w: LayerWalk, layers: seq<MeshBoundaryLayer>, clmax: real, dimension: string)
    ensures WalkLayers(w, layers, clmax, dimension).boundary == AppendNew(w.boundary, AllLayerClaims(layers))
    ensures Heads(WalkLayers(w, layers, clmax, dimension).settings) ==
      Heads(w.settings) + ExpectedHeads(layers, clmax, dimension)
    ensures ListsMatch(w, dimension) ==> ListsMatch(WalkLayers(w, layers, clmax, dimension), dimension)
    ensures ReportsGrow(w, WalkLayers(w, layers, clmax, dimension))
    decreases |layers|
  {
    if layers == [] {
      assert Heads(w.settings) + [] == Heads(w.settings);
      assert w.diags[..|w.diags|] == w.diags;
    } else {
      var init := layers[..|layers| - 1];
      var last := layers[|layers| - 1];
      var mid := WalkLayers(w, init, clmax, dimension);
      WalkLayersClaims(w, init, clmax, dimension);
      WalkLayerClaims(mid, last, clmax, dimension);
      ReportsGrowTransitive(w, mid, WalkLayers(w, layers, clmax, dimension));
      AppendNewAppend(w.boundary, AllLayerClaims(init), LayerClaims(last));
      ExpectedHeadsLast(layers, clmax, dimension);
      assert Heads(WalkLayers(w, layers, clmax, dimension).settings) ==
        Heads(w.settings) + (ExpectedHeads(init, clmax, dimension) + ExpectedHeads([last], clmax, dimension));
    }
  }

  /** Every element a setting lists is in the concatenation of all lists. */
  lemma {:induction false} ListedInAll(ss: seq<BLSetting>, i: nat, e: string)
    requires i < |ss|
    ensures e in Listed(ss[i]) ==> e in AllListed(ss)
    decreases |ss|
  {
    if i < |ss| - 1 {
      ListedInAll(ss[..|ss| - 1], i, e);
    }
  }

  /** With no element listed twice overall, no element is in two settings. */
  lemma {:induction false} ListedDisjoint(ss: seq<BLSetting>, i: nat, j: nat, e: string)
    requires i < j < |ss| && NoDuplicates(AllListed(ss))
    ensures e in Listed(ss[j]) ==> e !in Listed(ss[i])
    decreases |ss|
  {
    var init := ss[..|ss| - 1];
    var front := AllListed(init);
    assert AllListed(ss) == front + Listed(ss[|ss| - 1]);
    if j < |ss| - 1 {
      assert NoDuplicates(front) by {
        assert forall a :: 0 <= a < |front| ==> front[a] == AllListed(ss)[a];
      }
      assert ss[i] == init[i] && ss[j] == init[j];
      ListedDisjoint(init, i, j, e);
    } else if e in Listed(ss[j]) {
      var b :| 0 <= b < |Listed(ss[j])| && Listed(ss[j])[b] == e;
      assert AllListed(ss)[|front| + b] == e;
      forall a | 0 <= a < |front|
        ensures front[a] != e
      {
        assert AllListed(ss)[a] == front[a];
      }
      assert ss[i] == init[i];
      ListedInAll(init, i, e);
    }
  }

  /** In 2D/3D no element is in the lists of two settings. */
  lemma SettingsDisjoint(ss: seq<BLSetting>)
    requires NoDuplicates(AllListed(ss))
    ensures forall i, j, e :: 0 <= i < j < |ss| && e in Listed(ss[j]) ==> e !in Listed(ss[i])
  {
    forall i, j, e | 0 <= i < j < |ss| && e in Listed(ss[j])
      ensures e !in Listed(ss[i])
    {
      ListedDisjoint(ss, i, j, e);
    }
  }

  /** The settings, as get_boundary_layer_data leaves them: exactly one per usable layer
      object in list order, with thickness = sum of hwall_n * ratio^i for i < NumberOfLayers,
      hwall_t = thickness and hfar from the strict 0.8x/1.6x window; bl_boundary_list has no
      duplicate and holds exactly the claimed elements; and in 2D/3D the settings list
      exactly the elements of bl_boundary_list, in order. */
  lemma BoundaryLayerDataProperties(part: Part, layers: seq<MeshBoundaryLayer>, clmax: real,
                                    dimension: string, diags: seq<Diag>)
    ensures Heads(BoundaryLayerData(part, layers, clmax, dimension, diags).settings) == ExpectedHeads(layers, clmax, dimension)
    ensures NoDuplicates(BoundaryLayerData(part, layers, clmax, dimension, diags).boundary)
    ensures forall e :: e in BoundaryLayerData(part, layers, clmax, dimension, diags).boundary <==> e in AllLayerClaims(layers)
    ensures (dimension == "2" || dimension == "3") ==>
      AllListed(BoundaryLayerData(part, layers, clmax, dimension, diags).settings) ==
      BoundaryLayerData(part, layers, clmax, dimension, diags).boundary
    ensures |BoundaryLayerData(part, layers, clmax, dimension, diags).diags| >= |diags|
    ensures BoundaryLayerData(part, layers, clmax, dimension, diags).diags[..|diags|] == diags
  {
    if layers == [] {
      assert AllLayerClaims(layers) == [];
      assert ExpectedHeads(layers, clmax, dimension) == [];
    } else {
      var w0 := LayerWalk([], [], diags + CompoundWarning(part));
      var r := WalkLayers(w0, layers, clmax, dimension);
      WalkLayersClaims(w0, layers, clmax, dimension);
      AppendNewProperties([], AllLayerClaims(layers));
      assert r.diags[..|diags|] == r.diags[..|w0.diags|][..|diags|];
      assert AllListed([]) == [];
    }
  }

  /** In 2D/3D the settings' element lists are pairwise disjoint. */
  lemma BoundaryLayerListsDisjoint(part: Part, layers: seq<MeshBoundaryLayer>, clmax: real,
                                   dimension: string, diags: seq<Diag>, i: nat, j: nat, e: string)
    requires dimension == "2" || dimension == "3"
    requires i < j < |BoundaryLayerData(part, layers, clmax, dimension, diags).settings|
    ensures var ss := BoundaryLayerData(part, layers, clmax, dimension, diags).settings;
      e in Listed(ss[j]) ==> e !in Listed(ss[i])
  {
    BoundaryLayerDataProperties(part, layers, clmax, dimension, diags);
    ListedDisjoint(BoundaryLayerData(part, layers, clmax, dimension, diags).settings, i, j, e);
  }

  /** A worked example: hwall_n 0.1, ratio 1.2 and five layers give thickness 0.74416, and
      clmax 1.0 lies in the window, so hfar is 1.0. */
  lemma ThicknessExample()
    ensures Thickness(0.1, 1.2, 5) == 0.74416
    ensures HFar(1.0, 0.74416) == 1.0
  {
    assert Pow(1.2, 1) == 1.2;
    assert Pow(1.2, 2) == 1.44;
    assert Pow(1.2, 3) == 1.728;
    assert Pow(1.2, 4) == 2.0736;
    assert Thickness(0.1, 1.2, 1) == 0.1;
    assert Thickness(0.1, 1.2, 2) == 0.22;
    assert Thickness(0.1, 1.2, 3) == 0.364;
    assert Thickness(0.1, 1.2, 4) == 0.5368;
    assert Thickness(0.1, 1.2, 5) == Thickness(0.1, 1.2, 4) + 0.1 * Pow(1.2, 4);
  }
}
