/** The class FemGmshTools: the state its constructor resolves, the get_* methods that
    collect the references of the mesh objects, and the write_* methods that serialise the
    result into the Gmsh .geo text. Each method is proved against the functions of the
    modules Params, Formats, Regions, BoundaryLayers, Groups and GeoText. */
module GmshTools {
  import opened Options
  import opened Text
  import opened Assoc
  import opened FemObjects
  import opened Diagnostics
  import opened Formats
  import opened Params
  import Regions
  import BoundaryLayers
  import Groups
  import opened GeoText

  /** The .geo file write_geo opens: the strings passed to geo.write, in order. */
  class GeoFile {
    var chunks: seq<string>

    constructor ()
      ensures chunks == []
    {
      chunks := [];
    }

    method Write(s: string)
      modifies this
      ensures chunks == old(chunks) + [s]
    {
      chunks := chunks + [s];
    }
  }

  /** The resolved parameters of the object. */
  datatype Parameters = Parameters(clmax: real, clmin: real, geotol: real, order: string,
                                   dimension: string, algorithm2D: string, algorithm3D: string)

  /** self.order after the constructor: the Gmsh code of a known order name, the name
      itself otherwise. */
  function OrderField(name: string): string {
    match OrderCode(name)
    case Some(code) => code
    case None => name
  }

  /** What the constructor reports: 'Error in order' for an order name it does not know. */
  function OrderReport(name: string): seq<Diag> {
    if OrderCode(name).None? then [UnknownOrder(name)] else []
  }

  /** The constructor resolves the element order to "1" or "2" and reports nothing, or
      keeps an unknown name and reports it. */
  lemma OrderResolution(name: string)
    ensures OrderReport(name) == [] <==> name in {"1st", "2nd"}
    ensures OrderReport(name) == [] ==> OrderField(name) in OrderNames && OrderNames[OrderField(name)] == name
    ensures OrderReport(name) != [] ==> OrderField(name) == name && OrderReport(name) == [UnknownOrder(name)]
  {
  }

  class FemGmshTools {
    /** The FemMeshGmsh object to mesh. */
    const meshObj: MeshObject
    /** The table get_analysis_group_elements gives for the analysis; None without one. */
    const analysis: Option<GroupTable>

    var clmax: real
    var clmin: real
    var geotol: real
    var order: string
    var dimension: string
    var algorithm2D: string
    var algorithm3D: string

    var tempFileGeometry: string
    var meshName: string
    var tempFileMesh: string
    var tempFileGeo: string

    var eleLengthMap: Table<real>
    var eleNodeMap: map<string, seq<nat>>
    var blSettingList: seq<BoundaryLayers.BLSetting>
    var blBoundaryList: seq<string>
    var groupElements: GroupTable

    /** The errors and warnings reported so far. */
    var diagnostics: seq<Diag>

    function Params(): Parameters
      reads this
    {
      Parameters(clmax, clmin, geotol, order, dimension, algorithm2D, algorithm3D)
    }

    function Paths(): TmpPaths
      reads this
    {
      TmpPaths(tempFileGeometry, meshName, tempFileMesh, tempFileGeo)
    }

    function RegionMaps(): (Table<real>, map<string, seq<nat>>)
      reads this
    {
      (eleLengthMap, eleNodeMap)
    }

    function LayerLists(): (seq<BoundaryLayers.BLSetting>, seq<string>)
      reads this
    {
      (blSettingList, blBoundaryList)
    }

    /** What write_geo reads from the object, with the Gmsh binary get_gmsh_command found. */
    function GeoView(gmshBin: string): GeoState
      reads this
    {
      GeoState(tempFileGeometry, tempFileMesh, tempFileGeo, gmshBin, eleLengthMap, eleNodeMap,
               blSettingList != [], clmax, clmin, geotol, order, dimension, algorithm2D, algorithm3D,
               meshObj.outputFormat, meshObj.recombineAll, meshObj.optimizeStd, meshObj.optimizeNetgen,
               meshObj.highOrderOptimize, meshObj.coherenceMesh)
    }

    /** __init__: the zero sentinels of the lengths replaced by the defaults, the order and
        the algorithms mapped to Gmsh codes; the 3D code is looked up from the Algorithm2D
        property. The tables the get_* methods fill start empty. */
    constructor (meshObj: MeshObject, analysis: Option<GroupTable>)
      ensures this.meshObj == meshObj && this.analysis == analysis
      ensures Params() == Parameters(ResolveClmax(meshObj.characteristicLengthMax), meshObj.characteristicLengthMin,
                                     ResolveGeotol(meshObj.geometryTolerance), OrderField(meshObj.elementOrder),
                                     meshObj.elementDimension, Algorithm2DCode(meshObj.algorithm2D),
                                     Algorithm3DCode(meshObj.algorithm2D))
      ensures diagnostics == OrderReport(meshObj.elementOrder)
      ensures Paths() == TmpPaths("", "", "", "")
      ensures RegionMaps() == ([], map[]) && LayerLists() == ([], []) && groupElements == []
    {
      this.meshObj := meshObj;
      this.analysis := analysis;
      var clmax := meshObj.characteristicLengthMax;
      if clmax == 0.0 {
        clmax := ClmaxDefault;
      }
      var geotol := meshObj.geometryTolerance;
      if geotol == 0.0 {
        geotol := GeotolDefault;
      }
      var order := meshObj.elementOrder;
      var diagnostics := [];
      if order == "1st" {
        order := "1";
      } else if order == "2nd" {
        order := "2";
      } else {
        diagnostics := diagnostics + [UnknownOrder(order)];
      }
      this.clmax, this.clmin, this.geotol, this.order := clmax, meshObj.characteristicLengthMin, geotol, order;
      this.dimension := meshObj.elementDimension;
      this.algorithm2D := Algorithm2DCode(meshObj.algorithm2D);
      this.algorithm3D := Algorithm3DCode(meshObj.algorithm2D);
      this.diagnostics := diagnostics;
      tempFileGeometry, meshName, tempFileMesh, tempFileGeo := "", "", "", "";
      eleLengthMap, eleNodeMap := [], map[];
      blSettingList, blBoundaryList := [], [];
      groupElements := [];
    }

    /** get_dimension: rewrites self.dimension in place from the requested dimension or,
        for "From Shape", from the type of the shape to mesh. */
    method GetDimension()
      modifies this
      ensures var r := ResolveDimension(old(dimension), meshObj.part.shapeType);
        dimension == r.dim && diagnostics == old(diagnostics) + r.diags
      ensures Params() == old(Params()).(dimension := dimension)
      ensures Paths() == old(Paths()) && RegionMaps() == old(RegionMaps())
      ensures LayerLists() == old(LayerLists()) && groupElements == old(groupElements)
    {
      if dimension == "From Shape" {
        var shty := meshObj.part.shapeType;
        if shty == "Solid" || shty == "CompSolid" {
          dimension := "3";
        } else if shty == "Face" || shty == "Shell" {
          dimension := "2";
        } else if shty == "Edge" || shty == "Wire" {
          dimension := "1";
        } else if shty == "Vertex" {
          diagnostics := diagnostics + [VertexNotMeshable];
          dimension := "0";
        } else if shty == "Compound" {
          diagnostics := diagnostics + [CompoundUsesDimension3];
          dimension := "3";
        } else {
          dimension := "0";
          diagnostics := diagnostics + [UnknownShapeType];
        }
      } else if dimension == "3D" {
        dimension := "3";
      } else if dimension == "2D" {
        dimension := "2";
      } else if dimension == "1D" {
        dimension := "1";
      } else {
        diagnostics := diagnostics + [UnknownDimension];
      }
    }

    /** get_tmp_file_paths, with platform.system() and tempfile.gettempdir() as parameters. */
    method GetTmpFilePaths(system: string, tmpdir: string)
      modifies this
      ensures Paths() == TmpFilePaths(system, tmpdir, meshObj.part.name, meshObj.outputFormat)
      ensures Params() == old(Params()) && RegionMaps() == old(RegionMaps())
      ensures LayerLists() == old(LayerLists()) && groupElements == old(groupElements)
      ensures diagnostics == old(diagnostics)
    {
      var pathSep;
      if system == "Linux" {
        pathSep := "/";
      } else if system == "Windows" {
        pathSep := "\\";
      } else {
        pathSep := "/";
      }
      tempFileGeometry := tmpdir + pathSep + meshObj.part.name + "_Geometry.brep";
      meshName := meshObj.part.name + "_Mesh_TmpGmsh";
      var suffix := Suffix(meshObj.outputFormat);
      tempFileMesh := tmpdir + pathSep + meshName + suffix;
      tempFileGeo := tmpdir + pathSep + "shape2mesh.geo";
    }

    /** get_region_data: ele_length_map filled region by region, reference by reference,
        element by element, first claim winning; then ele_node_map from the vertex lookup. */
    method GetRegionData()
      modifies this
      ensures var w := Regions.RegionData(meshObj.part, meshObj.meshRegionList, old(diagnostics));
        eleLengthMap == w.lengths && diagnostics == w.diags
      ensures eleNodeMap == Regions.NodeMap(eleLengthMap, meshObj.part.vertexesOf)
      ensures Params() == old(Params()) && Paths() == old(Paths())
      ensures LayerLists() == old(LayerLists()) && groupElements == old(groupElements)
    {
      eleLengthMap := [];
      eleNodeMap := map[];
      var regions := meshObj.meshRegionList;
      if regions != [] {
        var part := meshObj.part;
        if part.shapeType == "Compound" && part.proxyType.Some? {
          var ty := part.proxyType.value;
          if ty == "FeatureBooleanFragments" || ty == "FeatureSlice" || ty == "FeatureXOR" {
            diagnostics := diagnostics + [RegionsOnBooleanSplitCompound];
          }
        }
        ghost var w0 := Regions.RegionWalk([], diagnostics);
        assert w0 == Regions.RegionWalk([], old(diagnostics) + Regions.SplitCompoundWarning(part));
        var i := 0;
        while i < |regions|
          invariant 0 <= i <= |regions|
          invariant Regions.RegionWalk(eleLengthMap, diagnostics) == Regions.WalkRegions(w0, regions[..i])
          invariant Params() == old(Params()) && Paths() == old(Paths())
          invariant LayerLists() == old(LayerLists()) && groupElements == old(groupElements)
        {
          var region := regions[i];
          if region.characteristicLength != 0.0 {
            if region.references != [] {
              ClaimRegion(region);
            } else {
              diagnostics := diagnostics + [RegionEmptyReferences(region.name)];
            }
          } else {
            diagnostics := diagnostics + [RegionZeroLength(region.name)];
          }
          assert regions[..i + 1][..i] == regions[..i];
          i := i + 1;
        }
        assert regions[..i] == regions;
        FillNodeMap();
      }
    }

    /** The loop over ele_length_map that fills ele_node_map. */
    method FillNodeMap()
      modifies this
      ensures eleNodeMap == Regions.NodeMap(eleLengthMap, meshObj.part.vertexesOf)
      ensures Params() == old(Params()) && Paths() == old(Paths()) && eleLengthMap == old(eleLengthMap)
      ensures LayerLists() == old(LayerLists()) && groupElements == old(groupElements)
      ensures diagnostics == old(diagnostics)
    {
      eleNodeMap := map[];
      assert eleLengthMap[..0] == [];
      var n := 0;
      while n < |eleLengthMap|
        invariant 0 <= n <= |eleLengthMap|
        invariant eleNodeMap == Regions.NodeMap(eleLengthMap[..n], meshObj.part.vertexesOf)
        invariant Params() == old(Params()) && Paths() == old(Paths()) && eleLengthMap == old(eleLengthMap)
        invariant LayerLists() == old(LayerLists()) && groupElements == old(groupElements)
        invariant diagnostics == old(diagnostics)
      {
        var eleml := eleLengthMap[n].0;
        NodeMapStep(eleLengthMap, n, meshObj.part.vertexesOf);
        eleNodeMap := eleNodeMap[eleml := meshObj.part.vertexesOf(eleml)];
        n := n + 1;
      }
      assert eleLengthMap[..n] == eleLengthMap;
    }

    /** The loops over the references of one used region and over their elements. */
    method ClaimRegion(region: MeshRegion)
      modifies this
      ensures var w := Regions.WalkRegionReferences(Regions.RegionWalk(old(eleLengthMap), old(diagnostics)),
                                                    region, region.references);
        eleLengthMap == w.lengths && diagnostics == w.diags
      ensures Params() == old(Params()) && Paths() == old(Paths()) && eleNodeMap == old(eleNodeMap)
      ensures LayerLists() == old(LayerLists()) && groupElements == old(groupElements)
    {
      ghost var w0 := Regions.RegionWalk(eleLengthMap, diagnostics);
      var refs := region.references;
      var j := 0;
      while j < |refs|
        invariant 0 <= j <= |refs|
        invariant Regions.RegionWalk(eleLengthMap, diagnostics) == Regions.WalkRegionReferences(w0, region, refs[..j])
        invariant Params() == old(Params()) && Paths() == old(Paths()) && eleNodeMap == old(eleNodeMap)
        invariant LayerLists() == old(LayerLists()) && groupElements == old(groupElements)
      {
        var sub := refs[j];
        ghost var wr := Regions.RegionWalk(eleLengthMap, diagnostics);
        var k := 0;
        while k < |sub.elements|
          invariant 0 <= k <= |sub.elements|
          invariant Regions.RegionWalk(eleLengthMap, diagnostics) ==
            Regions.WalkRegionElements(wr, region, sub, sub.elements[..k])
          invariant Params() == old(Params()) && Paths() == old(Paths()) && eleNodeMap == old(eleNodeMap)
          invariant LayerLists() == old(LayerLists()) && groupElements == old(groupElements)
        {
          var el := sub.elements[k];
          var elems := el.name;
          if !sub.sameShape {
            if el.found.Some? && el.found.value != "" {
              elems := el.found.value;
            } else {
              diagnostics := diagnostics + [RegionElementNotFound(region.name)];
            }
          }
          if elems !in Keys(eleLengthMap) {
            eleLengthMap := eleLengthMap + [(elems, region.characteristicLength)];
          } else {
            diagnostics := diagnostics + [RegionElementClaimed(elems, region.name)];
          }
          assert sub.elements[..k + 1][..k] == sub.elements[..k];
          k := k + 1;
        }
        assert sub.elements[..k] == sub.elements;
        assert refs[..j + 1][..j] == refs[..j];
        j := j + 1;
      }
      assert refs[..j] == refs;
    }

    /** get_boundary_layer_data: one setting per usable layer object, its elements claimed
        first-wins against bl_boundary_list. */
    method GetBoundaryLayerData()
      modifies this
      ensures var w := BoundaryLayers.BoundaryLayerData(meshObj.part, meshObj.meshBoundaryLayerList, clmax,
                                                        dimension, old(diagnostics));
        blSettingList == w.settings && blBoundaryList == w.boundary && diagnostics == w.diags
      ensures Params() == old(Params()) && Paths() == old(Paths()) && RegionMaps() == old(RegionMaps())
      ensures groupElements == old(groupElements)
    {
      blSettingList := [];
      blBoundaryList := [];
      var layers := meshObj.meshBoundaryLayerList;
      if layers != [] {
        if meshObj.part.shapeType == "Compound" {
          diagnostics := diagnostics + [LayersOnCompound];
        }
        ghost var w0 := BoundaryLayers.LayerWalk([], [], diagnostics);
        assert w0 == BoundaryLayers.LayerWalk([], [], old(diagnostics) + BoundaryLayers.CompoundWarning(meshObj.part));
        var i := 0;
        while i < |layers|
          invariant 0 <= i <= |layers|
          invariant BoundaryLayers.LayerWalk(blSettingList, blBoundaryList, diagnostics) ==
            BoundaryLayers.WalkLayers(w0, layers[..i], clmax, dimension)
          invariant Params() == old(Params()) && Paths() == old(Paths()) && RegionMaps() == old(RegionMaps())
          invariant groupElements == old(groupElements)
        {
          var layer := layers[i];
          if layer.minimumThickness > 0.0 {
            if layer.references != [] {
              AddLayerSetting(layer);
            } else {
              diagnostics := diagnostics + [LayerEmptyReferences(layer.name)];
            }
          } else {
            diagnostics := diagnostics + [LayerZeroThickness(layer.name)];
          }
          assert layers[..i + 1][..i] == layers[..i];
          i := i + 1;
        }
        assert layers[..i] == layers;
      }
    }

    /** The body of the layer loop for a usable layer object: its elements, then its setting. */
    method AddLayerSetting(layer: MeshBoundaryLayer)
      requires BoundaryLayers.UsableLayer(layer)
      modifies this
      ensures var w := BoundaryLayers.WalkLayer(BoundaryLayers.LayerWalk(old(blSettingList), old(blBoundaryList),
                                                                         old(diagnostics)), layer, clmax, dimension);
        blSettingList == w.settings && blBoundaryList == w.boundary && diagnostics == w.diags
      ensures Params() == old(Params()) && Paths() == old(Paths()) && RegionMaps() == old(RegionMaps())
      ensures groupElements == old(groupElements)
    {
      var belem := ClaimLayerElements(layer);
      var hwallN := layer.minimumThickness;
      var ratio := layer.growthRate;
      var thickness := BoundaryLayers.Thickness(hwallN, ratio, layer.numberOfLayers);
      var hwallT := thickness;
      // sum([]) is the int 0, and hwall_t and hfar are then that int as well
      var emptySum := layer.numberOfLayers <= 0;
      var hfar;
      if clmax > thickness * 0.8 && clmax < thickness * 1.6 {
        hfar := clmax;
      } else {
        hfar := thickness;
      }
      var list: Option<(BoundaryLayers.ListKey, seq<string>)>;
      if dimension == "2" {
        list := Some((BoundaryLayers.EdgesList, belem));
      } else if dimension == "3" {
        list := Some((BoundaryLayers.FacesList, belem));
      } else {
        list := None;
        diagnostics := diagnostics + [LayerDimensionUnsupported];
      }
      blSettingList := blSettingList + [BoundaryLayers.BLSetting(hwallN, ratio, thickness, hwallT, hfar, emptySum, list)];
    }

    /** The loops over the references of a layer object and their elements; belem_list is
        what this layer adds to bl_boundary_list. */
    method ClaimLayerElements(layer: MeshBoundaryLayer) returns (belem: seq<string>)
      modifies this`blBoundaryList, this`diagnostics
      ensures var w := BoundaryLayers.WalkLayerReferences(BoundaryLayers.BoundaryWalk(old(blBoundaryList), [],
                                                                                      old(diagnostics)), layer, layer.references);
        belem == w.belem && blBoundaryList == w.boundary && diagnostics == w.diags
      ensures Params() == old(Params()) && Paths() == old(Paths()) && RegionMaps() == old(RegionMaps())
      ensures groupElements == old(groupElements) && blSettingList == old(blSettingList)
    {
      belem := [];
      ghost var w0 := BoundaryLayers.BoundaryWalk(blBoundaryList, [], diagnostics);
      var refs := layer.references;
      var j := 0;
      while j < |refs|
        invariant 0 <= j <= |refs|
        invariant BoundaryLayers.BoundaryWalk(blBoundaryList, belem, diagnostics) ==
          BoundaryLayers.WalkLayerReferences(w0, layer, refs[..j])
      {
        var sub := refs[j];
        ghost var wr := BoundaryLayers.BoundaryWalk(blBoundaryList, belem, diagnostics);
        var k := 0;
        while k < |sub.elements|
          invariant 0 <= k <= |sub.elements|
          invariant BoundaryLayers.BoundaryWalk(blBoundaryList, belem, diagnostics) ==
            BoundaryLayers.WalkLayerElements(wr, layer, sub, sub.elements[..k])
        {
          var el := sub.elements[k];
          var elems := el.name;
          if !sub.sameShape {
            if el.found.Some? && el.found.value != "" {
              elems := el.found.value;
            } else {
              diagnostics := diagnostics + [LayerElementNotFound(layer.name)];
            }
          }
          if elems !in blBoundaryList {
            belem := belem + [elems];
            blBoundaryList := blBoundaryList + [elems];
          } else {
            diagnostics := diagnostics + [LayerElementClaimed(elems, layer.name)];
          }
          assert sub.elements[..k + 1][..k] == sub.elements[..k];
          k := k + 1;
        }
        assert sub.elements[..k] == sub.elements;
        assert refs[..j + 1][..j] == refs[..j];
        j := j + 1;
      }
      assert refs[..j] == refs;
    }

    /** get_group_data: the tables of the mesh group objects, then the analysis table,
        entered into group_elements first-wins. */
    method GetGroupData()
      modifies this
      ensures var w := Groups.GroupData(meshObj.meshGroupList, analysis, old(diagnostics));
        groupElements == w.groups && diagnostics == w.diags
      ensures Params() == old(Params()) && Paths() == old(Paths()) && RegionMaps() == old(RegionMaps())
      ensures LayerLists() == old(LayerLists())
    {
      groupElements := [];
      ghost var w0 := Groups.GroupWalk([], diagnostics);
      var tables := meshObj.meshGroupList;
      var i := 0;
      while i < |tables|
        invariant 0 <= i <= |tables|
        invariant Groups.GroupWalk(groupElements, diagnostics) == Groups.AddMeshGroups(w0, tables[..i])
        invariant Params() == old(Params()) && Paths() == old(Paths()) && RegionMaps() == old(RegionMaps())
        invariant LayerLists() == old(LayerLists())
      {
        AddGroups(tables[i]);
        assert tables[..i + 1][..i] == tables[..i];
        i := i + 1;
      }
      assert tables[..i] == tables;
      if analysis.Some? {
        AddGroups(analysis.value);
      }
    }

    /** The loop `for ge in new_group_elements` over one looked-up table. */
    method AddGroups(t: GroupTable)
      modifies this
      ensures var w := Groups.AddGroups(Groups.GroupWalk(old(groupElements), old(diagnostics)), t);
        groupElements == w.groups && diagnostics == w.diags
      ensures Params() == old(Params()) && Paths() == old(Paths()) && RegionMaps() == old(RegionMaps())
      ensures LayerLists() == old(LayerLists())
    {
      ghost var w0 := Groups.GroupWalk(groupElements, diagnostics);
      var j := 0;
      while j < |t|
        invariant 0 <= j <= |t|
        invariant Groups.GroupWalk(groupElements, diagnostics) == Groups.AddGroups(w0, t[..j])
        invariant Params() == old(Params()) && Paths() == old(Paths()) && RegionMaps() == old(RegionMaps())
        invariant LayerLists() == old(LayerLists())
      {
        var (ge, elements) := t[j];
        if ge !in Keys(groupElements) {
          groupElements := groupElements + [(ge, elements)];
        } else {
          diagnostics := diagnostics + [GroupNameExists];
        }
        assert t[..j + 1][..j] == t[..j];
        j := j + 1;
      }
      assert t[..j] == t;
    }

    /** write_group: one declaration per group, the "Interior" fallback when no group is a
        domain, and the node-group options for UNV output with an analysis; it reports the
        subdomain and boundary warnings. */
    method WriteGroup(geo: GeoFile)
      requires NonEmptyGroups(groupElements)
      modifies geo, this`diagnostics
      ensures geo.chunks == old(geo.chunks) + GroupChunks(groupElements, dimension, analysis.Some?, meshObj.outputFormat)
      ensures diagnostics == old(diagnostics) + GroupReports(groupElements, dimension)
    {
      var groups := groupElements;
      var domains, boundaries := WriteGroupBody(geo, groups, dimension);
      ghost var body := geo.chunks;
      if domains != 0 {
        diagnostics := diagnostics + [SubdomainWarning];
      }
      if boundaries == 0 {
        diagnostics := diagnostics + [BoundaryWarning];
      }
      var unv := analysis.Some? && meshObj.outputFormat == IDeasUniversal;
      if unv {
        WriteUnvGroupOptions(geo);
      }
      assert geo.chunks == body + UnvPart(analysis.Some?, meshObj.outputFormat);
      GroupChunksSplit(groups, dimension, analysis.Some?, meshObj.outputFormat);
      AppendFour(old(geo.chunks), GroupsOpening(groups), Fallback(groups, dimension), ["\n\n"],
                 UnvPart(analysis.Some?, meshObj.outputFormat));
    }

    /** write_boundary_layer: the settings as Field[1], Field[2], ... blocks. */
    method WriteBoundaryLayer(geo: GeoFile, fmt: real -> string)
      modifies geo
      ensures geo.chunks == old(geo.chunks) + BoundaryLayerChunks(blSettingList, fmt)
    {
      if |blSettingList| != 0 {
        geo.Write(BoundaryLayerOpen);
        WriteBlocks(geo, blSettingList, fmt);
        geo.Write("\n");
        AppendAssoc(old(geo.chunks), [BoundaryLayerOpen], Blocks(blSettingList, fmt));
      } else {
        geo.Write(NoLayerSettings);
      }
    }

    /** write_geo: opens the .geo file and writes it section by section; gmshBin is the
        binary get_gmsh_command found. */
    method WriteGeo(scaling: bool, unitSchema: int, gmshBin: string, fmt: real -> string) returns (geo: GeoFile)
      requires NodesCover(eleLengthMap, eleNodeMap)
      requires NonEmptyGroups(groupElements)
      modifies this`diagnostics
      ensures fresh(geo)
      ensures geo.chunks == GeoChunks(old(GeoView(gmshBin)), scaling, unitSchema, fmt,
                                      GroupChunks(groupElements, dimension, analysis.Some?, meshObj.outputFormat),
                                      BoundaryLayerChunks(blSettingList, fmt))
      ensures diagnostics == old(diagnostics) + GroupReports(groupElements, dimension)
    {
      var st := GeoView(gmshBin);
      geo := new GeoFile();
      WriteHeader(geo, st);
      ghost var header := geo.chunks;
      WriteScaling(geo, scaling, unitSchema);
      ghost var scalingPart := geo.chunks;
      WriteLengthMap(geo, st, fmt);
      ghost var lengthPart := geo.chunks;
      WriteGroup(geo);
      ghost var groupPart := geo.chunks;
      WriteBoundaryLayer(geo, fmt);
      ghost var middle := geo.chunks;
      WriteOptions(geo, st, fmt);
      WriteClosing(geo, st, fmt);
      ghost var g := GroupChunks(groupElements, dimension, analysis.Some?, meshObj.outputFormat);
      ghost var b := BoundaryLayerChunks(blSettingList, fmt);
      assert header == HeaderLines(st);
      AppendFour(header, ScalingLines(scaling, unitSchema), LengthSection(st, fmt), g, b);
      assert middle == HeaderLines(st) + MiddleLines(st, scaling, unitSchema, fmt, g, b);
    }
  }

  /** The opening comment and the Merge of the BREP file. */
  method WriteHeader(geo: GeoFile, st: GeoState)
    modifies geo
    ensures geo.chunks == old(geo.chunks) + HeaderLines(st)
  {
    geo.Write(GeoBanner);
    geo.Write("\n");
    geo.Write("// open brep geometry\n");
    geo.Write("Merge \"" + st.geometryFile + "\";\n");
    geo.Write("\n");
  }

  /** The factor from millimetres to metres, written only when scaling is asked for and
      the unit schema is 0. */
  method WriteScaling(geo: GeoFile, scaling: bool, unitSchema: int)
    modifies geo
    ensures geo.chunks == old(geo.chunks) + ScalingLines(scaling, unitSchema)
  {
    if scaling {
      var unitShema := unitSchema;
      if unitShema == 0 {
        geo.Write(ScalingComment);
        geo.Write("Mesh.ScalingFactor=0.001;\n");
      }
    }
  }

  /** The Characteristic Length lines of ele_length_map, Gmsh vertex numbers from 1. */
  method WriteLengthMap(geo: GeoFile, st: GeoState, fmt: real -> string)
    requires NodesCover(st.lengths, st.nodes)
    modifies geo
    ensures geo.chunks == old(geo.chunks) + LengthSection(st, fmt)
  {
    var lengths := st.lengths;
    if lengths != [] {
      geo.Write(LengthMapComment);
      WriteLengths(geo, lengths, st.nodes, fmt);
      geo.Write("\n");
    }
  }

  /** The loop of write_geo over ele_length_map. */
  method WriteLengths(geo: GeoFile, lengths: Table<real>, nodes: map<string, seq<nat>>, fmt: real -> string)
    requires NodesCover(lengths, nodes)
    modifies geo
    ensures geo.chunks == old(geo.chunks) + LengthLines(lengths, nodes, fmt)
  {
    var n := 0;
    LengthLinesPrefix(lengths, nodes, fmt, 0);
    while n < |lengths|
      invariant 0 <= n <= |lengths|
      invariant NodesCover(lengths[..n], nodes)
      invariant geo.chunks == old(geo.chunks) + LengthLines(lengths[..n], nodes, fmt)
    {
      WriteLength(geo, lengths[n].0, lengths[n].1, nodes[lengths[n].0], fmt);
      LengthLinesPrefix(lengths, nodes, fmt, n);
      AppendAssoc(old(geo.chunks), LengthLines(lengths[..n], nodes, fmt),
                ["// " + lengths[n].0 + "\n", LengthLine(lengths[n].0, lengths[n].1, nodes[lengths[n].0], fmt)]);
      n := n + 1;
    }
    assert lengths[..n] == lengths;
  }

  /** The two lines of one element of ele_length_map. */
  method WriteLength(geo: GeoFile, e: string, len: real, nodes: seq<nat>, fmt: real -> string)
    modifies geo
    ensures geo.chunks == old(geo.chunks) + ["// " + e + "\n", LengthLine(e, len, nodes, fmt)]
  {
    var eleNodes := JoinIds(Numerals(NodeIds(nodes)));
    geo.Write("// " + e + "\n");
    geo.Write("Characteristic Length { " + eleNodes + " } = " + fmt(len) + ";\n");
  }

  /** write_group up to the node-group options: the declarations, the "Interior"
      fallback when no group is a domain, and the domains and boundaries counters. */
  method WriteGroupBody(geo: GeoFile, groups: GroupTable, dimension: string) returns (domains: nat, boundaries: nat)
    requires NonEmptyGroups(groups)
    modifies geo
    ensures geo.chunks == old(geo.chunks) + GroupsOpening(groups) + Fallback(groups, dimension) + ["\n\n"]
    ensures domains == Domains(groups, dimension) && boundaries == Boundaries(groups, dimension)
  {
    boundaries := 0;
    domains := 0;
    if groups != [] {
      geo.Write("// group data \n");
      domains, boundaries := WriteGroupDecls(geo, groups, dimension);
      AppendAssoc(old(geo.chunks), ["// group data \n"], GroupDecls(groups));
    }
    assert geo.chunks == old(geo.chunks) + GroupsOpening(groups);
    if domains == 0 {
      WriteInterior(geo, dimension);
    }
    geo.Write("\n\n");
  }

  /** The loop over group_elements in write_group, with the domains and boundaries
      counters it keeps. */
  method WriteGroupDecls(geo: GeoFile, groups: GroupTable, dimension: string) returns (domains: nat, boundaries: nat)
    requires NonEmptyGroups(groups)
    modifies geo
    ensures geo.chunks == old(geo.chunks) + GroupDecls(groups)
    ensures domains == Domains(groups, dimension) && boundaries == Boundaries(groups, dimension)
  {
    domains := 0;
    boundaries := 0;
    var i := 0;
    while i < |groups|
      invariant 0 <= i <= |groups|
      invariant NonEmptyGroups(groups[..i])
      invariant geo.chunks == old(geo.chunks) + GroupDecls(groups[..i])
      invariant domains == Domains(groups[..i], dimension) && boundaries == Boundaries(groups[..i], dimension)
    {
      GroupStep(groups, i, dimension);
      var domain, boundary := WriteGroupDecl(geo, groups[i].0, groups[i].1, dimension);
      domains := domains + domain;
      boundaries := boundaries + boundary;
      i := i + 1;
    }
    assert groups[..i] == groups;
  }

  /** The body of that loop for one group: the declaration or comment it writes, and
      whether it counts the group as a domain or a boundary. */
  method WriteGroupDecl(geo: GeoFile, group: string, gdata: seq<string>, dimension: string)
    returns (domain: nat, boundary: nat)
    requires gdata != []
    modifies geo
    ensures geo.chunks == old(geo.chunks) + GroupDecl(group, gdata)
    ensures var k := KindOf(gdata[0]);
      && domain == (if k.Physical? && IsDomain(k.p, dimension) then 1 else 0)
      && boundary == (if k.Physical? && IsBoundary(k.p, dimension) then 1 else 0)
  {
    domain := 0;
    boundary := 0;
    var eleNr := "";
    var physicalType := Volume;
    if StartsWith(gdata[0], "Solid") {
      physicalType := Volume;
      eleNr := StripNumbers(gdata, "Solid");
      if dimension == "3" {
        domain := 1;
      }
    } else if StartsWith(gdata[0], "Face") {
      physicalType := Surface;
      eleNr := StripNumbers(gdata, "Face");
      if dimension == "2" {
        domain := 1;
      }
      if dimension == "3" {
        boundary := 1;
      }
    } else if StartsWith(gdata[0], "Edge") {
      physicalType := Line;
      eleNr := StripNumbers(gdata, "Edge");
      if dimension == "2" {
        boundary := 1;
      }
    } else if StartsWith(gdata[0], "Vertex") {
      geo.Write("// " + group + VertexGroupNote);
    }
    if eleNr != "" {
      eleNr := RStrip(eleNr, SepChars);
      geo.Write(DeclLine(physicalType, group, eleNr));
    }
  }

  /** The default domain of write_group, for a mesh with no domain group. */
  method WriteInterior(geo: GeoFile, dimension: string)
    modifies geo
    ensures geo.chunks == old(geo.chunks) + InteriorLines(dimension)
  {
    if dimension == "3" {
      geo.Write("Physical Volume(\"Interior\") = {1};\n");
    }
    if dimension == "2" {
      geo.Write("Physical Surface(\"Interior\") = {1};\n");
    }
  }

  /** The node-group options written for UNV output of a mesh with an analysis. */
  method WriteUnvGroupOptions(geo: GeoFile)
    modifies geo
    ensures geo.chunks == old(geo.chunks) + UnvGroupLines
  {
    geo.Write(UnvNodesNote);
    geo.Write("Mesh.SaveGroupsOfNodes = 1;\n");
    geo.Write(UnvMaterialNote);
    geo.Write(UnvSaveAllNote);
    geo.Write("Mesh.SaveAll = 1;\n");
    geo.Write("\n\n");
  }

  /** The loop of write_boundary_layer over the settings, field numbers from 1. */
  method WriteBlocks(geo: GeoFile, ss: seq<BoundaryLayers.BLSetting>, fmt: real -> string)
    modifies geo
    ensures geo.chunks == old(geo.chunks) + Blocks(ss, fmt)
  {
    var fieldNumber := 1;
    var i := 0;
    while i < |ss|
      invariant 0 <= i <= |ss| && fieldNumber == i + 1
      invariant geo.chunks == old(geo.chunks) + Blocks(ss[..i], fmt)
    {
      ghost var before := geo.chunks;
      WriteBlock(geo, ss[i], fieldNumber, fmt);
      BlocksStep(ss, i, fmt);
      AppendAssoc(old(geo.chunks), Blocks(ss[..i], fmt), Block(ss[i], i + 1, fmt));
      fieldNumber := fieldNumber + 1;
      i := i + 1;
    }
    assert ss[..i] == ss;
  }

  /** The block of one setting in write_boundary_layer, as Field[n]. */
  method WriteBlock(geo: GeoFile, item: BoundaryLayers.BLSetting, fieldNumber: nat, fmt: real -> string)
    modifies geo
    ensures geo.chunks == old(geo.chunks) + Block(item, fieldNumber, fmt)
  {
    var prefix := "Field[" + NatToString(fieldNumber) + "]";
    geo.Write(prefix + " = BoundaryLayer;\n");
    ghost var head := geo.chunks;
    WriteEntries(geo, prefix, BoundaryLayers.Entries(item), fmt);
    geo.Write("BoundaryLayer Field = " + NatToString(fieldNumber) + ";\n");
    geo.Write(BlockEnd);
  }

  /** The characteristic length, recombination, optimisation, order and algorithm options. */
  method WriteOptions(geo: GeoFile, st: GeoState, fmt: real -> string)
    modifies geo
    ensures geo.chunks == old(geo.chunks) + OptionLines(st, fmt)
  {
    WriteLengthOptions(geo, st, fmt);
    WriteRecombine(geo, st);
    WriteOptimize(geo, st);
    WriteAlgorithms(geo, st);
    AppendFour(old(geo.chunks), LengthOptionLines(st, fmt), RecombineLines(st), OptimizeLines(st), AlgorithmLines(st));
  }

  method WriteLengthOptions(geo: GeoFile, st: GeoState, fmt: real -> string)
    modifies geo
    ensures geo.chunks == old(geo.chunks) + LengthOptionLines(st, fmt)
  {
    geo.Write("// Characteristic Length\n");
    geo.Write("// min, max Characteristic Length\n");
    geo.Write("Mesh.CharacteristicLengthMax = " + fmt(st.clmax) + ";\n");
    if st.hasSettings {
      // str(0) is "0"
      geo.Write("Mesh.CharacteristicLengthMin = 0;\n");
    } else {
      geo.Write("Mesh.CharacteristicLengthMin = " + fmt(st.clmin) + ";\n");
    }
    geo.Write("\n");
  }

  method WriteRecombine(geo: GeoFile, st: GeoState)
    modifies geo
    ensures geo.chunks == old(geo.chunks) + RecombineLines(st)
  {
    if st.recombineAll {
      geo.Write("// other mesh options\n");
      geo.Write("Mesh.RecombineAll = 1;\n");
      geo.Write("\n");
    }
  }

  /** The three optimiser switches and the element order. */
  method WriteOptimize(geo: GeoFile, st: GeoState)
    modifies geo
    ensures geo.chunks == old(geo.chunks) + OptimizeLines(st)
  {
    geo.Write("// optimize the mesh\n");
    geo.Write(OptimizeLine(st.optimizeStd));
    geo.Write(NetgenLine(st.optimizeNetgen));
    geo.Write(HighOrderLine(st.highOrderOptimize));
    geo.Write("\n");
    geo.Write("// mesh order\n");
    geo.Write("Mesh.ElementOrder = " + st.order + ";\n");
    geo.Write("\n");
  }

  method WriteAlgorithms(geo: GeoFile, st: GeoState)
    modifies geo
    ensures geo.chunks == old(geo.chunks) + AlgorithmLines(st)
  {
    geo.Write(AlgorithmComment);
    geo.Write(Algorithm2DLegendLine);
    // the DelQuad override tests `self.dimension == 3`, see EqualsIntThree
    geo.Write(if st.hasSettings && EqualsIntThree(st.dimension) then "Mesh.Algorithm = DelQuad;\n"
              else "Mesh.Algorithm = " + st.algorithm2D + ";\n");
    geo.Write(Algorithm3DLegendLine);
    geo.Write("Mesh.Algorithm3D = " + st.algorithm3D + ";\n");
    geo.Write("\n");
    geo.Write("// meshing\n");
  }

  /** The meshing lines, the output format and the Save, and the footer comments. */
  method WriteClosing(geo: GeoFile, st: GeoState, fmt: real -> string)
    modifies geo
    ensures geo.chunks == old(geo.chunks) + ClosingLines(st, fmt)
  {
    WriteMeshing(geo, st, fmt);
    ghost var meshing := geo.chunks;
    WriteOutput(geo, st);
    ghost var output := geo.chunks;
    WriteFooter(geo, st);
  }

  method WriteMeshing(geo: GeoFile, st: GeoState, fmt: real -> string)
    modifies geo
    ensures geo.chunks == old(geo.chunks) + MeshingLines(st, fmt)
  {
    if st.coherenceMesh {
      geo.Write("Geometry.Tolerance = " + fmt(st.geotol) + ToleranceComment);
      geo.Write("Mesh  " + st.dimension + ";\n");
      geo.Write(CoherenceLine);
    } else {
      geo.Write("Mesh  " + st.dimension + ";\n");
    }
  }

  method WriteOutput(geo: GeoFile, st: GeoState)
    modifies geo
    ensures geo.chunks == old(geo.chunks) + OutputLines(st)
  {
    geo.Write("\n");
    geo.Write(FormatLegendLine);
    geo.Write("Mesh.Format = " + NatToString(Code(st.format)) + ";\n");
    geo.Write("Save \"" + st.meshFile + "\";\n");
    geo.Write("\n\n");
  }

  method WriteFooter(geo: GeoFile, st: GeoState)
    modifies geo
    ensures geo.chunks == old(geo.chunks) + FooterLines(st)
  {
    geo.Write(FooterRule);
    geo.Write("// GMSH documentation:\n");
    geo.Write(FooterDocLink);
    geo.Write("//\n");
    geo.Write(FooterNoCheck);
    geo.Write("//\n");
    geo.Write("// to see full GMSH log, run in bash:\n");
    geo.Write("// " + st.gmshBin + " - " + st.geoFile + "\n");
    geo.Write("//\n");
    geo.Write(FooterGuiHint);
    geo.Write("// " + st.gmshBin + " " + st.geoFile + "\n");
  }

  /** The loop `for ele in gdata: ele_nr += ele.lstrip(word) + ', '` of write_group. */
  method StripNumbers(gdata: seq<string>, word: string) returns (eleNr: string)
    ensures eleNr == Terminated(StrippedIds(gdata, word))
  {
    eleNr := "";
    var m := 0;
    while m < |gdata|
      invariant 0 <= m <= |gdata|
      invariant eleNr == Terminated(StrippedIds(gdata[..m], word))
    {
      assert StrippedIds(gdata[..m + 1], word)[..m] == StrippedIds(gdata[..m], word);
      eleNr := eleNr + LStrip(gdata[m], CharsOf(word)) + ", ";
      m := m + 1;
    }
    assert gdata[..m] == gdata;
  }

  /** The loop over the entries of one setting dict in write_boundary_layer; the keys
      EdgesList and FacesList, and only they, hold element lists. */
  method WriteEntries(geo: GeoFile, prefix: string, es: seq<(string, BoundaryLayers.SettingValue)>, fmt: real -> string)
    requires forall i :: 0 <= i < |es| ==> (es[i].0 in BoundaryLayers.ListKeyNames <==> es[i].1.Elements?)
    modifies geo
    ensures geo.chunks == old(geo.chunks) + EntryLines(prefix, es, fmt)
  {
    var j := 0;
    while j < |es|
      invariant 0 <= j <= |es|
      invariant geo.chunks == old(geo.chunks) + EntryLines(prefix, es[..j], fmt)
    {
      var (k, v) := es[j];
      if k in BoundaryLayers.ListKeyNames {
        var eleNodes := JoinIds(Slices4(v.names));
        geo.Write(prefix + "." + k + " = {" + eleNodes + " };\n");
      } else if v.Scalar? {
        geo.Write(prefix + "." + k + " = " + fmt(v.x) + ";\n");
      } else {
        geo.Write(prefix + "." + k + " = " + NatToString(v.n) + ";\n");
      }
      assert es[..j + 1][..j] == es[..j];
      j := j + 1;
    }
    assert es[..j] == es;
  }

  /** One more element of ele_length_map gives ele_node_map one more entry. */
  lemma NodeMapStep(lengths: Table<real>, n: nat, vertexesOf: string -> seq<nat>)
    requires n < |lengths|
    ensures Regions.NodeMap(lengths[..n + 1], vertexesOf) ==
      Regions.NodeMap(lengths[..n], vertexesOf)[lengths[n].0 := vertexesOf(lengths[n].0)]
  {
    assert Keys(lengths[..n + 1]) == Keys(lengths[..n]) + [lengths[n].0];
  }
}
