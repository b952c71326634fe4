/** The FreeCAD document objects FemGmshTools reads, as values. Every host lookup the
    class performs (Shape.isSame, FemMeshTools.find_element_in_shape,
    FemMeshTools.get_vertexes_by_element, FemMeshTools.get_mesh_group_elements,
    FemMeshTools.get_analysis_group_elements, Units.Quantity(...).Value) appears here as
    its result. */
module FemObjects {
  import opened Options
  import opened Assoc
  import Formats

  /** The part to mesh: its Name, its Shape.ShapeType, the Proxy.Type when the object has a
      Proxy, and the 0-based vertex indices get_vertexes_by_element gives for an element name. */
  datatype Part = Part(name: string, shapeType: string, proxyType: Option<string>,
                       vertexesOf: string -> seq<nat>)

  /** One element name of a reference, with what find_element_in_shape returns for it on the
      shape to mesh (None when it finds nothing; an empty name also tests false). */
  datatype RefElement = RefElement(name: string, found: Option<string>)

  /** One entry (object, [element names]) of a References list; sameShape is the result of
      part.Shape.isSame(object.Shape). */
  datatype Reference = Reference(sameShape: bool, elements: seq<RefElement>)

  /** A MeshRegion object. */
  datatype MeshRegion = MeshRegion(name: string, characteristicLength: real, references: seq<Reference>)

  /** A MeshBoundaryLayer object. */
  datatype MeshBoundaryLayer = MeshBoundaryLayer(name: string, minimumThickness: real, growthRate: real,
                                                 numberOfLayers: int, references: seq<Reference>)

  /** Group name -> element names, in insertion order (the dicts the group lookups return). */
  type GroupTable = Table<seq<string>>

  /** The FemMeshGmsh object. meshGroupList holds, per MeshGroup object, the table
      get_mesh_group_elements returns for it; an optional flag that the object lacks reads
      as false. */
  datatype MeshObject = MeshObject(
    part: Part,
    characteristicLengthMax: real,
    characteristicLengthMin: real,
    geometryTolerance: real,
    elementOrder: string,
    elementDimension: string,
    algorithm2D: string,
    algorithm3D: string,
    outputFormat: Formats.OutputFormat,
    meshRegionList: seq<MeshRegion>,
    meshBoundaryLayerList: seq<MeshBoundaryLayer>,
    meshGroupList: seq<GroupTable>,
    recombineAll: bool,
    optimizeStd: bool,
    optimizeNetgen: bool,
    highOrderOptimize: bool,
    coherenceMesh: bool)
}

/** The messages FemGmshTools reports (Console.PrintError, PrintLog and its error and
    warning prints), in the order it reports them. */
module Diagnostics {
  datatype Diag =
    | UnknownOrder(order: string)                      // 'Error in order'
    | VertexNotMeshable                                // "You can not mesh a Vertex."
    | CompoundUsesDimension3                           // the log line for a Compound
    | UnknownShapeType                                 // "Could not retrive Dimension from shape type"
    | UnknownDimension                                 // 'Error in dimension'
    | RegionsOnBooleanSplitCompound                    // mesh regions on a boolean split Compound
    | RegionElementNotFound(region: string)            // "... could not be found ... It will be ignored."
    | RegionElementClaimed(element: string, region: string)
    | RegionEmptyReferences(region: string)
    | RegionZeroLength(region: string)
    | LayersOnCompound                                 // boundary layers on any Compound
    | LayerElementNotFound(layer: string)
    | LayerElementClaimed(element: string, layer: string)
    | LayerDimensionUnsupported                        // "boundary layer is only supported for 2D and 3D mesh"
    | LayerEmptyReferences(layer: string)
    | LayerZeroThickness(layer: string)
    | GroupNameExists                                  // "A group with this name exists already."
    | SubdomainWarning                                 // "Warning: no subdomain group data are written ..."
    | BoundaryWarning                                  // "Warning: no boundary group data are written ..."
}
