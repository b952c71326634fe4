/** Parameter resolution of FemGmshTools: the zero sentinels of the lengths, the element
    order, the Gmsh algorithm codes and the mesh dimension. */
module Params {
  import opened Options
  import opened Text
  import opened Diagnostics

  /** Python's 1e+22, used for CharacteristicLengthMax == 0. */
  const ClmaxDefault: real := 10000000000000000000000.0
  /** Python's 1e-08, used for GeometryTolerance == 0. */
  const GeotolDefault: real := 0.00000001

  /** clmax: the value, or 1e+22 for the 0.0 sentinel; never 0 afterwards. */
  function ResolveClmax(v: real): (r: real)
    ensures r != 0.0
    ensures v != 0.0 ==> r == v
    ensures v == 0.0 ==> r == ClmaxDefault
  {
    if v == 0.0 then ClmaxDefault else v
  }

  /** geotol: the value, or 1e-08 for the 0.0 sentinel; never 0 afterwards. */
  function ResolveGeotol(v: real): (r: real)
    ensures r != 0.0
    ensures v != 0.0 ==> r == v
    ensures v == 0.0 ==> r == GeotolDefault
  {
    if v == 0.0 then GeotolDefault else v
  }

  /** The element order names the class knows, keyed by the Gmsh code they map to. */
  const OrderNames: map<string, string> := map["1" := "1st", "2" := "2nd"]

  /** The Gmsh ElementOrder code of an order name; None for a name the class does not know
      (it then prints 'Error in order' and keeps the name). */
  function OrderCode(name: string): (r: Option<string>)
    ensures r.Some? <==> name in OrderNames.Values
    ensures r.Some? ==> r.value in OrderNames && OrderNames[r.value] == name
  {
    assert OrderNames["1"] == "1st" && OrderNames["2"] == "2nd";
    if name == "1st" then Some("1") else if name == "2nd" then Some("2") else None
  }

  /** The 2D algorithm legend the .geo file prints: "1=MeshAdapt, 2=Automatic, 5=Delaunay,
      6=Frontal, 7=BAMG, 8=DelQuad". */
  const Algorithm2DLegend: map<string, string> :=
    map["1" := "MeshAdapt", "2" := "Automatic", "5" := "Delaunay", "6" := "Frontal",
        "7" := "BAMG", "8" := "DelQuad"]

  /** The 3D algorithm legend the .geo file prints: "1=Delaunay, 2=New Delaunay, 4=Frontal,
      5=Frontal Delaunay, 6=Frontal Hex, 7=MMG3D, 9=R-tree". */
  const Algorithm3DLegend: map<string, string> :=
    map["1" := "Delaunay", "2" := "New Delaunay", "4" := "Frontal", "5" := "Frontal Delaunay",
        "6" := "Frontal Hex", "7" := "MMG3D", "9" := "R-tree"]

  /** Mesh.Algorithm code of a 2D algorithm name: the code the legend gives that name, and
      the Automatic code 2 for any name the legend does not list. */
  function Algorithm2DCode(name: string): (code: string)
    ensures code in Algorithm2DLegend
    ensures name in Algorithm2DLegend.Values ==> Algorithm2DLegend[code] == name
    ensures name !in Algorithm2DLegend.Values ==> code == "2"
  {
    if name == "Automatic" then "2"
    else if name == "MeshAdapt" then "1"
    else if name == "Delaunay" then "5"
    else if name == "Frontal" then "6"
    else if name == "BAMG" then "7"
    else if name == "DelQuad" then "8"
    else "2"
  }

  /** Mesh.Algorithm3D code of a 3D algorithm name: the code the legend gives that name, and
      code 1 for "Automatic" and for any name the legend does not list. */
  function Algorithm3DCode(name: string): (code: string)
    ensures code in Algorithm3DLegend
    ensures name in Algorithm3DLegend.Values ==> Algorithm3DLegend[code] == name
    ensures name !in Algorithm3DLegend.Values ==> code == "1"
  {
    if name == "Automatic" then "1"
    else if name == "Delaunay" then "1"
    else if name == "New Delaunay" then "2"
    else if name == "Frontal" then "4"
    else if name == "Frontal Delaunay" then "5"
    else if name == "Frontal Hex" then "6"
    else if name == "MMG3D" then "7"
    else if name == "R-tree" then "9"
    else "1"
  }

  /** The constructor looks the 3D code up from the Algorithm2D property. Of the 2D names
      only Frontal is also a 3D name with a code other than 1, so the 3D code is 4 for Frontal
      and 1 for every other 2D choice. */
  lemma Algorithm3DFromAlgorithm2DName(name: string)
    requires name in Algorithm2DLegend.Values
    ensures Algorithm3DCode(name) == (if name == "Frontal" then "4" else "1")
  {
    assert name in {"MeshAdapt", "Automatic", "Delaunay", "Frontal", "BAMG", "DelQuad"} by {
      var k :| k in Algorithm2DLegend && Algorithm2DLegend[k] == name;
    }
  }

  /** The result of get_dimension: the new value of self.dimension and what it reports. */
  datatype DimensionResult = DimensionResult(dim: string, diags: seq<Diag>)

  /** get_dimension: "From Shape" reads the shape type, "3D"/"2D"/"1D" give the digit, and
      any other value is left as it is with 'Error in dimension'. */
  function ResolveDimension(dimension: string, shapeType: string): (r: DimensionResult)
    ensures r.dim in {"0", "1", "2", "3"} || (r.dim == dimension && r.diags == [UnknownDimension])
    ensures r.diags == [] ==> r.dim in {"1", "2", "3"}
  {
    if dimension == "From Shape" then
      if shapeType == "Solid" || shapeType == "CompSolid" then DimensionResult("3", [])
      else if shapeType == "Face" || shapeType == "Shell" then DimensionResult("2", [])
      else if shapeType == "Edge" || shapeType == "Wire" then DimensionResult("1", [])
      else if shapeType == "Vertex" then DimensionResult("0", [VertexNotMeshable])
      else if shapeType == "Compound" then DimensionResult("3", [CompoundUsesDimension3])
      else DimensionResult("0", [UnknownShapeType])
    else if dimension == "3D" then DimensionResult("3", [])
    else if dimension == "2D" then DimensionResult("2", [])
    else if dimension == "1D" then DimensionResult("1", [])
    else DimensionResult(dimension, [UnknownDimension])
  }

  /** Reference table: the topological dimension of the OCC shape types that have one. */
  function TopologicalDimension(shapeType: string): Option<nat> {
    match shapeType
    case "Solid" => Some(3)
    case "CompSolid" => Some(3)
    case "Shell" => Some(2)
    case "Face" => Some(2)
    case "Wire" => Some(1)
    case "Edge" => Some(1)
    case "Vertex" => Some(0)
    case _ => None
  }

  /** "From Shape" gives the shape's own topological dimension, silently, when it is 1 to
      3; a Vertex gives "0" with an error; a Compound gives "3" with a log line; any other
      type gives "0" with an error. */
  lemma FromShapeDimension(shapeType: string)
    ensures var r := ResolveDimension("From Shape", shapeType);
      match TopologicalDimension(shapeType)
      case Some(d) =>
        if d == 0 then r == DimensionResult("0", [VertexNotMeshable])
        else r == DimensionResult(NatToString(d), [])
      case None =>
        if shapeType == "Compound" then r == DimensionResult("3", [CompoundUsesDimension3])
        else r == DimensionResult("0", [UnknownShapeType])
  {
  }

  /** An explicit "nD" choice gives its digit n without any report. */
  lemma ExplicitDimension(dimension: string, shapeType: string)
    requires dimension in {"1D", "2D", "3D"}
    ensures ResolveDimension(dimension, shapeType) == DimensionResult(dimension[..1], [])
  {
  }

  /** get_dimension is not idempotent in what it reports: resolving an already resolved
      dimension (as a second run on the same object does) keeps the value but reports
      'Error in dimension', whatever the shape. */
  lemma ResolveDimensionTwice(dimension: string, shapeType: string, other: string)
    ensures var first := ResolveDimension(dimension, shapeType);
      ResolveDimension(first.dim, other) == DimensionResult(first.dim, [UnknownDimension])
  {
  }
}
