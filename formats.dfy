/** The static output-format tables of FemGmshTools and the temporary file names of a run. */
module Formats {
  import opened Options
  import opened Text

  /** The keys of the class tables supported_mesh_output_formats and output_format_suffix. */
  datatype OutputFormat =
    | GmshMsh | IDeasUniversal | Automatic | StlSurface | InriaMedit
    | Cgns | SalomeMesh | AbaqusInp | PloySurface

  /** The key under which the format appears in both tables (spelling as in the tables). */
  function Name(f: OutputFormat): string {
    match f
    case GmshMsh => "Gmsh MSH"
    case IDeasUniversal => "I-Deas universal"
    case Automatic => "Automatic"
    case StlSurface => "STL surface"
    case InriaMedit => "INRIA medit"
    case Cgns => "CGNS"
    case SalomeMesh => "Salome mesh"
    case AbaqusInp => "Abaqus INP"
    case PloySurface => "Ploy surface"
  }

  /** Reading a format name back; a name outside the tables gives None (a KeyError in the class). */
  function FromName(name: string): (r: Option<OutputFormat>)
    ensures r.Some? ==> Name(r.value) == name
  {
    if name == "Gmsh MSH" then Some(GmshMsh)
    else if name == "I-Deas universal" then Some(IDeasUniversal)
    else if name == "Automatic" then Some(Automatic)
    else if name == "STL surface" then Some(StlSurface)
    else if name == "INRIA medit" then Some(InriaMedit)
    else if name == "CGNS" then Some(Cgns)
    else if name == "Salome mesh" then Some(SalomeMesh)
    else if name == "Abaqus INP" then Some(AbaqusInp)
    else if name == "Ploy surface" then Some(PloySurface)
    else None
  }

  /** supported_mesh_output_formats: the Gmsh Mesh.Format code of a format. */
  function Code(f: OutputFormat): nat {
    match f
    case GmshMsh => 1
    case IDeasUniversal => 2
    case Automatic => 10
    case StlSurface => 27
    case InriaMedit => 30
    case Cgns => 32
    case SalomeMesh => 33
    case AbaqusInp => 39
    case PloySurface => 42
  }

  /** output_format_suffix: the file suffix of a format (the Salome entry has no dot). */
  function Suffix(f: OutputFormat): string {
    match f
    case GmshMsh => ".msh"
    case IDeasUniversal => ".unv"
    case Automatic => ".msh"
    case StlSurface => ".stl"
    case InriaMedit => ".mesh"
    case Cgns => ".cgns"
    case SalomeMesh => "med"
    case AbaqusInp => ".inp"
    case PloySurface => ".ply2"
  }

  /** Every format is found under its own name: the name table has no hole and no clash. */
  lemma FromNameOfName(f: OutputFormat)
    ensures FromName(Name(f)) == Some(f)
  {
  }

  /** The nine format codes are pairwise distinct, so Mesh.Format determines the format. */
  lemma CodeInjective(f: OutputFormat, g: OutputFormat)
    ensures Code(f) == Code(g) <==> f == g
  {
  }

  /** Every suffix but the Salome one starts with a dot. */
  lemma SuffixDot(f: OutputFormat)
    ensures StartsWith(Suffix(f), ".") <==> f != SalomeMesh
  {
    if f == SalomeMesh {
      assert Suffix(f)[..1] == "m";
    }
  }

  /** The path separator chosen from platform.system(). */
  function PathSep(system: string): (sep: string)
    ensures sep == (if system == "Windows" then "\\" else "/")
  {
    if system == "Linux" then "/" else if system == "Windows" then "\\" else "/"
  }

  /** The file names get_tmp_file_paths sets: geometry (BREP) file, mesh name, mesh file and
      Gmsh input (.geo) file. */
  datatype TmpPaths = TmpPaths(geometry: string, meshName: string, mesh: string, geo: string)

  function TmpFilePaths(system: string, tmpdir: string, partName: string, f: OutputFormat): TmpPaths {
    var sep := PathSep(system);
    var meshName := partName + "_Mesh_TmpGmsh";
    TmpPaths(tmpdir + sep + partName + "_Geometry.brep",
             meshName,
             tmpdir + sep + meshName + Suffix(f),
             tmpdir + sep + "shape2mesh.geo")
  }

  lemma DifferentTails(x: string, u: string, y: string, v: string, k: nat)
    requires k < |u| && k < |v| && u[|u| - 1 - k] != v[|v| - 1 - k]
    ensures x + u != y + v
  {
    assert (x + u)[|x + u| - 1 - k] == u[|u| - 1 - k];
    assert (y + v)[|y + v| - 1 - k] == v[|v| - 1 - k];
  }

  /** The BREP file name and a mesh file name differ in their last two characters. */
  lemma BrepNotMesh(x: string, y: string, f: OutputFormat)
    ensures x + "_Geometry.brep" != y + Suffix(f)
  {
    DifferentTails(x, "_Geometry.brep", y, Suffix(f), if f == AbaqusInp then 1 else 0);
  }

  /** No suffix ends in 'o', as "shape2mesh.geo" does. */
  lemma MeshNotGeo(y: string, z: string, f: OutputFormat)
    ensures y + Suffix(f) != z + "shape2mesh.geo"
  {
    DifferentTails(y, Suffix(f), z, "shape2mesh.geo", 0);
  }

  /** The three files of a run are all in tmpdir and pairwise different, whatever the
      part name, so writing one never overwrites another. */
  lemma TmpPathsDistinct(system: string, tmpdir: string, partName: string, f: OutputFormat)
    ensures var p := TmpFilePaths(system, tmpdir, partName, f);
      var dir := tmpdir + PathSep(system);
      StartsWith(p.geometry, dir) && StartsWith(p.mesh, dir) && StartsWith(p.geo, dir) &&
      p.geometry != p.mesh && p.geometry != p.geo && p.mesh != p.geo
  {
    var dir := tmpdir + PathSep(system);
    var meshName := partName + "_Mesh_TmpGmsh";
    StartsWithAppendTwo(dir, partName, "_Geometry.brep");
    StartsWithAppendTwo(dir, meshName, Suffix(f));
    StartsWithAppend(dir, "shape2mesh.geo");
    BrepNotMesh(dir + partName, dir + meshName, f);
    DifferentTails(dir + partName, "_Geometry.brep", dir, "shape2mesh.geo", 0);
    MeshNotGeo(dir + meshName, dir, f);
  }
}
