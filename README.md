# FemGmshTools translation layer, modelled in Dafny

This project models the deterministic core of FreeCAD's Gmsh driver, the class
`FemGmshTools` in `src/Mod/Fem/FemGmshTools.py`. The class reads a FemMeshGmsh document
object and translates it, through a series of methods, into the text of a Gmsh input
(`.geo`) file:

- the constructor resolves the mesh parameters: the zero sentinels of `clmax` and
  `geotol`, the element order, and the 2D and 3D algorithm codes;
- `get_dimension` resolves the mesh dimension;
- `get_tmp_file_paths` names the temporary files;
- `get_region_data`, `get_boundary_layer_data` and `get_group_data` walk the mesh region,
  boundary layer and group objects and build first-claim-wins tables;
- `write_group`, `write_boundary_layer` and `write_geo` serialise the resolved state, line
  by line, into the `.geo` file.

The model keeps the class's form.

- `GmshTools.FemGmshTools` is a Dafny `class` with the same fields: `clmax`, `dimension`,
  `eleLengthMap`, `blSettingList`, `groupElements` and the others.
- Each method updates those fields with the same loops and branches as the source. Its
  `ensures` ties the new state to a specification function of the old state.
- The specification functions live in the value-level modules `Params`, `Formats`,
  `Regions`, `BoundaryLayers`, `Groups` and `GeoText`. Lemmas there prove what the class
  promises: first claim wins, the thickness series, consecutive field numbering and the
  "Interior" fallback. The order of the `.geo` sections is the definition `GeoText.GeoChunks`,
  which `WriteGeo`'s `ensures` ties to the written file; the lemmas `GeoBeginsWithMerge` and
  `GeoEndsWithSave` state its first and last lines.

Modelling conventions:

- **Dicts.** A Python dict is an association list in insertion order (`Assoc.Table`).
  `if k not in d: d[k] = v` is the generic fold `Assoc.FirstClaims`.
- **Diagnostics.** Every `PrintError` and the error and warning prints are a `Diag` value,
  appended to the field `diagnostics` in the order the source reports them.
- **The `.geo` file.** The open file is a `GeoFile` object. Its `chunks` field holds the
  strings passed to `geo.write`, one element per call.
- **Write methods.** The per-section writers are module-level methods over a `GeoState`
  snapshot of the object. `write_geo` takes that snapshot once. `write_group` may change
  only `diagnostics` among the object's fields (a field-granular `modifies this`diagnostics`).
- **Host lookups.** `Shape.isSame`, `find_element_in_shape`, `get_vertexes_by_element`,
  `get_mesh_group_elements`, `get_analysis_group_elements` and `Units.Quantity(...).Value`
  appear as their results, stored in the input datatypes of `FemObjects`. A found element
  name is tested for truth as in the source, so an empty name counts as not found
  (`Regions.Found`).
- **Number formatting.** `str()` of a float is an abstract parameter `fmt: real -> string`.
  `str()` of an int is exact (`Text.NatToString`, with a proved reader).
- **String methods.** `lstrip(chars)` and `rstrip(chars)` use Python's character-set
  semantics (`Text.LStrip`, `Text.RStrip`).

The source's quirks are modelled as written:

- The 3D algorithm code is looked up from the `Algorithm2D` property.
- `self.dimension == 3` compares a string with an int, so the DelQuad override never
  applies (`GeoText.EqualsIntThree`).
- An element that is not found on the shape to mesh is still entered after the "It will be
  ignored" message.
- In a dimension other than 2 or 3, a boundary layer setting is appended without an element
  list.
- The Salome suffix is `med`, without a dot.
- The subdomain warning is printed when domains WERE found.

## Model

| member | source | states |
|---|---|---|
| Params.ResolveClmax | src/Mod/Fem/FemGmshTools.py:56-59 | clmax 0.0 becomes 1e+22; any other value is kept; the result is never 0 |
| Params.ResolveGeotol | src/Mod/Fem/FemGmshTools.py:64-67 | geotol 0.0 becomes 1e-08; any other value is kept; the result is never 0 |
| Params.OrderCode | src/Mod/Fem/FemGmshTools.py:69-77 | an order name has a code exactly when it is '1st' or '2nd', and the code maps back to that name |
| GmshTools.OrderResolution | src/Mod/Fem/FemGmshTools.py:69-77 | '1st'/'2nd' resolve silently to '1'/'2'; any other name is kept and reported once as 'Error in order' |
| Params.Algorithm2DCode | src/Mod/Fem/FemGmshTools.py:82-98 | a 2D name of the legend gets the code the legend gives it; any other name gets the Automatic code '2' |
| Params.Algorithm3DCode | src/Mod/Fem/FemGmshTools.py:100-120 | a 3D name of the legend gets its legend code; 'Automatic' and unknown names get '1' |
| Params.Algorithm3DFromAlgorithm2DName | src/Mod/Fem/FemGmshTools.py:102-120 | because the 3D code is read from Algorithm2D, every 2D choice gives 3D code '1' except Frontal, which gives '4' |
| GmshTools.FemGmshTools.constructor | src/Mod/Fem/FemGmshTools.py:44-120 | the resolved parameters are the functions above applied to the mesh object, Algorithm3D taken from Algorithm2D; the only report is the order error; all tables start empty |
| Params.ResolveDimension | src/Mod/Fem/FemGmshTools.py:169-203 | the dimension ends as one of '0'..'3', or stays unchanged with exactly the 'Error in dimension' report; with no report it is '1', '2' or '3' |
| Params.FromShapeDimension | src/Mod/Fem/FemGmshTools.py:174-195 | 'From Shape' gives the shape type's topological dimension 1–3 silently; a Vertex gives '0' with an error, a Compound '3' with a log line, any other type '0' with an error |
| Params.ExplicitDimension | src/Mod/Fem/FemGmshTools.py:196-201 | '3D', '2D' and '1D' give their digit without a report |
| Params.ResolveDimensionTwice | src/Mod/Fem/FemGmshTools.py:169-203 | resolving an already resolved dimension keeps it but reports 'Error in dimension' (the method is not idempotent) |
| GmshTools.FemGmshTools.GetDimension | src/Mod/Fem/FemGmshTools.py:169-204 | self.dimension is rewritten in place to the resolved dimension of the old value and the part's shape type, its reports appended; every other field is unchanged |
| Formats.FromName | src/Mod/Fem/FemGmshTools.py:40-43 | a name that reads back as a format is that format's table key |
| Formats.FromNameOfName | src/Mod/Fem/FemGmshTools.py:40-43 | every format is found under its own key: the two tables share the same nine keys |
| Formats.CodeInjective | src/Mod/Fem/FemGmshTools.py:40-41 | the nine Mesh.Format codes are pairwise distinct, so the code determines the format |
| Formats.SuffixDot | src/Mod/Fem/FemGmshTools.py:42-43 | every suffix starts with a dot except Salome's 'med' |
| Formats.PathSep | src/Mod/Fem/FemGmshTools.py:207-212 | the separator is a backslash on Windows and '/' on every other system |
| Formats.TmpPathsDistinct | src/Mod/Fem/FemGmshTools.py:206-224 | the BREP, mesh and .geo files all lie in tmpdir and are pairwise different for every part name and format |
| GmshTools.FemGmshTools.GetTmpFilePaths | src/Mod/Fem/FemGmshTools.py:206-224 | the four path fields become tmpdir + separator + name parts with the format's suffix; nothing else changes |
| Regions.RegionDataFirstClaimWins | src/Mod/Fem/FemGmshTools.py:259-313 | ele_length_map has each claimed element once; an element's length is that of the first used region, in list order, that claims it; its keys are exactly the claimed elements; earlier reports are kept |
| Regions.RejectedClaimOnlyReports | src/Mod/Fem/FemGmshTools.py:302-305 | claiming an element already in the table leaves the table unchanged and only adds the "added to another mesh region" report |
| Regions.SubstitutedOrKept | src/Mod/Fem/FemGmshTools.py:286-303 | an element of another shape is entered as the element found on the shape to mesh; when none is found (no name, or the empty name, which tests false) the failure is reported and the original name is entered all the same |
| Regions.NodeMapKeys | src/Mod/Fem/FemGmshTools.py:310-313 | ele_node_map has exactly the keys of ele_length_map, each mapped to its vertex indices |
| GmshTools.FemGmshTools.GetRegionData | src/Mod/Fem/FemGmshTools.py:259-315 | after the nested loops, ele_length_map and the reports are those of the region walk from empty tables, and ele_node_map is the node map of ele_length_map; other fields are unchanged |
| GmshTools.FemGmshTools.ClaimRegion | src/Mod/Fem/FemGmshTools.py:283-305 | the reference and element loops of one used region advance ele_length_map and the reports exactly as the walk over its references does |
| GmshTools.FemGmshTools.FillNodeMap | src/Mod/Fem/FemGmshTools.py:310-313 | the loop over ele_length_map leaves ele_node_map equal to the node map, changing nothing else |
| BoundaryLayers.HFar | src/Mod/Fem/FemGmshTools.py:367-371 | hfar is either clmax or the thickness; for a positive thickness it lies strictly between 0.8 and 1.6 times the thickness |
| BoundaryLayers.HFarChoice | src/Mod/Fem/FemGmshTools.py:367-371 | for a positive thickness, hfar equals clmax exactly when clmax lies strictly inside the 0.8·thickness to 1.6·thickness window (or coincides with the thickness) |
| BoundaryLayers.ThicknessUniform | src/Mod/Fem/FemGmshTools.py:364 | with ratio 1 the thickness of n layers is n·hwall_n |
| BoundaryLayers.ThicknessGeometric | src/Mod/Fem/FemGmshTools.py:364 | closed form of the sum: (ratio − 1)·thickness = hwall_n·(ratio^n − 1) |
| BoundaryLayers.ThicknessAtLeastWall | src/Mod/Fem/FemGmshTools.py:364 | with positive hwall_n and ratio and at least one layer, the thickness is at least hwall_n |
| BoundaryLayers.ThicknessExample | src/Mod/Fem/FemGmshTools.py:364-371 | hwall_n 0.1, ratio 1.2 and 5 layers give thickness 0.74416, and clmax 1.0 lies in the window, so hfar is 1.0 |
| BoundaryLayers.Entries | src/Mod/Fem/FemGmshTools.py:361-377 | in a setting dict, exactly the keys EdgesList and FacesList hold element lists; thickness, hwall_t and hfar are the int 0 when there are no layers (an empty sum) |
| GeoText.LayerSumLines | src/Mod/Fem/FemGmshTools.py:361-406 | the thickness, hwall_t and hfar lines of a setting's block read "= 0;" for a layer object with no layers, and carry str() of the float thickness (twice) and hfar otherwise |
| BoundaryLayers.WalkLayersClaims | src/Mod/Fem/FemGmshTools.py:332-380 | over the layer loop, bl_boundary_list gains the new claims in order, the settings match the reference heads, the 2D/3D lists match bl_boundary_list, and the reports only grow |
| BoundaryLayers.BoundaryLayerDataProperties | src/Mod/Fem/FemGmshTools.py:317-385 | one setting per usable layer object, in list order, with thickness the geometric sum, hwall_t = thickness and hfar from the window; bl_boundary_list has no duplicate and holds exactly the claimed elements; in 2D/3D the settings list exactly bl_boundary_list, in order |
| BoundaryLayers.SettingsDisjoint | src/Mod/Fem/FemGmshTools.py:355-360 | when the concatenated lists have no duplicate, no element is listed by two settings |
| BoundaryLayers.BoundaryLayerListsDisjoint | src/Mod/Fem/FemGmshTools.py:355-377 | in 2D/3D the element lists of two different settings are disjoint |
| GmshTools.FemGmshTools.GetBoundaryLayerData | src/Mod/Fem/FemGmshTools.py:317-385 | bl_setting_list, bl_boundary_list and the reports become those of the layer walk from empty lists; other fields are unchanged |
| GmshTools.FemGmshTools.AddLayerSetting | src/Mod/Fem/FemGmshTools.py:334-380 | for a usable layer its elements are claimed and exactly one setting is appended, as the layer walk step prescribes |
| GmshTools.FemGmshTools.ClaimLayerElements | src/Mod/Fem/FemGmshTools.py:335-360 | belem_list is what the layer adds to bl_boundary_list; both, and the reports, follow the walk over the layer's references |
| Assoc.FirstClaimsLookup | src/Mod/Fem/FemGmshTools.py:302-305 | first claim wins: a key's value in the built table is its value in the first entry, old or offered, that has it |
| Assoc.FirstClaimsUnique | src/Mod/Fem/FemGmshTools.py:302-303 | offering claims to a table without repeated keys never repeats a key |
| Assoc.AppendNewProperties | src/Mod/Fem/FemGmshTools.py:355-358 | `if e not in l: l.append(e)` only grows the list at its end, keeps it free of duplicates, and its members are exactly the old ones and the offered ones |
| Groups.AddGroupsClaims | src/Mod/Fem/FemGmshTools.py:431-435 | one looked-up table entered into group_elements takes the first claim of every name, and each rejected entry adds exactly one "exists already" report |
| Groups.GroupDataFirstClaimWins | src/Mod/Fem/FemGmshTools.py:418-447 | group_elements has no name twice; a name's elements are those of its first entry, mesh groups before analysis members; its names are exactly the names offered; the reports grow by one per dropped entry and by nothing else |
| GmshTools.FemGmshTools.GetGroupData | src/Mod/Fem/FemGmshTools.py:418-447 | group_elements and the reports become those of the group walk over the mesh group tables, then the analysis table |
| GmshTools.FemGmshTools.AddGroups | src/Mod/Fem/FemGmshTools.py:431-435 | the loop over one table advances group_elements and the reports exactly as the walk over it does |
| Text.LStrip | src/Mod/Fem/FemGmshTools.py:463 | lstrip(chars) drops the longest prefix whose characters are all in chars and keeps the rest |
| Text.RStrip | src/Mod/Fem/FemGmshTools.py:484 | rstrip(chars) drops the longest suffix whose characters are all in chars and keeps the rest |
| Text.LStripElementName | src/Mod/Fem/FemGmshTools.py:463 | stripping a kind word's characters from that word followed by a number leaves exactly the number's digits |
| Text.NatToStringRoundTrip | src/Mod/Fem/FemGmshTools.py:394 | str() of a natural number reads back as that number |
| Text.JoinIdsIsJoin | src/Mod/Fem/FemGmshTools.py:532 | joining with ', ' after each item and then rstrip(', ') equals ', '.join whenever the last item is a well-formed id |
| GeoText.GroupDeclOfElements | src/Mod/Fem/FemGmshTools.py:456-486 | a group of SolidN, FaceN or EdgeN names is declared as a Physical Volume, Surface or Line whose ids are exactly the numbers N, in order, joined by ', ' |
| GeoText.VertexGroupComment | src/Mod/Fem/FemGmshTools.py:480-481 | a group whose first element is a Vertex is written as the "not supported" comment only |
| GeoText.GroupChunksDomains | src/Mod/Fem/FemGmshTools.py:451-498 | in a 2D or 3D mesh the group text declares exactly as many domains as there are domain groups, or, when there is none, exactly one: the Interior line, which is then the only domain line of the group text |
| GmshTools.FemGmshTools.WriteGroup | src/Mod/Fem/FemGmshTools.py:449-509 | appends exactly the group text of group_elements and reports the subdomain and boundary warnings; no field but diagnostics changes |
| GmshTools.WriteGroupBody | src/Mod/Fem/FemGmshTools.py:451-498 | appends the group opening, the Interior fallback and the blank lines, and returns the domain and boundary counts of the groups |
| GmshTools.WriteGroupDecls | src/Mod/Fem/FemGmshTools.py:453-486 | the loop over the groups appends every group's declaration in order and keeps the two counters equal to the counts of the groups done so far |
| GmshTools.WriteGroupDecl | src/Mod/Fem/FemGmshTools.py:457-486 | one group's declaration or comment is appended, and it counts as a domain or a boundary by the kind of its first element and the dimension |
| GmshTools.StripNumbers | src/Mod/Fem/FemGmshTools.py:462-477 | the loop builds every element name with the kind word's characters stripped, each followed by ', ' |
| GmshTools.WriteInterior | src/Mod/Fem/FemGmshTools.py:489-493 | appends the Interior Physical Volume in 3D, the Interior Physical Surface in 2D, and nothing otherwise |
| GmshTools.WriteUnvGroupOptions | src/Mod/Fem/FemGmshTools.py:500-509 | appends the six UNV node-group option lines |
| GeoText.BoundaryLayerFieldNumbers | src/Mod/Fem/FemGmshTools.py:387-416 | the "BoundaryLayer Field = n;" lines of the boundary layer text are exactly those for n = 1, ..., the number of settings, in order, and none for an empty list |
| GeoText.BlockShape | src/Mod/Fem/FemGmshTools.py:394-409 | block n opens with "Field[n] = BoundaryLayer;", lists the setting's entries in order and then "BoundaryLayer Field = n;" |
| GeoText.ListLineOfElements | src/Mod/Fem/FemGmshTools.py:398-403 | a list of FaceN or EdgeN names is written as the numbers N, in order, joined by ', ' |
| GmshTools.FemGmshTools.WriteBoundaryLayer | src/Mod/Fem/FemGmshTools.py:387-416 | appends the boundary layer text of bl_setting_list: the blocks between the opening comment and a blank line, or the "no boundary layer" comment alone |
| GmshTools.WriteBlocks | src/Mod/Fem/FemGmshTools.py:392-410 | the loop with field_number appends the blocks of the settings, numbered from 1 in list order |
| GmshTools.WriteBlock | src/Mod/Fem/FemGmshTools.py:394-409 | appends the n-th block of one setting |
| GmshTools.WriteEntries | src/Mod/Fem/FemGmshTools.py:396-406 | the loop over a setting's entries appends one line each: list keys as {ids} from el[4:], floats through str() and the int 0 of an empty sum as 0 |
| GeoText.LengthLinesAt | src/Mod/Fem/FemGmshTools.py:528-535 | each element of ele_length_map gives a comment with its name and a Characteristic Length line whose ids are its vertex indices + 1, in order, joined by ', ' |
| GeoText.GeoBeginsWithMerge | src/Mod/Fem/FemGmshTools.py:515-520 | the file opens with the five header lines, the Merge of the BREP file fourth |
| GeoText.GeoOptions | src/Mod/Fem/FemGmshTools.py:542-594 | Clmin is written as 0 whenever a boundary layer setting exists and as clmin otherwise; Clmax, Algorithm = algorithm2D (the third algorithm line is always that one: the DelQuad override never applies), Algorithm3D, ElementOrder and the Optimize flag are written; the Coherence line when asked for |
| GeoText.GeoEndsWithSave | src/Mod/Fem/FemGmshTools.py:589-612 | the "Mesh dim" line is followed by the format code from the table and the Save of the mesh file, and then only the footer comments, whose last line is the GUI command |
| GeoText.FormatLineCode | src/Mod/Fem/FemGmshTools.py:597-598 | the Mesh.Format line carries digits that read back as the format's table code |
| GmshTools.FemGmshTools.WriteGeo | src/Mod/Fem/FemGmshTools.py:514-613 | a fresh file receives, in this order, the header, the scaling, the characteristic lengths, the group text, the boundary layer text, the options and the meshing/save/footer lines of the object's state; the reports gain the group warnings |
| GmshTools.GeoFile.constructor | src/Mod/Fem/FemGmshTools.py:515 | an opened file holds no text |
| GmshTools.GeoFile.Write | src/Mod/Fem/FemGmshTools.py:516 | geo.write appends its argument and changes nothing before it |
| GmshTools.WriteHeader | src/Mod/Fem/FemGmshTools.py:516-520 | appends the five header lines with the Merge of the geometry file |
| GmshTools.WriteScaling | src/Mod/Fem/FemGmshTools.py:522-526 | appends the ScalingFactor 0.001 lines only when scaling is asked for and the unit schema is 0 |
| GmshTools.WriteLengthMap | src/Mod/Fem/FemGmshTools.py:528-535 | appends the characteristic length section, or nothing for an empty ele_length_map |
| GmshTools.WriteLengths | src/Mod/Fem/FemGmshTools.py:531-534 | the loop over ele_length_map appends the two lines of every element in insertion order |
| GmshTools.WriteLength | src/Mod/Fem/FemGmshTools.py:532-534 | appends the comment and the Characteristic Length line of one element |
| GmshTools.WriteOptions | src/Mod/Fem/FemGmshTools.py:542-587 | appends the length, recombine, optimize and algorithm options in this order |
| GmshTools.WriteLengthOptions | src/Mod/Fem/FemGmshTools.py:542-550 | appends Clmax, then Clmin as 0 when a setting exists and as clmin otherwise |
| GmshTools.WriteRecombine | src/Mod/Fem/FemGmshTools.py:552-555 | appends the RecombineAll lines only when RecombineAll is set |
| GmshTools.WriteOptimize | src/Mod/Fem/FemGmshTools.py:556-575 | appends each optimiser switch as 1 when set and 0 otherwise, then the element order |
| GmshTools.WriteAlgorithms | src/Mod/Fem/FemGmshTools.py:577-587 | appends the algorithm legends, Algorithm = algorithm2D (the DelQuad override never applies) and Algorithm3D |
| GmshTools.WriteClosing | src/Mod/Fem/FemGmshTools.py:589-612 | appends the meshing, output and footer lines in this order |
| GmshTools.WriteMeshing | src/Mod/Fem/FemGmshTools.py:589-594 | appends "Mesh dim", surrounded by the tolerance and Coherence lines only when CoherenceMesh is set |
| GmshTools.WriteOutput | src/Mod/Fem/FemGmshTools.py:595-600 | appends the format legend, the Mesh.Format code of the output format and the Save of the mesh file |
| GmshTools.WriteFooter | src/Mod/Fem/FemGmshTools.py:602-612 | appends the documentation comments, ending with the two Gmsh command lines for the .geo file |

## Left out

- `get_gmsh_command` (lines 226–257): it discovers the binary from preferences, from `which` run in a subprocess, and from platform checks, and it can raise. The binary it finds is the parameter `gmshBin` of `WriteGeo`.
- `run_gmsh_with_geo` (615–628), `write_part_file` (511–512) and `read_and_set_new_mesh` (630–638): process execution, BREP export and mesh loading are host I/O.
- `export_mesh` and `create_mesh` (122–167): the orchestration of the steps, the `shutil.move` of the result and the save/restore of `OutputFormat` wrap the modelled methods and are I/O.
- File handling: `open`, `flush` and `close` of the `.geo` file are replaced by the `GeoFile` chunk sequence.
- Console output: the `print` lines are left out. Only the errors and warnings are kept, as `Diag` values.
- Host calls: `Units.Quantity` parsing, `Shape.isSame`, `get_element`, `find_element_in_shape`, `get_vertexes_by_element`, `get_mesh_group_elements` and `get_analysis_group_elements` are foreign calls. Their results are inputs.
- Platform: `platform.system()`, `tempfile.gettempdir()` and the `UserSchema` unit preference are parameters.
- The analysis object is replaced by the group table `get_analysis_group_elements` returns for it.
- Floats: Python float arithmetic is exact `real` arithmetic, and `str(float)` is the abstract `fmt`.
- Dict order: Python 2 dict iteration order is taken to be insertion order. This covers group names, table entries and the keys of a boundary layer setting.
- Output format: `OutputFormat` is an enumeration of the nine table keys. The `KeyError` for a name outside the tables is not reachable; `Formats.FromName` returns None for such a name.
- Missing attributes: an optional flag that the mesh object lacks (`hasattr` false) is read as false.
- GmshTools.FemGmshTools.WriteGroup: requires every group to have at least one element. The source reads `gdata[0]` and raises `IndexError` on an empty group; that failure is not modelled.
- GmshTools.FemGmshTools.WriteGeo: requires the same non-empty groups, and every element of ele_length_map to have an entry in ele_node_map. `get_region_data` always ensures the second (`Regions.NodeMapKeys`); the source would raise `KeyError` otherwise.
- GmshTools.FemGmshTools.WriteGeo: the writers read one snapshot of the object's state taken at the start. Nothing the writers call changes those fields.
