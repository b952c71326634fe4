/** The Gmsh input (.geo) text the writers produce, as the sequence of strings handed to
    geo.write, one element per call: write_group, write_boundary_layer and write_geo. */
module GeoText {
  import opened Options
  import opened Text
  import opened Assoc
  import opened FemObjects
  import opened Diagnostics
  import opened Formats
  import opened BoundaryLayers

  /** The number of chunks that start with prefix. */
  function CountPrefix(cs: seq<string>, prefix: string): nat
    decreases |cs|
  {
    if cs == [] then 0
    else CountPrefix(cs[..|cs| - 1], prefix) + (if StartsWith(cs[|cs| - 1], prefix) then 1 else 0)
  }

  /** The chunks that start with prefix, in order. */
  function Filter(cs: seq<string>, prefix: string): seq<string>
    decreases |cs|
  {
    if cs == [] then []
    else Filter(cs[..|cs| - 1], prefix) + (if StartsWith(cs[|cs| - 1], prefix) then [cs[|cs| - 1]] else [])
  }

  lemma {:induction false} CountPrefixAppend(a: seq<string>, b: seq<string>, prefix: string)
    ensures CountPrefix(a + b, prefix) == CountPrefix(a, prefix) + CountPrefix(b, prefix)
    decreases |b|
  {
    if b == [] {
      assert a + b == a;
    } else {
      assert (a + b)[..|a + b| - 1] == a + b[..|b| - 1];
      CountPrefixAppend(a, b[..|b| - 1], prefix);
    }
  }

  lemma {:induction false} FilterAppend(a: seq<string>, b: seq<string>, prefix: string)
    ensures Filter(a + b, prefix) == Filter(a, prefix) + Filter(b, prefix)
    decreases |b|
  {
    if b == [] {
      assert a + b == a;
    } else {
      assert (a + b)[..|a + b| - 1] == a + b[..|b| - 1];
      FilterAppend(a, b[..|b| - 1], prefix);
    }
  }

  /** Filter keeps exactly the chunks CountPrefix counts. */
  lemma {:induction false} FilterCount(cs: seq<string>, prefix: string)
    ensures |Filter(cs, prefix)| == CountPrefix(cs, prefix)
    decreases |cs|
  {
    if cs != [] {
      FilterCount(cs[..|cs| - 1], prefix);
    }
  }

  /** Two texts that differ at a position before the end of prefix cannot both start with it. */
  lemma NotStartsWith(s: string, prefix: string, k: nat)
    requires k < |prefix| && k < |s| && s[k] != prefix[k]
    ensures !StartsWith(s, prefix)
  {
    if |prefix| <= |s| {
      assert s[..|prefix|][k] == s[k];
    }
  }

  // ---- write_group

  /** The Physical entity kinds a group can be declared as. */
  datatype PhysicalType = Volume | Surface | Line

  function PhysicalName(p: PhysicalType): string {
    match p
    case Volume => "Volume"
    case Surface => "Surface"
    case Line => "Line"
  }

  /** The element name word of each kind, also the characters stripped off the names. */
  function KindWord(p: PhysicalType): string {
    match p
    case Volume => "Solid"
    case Surface => "Face"
    case Line => "Edge"
  }

  datatype GroupKind = Physical(p: PhysicalType) | VertexGroup | OtherGroup

  /** A group's kind comes from the first of its element names. */
  function KindOf(first: string): GroupKind {
    if StartsWith(first, "Solid") then Physical(Volume)
    else if StartsWith(first, "Face") then Physical(Surface)
    else if StartsWith(first, "Edge") then Physical(Line)
    else if StartsWith(first, "Vertex") then VertexGroup
    else OtherGroup
  }

  /** ele.lstrip(word) for every element of the group. */
  function StrippedIds(elems: seq<string>, word: string): (ids: seq<string>)
    ensures |ids| == |elems| && forall i :: 0 <= i < |elems| ==> ids[i] == LStrip(elems[i], CharsOf(word))
  {
    seq(|elems|, i requires 0 <= i < |elems| => LStrip(elems[i], CharsOf(word)))
  }

  /** Every group has at least one element (the writer reads gdata[0]). */
  predicate NonEmptyGroups(groups: GroupTable) {
    forall i :: 0 <= i < |groups| ==> groups[i].1 != []
  }

  /** The declaration of a group of kind p with the id list ids. */
  function DeclLine(p: PhysicalType, name: string, ids: string): string {
    "Physical " + PhysicalName(p) + "(\"" + name + "\") = {" + ids + "};\n"
  }

  /** The rest of the comment written for a Vertex group, after its name. */
  const VertexGroupNote: string := " group data not written. " + "Vertexes group data not supported.\n"

  /** What write_group writes for one group: a Physical declaration, the comment for a
      Vertex group, or nothing for a group of any other kind. */
  function GroupDecl(name: string, elems: seq<string>): seq<string>
    requires elems != []
  {
    match KindOf(elems[0])
    case Physical(p) =>
      var eleNr := Terminated(StrippedIds(elems, KindWord(p)));
      if eleNr != "" then [DeclLine(p, name, RStrip(eleNr, SepChars))] else []
    case VertexGroup => ["// " + name + VertexGroupNote]
    case OtherGroup => []
  }

  function GroupDecls(groups: GroupTable): seq<string>
    requires NonEmptyGroups(groups)
    decreases |groups|
  {
    if groups == [] then []
    else GroupDecls(groups[..|groups| - 1]) + GroupDecl(groups[|groups| - 1].0, groups[|groups| - 1].1)
  }

  /** A group is a domain of the mesh when its entities have the mesh dimension, a
      boundary when they are one dimension lower. */
  predicate IsDomain(p: PhysicalType, dimension: string) {
    (p == Volume && dimension == "3") || (p == Surface && dimension == "2")
  }

  predicate IsBoundary(p: PhysicalType, dimension: string) {
    (p == Surface && dimension == "3") || (p == Line && dimension == "2")
  }

  /** The domains counter of write_group. */
  function Domains(groups: GroupTable, dimension: string): nat
    requires NonEmptyGroups(groups)
    decreases |groups|
  {
    if groups == [] then 0
    else
      var k := KindOf(groups[|groups| - 1].1[0]);
      Domains(groups[..|groups| - 1], dimension) + (if k.Physical? && IsDomain(k.p, dimension) then 1 else 0)
  }

  /** The boundaries counter of write_group. */
  function Boundaries(groups: GroupTable, dimension: string): nat
    requires NonEmptyGroups(groups)
    decreases |groups|
  {
    if groups == [] then 0
    else
      var k := KindOf(groups[|groups| - 1].1[0]);
      Boundaries(groups[..|groups| - 1], dimension) + (if k.Physical? && IsBoundary(k.p, dimension) then 1 else 0)
  }

  /** The default domain written when no group is a domain. */
  function InteriorLines(dimension: string): seq<string> {
    (if dimension == "3" then ["Physical Volume(\"Interior\") = {1};\n"] else [])
    + (if dimension == "2" then ["Physical Surface(\"Interior\") = {1};\n"] else [])
  }

  /** The node-group options written for UNV output when the mesh has an analysis. */
  const UnvGroupLines: seq<string> := [
    UnvNodesNote, "Mesh.SaveGroupsOfNodes = 1;\n", UnvMaterialNote, UnvSaveAllNote, "Mesh.SaveAll = 1;\n", "\n\n"]

  const UnvNodesNote: string := "// " + "For each group save not only the elements but the nodes too.;\n"
  const UnvMaterialNote: string := "// " + "Needed for Group meshing too, because for one material there is no group defined;\n"
  const UnvSaveAllNote: string := "// " + "Ignore Physical definitions and save all elements, if Mesh.SaveAll = 1;\n"

  /** The chunks write_group writes. */
  function GroupChunks(groups: GroupTable, dimension: string, hasAnalysis: bool, format: OutputFormat): seq<string>
    requires NonEmptyGroups(groups)
  {
    (if groups != [] then ["// group data \n"] + GroupDecls(groups) else [])
    + (if Domains(groups, dimension) == 0 then InteriorLines(dimension) else [])
    + ["\n\n"]
    + (if hasAnalysis && format == IDeasUniversal then UnvGroupLines else [])
  }

  /** The two warnings write_group prints, as written: the subdomain warning appears when
      domains were found, the boundary warning when none was. */
  function GroupReports(groups: GroupTable, dimension: string): seq<Diag>
    requires NonEmptyGroups(groups)
  {
    (if Domains(groups, dimension) != 0 then [SubdomainWarning] else [])
    + (if Boundaries(groups, dimension) == 0 then [BoundaryWarning] else [])
  }

  /** The element names of one kind with the given numbers ("Face3", "Face7", ...). */
  function ElementNames(word: string, ks: seq<nat>): (names: seq<string>)
    ensures |names| == |ks| && forall i :: 0 <= i < |ks| ==> names[i] == ElementName(word, ks[i])
  {
    seq(|ks|, i requires 0 <= i < |ks| => ElementName(word, ks[i]))
  }

  lemma TerminatedNonEmpty(xs: seq<string>)
    requires xs != []
    ensures Terminated(xs) != ""
  {
    assert |Terminated(xs)| >= 2;
  }

  lemma KindOfElementName(p: PhysicalType, k: nat)
    ensures KindOf(ElementName(KindWord(p), k)) == Physical(p)
  {
    var s := ElementName(KindWord(p), k);
    StartsWithAppend(KindWord(p), NatToString(k));
    match p
    case Volume =>
    case Surface =>
      NotStartsWith(s, "Solid", 0);
    case Line =>
      NotStartsWith(s, "Solid", 0);
      NotStartsWith(s, "Face", 0);
  }

  /** A group of "SolidN", "FaceN" or "EdgeN" names is declared as a Physical Volume,
      Surface or Line whose ids are exactly the numbers N, in order, separated by ", ". */
  lemma GroupDeclOfElements(name: string, p: PhysicalType, ks: seq<nat>)
    requires ks != []
    ensures GroupDecl(name, ElementNames(KindWord(p), ks)) ==
      ["Physical " + PhysicalName(p) + "(\"" + name + "\") = {" + Join(Numerals(ks)) + "};\n"]
  {
    var word := KindWord(p);
    var elems := ElementNames(word, ks);
    KindOfElementName(p, ks[0]);
    forall i | 0 <= i < |ks|
      ensures StrippedIds(elems, word)[i] == Numerals(ks)[i]
    {
      LStripElementName(word, ks[i]);
    }
    assert StrippedIds(elems, word) == Numerals(ks);
    TerminatedNonEmpty(Numerals(ks));
    NumeralsJoin(ks);
  }

  /** A Vertex group is written as a comment only. */
  lemma VertexGroupComment(name: string, elems: seq<string>)
    requires elems != [] && StartsWith(elems[0], "Vertex")
    ensures GroupDecl(name, elems) == ["// " + name + VertexGroupNote]
  {
    NotStartsWith(elems[0], "Solid", 0);
    NotStartsWith(elems[0], "Face", 0);
    NotStartsWith(elems[0], "Edge", 0);
  }

  /** The beginning of a declaration of a domain of the mesh dimension. */
  function DomainPrefix(dimension: string): string {
    if dimension == "3" then "Physical Volume(" else "Physical Surface("
  }

  /** A declaration line of kind p starts with the domain prefix exactly when p is a domain
      kind of the dimension. */
  lemma DeclLineDomain(p: PhysicalType, name: string, ids: string, dimension: string)
    requires dimension == "2" || dimension == "3"
    ensures StartsWith(DeclLine(p, name, ids), DomainPrefix(dimension)) <==> IsDomain(p, dimension)
  {
    var head := "Physical " + PhysicalName(p);
    var s := DeclLine(p, name, ids);
    var pre := DomainPrefix(dimension);
    assert s[..|head|] == head;
    assert s[|head|] == '(';
    if IsDomain(p, dimension) {
      assert pre == head + "(";
      assert s[..|pre|] == pre;
    } else {
      assert s[9] == head[9];
      NotStartsWith(s, pre, 9);
    }
  }

  /** The declaration of one group counts as a domain declaration exactly when
      write_group counts the group as a domain. */
  lemma GroupDeclDomainCount(name: string, elems: seq<string>, dimension: string)
    requires elems != [] && (dimension == "2" || dimension == "3")
    ensures var k := KindOf(elems[0]);
      CountPrefix(GroupDecl(name, elems), DomainPrefix(dimension)) ==
      (if k.Physical? && IsDomain(k.p, dimension) then 1 else 0)
  {
    var k := KindOf(elems[0]);
    var d := GroupDecl(name, elems);
    if k.Physical? {
      var p := k.p;
      var ids := StrippedIds(elems, KindWord(p));
      TerminatedNonEmpty(ids);
      DeclLineDomain(p, name, RStrip(Terminated(ids), SepChars), dimension);
      assert d[..0] == [];
    } else if k.VertexGroup? {
      assert d[..0] == [];
      NotStartsWith(d[0], DomainPrefix(dimension), 0);
    } else {
      assert d == [];
    }
  }

  /** No chunk of cs starts with prefix. */
  lemma {:induction false} NoneStartWith(cs: seq<string>, prefix: string)
    requires forall i :: 0 <= i < |cs| ==> !StartsWith(cs[i], prefix)
    ensures CountPrefix(cs, prefix) == 0 && Filter(cs, prefix) == []
    decreases |cs|
  {
    if cs != [] {
      NoneStartWith(cs[..|cs| - 1], prefix);
    }
  }

  lemma {:induction false} GroupDeclsDomainCount(groups: GroupTable, dimension: string)
    requires NonEmptyGroups(groups) && (dimension == "2" || dimension == "3")
    ensures CountPrefix(GroupDecls(groups), DomainPrefix(dimension)) == Domains(groups, dimension)
    decreases |groups|
  {
    if groups != [] {
      var init := groups[..|groups| - 1];
      var last := groups[|groups| - 1];
      assert NonEmptyGroups(init) by {
        assert forall i :: 0 <= i < |init| ==> init[i] == groups[i];
      }
      GroupDeclsDomainCount(init, dimension);
      GroupDeclDomainCount(last.0, last.1, dimension);
      CountPrefixAppend(GroupDecls(init), GroupDecl(last.0, last.1), DomainPrefix(dimension));
    }
  }

  function GroupsOpening(groups: GroupTable): seq<string>
    requires NonEmptyGroups(groups)
  {
    if groups != [] then ["// group data \n"] + GroupDecls(groups) else []
  }

  function Fallback(groups: GroupTable, dimension: string): seq<string>
    requires NonEmptyGroups(groups)
  {
    if Domains(groups, dimension) == 0 then InteriorLines(dimension) else []
  }

  function UnvPart(hasAnalysis: bool, format: OutputFormat): seq<string> {
    if hasAnalysis && format == IDeasUniversal then UnvGroupLines else []
  }

  lemma GroupChunksSplit(groups: GroupTable, dimension: string, hasAnalysis: bool, format: OutputFormat)
    requires NonEmptyGroups(groups)
    ensures GroupChunks(groups, dimension, hasAnalysis, format) ==
      GroupsOpening(groups) + Fallback(groups, dimension) + ["\n\n"] + UnvPart(hasAnalysis, format)
  {
  }

  /** One more group of the table: its declaration and its counts are added at the end. */
  lemma GroupStep(groups: GroupTable, i: nat, dimension: string)
    requires NonEmptyGroups(groups) && i < |groups|
    ensures NonEmptyGroups(groups[..i]) && NonEmptyGroups(groups[..i + 1])
    ensures GroupDecls(groups[..i + 1]) == GroupDecls(groups[..i]) + GroupDecl(groups[i].0, groups[i].1)
    ensures var k := KindOf(groups[i].1[0]);
      && Domains(groups[..i + 1], dimension) ==
         Domains(groups[..i], dimension) + (if k.Physical? && IsDomain(k.p, dimension) then 1 else 0)
      && Boundaries(groups[..i + 1], dimension) ==
         Boundaries(groups[..i], dimension) + (if k.Physical? && IsBoundary(k.p, dimension) then 1 else 0)
  {
    assert groups[..i + 1][..i] == groups[..i];
  }

  lemma OpeningDomainCount(groups: GroupTable, dimension: string)
    requires NonEmptyGroups(groups) && (dimension == "2" || dimension == "3")
    ensures CountPrefix(GroupsOpening(groups), DomainPrefix(dimension)) == Domains(groups, dimension)
  {
    GroupDeclsDomainCount(groups, dimension);
    if groups != [] {
      var pre := DomainPrefix(dimension);
      CountPrefixAppend(["// group data \n"], GroupDecls(groups), pre);
      NotStartsWith("// group data \n", pre, 0);
      NoneStartWith(["// group data \n"], pre);
    }
  }

  lemma FallbackDomainCount(groups: GroupTable, dimension: string)
    requires NonEmptyGroups(groups) && (dimension == "2" || dimension == "3")
    ensures CountPrefix(Fallback(groups, dimension), DomainPrefix(dimension)) ==
      (if Domains(groups, dimension) == 0 then 1 else 0)
    ensures Filter(Fallback(groups, dimension), DomainPrefix(dimension)) ==
      (if Domains(groups, dimension) == 0 then InteriorLines(dimension) else [])
  {
    if Domains(groups, dimension) == 0 {
      if dimension == "3" {
        var line: string := "Physical Volume(\"Interior\") = {1};\n";
        assert line[..16] == "Physical Volume(";
        assert Fallback(groups, dimension) == [line];
        assert [line][..0] == [];
      } else {
        var line: string := "Physical Surface(\"Interior\") = {1};\n";
        assert line[..17] == "Physical Surface(";
        assert Fallback(groups, dimension) == [line];
        assert [line][..0] == [];
      }
    }
  }

  lemma UnvDomainCount(hasAnalysis: bool, format: OutputFormat, dimension: string)
    ensures CountPrefix(UnvPart(hasAnalysis, format), DomainPrefix(dimension)) == 0
    ensures CountPrefix(["\n\n"], DomainPrefix(dimension)) == 0
    ensures Filter(UnvPart(hasAnalysis, format), DomainPrefix(dimension)) == []
    ensures Filter(["\n\n"], DomainPrefix(dimension)) == []
  {
    var pre := DomainPrefix(dimension);
    assert pre[0] == 'P';
    var u := UnvGroupLines;
    assert u[0][0] == '/' && u[1][0] == 'M' && u[2][0] == '/' && u[3][0] == '/' && u[4][0] == 'M' && u[5][0] == '\n';
    forall i | 0 <= i < |u|
      ensures !StartsWith(u[i], pre)
    {
      NotStartsWith(u[i], pre, 0);
    }
    NoneStartWith(UnvGroupLines, pre);
    NotStartsWith("\n\n", pre, 0);
    NoneStartWith(["\n\n"], pre);
  }

  /** With no domain group, the only domain declaration of the group text is the default
      "Interior" domain. */
  lemma GroupChunksInterior(groups: GroupTable, dimension: string, hasAnalysis: bool, format: OutputFormat)
    requires NonEmptyGroups(groups) && (dimension == "2" || dimension == "3")
    requires Domains(groups, dimension) == 0
    ensures Filter(GroupChunks(groups, dimension, hasAnalysis, format), DomainPrefix(dimension)) ==
      InteriorLines(dimension)
  {
    var pre := DomainPrefix(dimension);
    var head := GroupsOpening(groups);
    var fallback := Fallback(groups, dimension);
    var tail := UnvPart(hasAnalysis, format);
    GroupChunksSplit(groups, dimension, hasAnalysis, format);
    FilterAppend(head + fallback + ["\n\n"], tail, pre);
    FilterAppend(head + fallback, ["\n\n"], pre);
    FilterAppend(head, fallback, pre);
    OpeningDomainCount(groups, dimension);
    FilterCount(head, pre);
    FallbackDomainCount(groups, dimension);
    UnvDomainCount(hasAnalysis, format, dimension);
  }

  /** The "Interior" fallback: in a 2D or 3D mesh the group text declares exactly as many
      domains (Physical Volume in 3D, Physical Surface in 2D) as there are domain groups,
      and when there is none exactly one, the default "Interior" domain. */
  lemma GroupChunksDomains(groups: GroupTable, dimension: string, hasAnalysis: bool, format: OutputFormat)
    requires NonEmptyGroups(groups) && (dimension == "2" || dimension == "3")
    ensures CountPrefix(GroupChunks(groups, dimension, hasAnalysis, format), DomainPrefix(dimension)) ==
      (if Domains(groups, dimension) == 0 then 1 else Domains(groups, dimension))
    ensures Domains(groups, dimension) == 0 ==>
      Filter(GroupChunks(groups, dimension, hasAnalysis, format), DomainPrefix(dimension)) == InteriorLines(dimension)
  {
    if Domains(groups, dimension) == 0 {
      GroupChunksInterior(groups, dimension, hasAnalysis, format);
    }
    var pre := DomainPrefix(dimension);
    var head := GroupsOpening(groups);
    var fallback := Fallback(groups, dimension);
    var tail := UnvPart(hasAnalysis, format);
    GroupChunksSplit(groups, dimension, hasAnalysis, format);
    CountPrefixAppend(head + fallback + ["\n\n"], tail, pre);
    CountPrefixAppend(head + fallback, ["\n\n"], pre);
    CountPrefixAppend(head, fallback, pre);
    OpeningDomainCount(groups, dimension);
    FallbackDomainCount(groups, dimension);
    UnvDomainCount(hasAnalysis, format, dimension);
  }

  // ---- write_boundary_layer

  /** str(el[4:]): the element name without its first four characters ("Face", "Edge");
      Python's slice gives "" for a shorter name. */
  function Slice4(el: string): (r: string)
    ensures |el| >= 4 ==> el == el[..4] + r
  {
    if |el| >= 4 then el[4..] else ""
  }

  function Slices4(els: seq<string>): (r: seq<string>)
    ensures |r| == |els| && forall i :: 0 <= i < |els| ==> r[i] == Slice4(els[i])
  {
    seq(|els|, i requires 0 <= i < |els| => Slice4(els[i]))
  }

  /** The name of the n-th field, "Field[n]". */
  function FieldPrefix(n: nat): string {
    "Field[" + NatToString(n) + "]"
  }

  /** The line of one setting entry. The writer tests the key for EdgesList/FacesList; in a
      setting exactly those keys hold element lists (BoundaryLayers.Entries). */
  function EntryLine(prefix: string, entry: (string, SettingValue), fmt: real -> string): string {
    match entry.1
    case Elements(names) => prefix + "." + entry.0 + " = {" + JoinIds(Slices4(names)) + " };\n"
    case Scalar(x) => prefix + "." + entry.0 + " = " + fmt(x) + ";\n"
    case Whole(n) => prefix + "." + entry.0 + " = " + NatToString(n) + ";\n"
  }

  function EntryLines(prefix: string, es: seq<(string, SettingValue)>, fmt: real -> string): seq<string>
    decreases |es|
  {
    if es == [] then [] else EntryLines(prefix, es[..|es| - 1], fmt) + [EntryLine(prefix, es[|es| - 1], fmt)]
  }

  /** The opening line of the n-th field block. */
  function FieldOpen(n: nat): string {
    FieldPrefix(n) + " = BoundaryLayer;\n"
  }

  /** The line that activates the n-th field. */
  function FieldActivation(n: nat): string {
    "BoundaryLayer Field = " + NatToString(n) + ";\n"
  }

  const BlockEnd: string := "// end of this boundary layer setup \n"

  /** The block of the n-th setting. */
  function Block(s: BLSetting, n: nat, fmt: real -> string): seq<string> {
    [FieldOpen(n)] + EntryLines(FieldPrefix(n), Entries(s), fmt) + [FieldActivation(n), BlockEnd]
  }

  /** The blocks of the settings, numbered from 1 in list order. */
  function Blocks(ss: seq<BLSetting>, fmt: real -> string): seq<string>
    decreases |ss|
  {
    if ss == [] then [] else Blocks(ss[..|ss| - 1], fmt) + Block(ss[|ss| - 1], |ss|, fmt)
  }

  /** One more setting: its block, numbered by its position from 1, is added at the end. */
  lemma BlocksStep(ss: seq<BLSetting>, i: nat, fmt: real -> string)
    requires i < |ss|
    ensures Blocks(ss[..i + 1], fmt) == Blocks(ss[..i], fmt) + Block(ss[i], i + 1, fmt)
  {
    assert ss[..i + 1][..i] == ss[..i];
  }

  /** The comment written when there is no boundary layer setting. */
  const NoLayerSettings: string := "// " + "no boundary layer settings for this mesh\n"

  /** The chunks write_boundary_layer writes. */
  const BoundaryLayerOpen: string := "// " + "boundary layer setting\n"

  function BoundaryLayerChunks(ss: seq<BLSetting>, fmt: real -> string): seq<string> {
    if ss == [] then [NoLayerSettings]
    else [BoundaryLayerOpen] + Blocks(ss, fmt) + ["\n"]
  }

  const ActivationPrefix: string := "BoundaryLayer Field = "

  lemma {:induction false} EntryLinesNotActivation(prefix: string, es: seq<(string, SettingValue)>, fmt: real -> string)
    requires StartsWith(prefix, "F")
    ensures Filter(EntryLines(prefix, es, fmt), ActivationPrefix) == []
    decreases |es|
  {
    if es != [] {
      EntryLinesNotActivation(prefix, es[..|es| - 1], fmt);
      var line := EntryLine(prefix, es[|es| - 1], fmt);
      assert line[0] == prefix[0];
      NotStartsWith(line, ActivationPrefix, 0);
    }
  }

  lemma BlockActivation(s: BLSetting, n: nat, fmt: real -> string)
    ensures Filter(Block(s, n, fmt), ActivationPrefix) == [FieldActivation(n)]
  {
    var es := EntryLines(FieldPrefix(n), Entries(s), fmt);
    EntryLinesNotActivation(FieldPrefix(n), Entries(s), fmt);
    FilterAppend([FieldOpen(n)] + es, [FieldActivation(n), BlockEnd], ActivationPrefix);
    FilterAppend([FieldOpen(n)], es, ActivationPrefix);
    assert [FieldOpen(n)][..0] == [];
    NotStartsWith(FieldOpen(n), ActivationPrefix, 0);
    assert [FieldActivation(n), BlockEnd][..1] == [FieldActivation(n)];
    assert [FieldActivation(n)][..0] == [];
    StartsWithAppend(ActivationPrefix, NatToString(n) + ";\n");
    assert FieldActivation(n) == ActivationPrefix + (NatToString(n) + ";\n");
    NotStartsWith(BlockEnd, ActivationPrefix, 0);
  }

  /** The activation lines 1, 2, ..., k for k settings. */
  function Activations(k: nat): (r: seq<string>)
    ensures |r| == k && forall i :: 0 <= i < k ==> r[i] == FieldActivation(i + 1)
  {
    seq(k, i requires 0 <= i < k => FieldActivation(i + 1))
  }

  lemma {:induction false} BlocksActivations(ss: seq<BLSetting>, fmt: real -> string)
    ensures Filter(Blocks(ss, fmt), ActivationPrefix) == Activations(|ss|)
    decreases |ss|
  {
    if ss != [] {
      BlocksActivations(ss[..|ss| - 1], fmt);
      BlockActivation(ss[|ss| - 1], |ss|, fmt);
      FilterAppend(Blocks(ss[..|ss| - 1], fmt), Block(ss[|ss| - 1], |ss|, fmt), ActivationPrefix);
      assert Activations(|ss|) == Activations(|ss| - 1) + [FieldActivation(|ss|)];
    }
  }

  /** Consecutive field numbering: the "BoundaryLayer Field = n;" lines of the boundary
      layer text are exactly those for n = 1, ..., the number of settings, in this order
      (none at all for an empty settings list). */
  lemma BoundaryLayerFieldNumbers(ss: seq<BLSetting>, fmt: real -> string)
    ensures Filter(BoundaryLayerChunks(ss, fmt), ActivationPrefix) == Activations(|ss|)
  {
    var none := NoLayerSettings;
    if ss == [] {
      assert [none][..0] == [];
      NotStartsWith(none, ActivationPrefix, 0);
    } else {
      var open := BoundaryLayerOpen;
      BlocksActivations(ss, fmt);
      FilterAppend([open] + Blocks(ss, fmt), ["\n"], ActivationPrefix);
      FilterAppend([open], Blocks(ss, fmt), ActivationPrefix);
      assert [open][..0] == [];
      NotStartsWith(open, ActivationPrefix, 0);
      assert ["\n"][..0] == [];
      NotStartsWith("\n", ActivationPrefix, 0);
    }
  }

  /** Each block opens with "Field[n] = BoundaryLayer;", lists the setting's entries in
      order, and closes with "BoundaryLayer Field = n;". */
  lemma BlockShape(s: BLSetting, n: nat, fmt: real -> string)
    ensures var b := Block(s, n, fmt);
      |b| == |Entries(s)| + 3 && b[0] == "Field[" + NatToString(n) + "] = BoundaryLayer;\n"
      && b[|b| - 2] == "BoundaryLayer Field = " + NatToString(n) + ";\n"
      && forall i :: 0 <= i < |Entries(s)| ==> b[i + 1] == EntryLine(FieldPrefix(n), Entries(s)[i], fmt)
  {
    EntryLinesAt(FieldPrefix(n), Entries(s), fmt);
  }

  /** The three values derived from the layer sum are written through str(float), except
      for a layer object with no layers: Python's sum([]) is the int 0 there, and the block
      reads "thickness = 0", "hwall_t = 0" and "hfar = 0". */
  lemma LayerSumLines(layer: MeshBoundaryLayer, clmax: real, dimension: string, belem: seq<string>,
                      n: nat, fmt: real -> string)
    ensures var s := MakeSetting(layer, clmax, dimension, belem);
      var b := Block(s, n, fmt);
      var p := FieldPrefix(n);
      var t := if layer.numberOfLayers <= 0 then "0" else fmt(s.thickness);
      var h := if layer.numberOfLayers <= 0 then "0" else fmt(s.hfar);
      && |b| > 5
      && b[3] == p + "." + "thickness" + " = " + t + ";\n"
      && b[4] == p + "." + "hwall_t" + " = " + t + ";\n"
      && b[5] == p + "." + "hfar" + " = " + h + ";\n"
  {
    var s := MakeSetting(layer, clmax, dimension, belem);
    var p := FieldPrefix(n);
    BlockShape(s, n, fmt);
    var es := Entries(s);
    SumEntryLine(p, es[2], s.thickness, s.emptySum, fmt);
    SumEntryLine(p, es[3], s.thickness, s.emptySum, fmt);
    SumEntryLine(p, es[4], s.hfar, s.emptySum, fmt);
  }

  lemma SumEntryLine(p: string, entry: (string, SettingValue), x: real, emptySum: bool, fmt: real -> string)
    requires entry.1 == SumValue(x, emptySum)
    ensures EntryLine(p, entry, fmt) == p + "." + entry.0 + " = " + (if emptySum then "0" else fmt(x)) + ";\n"
  {
    if emptySum {
      assert NatToString(0) == "0";
    }
  }

  lemma {:induction false} EntryLinesAt(prefix: string, es: seq<(string, SettingValue)>, fmt: real -> string)
    ensures |EntryLines(prefix, es, fmt)| == |es|
    ensures forall i :: 0 <= i < |es| ==> EntryLines(prefix, es, fmt)[i] == EntryLine(prefix, es[i], fmt)
    decreases |es|
  {
    if es != [] {
      EntryLinesAt(prefix, es[..|es| - 1], fmt);
    }
  }

  /** A list of "FaceN" or "EdgeN" names is written as the numbers N, in order, separated
      by ", ": el[4:] strips exactly the four-letter word. */
  lemma ListLineOfElements(prefix: string, key: string, word: string, ks: seq<nat>, fmt: real -> string)
    requires word == "Face" || word == "Edge"
    ensures EntryLine(prefix, (key, Elements(ElementNames(word, ks))), fmt) ==
      prefix + "." + key + " = {" + Join(Numerals(ks)) + " };\n"
  {
    var names := ElementNames(word, ks);
    forall i | 0 <= i < |ks|
      ensures Slices4(names)[i] == Numerals(ks)[i]
    {
      assert names[i] == word + NatToString(ks[i]);
      assert names[i][4..] == NatToString(ks[i]);
    }
    assert Slices4(names) == Numerals(ks);
    NumeralsJoin(ks);
  }

  // ---- write_geo

  // The fixed comment texts of the .geo file, named so that proofs need not unfold them.
  const GeoBanner: string := "// geo file for meshing with GMSH meshing software created by FreeCAD\n"
  const ScalingComment: string := "// length scale from current FreeCAD length unit to MKS unit (meter)\n"
  const LengthMapComment: string := "// Characteristic Length according CharacteristicLengthMap\n"
  const ToleranceComment: string := "; // set gemetrical tolerance (also used for merging nodes)\n"
  const CoherenceLine: string := "Coherence Mesh; // Remove duplicate vertices\n"
  const HighOrderComment: string := ";  // for more HighOrderOptimize parameter check http://gmsh.info/doc/texinfo/gmsh.html\n"
  const AlgorithmComment: string := "// mesh algorithm, only a few algorithms are usable with 3D boundary layer generation\n"
  const Algorithm2DLegendLine: string := "// 2D mesh algorithm (1=MeshAdapt, 2=Automatic, 5=Delaunay, 6=Frontal, 7=BAMG, 8=DelQuad)\n"
  const Algorithm3DLegendLine: string := "// 3D mesh algorithm (1=Delaunay, 2=New Delaunay, 4=Frontal, 5=Frontal Delaunay, 6=Frontal Hex, 7=MMG3D, 9=R-tree)\n"
  const FormatLegendLine: string := "// output format 1=msh, 2=unv, 10=automatic, 27=stl, 32=cgns, 33=med, 39=inp, 40=ply2\n"
  const FooterRule: string := "//////////////////////////////////////////////////////////////////////\n"
  const FooterDocLink: string := "// http://gmsh.info/doc/texinfo/gmsh.html#Mesh\n"
  const FooterNoCheck: string := "// We do not check if something went wrong, like negative jacobians etc. You can run GMSH manually yourself: \n"
  const FooterGuiHint: string := "// to run GMSH and keep file in GMSH GUI (with log), run in bash:\n"

  /** ''.join(str(n + 1) + ', ' for n in nodes).rstrip(', '): Gmsh numbers vertices from 1. */
  function NodeIds(nodes: seq<nat>): (r: seq<nat>)
    ensures |r| == |nodes| && forall i :: 0 <= i < |nodes| ==> r[i] == nodes[i] + 1
  {
    seq(|nodes|, i requires 0 <= i < |nodes| => nodes[i] + 1)
  }

  /** Every element of the length table has an entry in the node table. */
  predicate NodesCover(lengths: Table<real>, nodes: map<string, seq<nat>>) {
    forall i :: 0 <= i < |lengths| ==> lengths[i].0 in nodes
  }

  function LengthLine(e: string, len: real, nodes: seq<nat>, fmt: real -> string): string {
    "Characteristic Length { " + JoinIds(Numerals(NodeIds(nodes))) + " } = " + fmt(len) + ";\n"
  }

  /** The two lines of every element of ele_length_map, in insertion order. */
  function LengthLines(lengths: Table<real>, nodes: map<string, seq<nat>>, fmt: real -> string): seq<string>
    requires NodesCover(lengths, nodes)
    decreases |lengths|
  {
    if lengths == [] then []
    else
      var (e, len) := lengths[|lengths| - 1];
      LengthLines(lengths[..|lengths| - 1], nodes, fmt) + ["// " + e + "\n", LengthLine(e, len, nodes[e], fmt)]
  }

  /** One more element of the length table gives its two lines at the end. */
  lemma LengthLinesPrefix(lengths: Table<real>, nodes: map<string, seq<nat>>, fmt: real -> string, n: nat)
    requires NodesCover(lengths, nodes) && n <= |lengths|
    ensures NodesCover(lengths[..n], nodes)
    ensures n < |lengths| ==>
      && NodesCover(lengths[..n + 1], nodes)
      && LengthLines(lengths[..n + 1], nodes, fmt) == LengthLines(lengths[..n], nodes, fmt) +
         ["// " + lengths[n].0 + "\n", LengthLine(lengths[n].0, lengths[n].1, nodes[lengths[n].0], fmt)]
  {
    if n < |lengths| {
      assert lengths[..n + 1][..n] == lengths[..n];
    }
  }

  /** Python's `self.dimension == 3`: a str compared with an int, which is never equal. */
  function EqualsIntThree(dimension: string): bool {
    false
  }

  /** What write_geo reads from the object. */
  datatype GeoState = GeoState(
    geometryFile: string, meshFile: string, geoFile: string, gmshBin: string,
    lengths: Table<real>, nodes: map<string, seq<nat>>, hasSettings: bool,
    clmax: real, clmin: real, geotol: real, order: string, dimension: string,
    algorithm2D: string, algorithm3D: string, format: OutputFormat,
    recombineAll: bool, optimizeStd: bool, optimizeNetgen: bool, highOrderOptimize: bool,
    coherenceMesh: bool)

  function HeaderLines(st: GeoState): (r: seq<string>)
    ensures |r| == 5 && r[3] == "Merge \"" + st.geometryFile + "\";\n"
  {
    [GeoBanner, "\n",
     "// open brep geometry\n", "Merge \"" + st.geometryFile + "\";\n", "\n"]
  }

  /** Written only when scaling is asked for and the unit schema is 0 (mm). */
  function ScalingLines(scaling: bool, unitSchema: int): seq<string> {
    if scaling && unitSchema == 0
    then [ScalingComment, "Mesh.ScalingFactor=0.001;\n"]
    else []
  }

  function LengthSection(st: GeoState, fmt: real -> string): seq<string>
    requires NodesCover(st.lengths, st.nodes)
  {
    if st.lengths != []
    then [LengthMapComment] + LengthLines(st.lengths, st.nodes, fmt) + ["\n"]
    else []
  }

  function ClminLine(st: GeoState, fmt: real -> string): string {
    if st.hasSettings then "Mesh.CharacteristicLengthMin = 0;\n"
    else "Mesh.CharacteristicLengthMin = " + fmt(st.clmin) + ";\n"
  }

  /** The three optimiser switches, each written as 1 when set and 0 otherwise. */
  function OptimizeLine(on: bool): string {
    if on then "Mesh.Optimize = 1;\n" else "Mesh.Optimize = 0;\n"
  }

  function NetgenLine(on: bool): string {
    if on then "Mesh.OptimizeNetgen = 1;\n" else "Mesh.OptimizeNetgen = 0;\n"
  }

  function HighOrderLine(on: bool): string {
    if on then "Mesh.HighOrderOptimize = 1" + HighOrderComment else "Mesh.HighOrderOptimize = 0" + HighOrderComment
  }

  function AlgorithmLine(st: GeoState): string {
    if st.hasSettings && EqualsIntThree(st.dimension) then "Mesh.Algorithm = DelQuad;\n"
    else "Mesh.Algorithm = " + st.algorithm2D + ";\n"
  }

  function MeshLine(st: GeoState): string {
    "Mesh  " + st.dimension + ";\n"
  }

  function MeshingLines(st: GeoState, fmt: real -> string): (r: seq<string>)
    ensures |r| == if st.coherenceMesh then 3 else 1
    ensures r[|r| - 1 - (if st.coherenceMesh then 1 else 0)] == MeshLine(st)
  {
    if st.coherenceMesh
    then ["Geometry.Tolerance = " + fmt(st.geotol) + ToleranceComment,
          MeshLine(st), CoherenceLine]
    else [MeshLine(st)]
  }

  function FormatLine(st: GeoState): string {
    "Mesh.Format = " + NatToString(Code(st.format)) + ";\n"
  }

  function SaveLine(st: GeoState): string {
    "Save \"" + st.meshFile + "\";\n"
  }

  /** The characteristic length options. */
  function LengthOptionLines(st: GeoState, fmt: real -> string): (r: seq<string>)
    ensures |r| == 5
  {
    ["// Characteristic Length\n", "// min, max Characteristic Length\n",
     "Mesh.CharacteristicLengthMax = " + fmt(st.clmax) + ";\n", ClminLine(st, fmt), "\n"]
  }

  function RecombineLines(st: GeoState): (r: seq<string>)
    ensures |r| == if st.recombineAll then 3 else 0
  {
    if st.recombineAll then ["// other mesh options\n", "Mesh.RecombineAll = 1;\n", "\n"] else []
  }

  function OptimizeLines(st: GeoState): (r: seq<string>)
    ensures |r| == 8
  {
    ["// optimize the mesh\n",
     OptimizeLine(st.optimizeStd), NetgenLine(st.optimizeNetgen), HighOrderLine(st.highOrderOptimize),
     "\n",
     "// mesh order\n", "Mesh.ElementOrder = " + st.order + ";\n", "\n"]
  }

  function AlgorithmLines(st: GeoState): (r: seq<string>)
    ensures |r| == 7
  {
    [AlgorithmComment,
     Algorithm2DLegendLine,
     AlgorithmLine(st),
     Algorithm3DLegendLine,
     "Mesh.Algorithm3D = " + st.algorithm3D + ";\n", "\n",
     "// meshing\n"]
  }

  function OutputLines(st: GeoState): (r: seq<string>)
    ensures |r| == 5 && r[2] == FormatLine(st) && r[3] == SaveLine(st)
  {
    ["\n",
     FormatLegendLine,
     FormatLine(st), SaveLine(st), "\n\n"]
  }

  function FooterLines(st: GeoState): (r: seq<string>)
    ensures |r| == 11 && r[10] == "// " + st.gmshBin + " " + st.geoFile + "\n"
  {
    [FooterRule,
     "// GMSH documentation:\n",
     FooterDocLink,
     "//\n",
     FooterNoCheck,
     "//\n",
     "// to see full GMSH log, run in bash:\n",
     "// " + st.gmshBin + " - " + st.geoFile + "\n",
     "//\n",
     FooterGuiHint,
     "// " + st.gmshBin + " " + st.geoFile + "\n"]
  }

  /** The options write_geo writes after the boundary layer part, up to the meshing lines. */
  function OptionLines(st: GeoState, fmt: real -> string): seq<string> {
    LengthOptionLines(st, fmt) + RecombineLines(st) + OptimizeLines(st) + AlgorithmLines(st)
  }

  /** The meshing lines, the output format and the Save, then the footer comments. */
  function ClosingLines(st: GeoState, fmt: real -> string): (r: seq<string>)
    ensures |r| == 16 + |MeshingLines(st, fmt)|
    ensures r[..|MeshingLines(st, fmt)|] == MeshingLines(st, fmt)
    ensures r[|r| - 14] == FormatLine(st) && r[|r| - 13] == SaveLine(st)
    ensures r[|r| - 1] == "// " + st.gmshBin + " " + st.geoFile + "\n"
  {
    MeshingLines(st, fmt) + OutputLines(st) + FooterLines(st)
  }

  /** What write_geo writes between the header and the options: the scaling lines, the
      characteristic lengths, then what write_group and write_boundary_layer write. */
  function MiddleLines(st: GeoState, scaling: bool, unitSchema: int, fmt: real -> string,
                       groupPart: seq<string>, blPart: seq<string>): seq<string>
    requires NodesCover(st.lengths, st.nodes)
  {
    ScalingLines(scaling, unitSchema) + LengthSection(st, fmt) + groupPart + blPart
  }

  /** The whole .geo text write_geo writes, given what write_group and write_boundary_layer
      write in its middle. */
  function GeoChunks(st: GeoState, scaling: bool, unitSchema: int, fmt: real -> string,
                     groupPart: seq<string>, blPart: seq<string>): seq<string>
    requires NodesCover(st.lengths, st.nodes)
  {
    HeaderLines(st) + MiddleLines(st, scaling, unitSchema, fmt, groupPart, blPart) + OptionLines(st, fmt)
    + ClosingLines(st, fmt)
  }

  /** Appending four parts one after the other appends their concatenation. */
  lemma AppendFour(t: seq<string>, a: seq<string>, b: seq<string>, c: seq<string>, d: seq<string>)
    ensures t + a + b + c + d == t + (a + b + c + d)
  {
  }

  /** The head and the tail of a text made of four parts. */
  lemma FourParts(h: seq<string>, m: seq<string>, o: seq<string>, c: seq<string>)
    ensures var t := h + m + o + c;
      && |t| == |h| + |m| + |o| + |c| && t[..|h|] == h
      && forall i :: 0 <= i < |c| ==> t[|t| - |c| + i] == c[i]
  {
  }

  /** Each element of ele_length_map gives a comment with its name and a
      "Characteristic Length { ids } = length;" line whose ids are its vertex indices plus
      one, separated by ", ". */
  lemma {:induction false} LengthLinesAt(lengths: Table<real>, nodes: map<string, seq<nat>>, fmt: real -> string, i: nat)
    requires NodesCover(lengths, nodes) && i < |lengths|
    ensures |LengthLines(lengths, nodes, fmt)| == 2 * |lengths|
    ensures LengthLines(lengths, nodes, fmt)[2 * i] == "// " + lengths[i].0 + "\n"
    ensures LengthLines(lengths, nodes, fmt)[2 * i + 1] ==
      "Characteristic Length { " + Join(Numerals(NodeIds(nodes[lengths[i].0]))) + " } = " + fmt(lengths[i].1) + ";\n"
    decreases |lengths|
  {
    var init := lengths[..|lengths| - 1];
    assert NodesCover(init, nodes) by {
      assert forall j :: 0 <= j < |init| ==> init[j] == lengths[j];
    }
    if i < |lengths| - 1 {
      LengthLinesAt(init, nodes, fmt, i);
      assert init[i] == lengths[i];
    } else {
      if init != [] {
        LengthLinesAt(init, nodes, fmt, 0);
      }
      NumeralsJoin(NodeIds(nodes[lengths[i].0]));
    }
  }

  /** The file opens with the Merge of the BREP geometry file. */
  lemma GeoBeginsWithMerge(st: GeoState, scaling: bool, unitSchema: int, fmt: real -> string,
                           groupPart: seq<string>, blPart: seq<string>)
    requires NodesCover(st.lengths, st.nodes)
    ensures var t := GeoChunks(st, scaling, unitSchema, fmt, groupPart, blPart);
      |t| > 5 && t[..5] == HeaderLines(st) && t[3] == "Merge \"" + st.geometryFile + "\";\n"
  {
    FourParts(HeaderLines(st), MiddleLines(st, scaling, unitSchema, fmt, groupPart, blPart),
              OptionLines(st, fmt), ClosingLines(st, fmt));
  }

  /** After the line asking Gmsh to mesh in the object's dimension come the output format
      code from the table and the Save of the mesh file, then only the footer comments. */
  lemma GeoEndsWithSave(st: GeoState, scaling: bool, unitSchema: int, fmt: real -> string,
                        groupPart: seq<string>, blPart: seq<string>)
    requires NodesCover(st.lengths, st.nodes)
    ensures var t := GeoChunks(st, scaling, unitSchema, fmt, groupPart, blPart);
      && |t| >= 20
      && t[|t| - 17 - (if st.coherenceMesh then 1 else 0)] == "Mesh  " + st.dimension + ";\n"
      && t[|t| - 14] == "Mesh.Format = " + NatToString(Code(st.format)) + ";\n"
      && t[|t| - 13] == "Save \"" + st.meshFile + "\";\n"
      && t[|t| - 1] == "// " + st.gmshBin + " " + st.geoFile + "\n"
  {
    var c := ClosingLines(st, fmt);
    var m := MeshingLines(st, fmt);
    FourParts(HeaderLines(st), MiddleLines(st, scaling, unitSchema, fmt, groupPart, blPart),
              OptionLines(st, fmt), c);
    var k := |m| - 1 - (if st.coherenceMesh then 1 else 0);
    assert c[k] == MeshLine(st) by {
      assert c[..|m|][k] == m[k];
    }
    assert 16 + |m| - 14 == |m| + 2;
  }

  /** The line the format code is written on reads back as that format's table code. */
  lemma FormatLineCode(st: GeoState)
    ensures var digits := NatToString(Code(st.format));
      FormatLine(st) == "Mesh.Format = " + digits + ";\n" && DigitsValue(digits) == Code(st.format)
  {
    NatToStringRoundTrip(Code(st.format));
  }

  /** Clmin: written as 0 whenever there is a boundary layer setting, as clmin otherwise;
      the 2D algorithm line is always the resolved Algorithm2D code, since the DelQuad
      override compares the dimension text with the number 3. */
  lemma GeoOptions(st: GeoState, scaling: bool, unitSchema: int, fmt: real -> string,
                   groupPart: seq<string>, blPart: seq<string>)
    requires NodesCover(st.lengths, st.nodes)
    ensures var t := GeoChunks(st, scaling, unitSchema, fmt, groupPart, blPart);
      && (st.hasSettings ==> "Mesh.CharacteristicLengthMin = 0;\n" in t)
      && (!st.hasSettings ==> "Mesh.CharacteristicLengthMin = " + fmt(st.clmin) + ";\n" in t)
      && "Mesh.CharacteristicLengthMax = " + fmt(st.clmax) + ";\n" in t
      && "Mesh.Algorithm = " + st.algorithm2D + ";\n" in t
      && AlgorithmLines(st)[2] == "Mesh.Algorithm = " + st.algorithm2D + ";\n"
      && "Mesh.Algorithm3D = " + st.algorithm3D + ";\n" in t
      && "Mesh.ElementOrder = " + st.order + ";\n" in t
      && (st.optimizeStd ==> "Mesh.Optimize = 1;\n" in t)
      && (!st.optimizeStd ==> "Mesh.Optimize = 0;\n" in t)
      && (st.coherenceMesh ==> CoherenceLine in t)
  {
    OptionsListed(st, fmt);
    if st.coherenceMesh {
      var c := ClosingLines(st, fmt);
      var m := MeshingLines(st, fmt);
      assert c[2] == CoherenceLine by {
        assert c[..|m|][2] == m[2];
      }
    }
  }

  lemma OptionsListed(st: GeoState, fmt: real -> string)
    ensures var t := OptionLines(st, fmt);
      && ClminLine(st, fmt) in t
      && "Mesh.CharacteristicLengthMax = " + fmt(st.clmax) + ";\n" in t
      && AlgorithmLine(st) in t
      && "Mesh.Algorithm3D = " + st.algorithm3D + ";\n" in t
      && "Mesh.ElementOrder = " + st.order + ";\n" in t
      && OptimizeLine(st.optimizeStd) in t
  {
    var l := LengthOptionLines(st, fmt);
    var o := OptimizeLines(st);
    var a := AlgorithmLines(st);
    assert l[3] == ClminLine(st, fmt) && l[2] == "Mesh.CharacteristicLengthMax = " + fmt(st.clmax) + ";\n";
    assert a[2] == AlgorithmLine(st) && a[4] == "Mesh.Algorithm3D = " + st.algorithm3D + ";\n";
    assert o[1] == OptimizeLine(st.optimizeStd);
    assert o[6] == "Mesh.ElementOrder = " + st.order + ";\n";
  }

}
