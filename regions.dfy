/** get_region_data: the table ele_length_map (element -> characteristic length, first
    region wins) and ele_node_map (element -> its vertex indices), with the reports. */
module Regions {
  import opened Options
  import opened Assoc
  import opened FemObjects
  import opened Diagnostics

  /** `if found_element:` holds: the search returned a non-empty name. */
  predicate Found(el: RefElement) {
    el.found.Some? && el.found.value != ""
  }

  /** The element a reference entry stands for on the shape to mesh: the element found by
      find_element_in_shape when the reference belongs to another shape and the search
      succeeded, the entry's own name otherwise (also when the search failed). */
  function Resolved(ref: Reference, el: RefElement): string {
    if !ref.sameShape && Found(el) then el.found.value else el.name
  }

  /** The search on the shape to mesh was made and found nothing. */
  predicate NotFound(ref: Reference, el: RefElement) {
    !ref.sameShape && !Found(el)
  }

  /** What get_region_data has built so far: ele_length_map and the reports. */
  datatype RegionWalk = RegionWalk(lengths: Table<real>, diags: seq<Diag>)

  /** The body of the innermost loop for one element entry. A failed search is reported and
      then, as the code falls through, the entry's own name is claimed all the same. */
  function ClaimLength(w: RegionWalk, region: MeshRegion, ref: Reference, el: RefElement): RegionWalk {
    var w1 := if NotFound(ref, el) then w.(diags := w.diags + [RegionElementNotFound(region.name)]) else w;
    var e := Resolved(ref, el);
    if e !in Keys(w1.lengths) then w1.(lengths := w1.lengths + [(e, region.characteristicLength)])
    else w1.(diags := w1.diags + [RegionElementClaimed(e, region.name)])
  }

  function WalkRegionElements(w: RegionWalk, region: MeshRegion, ref: Reference, els: seq<RefElement>): RegionWalk
    decreases |els|
  {
    if els == [] then w
    else ClaimLength(WalkRegionElements(w, region, ref, els[..|els| - 1]), region, ref, els[|els| - 1])
  }

  function WalkRegionReferences(w: RegionWalk, region: MeshRegion, refs: seq<Reference>): RegionWalk
    decreases |refs|
  {
    if refs == [] then w
    else
      var last := refs[|refs| - 1];
      WalkRegionElements(WalkRegionReferences(w, region, refs[..|refs| - 1]), region, last, last.elements)
  }

  /** A region is used when its CharacteristicLength is non-zero and its References list is
      not empty. */
  predicate UsedRegion(region: MeshRegion) {
    region.characteristicLength != 0.0 && region.references != []
  }

  function WalkRegion(w: RegionWalk, region: MeshRegion): RegionWalk {
    if region.characteristicLength != 0.0 then
      if region.references != [] then WalkRegionReferences(w, region, region.references)
      else w.(diags := w.diags + [RegionEmptyReferences(region.name)])
    else w.(diags := w.diags + [RegionZeroLength(region.name)])
  }

  function WalkRegions(w: RegionWalk, regions: seq<MeshRegion>): RegionWalk
    decreases |regions|
  {
    if regions == [] then w else WalkRegion(WalkRegions(w, regions[..|regions| - 1]), regions[|regions| - 1])
  }

  /** The proxy types of the boolean split tools the class warns about. */
  const BooleanSplitTypes: set<string> := {"FeatureBooleanFragments", "FeatureSlice", "FeatureXOR"}

  /** The error report for mesh regions on a boolean split Compound. */
  function SplitCompoundWarning(part: Part): seq<Diag> {
    if part.shapeType == "Compound" && part.proxyType.Some? && part.proxyType.value in BooleanSplitTypes
    then [RegionsOnBooleanSplitCompound] else []
  }

  /** ele_length_map and the reports after get_region_data, starting from the reports diags. */
  function RegionData(part: Part, regions: seq<MeshRegion>, diags: seq<Diag>): RegionWalk {
    if regions == [] then RegionWalk([], diags)
    else WalkRegions(RegionWalk([], diags + SplitCompoundWarning(part)), regions)
  }

  /** ele_node_map: every element of the length table with the vertex indices of that element. */
  function NodeMap(lengths: Table<real>, vertexesOf: string -> seq<nat>): map<string, seq<nat>> {
    map e | e in Keys(lengths) :: vertexesOf(e)
  }

  // ---- The claims in walk order, as one flat list, and what the walk makes of them.

  function ElementClaims(region: MeshRegion, ref: Reference, els: seq<RefElement>): (cs: Table<real>)
    ensures |cs| == |els|
    ensures forall i :: 0 <= i < |els| ==> cs[i] == (Resolved(ref, els[i]), region.characteristicLength)
  {
    seq(|els|, i requires 0 <= i < |els| => (Resolved(ref, els[i]), region.characteristicLength))
  }

  function ReferenceClaims(region: MeshRegion, refs: seq<Reference>): Table<real>
    decreases |refs|
  {
    if refs == [] then []
    else
      var last := refs[|refs| - 1];
      ReferenceClaims(region, refs[..|refs| - 1]) + ElementClaims(region, last, last.elements)
  }

  /** The (element, length) claims of a region: one per element entry of a used region. */
  function RegionClaims(region: MeshRegion): Table<real> {
    if UsedRegion(region) then ReferenceClaims(region, region.references) else []
  }

  function AllRegionClaims(regions: seq<MeshRegion>): Table<real>
    decreases |regions|
  {
    if regions == [] then []
    else AllRegionClaims(regions[..|regions| - 1]) + RegionClaims(regions[|regions| - 1])
  }

  lemma {:induction false} WalkRegionElementsLengths(w: RegionWalk, region: MeshRegion, ref: Reference, els: seq<RefElement>)
    ensures WalkRegionElements(w, region, ref, els).lengths == FirstClaims(w.lengths, ElementClaims(region, ref, els))
    ensures |WalkRegionElements(w, region, ref, els).diags| >= |w.diags|
    ensures WalkRegionElements(w, region, ref, els).diags[..|w.diags|] == w.diags
    decreases |els|
  {
    if els != [] {
      var init := els[..|els| - 1];
      WalkRegionElementsLengths(w, region, ref, init);
      assert ElementClaims(region, ref, els)[..|els| - 1] == ElementClaims(region, ref, init);
    }
  }

  lemma {:induction false} WalkRegionReferencesLengths(w: RegionWalk, region: MeshRegion, refs: seq<Reference>)
    ensures WalkRegionReferences(w, region, refs).lengths == FirstClaims(w.lengths, ReferenceClaims(region, refs))
    ensures |WalkRegionReferences(w, region, refs).diags| >= |w.diags|
    ensures WalkRegionReferences(w, region, refs).diags[..|w.diags|] == w.diags
    decreases |refs|
  {
    if refs != [] {
      var init := refs[..|refs| - 1];
      var last := refs[|refs| - 1];
      var mid := WalkRegionReferences(w, region, init);
      WalkRegionReferencesLengths(w, region, init);
      WalkRegionElementsLengths(mid, region, last, last.elements);
      FirstClaimsAppend(w.lengths, ReferenceClaims(region, init), ElementClaims(region, last, last.elements));
    }
  }

  lemma {:induction false} WalkRegionsLengths(w: RegionWalk, regions: seq<MeshRegion>)
    ensures WalkRegions(w, regions).lengths == FirstClaims(w.lengths, AllRegionClaims(regions))
    ensures |WalkRegions(w, regions).diags| >= |w.diags|
    ensures WalkRegions(w, regions).diags[..|w.diags|] == w.diags
    decreases |regions|
  {
    if regions != [] {
      var init := regions[..|regions| - 1];
      var last := regions[|regions| - 1];
      var mid := WalkRegions(w, init);
      WalkRegionsLengths(w, init);
      if UsedRegion(last) {
        WalkRegionReferencesLengths(mid, last, last.references);
      } else {
        assert RegionClaims(last) == [];
        assert AllRegionClaims(regions) == AllRegionClaims(init);
      }
      FirstClaimsAppend(w.lengths, AllRegionClaims(init), RegionClaims(last));
    }
  }

  /** First claim wins for ele_length_map: the table lists each claimed element once, and an
      element's length is the length of the first used region (in list order) that claims
      it; earlier reports are kept. */
  lemma RegionDataFirstClaimWins(part: Part, regions: seq<MeshRegion>, diags: seq<Diag>, e: string)
    ensures var w := RegionData(part, regions, diags);
      && UniqueKeys(w.lengths)
      && Lookup(w.lengths, e) == Lookup(AllRegionClaims(regions), e)
      && (e in Keys(w.lengths) <==> e in Keys(AllRegionClaims(regions)))
      && |w.diags| >= |diags| && w.diags[..|diags|] == diags
  {
    if regions == [] {
      assert AllRegionClaims(regions) == [];
    } else {
      var w0 := RegionWalk([], diags + SplitCompoundWarning(part));
      WalkRegionsLengths(w0, regions);
      FirstClaimsUnique([], AllRegionClaims(regions));
      FirstClaimsLookup([], AllRegionClaims(regions), e);
      FirstClaimsKeys([], AllRegionClaims(regions), e);
      assert [] + AllRegionClaims(regions) == AllRegionClaims(regions);
      var d := WalkRegions(w0, regions).diags;
      assert d[..|w0.diags|] == w0.diags;
      assert d[..|diags|] == d[..|w0.diags|][..|diags|];
    }
  }

  /** A claim of an element that is already in the table changes nothing but adds the
      "has been added to another mesh region" report. */
  lemma RejectedClaimOnlyReports(w: RegionWalk, region: MeshRegion, ref: Reference, el: RefElement)
    requires Resolved(ref, el) in Keys(w.lengths)
    ensures ClaimLength(w, region, ref, el).lengths == w.lengths
    ensures ClaimLength(w, region, ref, el).diags ==
      w.diags + (if NotFound(ref, el) then [RegionElementNotFound(region.name)] else [])
              + [RegionElementClaimed(Resolved(ref, el), region.name)]
  {
  }

  /** An element written against another shape is replaced by the element found on the
      shape to mesh; when none is found the failure is reported and the original name is
      still entered (the "It will be ignored" report notwithstanding). */
  lemma SubstitutedOrKept(w: RegionWalk, region: MeshRegion, ref: Reference, el: RefElement)
    requires !ref.sameShape
    requires Resolved(ref, el) !in Keys(w.lengths)
    ensures var r := ClaimLength(w, region, ref, el);
      if Found(el) then r.lengths == w.lengths + [(el.found.value, region.characteristicLength)] && r.diags == w.diags
      else r.lengths == w.lengths + [(el.name, region.characteristicLength)]
           && r.diags == w.diags + [RegionElementNotFound(region.name)]
  {
  }

  /** ele_node_map covers exactly the elements of ele_length_map. */
  lemma NodeMapKeys(lengths: Table<real>, vertexesOf: string -> seq<nat>, e: string)
    ensures e in NodeMap(lengths, vertexesOf) <==> e in Keys(lengths)
    ensures e in Keys(lengths) ==> NodeMap(lengths, vertexesOf)[e] == vertexesOf(e)
  {
  }
}
