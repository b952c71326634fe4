/** get_group_data: group_elements, group name -> element names, from the mesh group
    objects and then from the analysis members; the first group of a name wins. */
module Groups {
  import opened Options
  import opened Assoc
  import opened FemObjects
  import opened Diagnostics

  /** group_elements so far and the reports. */
  datatype GroupWalk = GroupWalk(groups: GroupTable, diags: seq<Diag>)

  /** One entry of a looked-up table: entered when its name is new, reported otherwise. */
  function AddGroup(w: GroupWalk, g: (string, seq<string>)): GroupWalk {
    if g.0 !in Keys(w.groups) then w.(groups := w.groups + [g])
    else w.(diags := w.diags + [GroupNameExists])
  }

  function AddGroups(w: GroupWalk, t: GroupTable): GroupWalk
    decreases |t|
  {
    if t == [] then w else AddGroup(AddGroups(w, t[..|t| - 1]), t[|t| - 1])
  }

  /** The loop over MeshGroupList, one looked-up table per mesh group object. */
  function AddMeshGroups(w: GroupWalk, ts: seq<GroupTable>): GroupWalk
    decreases |ts|
  {
    if ts == [] then w else AddGroups(AddMeshGroups(w, ts[..|ts| - 1]), ts[|ts| - 1])
  }

  /** group_elements and the reports after get_group_data; analysis is the table
      get_analysis_group_elements returns, None when the class has no analysis. */
  function GroupData(meshGroups: seq<GroupTable>, analysis: Option<GroupTable>, diags: seq<Diag>): GroupWalk {
    var w := AddMeshGroups(GroupWalk([], diags), meshGroups);
    match analysis
    case Some(t) => AddGroups(w, t)
    case None => w
  }

  function Flatten(ts: seq<GroupTable>): GroupTable
    decreases |ts|
  {
    if ts == [] then [] else Flatten(ts[..|ts| - 1]) + ts[|ts| - 1]
  }

  /** Every (name, elements) entry offered to group_elements, in the order offered. */
  function Offered(meshGroups: seq<GroupTable>, analysis: Option<GroupTable>): GroupTable {
    Flatten(meshGroups) + (match analysis case Some(t) => t case None => [])
  }

  /** r extends w's reports with GroupNameExists reports only. */
  predicate OnlyRejections(w: GroupWalk, r: GroupWalk) {
    && |r.diags| >= |w.diags| && r.diags[..|w.diags|] == w.diags
    && (forall i :: |w.diags| <= i < |r.diags| ==> r.diags[i] == GroupNameExists)
    && |r.groups| + |r.diags| >= |w.groups| + |w.diags|
  }

  lemma OnlyRejectionsTransitive(a: GroupWalk, b: GroupWalk, c: GroupWalk)
    requires OnlyRejections(a, b) && OnlyRejections(b, c)
    ensures OnlyRejections(a, c)
  {
    assert c.diags[..|a.diags|] == c.diags[..|b.diags|][..|a.diags|];
    forall i | |a.diags| <= i < |c.diags|
      ensures c.diags[i] == GroupNameExists
    {
      if i < |b.diags| {
        assert c.diags[i] == c.diags[..|b.diags|][i];
      }
    }
  }

  /** A table offered entry by entry: group_elements takes the first claim of every name,
      and each rejected entry adds exactly one GroupNameExists report. */
  lemma {:induction false} AddGroupsClaims(w: GroupWalk, t: GroupTable)
    ensures AddGroups(w, t).groups == FirstClaims(w.groups, t)
    ensures |AddGroups(w, t).groups| + |AddGroups(w, t).diags| == |w.groups| + |w.diags| + |t|
    ensures OnlyRejections(w, AddGroups(w, t))
    decreases |t|
  {
    if t == [] {
      assert w.diags[..|w.diags|] == w.diags;
    } else {
      var mid := AddGroups(w, t[..|t| - 1]);
      AddGroupsClaims(w, t[..|t| - 1]);
      var r := AddGroups(w, t);
      assert OnlyRejections(mid, r) by {
        assert r.diags[..|mid.diags|] == mid.diags;
      }
      OnlyRejectionsTransitive(w, mid, r);
    }
  }

  lemma {:induction false} AddMeshGroupsClaims(w: GroupWalk, ts: seq<GroupTable>)
    ensures AddMeshGroups(w, ts).groups == FirstClaims(w.groups, Flatten(ts))
    ensures |AddMeshGroups(w, ts).groups| + |AddMeshGroups(w, ts).diags| == |w.groups| + |w.diags| + |Flatten(ts)|
    ensures OnlyRejections(w, AddMeshGroups(w, ts))
    decreases |ts|
  {
    if ts == [] {
      assert w.diags[..|w.diags|] == w.diags;
    } else {
      var init := ts[..|ts| - 1];
      var mid := AddMeshGroups(w, init);
      AddMeshGroupsClaims(w, init);
      AddGroupsClaims(mid, ts[|ts| - 1]);
      FirstClaimsAppend(w.groups, Flatten(init), ts[|ts| - 1]);
      OnlyRejectionsTransitive(w, mid, AddMeshGroups(w, ts));
    }
  }

  /** The whole walk from an empty group_elements. */
  lemma GroupDataClaims(meshGroups: seq<GroupTable>, analysis: Option<GroupTable>, diags: seq<Diag>)
    ensures GroupData(meshGroups, analysis, diags).groups == FirstClaims([], Offered(meshGroups, analysis))
    ensures |GroupData(meshGroups, analysis, diags).groups| + |GroupData(meshGroups, analysis, diags).diags|
      == |diags| + |Offered(meshGroups, analysis)|
    ensures OnlyRejections(GroupWalk([], diags), GroupData(meshGroups, analysis, diags))
  {
    var w0 := GroupWalk([], diags);
    var w := AddMeshGroups(w0, meshGroups);
    AddMeshGroupsClaims(w0, meshGroups);
    match analysis {
      case Some(t) =>
        AddGroupsClaims(w, t);
        FirstClaimsAppend([], Flatten(meshGroups), t);
        OnlyRejectionsTransitive(w0, w, AddGroups(w, t));
      case None =>
        assert Offered(meshGroups, analysis) == Flatten(meshGroups);
    }
  }

  /** group_elements after get_group_data: no name twice; a name's elements are those of the
      first table entry of that name, the mesh group objects in list order before the
      analysis members; its names are exactly the names offered; and the reports grow by
      one "exists already" per entry dropped, and by nothing else. */
  lemma GroupDataFirstClaimWins(meshGroups: seq<GroupTable>, analysis: Option<GroupTable>,
                                diags: seq<Diag>, q: string)
    ensures UniqueKeys(GroupData(meshGroups, analysis, diags).groups)
    ensures Lookup(GroupData(meshGroups, analysis, diags).groups, q) == Lookup(Offered(meshGroups, analysis), q)
    ensures q in Keys(GroupData(meshGroups, analysis, diags).groups) <==> q in Keys(Offered(meshGroups, analysis))
    ensures |GroupData(meshGroups, analysis, diags).diags| - |diags| ==
      |Offered(meshGroups, analysis)| - |GroupData(meshGroups, analysis, diags).groups|
    ensures OnlyRejections(GroupWalk([], diags), GroupData(meshGroups, analysis, diags))
  {
    GroupDataClaims(meshGroups, analysis, diags);
    var offered := Offered(meshGroups, analysis);
    assert [] + offered == offered;
    FirstClaimsUnique([], offered);
    FirstClaimsLookup([], offered, q);
    FirstClaimsKeys([], offered, q);
  }
}
