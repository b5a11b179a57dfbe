/** The comparison panels of the web UI's result view: each panel shows one
    (workload, variant, iteration) of an experiment under an id built from
    the three; the metrics and plots loaded for a panel are kept by that id.
    Fetching metrics and plots is not part of this model: what a fetch gave
    is a parameter. */
module ResultsSection {
  import opened Wrappers
  import opened Json
  import Text

  datatype Panel = Panel(id: string, workload: string, variant: string, iteration: int)

  /** The section's state: the panels, whether the add dialog is open, the
      dialog's selection, and the loaded data by panel id. */
  datatype Section = Section(panels: seq<Panel>, showAdd: bool,
                             workload: Option<string>, variant: Option<string>, iteration: int,
                             metrics: map<string, Value>, plots: map<string, Value>)

  const Initial: Section := Section([], false, None, None, 0, map[], map[])

  /** `${workload}-${variant}-${iteration}`. */
  function PanelId(workload: string, variant: string, iteration: int): string {
    workload + "-" + variant + "-" + Text.IntToString(iteration)
  }

  predicate DistinctIds(panels: seq<Panel>) {
    forall i, j :: 0 <= i < j < |panels| ==> panels[i].id != panels[j].id
  }

  predicate HasId(panels: seq<Panel>, id: string) {
    exists i :: 0 <= i < |panels| && panels[i].id == id
  }

  /** The panels set up when the experiment's workloads and variants arrive:
      with both lists non-empty, a single panel for the first of each at
      iteration 0; otherwise the panels stay as they are. */
  function DefaultPanels(s: Section, workloads: seq<string>, variants: seq<string>): (r: Section)
    ensures workloads != [] && variants != [] ==>
              r.panels == [Panel(PanelId(workloads[0], variants[0], 0), workloads[0], variants[0], 0)]
    ensures workloads == [] || variants == [] ==> r == s
    ensures r == s.(panels := r.panels)
    ensures DistinctIds(s.panels) ==> DistinctIds(r.panels)
  {
    if workloads != [] && variants != [] then
      s.(panels := [Panel(PanelId(workloads[0], variants[0], 0), workloads[0], variants[0], 0)])
    else s
  }

  /** `addPanel`: without a workload and a variant selected nothing happens;
      otherwise a panel for the selection is appended unless one with its id
      exists, and the dialog closes with its selection reset. */
  function AddPanel(s: Section): (r: Section)
    ensures s.workload.None? || s.variant.None? ==> r == s
    ensures s.workload.Some? && s.variant.Some? ==>
              var id := PanelId(s.workload.value, s.variant.value, s.iteration);
              r.panels == (if HasId(s.panels, id) then s.panels
                           else s.panels + [Panel(id, s.workload.value, s.variant.value, s.iteration)]) &&
              r == Section(r.panels, false, None, None, 0, s.metrics, s.plots)
  {
    if s.workload.None? || s.variant.None? then s
    else
      var id := PanelId(s.workload.value, s.variant.value, s.iteration);
      var panels := if HasId(s.panels, id) then s.panels
                    else s.panels + [Panel(id, s.workload.value, s.variant.value, s.iteration)];
      Section(panels, false, None, None, 0, s.metrics, s.plots)
  }

  /** Adding never makes two panels share an id, and afterwards a panel with
      the selection's id is shown. */
  lemma AddPanelKeepsIdsDistinct(s: Section)
    requires DistinctIds(s.panels)
    ensures DistinctIds(AddPanel(s).panels)
    ensures s.workload.Some? && s.variant.Some? ==>
              HasId(AddPanel(s).panels, PanelId(s.workload.value, s.variant.value, s.iteration))
  {
    if s.workload.Some? && s.variant.Some? {
      var id := PanelId(s.workload.value, s.variant.value, s.iteration);
      var r := AddPanel(s).panels;
      if !HasId(s.panels, id) {
        assert r[|s.panels|].id == id;
      }
    }
  }

  /** `list.filter(p => p.id !== id)`. */
  function WithoutId(panels: seq<Panel>, id: string): (r: seq<Panel>)
    ensures forall p :: p in r <==> p in panels && p.id != id
    ensures |r| <= |panels|
  {
    if panels == [] then []
    else (if panels[0].id == id then [] else [panels[0]]) + WithoutId(panels[1..], id)
  }

  /** Removing panels keeps the others in their order, so distinct ids stay
      distinct. */
  lemma {:induction false} WithoutIdKeepsDistinct(panels: seq<Panel>, id: string)
    requires DistinctIds(panels)
    ensures DistinctIds(WithoutId(panels, id))
  {
    if panels != [] {
      var rest := WithoutId(panels[1..], id);
      WithoutIdKeepsDistinct(panels[1..], id);
      if panels[0].id != id {
        forall p | p in rest
          ensures p.id != panels[0].id
        {
          var k :| 1 <= k < |panels| && panels[k] == p;
        }
        var r := [panels[0]] + rest;
        forall i, j | 0 <= i < j < |r|
          ensures r[i].id != r[j].id
        {
          if i == 0 {
            assert r[j] in rest;
          } else {
            assert r[i] == rest[i - 1] && r[j] == rest[j - 1];
          }
        }
      }
    }
  }

  /** `removePanel`: the panels with that id go, and so do their metrics and
      plots; nothing else changes. */
  function RemovePanel(s: Section, id: string): (r: Section)
    ensures !HasId(r.panels, id)
    ensures forall p :: p in r.panels <==> p in s.panels && p.id != id
    ensures r.metrics == s.metrics - {id} && r.plots == s.plots - {id}
    ensures r == s.(panels := r.panels, metrics := r.metrics, plots := r.plots)
  {
    var panels := WithoutId(s.panels, id);
    assert forall i :: 0 <= i < |panels| ==> panels[i] in panels;
    s.(panels := panels, metrics := s.metrics - {id}, plots := s.plots - {id})
  }

  lemma RemovePanelKeepsIdsDistinct(s: Section, id: string)
    requires DistinctIds(s.panels)
    ensures DistinctIds(RemovePanel(s, id).panels)
  {
    WithoutIdKeepsDistinct(s.panels, id);
  }

  /** Adding a panel and removing it again leaves the panels as they were. */
  lemma RemoveUndoesAdd(s: Section)
    requires s.workload.Some? && s.variant.Some?
    requires !HasId(s.panels, PanelId(s.workload.value, s.variant.value, s.iteration))
    ensures RemovePanel(AddPanel(s), PanelId(s.workload.value, s.variant.value, s.iteration)).panels == s.panels
  {
    var id := PanelId(s.workload.value, s.variant.value, s.iteration);
    WithoutIdAppended(s.panels, Panel(id, s.workload.value, s.variant.value, s.iteration));
  }

  lemma {:induction false} WithoutIdAppended(panels: seq<Panel>, p: Panel)
    requires !HasId(panels, p.id)
    ensures WithoutId(panels + [p], p.id) == panels
  {
    if panels == [] {
      assert WithoutId([p], p.id) == [] + WithoutId([], p.id);
    } else {
      assert (panels + [p])[1..] == panels[1..] + [p];
      assert !HasId(panels[1..], p.id) by {
        forall i | 0 <= i < |panels[1..]|
          ensures panels[1..][i].id != p.id
        {
          assert panels[1..][i] == panels[i + 1];
        }
      }
      WithoutIdAppended(panels[1..], p);
      assert [panels[0]] + panels[1..] == panels;
    }
  }

  /** A panel's data arrived: stored under its id. */
  function Loaded(s: Section, id: string, metrics: Value, plots: Value): (r: Section)
    ensures r.metrics == s.metrics[id := metrics] && r.plots == s.plots[id := plots]
    ensures r == s.(metrics := r.metrics, plots := r.plots)
  {
    s.(metrics := s.metrics[id := metrics], plots := s.plots[id := plots])
  }

  /** The header selects of a panel: the panel with that id takes the new
      workload, variant and iteration and the id made from them. */
  function Retarget(s: Section, id: string, workload: string, variant: string, iteration: int): (r: Section)
    ensures |r.panels| == |s.panels| && r == s.(panels := r.panels)
    ensures forall i :: 0 <= i < |s.panels| ==>
              r.panels[i] == (if s.panels[i].id == id then Panel(PanelId(workload, variant, iteration), workload, variant, iteration)
                              else s.panels[i])
  {
    var updated := Panel(PanelId(workload, variant, iteration), workload, variant, iteration);
    s.(panels := seq(|s.panels|, i requires 0 <= i < |s.panels| => if s.panels[i].id == id then updated else s.panels[i]))
  }

  /** Unlike adding, retargeting a panel onto another panel's selection
      gives two panels with one id. */
  lemma RetargetCanDuplicateIds(s: Section, i: nat, j: nat)
    requires i < |s.panels| && j < |s.panels| && i != j && DistinctIds(s.panels)
    ensures var q := s.panels[j];
            var r := Retarget(s, s.panels[i].id, q.workload, q.variant, q.iteration);
            q.id == PanelId(q.workload, q.variant, q.iteration) ==> r.panels[i].id == r.panels[j].id
  {
  }

  /** Names containing '-' can run together: two different selections share
      an id, so the second is never added. */
  lemma HyphenatedNamesShareId()
    ensures PanelId("a-b", "c", 0) == PanelId("a", "b-c", 0)
  {
  }

  /** `gridCols`: one column per panel up to two, otherwise three (an empty
      grid too). */
  function GridColumns(panels: seq<Panel>): (n: int)
    ensures n == (if 1 <= |panels| <= 2 then |panels| else 3)
  {
    if |panels| == 1 then 1 else if |panels| == 2 then 2 else 3
  }
}
