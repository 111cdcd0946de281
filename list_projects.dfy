/** The project multi-select (src/components/ListProjects.tsx): one option per
    project, the hint shown when there are none, the "n Projekt(e) ausgewählt"
    line, and what a change of selection reports. */
module ListProjectsView {
  import opened Lists
  import opened Text
  import opened Api

  const NoProjectsHint := "Noch keine Projekte vorhanden. Erstellen Sie zuerst ein Projekt."
  const OneSelected := " Projekt ausgewählt"
  const ManySelected := " Projekte ausgewählt"

  datatype ProjectOption = ProjectOption(value: string, caption: string)

  /** `projects.map(project => <option value={project.id}>{project.name}</option>)`. */
  function Options(projects: seq<Project>): (r: seq<ProjectOption>)
    ensures |r| == |projects|
    ensures forall k :: 0 <= k < |projects| ==> r[k].value == projects[k].id && r[k].caption == projects[k].name
  {
    Map(projects, (p: Project) => ProjectOption(p.id, p.name))
  }

  /** The hint under the list, present exactly when there is no project. */
  function EmptyHint(projects: seq<Project>): (r: Option<string>)
    ensures r.Some? <==> projects == []
    ensures r.Some? ==> r.value == NoProjectsHint
  {
    if |projects| == 0 then Some(NoProjectsHint) else None
  }

  predicate EndsWith(s: string, suffix: string) {
    |suffix| <= |s| && s[|s| - |suffix|..] == suffix
  }

  /** The count line, present exactly when something is selected; the plural "e"
      is added for every count but one. */
  function CountLabel(selected: seq<string>): (r: Option<string>)
    ensures r.Some? <==> selected != []
    ensures r.Some? ==> ParseInt(r.value) == Num(|selected|)
    ensures r.Some? ==> (EndsWith(r.value, OneSelected) <==> |selected| == 1)
    ensures r.Some? ==> (EndsWith(r.value, ManySelected) <==> |selected| != 1)
  {
    if |selected| > 0 then
      var n := |selected|;
      var suffix := if n != 1 then ManySelected else OneSelected;
      CountLabelParts(n, suffix);
      Some(NatToString(n) + suffix)
    else None
  }

  lemma CountLabelParts(n: nat, suffix: string)
    requires suffix == OneSelected || suffix == ManySelected
    requires suffix == ManySelected <==> n != 1
    ensures ParseInt(NatToString(n) + suffix) == Num(n)
    ensures EndsWith(NatToString(n) + suffix, OneSelected) <==> n == 1
    ensures EndsWith(NatToString(n) + suffix, ManySelected) <==> n != 1
  {
    ParseIntOfNat(n, suffix);
    if n == 1 {
      assert NatToString(1) == "1";
      OneIsNotMany();
    } else {
      ManyIsNotOne(NatToString(n));
    }
  }

  lemma OneIsNotMany()
    ensures EndsWith("1" + OneSelected, OneSelected) && !EndsWith("1" + OneSelected, ManySelected)
  {
    var s := "1" + OneSelected;
    assert s[|s| - |OneSelected|..] == OneSelected;
    assert s[|s| - |ManySelected|] == '1';
  }

  lemma ManyIsNotOne(count: string)
    ensures EndsWith(count + ManySelected, ManySelected) && !EndsWith(count + ManySelected, OneSelected)
  {
    var s := count + ManySelected;
    assert s[|s| - |ManySelected|..] == ManySelected;
    assert s[|s| - |OneSelected|] == 'P';
  }

  /** The label the component shows for the selection `['1', '2']`. */
  lemma TwoSelectedLabel()
    ensures CountLabel(["1", "2"]) == Some("2 Projekte ausgewählt")
  {
    assert |["1", "2"]| == 2;
    assert DigitChar(2) == '2';
    assert NatToString(2) == "2";
    assert "2" + ManySelected == "2 Projekte ausgewählt";
  }

  /** An `<option>` as the browser holds it: its value and whether it is selected. */
  datatype DomOption = DomOption(value: string, selected: bool)

  /** `Array.from(e.target.selectedOptions, option => option.value)`: the values of
      the selected options, in document order. */
  function SelectedValues(dom: seq<DomOption>): (r: seq<string>)
    ensures |r| <= |dom|
    ensures forall k :: 0 <= k < |r| ==> exists j :: 0 <= j < |dom| && dom[j].selected && dom[j].value == r[k]
    ensures forall j :: 0 <= j < |dom| && dom[j].selected ==> dom[j].value in r
  {
    var chosen := Filter(dom, (o: DomOption) => o.selected);
    var r := Map(chosen, (o: DomOption) => o.value);
    assert forall k :: 0 <= k < |r| ==> r[k] == chosen[k].value && chosen[k] in dom;
    assert forall j :: 0 <= j < |dom| && dom[j].selected ==> exists k :: 0 <= k < |chosen| && chosen[k] == dom[j];
    r
  }

  /** The selected values come in document order: reading two runs of options
      reads the first run's selection, then the second's. */
  lemma SelectedValuesConcat(a: seq<DomOption>, b: seq<DomOption>)
    ensures SelectedValues(a + b) == SelectedValues(a) + SelectedValues(b)
  {
    FilterConcat(a, b, (o: DomOption) => o.selected);
    MapConcat(Filter(a, (o: DomOption) => o.selected), Filter(b, (o: DomOption) => o.selected), (o: DomOption) => o.value);
  }

  /** One option contributes its value exactly when it is selected. */
  lemma SelectedValuesOne(o: DomOption)
    ensures SelectedValues([o]) == if o.selected then [o.value] else []
  {
    assert [o][1..] == [];
  }

  /** `dom[j]` is the first selected option. */
  predicate FirstSelectedAt(dom: seq<DomOption>, j: int) {
    0 <= j < |dom| && dom[j].selected && forall i :: 0 <= i < j ==> !dom[i].selected
  }

  /** The first value reported is that of the first selected option, which App
      takes as the owner of a new issue. */
  lemma {:induction false} SelectedValuesFirst(dom: seq<DomOption>)
    ensures SelectedValues(dom) != [] ==>
              exists j :: FirstSelectedAt(dom, j) && dom[j].value == SelectedValues(dom)[0]
  {
    if dom != [] {
      assert dom == [dom[0]] + dom[1..];
      SelectedValuesConcat([dom[0]], dom[1..]);
      SelectedValuesOne(dom[0]);
      if dom[0].selected {
        assert FirstSelectedAt(dom, 0);
      } else {
        assert SelectedValues(dom) == SelectedValues(dom[1..]);
        SelectedValuesFirst(dom[1..]);
        if SelectedValues(dom) != [] {
          var j :| FirstSelectedAt(dom[1..], j) && dom[1..][j].value == SelectedValues(dom[1..])[0];
          FirstSelectedShift(dom, j);
        }
      }
    }
  }

  lemma FirstSelectedShift(dom: seq<DomOption>, j: int)
    requires dom != [] && !dom[0].selected && FirstSelectedAt(dom[1..], j)
    ensures FirstSelectedAt(dom, j + 1) && dom[j + 1] == dom[1..][j]
  {
    forall i | 0 <= i < j + 1
      ensures !dom[i].selected
    {
      if i > 0 {
        assert dom[i] == dom[1..][i - 1];
      }
    }
  }

  /** The options as rendered, marked selected when their value is in `selected`. */
  function Rendered(projects: seq<Project>, selected: seq<string>): (r: seq<DomOption>)
    ensures |r| == |projects|
    ensures forall k :: 0 <= k < |projects| ==> r[k] == DomOption(projects[k].id, projects[k].id in selected)
  {
    Map(Options(projects), (o: ProjectOption) => DomOption(o.value, o.value in selected))
  }

  /** Reading the selection back from the rendered list reports every listed
      project whose id is selected, and nothing that is not a selected project id. */
  lemma SelectionReadBack(projects: seq<Project>, selected: seq<string>)
    ensures forall k :: 0 <= k < |projects| && projects[k].id in selected ==>
                          projects[k].id in SelectedValues(Rendered(projects, selected))
    ensures forall i :: 0 <= i < |SelectedValues(Rendered(projects, selected))| ==>
                          ReportsSelectedProject(projects, selected, SelectedValues(Rendered(projects, selected))[i])
  {
    var dom := Rendered(projects, selected);
    var r := SelectedValues(dom);
    forall i | 0 <= i < |r|
      ensures ReportsSelectedProject(projects, selected, r[i])
    {
      var j :| 0 <= j < |dom| && dom[j].selected && dom[j].value == r[i];
      assert projects[j].id == r[i];
    }
  }

  predicate ReportsSelectedProject(projects: seq<Project>, selected: seq<string>, v: string) {
    v in selected && exists k :: 0 <= k < |projects| && projects[k].id == v
  }
}
