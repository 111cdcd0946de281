/** The application state (src/App.tsx): the loaded projects and issues, the
    loading and error flags, the selection and the two form fields, and the
    handlers that change them once the adapter's call has settled. */
module App {
  import opened Lists
  import opened Api
  import IssuesListView
  import CreateProjectForm
  import CreateIssueForm

  const LoadError := "Fehler beim Laden der Daten. Bitte stellen Sie sicher, dass der JSON-Server läuft."
  const DeleteIssueError := "Fehler beim Löschen des Issues"
  const LocalOnlyWarning := "Warnung: Änderung nur lokal gespeichert. JSON-Server nicht erreichbar."

  /** `issues.filter(issue => issue.id !== id)`. */
  function WithoutIssue(issues: seq<Issue>, id: string): (r: seq<Issue>)
    ensures IsSubseq(r, issues)
    ensures forall k :: 0 <= k < |r| ==> r[k].id != id
    ensures forall k :: 0 <= k < |issues| && issues[k].id != id ==> issues[k] in r
    ensures (forall k :: 0 <= k < |issues| ==> issues[k].id != id) ==> r == issues
  {
    FilterIsSubseq(issues, (i: Issue) => i.id != id);
    Filter(issues, (i: Issue) => i.id != id)
  }

  /** Order and multiplicity: deleting from two lists in a row deletes from each,
      and a single issue stays exactly when its id differs. */
  lemma WithoutIssueConcat(a: seq<Issue>, b: seq<Issue>, id: string)
    ensures WithoutIssue(a + b, id) == WithoutIssue(a, id) + WithoutIssue(b, id)
    ensures WithoutIssue([], id) == []
    ensures forall i :: WithoutIssue([i], id) == if i.id != id then [i] else []
  {
    FilterConcat(a, b, (i: Issue) => i.id != id);
  }

  /** `issues.find(i => i.id === id)`. */
  function FindIssue(issues: seq<Issue>, id: string): (r: Option<Issue>)
    ensures r.None? <==> forall k :: 0 <= k < |issues| ==> issues[k].id != id
    ensures r.Some? ==> r.value.id == id && exists k :: 0 <= k < |issues| && issues[k] == r.value &&
                                                     forall j :: 0 <= j < k ==> issues[j].id != id
  {
    Find(issues, (i: Issue) => i.id == id)
  }

  /** The optimistic step: every issue with the id gets `done`, nothing else changes. */
  function Optimistic(issues: seq<Issue>, id: string, done: bool): (r: seq<Issue>)
    ensures |r| == |issues|
    ensures forall k :: 0 <= k < |issues| && issues[k].id == id ==> r[k] == issues[k].(done := done)
    ensures forall k :: 0 <= k < |issues| && issues[k].id != id ==> r[k] == issues[k]
  {
    Map(issues, (i: Issue) => if i.id == id then i.(done := done) else i)
  }

  /** The reconciliation: every issue with the id is replaced by the server's
      record as a whole, with no field carried over. */
  function Replaced(issues: seq<Issue>, id: string, server: Issue): (r: seq<Issue>)
    ensures |r| == |issues|
    ensures forall k :: 0 <= k < |issues| && issues[k].id == id ==> r[k] == server
    ensures forall k :: 0 <= k < |issues| && issues[k].id != id ==> r[k] == issues[k]
  {
    Map(issues, (i: Issue) => if i.id == id then server else i)
  }

  /** The server's record wins over the optimistic flip: reconciling after the
      flip gives the same list as reconciling without it. */
  lemma ReplacedOverridesOptimistic(issues: seq<Issue>, id: string, done: bool, server: Issue)
    ensures Replaced(Optimistic(issues, id, done), id, server) == Replaced(issues, id, server)
  {
    var a := Replaced(Optimistic(issues, id, done), id, server);
    var b := Replaced(issues, id, server);
    assert forall k :: 0 <= k < |issues| ==> Optimistic(issues, id, done)[k].id == issues[k].id;
    assert forall k :: 0 <= k < |a| ==> a[k] == b[k];
  }

  /** Flipping back undoes the flip, as long as every issue with the id agreed on `done`. */
  lemma OptimisticUndone(issues: seq<Issue>, id: string, done: bool)
    requires forall k :: 0 <= k < |issues| && issues[k].id == id ==> issues[k].done == done
    ensures Optimistic(Optimistic(issues, id, !done), id, done) == issues
  {
    var once := Optimistic(issues, id, !done);
    var twice := Optimistic(once, id, done);
    assert forall k :: 0 <= k < |issues| ==> once[k].id == issues[k].id;
    assert forall k :: 0 <= k < |issues| ==> twice[k] == issues[k];
  }

  /** `filteredIssues` of App: all issues while nothing is selected, otherwise
      those owned by a selected project, in order. */
  function VisibleIssues(issues: seq<Issue>, selected: seq<string>): (r: seq<Issue>)
    ensures selected == [] ==> r == issues
    ensures IsSubseq(r, issues)
    ensures selected != [] ==> forall k :: 0 <= k < |r| ==> r[k].projectId in selected
    ensures selected != [] ==> forall k :: 0 <= k < |issues| && issues[k].projectId in selected ==> issues[k] in r
  {
    if |selected| > 0 then IssuesListView.InProjects(issues, selected)
    else
      IsSubseqRefl(issues);
      issues
  }

  /** Order and multiplicity: the visible issues of two lists in a row are those of
      each, in a row, and a single issue is visible exactly when nothing is selected
      or its owner is. */
  lemma VisibleIssuesConcat(a: seq<Issue>, b: seq<Issue>, selected: seq<string>)
    ensures VisibleIssues(a + b, selected) == VisibleIssues(a, selected) + VisibleIssues(b, selected)
    ensures VisibleIssues([], selected) == []
    ensures forall i :: VisibleIssues([i], selected) == if selected == [] || i.projectId in selected then [i] else []
  {
    IssuesListView.InProjectsConcat(a, b, selected);
  }

  lemma {:induction false} IsSubseqRefl<T>(s: seq<T>)
    ensures IsSubseq(s, s)
    decreases |s|
  {
    if s != [] {
      IsSubseqRefl(s[1..]);
    }
  }

  /** App and the issue table agree once something is selected; with an empty
      selection App shows every issue while the table shows none. */
  lemma AppAndTableFilters(issues: seq<Issue>, selected: seq<string>)
    ensures selected != [] ==> VisibleIssues(issues, selected) == IssuesListView.FilteredIssues(issues, selected)
    ensures selected == [] ==> VisibleIssues(issues, selected) == issues && IssuesListView.FilteredIssues(issues, selected) == []
  {
  }

  /** When the server's record comes back through the adapter path that cannot
      resolve its owner (project id ""), it drops out of every non-empty selection
      that does not list "": the toggled issue disappears from view. */
  lemma OwnerlessRecordLeavesView(issues: seq<Issue>, id: string, server: Issue, selected: seq<string>)
    requires server.projectId == [] && selected != [] && [] !in selected
    ensures forall k :: 0 <= k < |VisibleIssues(Replaced(issues, id, server), selected)| ==>
                          VisibleIssues(Replaced(issues, id, server), selected)[k].id != id
  {
    var replaced := Replaced(issues, id, server);
    var shown := VisibleIssues(replaced, selected);
    forall k | 0 <= k < |shown|
      ensures shown[k].id != id
    {
      assert shown[k] in replaced && shown[k].projectId in selected;
      var j :| 0 <= j < |replaced| && replaced[j] == shown[k];
      assert issues[j].id != id;
    }
  }

  class Store {
    var projects: seq<Project>
    var issues: seq<Issue>
    var loading: bool
    var error: Option<string>
    var selectedProjects: seq<string>
    var newProjectName: string
    var newIssue: CreateIssueForm.Draft

    constructor()
      ensures projects == [] && issues == [] && loading && error.None?
      ensures selectedProjects == [] && newProjectName == [] && newIssue == CreateIssueForm.EmptyDraft
    {
      projects := [];
      issues := [];
      loading := true;
      error := None;
      selectedProjects := [];
      newProjectName := [];
      newIssue := CreateIssueForm.EmptyDraft;
    }

    /** `loadData` up to its `await`. */
    method BeginLoad()
      modifies this`loading, this`error
      ensures loading && error.None?
    {
      loading := true;
      error := None;
    }

    /** `loadData` after its `await`: both lists are taken on success, the load
        error is set on a rejection, and `loading` drops on every path. */
    method FinishLoad(loaded: Reply<(seq<Project>, seq<Issue>)>)
      modifies this`projects, this`issues, this`error, this`loading
      ensures !loading
      ensures loaded.Returned? ==> projects == loaded.value.0 && issues == loaded.value.1 && error == old(error)
      ensures loaded.Threw? ==> projects == old(projects) && issues == old(issues) && error == Some(LoadError)
    {
      if loaded.Returned? {
        projects := loaded.value.0;
        issues := loaded.value.1;
      } else {
        error := Some(LoadError);
      }
      loading := false;
    }

    /** `handleAddProject`: a blank name sends nothing and changes nothing; a
        returned project is appended and the field cleared; null or a rejection
        sets the error and keeps the rest. */
    method AddProject(reply: Reply<Option<Project>>) returns (request: Option<string>)
      modifies this`projects, this`newProjectName, this`error
      ensures request == CreateProjectForm.ProjectRequest(old(newProjectName))
      ensures request.None? ==> projects == old(projects) && newProjectName == old(newProjectName) && error == old(error)
      ensures request.Some? && reply.Returned? && reply.value.Some? ==>
                projects == old(projects) + [reply.value.value] && newProjectName == [] && error == old(error)
      ensures request.Some? && !(reply.Returned? && reply.value.Some?) ==>
                projects == old(projects) && newProjectName == old(newProjectName) &&
                error == Some(CreateProjectForm.CreateProjectError)
    {
      request := CreateProjectForm.ProjectRequest(newProjectName);
      if request.Some? {
        if reply.Returned? && reply.value.Some? {
          projects := projects + [reply.value.value];
          newProjectName := [];
        } else {
          error := Some(CreateProjectForm.CreateProjectError);
        }
      }
    }

    /** `handleAddIssue`: nothing is sent for a blank title or an empty selection;
        a returned issue is appended and the draft reset; null or a rejection
        sets the error and keeps the rest. */
    method AddIssue(reply: Reply<Option<Issue>>) returns (request: Option<NewIssue>)
      modifies this`issues, this`newIssue, this`error
      ensures request == CreateIssueForm.IssueRequest(old(newIssue), old(selectedProjects))
      ensures request.None? ==> issues == old(issues) && newIssue == old(newIssue) && error == old(error)
      ensures request.Some? && reply.Returned? && reply.value.Some? ==>
                issues == old(issues) + [reply.value.value] && newIssue == CreateIssueForm.EmptyDraft && error == old(error)
      ensures request.Some? && !(reply.Returned? && reply.value.Some?) ==>
                issues == old(issues) && newIssue == old(newIssue) && error == Some(CreateIssueForm.CreateIssueError)
    {
      var draft, selected := newIssue, selectedProjects;
      request := CreateIssueForm.IssueRequest(draft, selected);
      if request.Some? {
        if reply.Returned? && reply.value.Some? {
          issues := issues + [reply.value.value];
          newIssue := CreateIssueForm.EmptyDraft;
        } else {
          error := Some(CreateIssueForm.CreateIssueError);
        }
      }
    }

    /** `handleDeleteIssue`: on `true` every issue with the id goes, the others stay
        in order; on `false` or a rejection the list stays and the error is set. */
    method DeleteIssue(id: string, reply: Reply<bool>)
      modifies this`issues, this`error
      ensures reply == Returned(true) ==> issues == WithoutIssue(old(issues), id) && error == old(error)
      ensures reply != Returned(true) ==> issues == old(issues) && error == Some(DeleteIssueError)
    {
      if reply == Returned(true) {
        issues := WithoutIssue(issues, id);
      } else {
        error := Some(DeleteIssueError);
      }
    }

    /** `handleToggleIssue` up to its `await`: an unknown id changes nothing and
        sends nothing; otherwise the negation of the first match's `done` is
        applied to every match and sent. */
    method BeginToggle(id: string) returns (sent: Option<bool>)
      modifies this`issues
      ensures FindIssue(old(issues), id).None? ==> sent.None? && issues == old(issues)
      ensures FindIssue(old(issues), id).Some? ==>
                sent == Some(!FindIssue(old(issues), id).value.done) && issues == Optimistic(old(issues), id, sent.value)
    {
      match FindIssue(issues, id)
      case None =>
        sent := None;
      case Some(issue) =>
        sent := Some(!issue.done);
        issues := Optimistic(issues, id, !issue.done);
    }

    /** `handleToggleIssue` after its `await`: a returned record replaces every
        match; null keeps the optimistic list; a rejection keeps it too and sets
        the local-only warning. */
    method FinishToggle(id: string, reply: Reply<Option<Issue>>)
      modifies this`issues, this`error
      ensures reply.Returned? && reply.value.Some? ==> issues == Replaced(old(issues), id, reply.value.value) && error == old(error)
      ensures reply.Returned? && reply.value.None? ==> issues == old(issues) && error == old(error)
      ensures reply.Threw? ==> issues == old(issues) && error == Some(LocalOnlyWarning)
    {
      match reply
      case Returned(Some(server)) =>
        issues := Replaced(issues, id, server);
      case Returned(None) =>
      case Threw =>
        error := Some(LocalOnlyWarning);
    }

    /** The whole toggle: the two updates of `issues` in sequence. */
    method ToggleIssue(id: string, reply: Reply<Option<Issue>>) returns (sent: Option<bool>)
      modifies this`issues, this`error
      ensures FindIssue(old(issues), id).None? ==> sent.None? && issues == old(issues) && error == old(error)
      ensures FindIssue(old(issues), id).Some? ==> sent == Some(!FindIssue(old(issues), id).value.done)
      ensures sent.Some? && reply.Returned? && reply.value.Some? ==>
                issues == Replaced(old(issues), id, reply.value.value) && error == old(error)
      ensures sent.Some? && reply.Returned? && reply.value.None? ==>
                issues == Optimistic(old(issues), id, sent.value) && error == old(error)
      ensures sent.Some? && reply.Threw? ==>
                issues == Optimistic(old(issues), id, sent.value) && error == Some(LocalOnlyWarning)
    {
      sent := BeginToggle(id);
      if sent.Some? {
        FinishToggle(id, reply);
        if reply.Returned? && reply.value.Some? {
          ReplacedOverridesOptimistic(old(issues), id, sent.value, reply.value.value);
        }
      }
    }

    /** The select's `onChange`: the selection becomes the reported values. */
    method SelectProjects(values: seq<string>)
      modifies this`selectedProjects
      ensures selectedProjects == values
    {
      selectedProjects := values;
    }

    method SetNewProjectName(value: string)
      modifies this`newProjectName
      ensures newProjectName == value
    {
      newProjectName := value;
    }

    /** `setNewIssue({...newIssue, field: value})`: only that field changes. */
    method SetNewIssueField(f: CreateIssueForm.Field, value: string)
      modifies this`newIssue
      ensures newIssue == CreateIssueForm.WithField(old(newIssue), f, value)
    {
      newIssue := CreateIssueForm.WithField(newIssue, f, value);
    }

    /** The alert's close button. */
    method DismissError()
      modifies this`error
      ensures error.None?
    {
      error := None;
    }

    /** `getProjectName` of App: the first project with the id names it, else "Kein Projekt". */
    function ProjectName(projectId: string): (r: string)
      reads this
      ensures (forall k :: 0 <= k < |projects| ==> projects[k].id != projectId) ==> r == IssuesListView.NoProject
      ensures forall k :: (0 <= k < |projects| && projects[k].id == projectId &&
                           forall j :: 0 <= j < k ==> projects[j].id != projectId) ==> r == projects[k].name
    {
      IssuesListView.ProjectName(projects, projectId)
    }
  }
}
