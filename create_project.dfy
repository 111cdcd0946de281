/** The project form (src/components/CreateProject.tsx): a name field, an
    `isCreating` flag raised for the duration of the call, and the button rule. */
module CreateProjectForm {
  import opened Lists
  import opened Text
  import opened Api

  const CreateProjectError := "Fehler beim Erstellen des Projekts"

  /** The name `handleAddProject` sends, or `None` when it returns at once because
      the name is blank. */
  function ProjectRequest(name: string): (r: Option<string>)
    ensures r.None? <==> forall k :: 0 <= k < |name| ==> IsWhitespace(name[k])
    ensures r.Some? ==> r.value == Trim(name) && r.value != []
  {
    var t := Trim(name);
    if t == [] then None else Some(t)
  }

  /** The name sent is already trimmed: typing it back in would send the same name. */
  lemma ProjectRequestStable(name: string)
    requires ProjectRequest(name).Some?
    ensures ProjectRequest(ProjectRequest(name).value) == ProjectRequest(name)
  {
    TrimIdempotent(name);
  }

  /** A name typed with spaces around it is sent without them. */
  lemma PaddedNameTrimmed()
    ensures ProjectRequest("  Test Project  ") == Some("Test Project")
  {
    assert "  Test Project  " == "  " + "Test Project" + "  ";
    TrimOfPadded("  ", "Test Project", "  ");
  }

  /** `disabled={!newProjectName.trim() || isCreating}`, negated. */
  predicate ButtonEnabled(name: string, isCreating: bool)
    ensures ButtonEnabled(name, isCreating) <==>
              !isCreating && !Blank(name)
  {
    Trim(name) != [] && !isCreating
  }

  /** The button is enabled exactly when a click would send a request. */
  lemma ButtonEnabledIffSends(name: string, isCreating: bool)
    ensures ButtonEnabled(name, isCreating) <==> !isCreating && ProjectRequest(name).Some?
  {
  }

  class Form {
    var name: string
    var isCreating: bool

    constructor()
      ensures name == [] && !isCreating
    {
      name := [];
      isCreating := false;
    }

    /** The input's `onChange`. */
    method SetName(value: string)
      modifies this`name
      ensures name == value
    {
      name := value;
    }

    /** `handleAddProject` up to its `await`: nothing happens for a blank name;
        otherwise `isCreating` goes up and the trimmed name is sent. */
    method BeginAdd() returns (request: Option<string>)
      modifies this`isCreating
      ensures request == ProjectRequest(name)
      ensures request.Some? ==> isCreating
      ensures request.None? ==> isCreating == old(isCreating)
    {
      request := ProjectRequest(name);
      if request.Some? {
        isCreating := true;
      }
    }

    /** `handleAddProject` after its `await`: a returned project is handed to the
        parent and the field cleared; null or a rejection reports the fixed error
        and keeps the name; `isCreating` drops on every path. */
    method FinishAdd(reply: Reply<Option<Project>>) returns (notice: Notice<Project>)
      modifies this`name, this`isCreating
      ensures !isCreating
      ensures reply.Returned? && reply.value.Some? ==> notice == Created(reply.value.value) && name == []
      ensures !(reply.Returned? && reply.value.Some?) ==> notice == Failed(CreateProjectError) && name == old(name)
    {
      if reply.Returned? && reply.value.Some? {
        notice := Created(reply.value.value);
        name := [];
      } else {
        notice := Failed(CreateProjectError);
      }
      isCreating := false;
    }

    /** `handleKeyPress`: Enter starts a creation unless one is under way. */
    method KeyPress(key: string) returns (request: Option<string>)
      modifies this`isCreating
      ensures key == "Enter" && !old(isCreating) ==> request == ProjectRequest(name) && (request.Some? <==> isCreating)
      ensures !(key == "Enter" && !old(isCreating)) ==> request.None? && isCreating == old(isCreating)
    {
      request := None;
      if key == "Enter" && !isCreating {
        request := BeginAdd();
      }
    }

    /** A whole creation as the user sees it: the request sent, and what the parent
        hears once `reply` has settled. The form ends idle either way. */
    method AddProject(reply: Reply<Option<Project>>) returns (request: Option<string>, notice: Option<Notice<Project>>)
      modifies this`name, this`isCreating
      ensures request == ProjectRequest(old(name))
      ensures request.None? ==> notice.None? && name == old(name) && isCreating == old(isCreating)
      ensures request.Some? ==> notice.Some? && !isCreating
      ensures request.Some? && reply.Returned? && reply.value.Some? ==> notice == Some(Created(reply.value.value)) && name == []
      ensures request.Some? && !(reply.Returned? && reply.value.Some?) ==>
                notice == Some(Failed(CreateProjectError)) && name == old(name)
    {
      request := BeginAdd();
      notice := None;
      if request.Some? {
        var n := FinishAdd(reply);
        notice := Some(n);
      }
    }
  }
}
