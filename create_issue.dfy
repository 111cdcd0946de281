/** The issue form (src/components/CreateIssue.tsx): a draft of title, priority
    and due date, the validity guard, the payload it builds, and the
    `isCreating` flag raised for the duration of the call. */
module CreateIssueForm {
  import opened Lists
  import opened Text
  import opened Api

  const CreateIssueError := "Fehler beim Erstellen des Issues"

  /** The `newIssue` state: the three inputs as typed. */
  datatype Draft = Draft(title: string, priority: string, dueDate: string)

  const EmptyDraft := Draft([], [], [])

  /** The field names `updateIssue` is called with. */
  datatype Field = Title | Priority | DueDate

  function FieldOf(d: Draft, f: Field): string {
    match f
    case Title => d.title
    case Priority => d.priority
    case DueDate => d.dueDate
  }

  /** `setNewIssue(prev => ({ ...prev, [field]: value }))`. */
  function WithField(d: Draft, f: Field, value: string): (r: Draft)
    ensures FieldOf(r, f) == value
    ensures forall g: Field :: g != f ==> FieldOf(r, g) == FieldOf(d, g)
  {
    match f
    case Title => d.(title := value)
    case Priority => d.(priority := value)
    case DueDate => d.(dueDate := value)
  }

  /** `isFormValid`: a title that is not blank, and at least one selected project. */
  predicate IsFormValid(d: Draft, selected: seq<string>)
    ensures IsFormValid(d, selected) <==>
              selected != [] && !Blank(d.title)
  {
    Trim(d.title) != [] && |selected| > 0
  }

  /** The issue `handleAddIssue` sends, or `None` when it returns at once. */
  function IssueRequest(d: Draft, selected: seq<string>): (r: Option<NewIssue>)
    ensures r.Some? <==> IsFormValid(d, selected)
    ensures r.Some? ==> r.value.title == Trim(d.title) && r.value.title != []
    ensures r.Some? ==> r.value.priority == d.priority && r.value.dueDate == d.dueDate
    ensures r.Some? ==> !r.value.done && r.value.projectId == selected[0]
  {
    if IsFormValid(d, selected) then
      Some(NewIssue(Trim(d.title), d.priority, d.dueDate, false, selected[0]))
    else None
  }

  /** The title sent is already trimmed: typing it back into the form would send
      the same issue. */
  lemma IssueRequestStable(d: Draft, selected: seq<string>)
    requires IssueRequest(d, selected).Some?
    ensures IssueRequest(d.(title := IssueRequest(d, selected).value.title), selected) == IssueRequest(d, selected)
  {
    TrimIdempotent(d.title);
  }

  /** `disabled={!isFormValid || isCreating}`, negated. */
  predicate ButtonEnabled(d: Draft, selected: seq<string>, isCreating: bool)
    ensures ButtonEnabled(d, selected, isCreating) <==>
              !isCreating && selected != [] && !Blank(d.title)
  {
    IsFormValid(d, selected) && !isCreating
  }

  /** The button is enabled exactly when a click would send a request. */
  lemma ButtonEnabledIffSends(d: Draft, selected: seq<string>, isCreating: bool)
    ensures ButtonEnabled(d, selected, isCreating) <==> !isCreating && IssueRequest(d, selected).Some?
  {
  }

  class Form {
    var draft: Draft
    var isCreating: bool

    constructor()
      ensures draft == EmptyDraft && !isCreating
    {
      draft := EmptyDraft;
      isCreating := false;
    }

    /** `updateIssue(field, value)`: only the named field changes. */
    method Update(f: Field, value: string)
      modifies this`draft
      ensures draft == WithField(old(draft), f, value)
    {
      draft := WithField(draft, f, value);
    }

    /** `handleAddIssue` up to its `await`. */
    method BeginAdd(selected: seq<string>) returns (request: Option<NewIssue>)
      modifies this`isCreating
      ensures request == IssueRequest(draft, selected)
      ensures request.Some? ==> isCreating
      ensures request.None? ==> isCreating == old(isCreating)
    {
      request := IssueRequest(draft, selected);
      if request.Some? {
        isCreating := true;
      }
    }

    /** `handleAddIssue` after its `await`: a returned issue goes to the parent and
        the draft is reset; null or a rejection reports the fixed error and keeps
        the draft; `isCreating` drops on every path. */
    method FinishAdd(reply: Reply<Option<Issue>>) returns (notice: Notice<Issue>)
      modifies this`draft, this`isCreating
      ensures !isCreating
      ensures reply.Returned? && reply.value.Some? ==> notice == Created(reply.value.value) && draft == EmptyDraft
      ensures !(reply.Returned? && reply.value.Some?) ==> notice == Failed(CreateIssueError) && draft == old(draft)
    {
      if reply.Returned? && reply.value.Some? {
        notice := Created(reply.value.value);
        draft := EmptyDraft;
      } else {
        notice := Failed(CreateIssueError);
      }
      isCreating := false;
    }

    /** `handleKeyPress`: Enter starts a creation unless one is under way. */
    method KeyPress(key: string, selected: seq<string>) returns (request: Option<NewIssue>)
      modifies this`isCreating
      ensures key == "Enter" && !old(isCreating) ==> request == IssueRequest(draft, selected) && (request.Some? <==> isCreating)
      ensures !(key == "Enter" && !old(isCreating)) ==> request.None? && isCreating == old(isCreating)
    {
      request := None;
      if key == "Enter" && !isCreating {
        request := BeginAdd(selected);
      }
    }

    /** A whole creation: the request sent, and what the parent hears once `reply`
        has settled. The form ends idle either way. */
    method AddIssue(selected: seq<string>, reply: Reply<Option<Issue>>) returns (request: Option<NewIssue>, notice: Option<Notice<Issue>>)
      modifies this`draft, this`isCreating
      ensures request == IssueRequest(old(draft), selected)
      ensures request.None? ==> notice.None? && draft == old(draft) && isCreating == old(isCreating)
      ensures request.Some? ==> notice.Some? && !isCreating
      ensures request.Some? && reply.Returned? && reply.value.Some? ==>
                notice == Some(Created(reply.value.value)) && draft == EmptyDraft
      ensures request.Some? && !(reply.Returned? && reply.value.Some?) ==>
                notice == Some(Failed(CreateIssueError)) && draft == old(draft)
    {
      request := BeginAdd(selected);
      notice := None;
      if request.Some? {
        var n := FinishAdd(reply);
        notice := Some(n);
      }
    }
  }
}
