/** The REST adapter (src/services/api.ts). The JSON server stores projects and
    issues in its own shape (`RawProject`, `RawIssue`); the adapter maps them to
    the client's `Project` and `Issue`, allocates numeric keys, resolves issue
    owners and builds PATCH bodies. Every HTTP exchange is a parameter: its parsed
    body, an error status, or a rejected promise. */
module Api {
  import opened Lists
  import opened Text

  /** A project as the client holds it. */
  datatype Project = Project(id: string, name: string)

  /** An issue as the client holds it; `projectId` is a project's `id` or "". */
  datatype Issue = Issue(id: string, title: string, priority: string, dueDate: string, done: bool, projectId: string)

  /** A project as the server stores it. `id` is the server's numeric key (a decimal
      string on the wire, held here by its value); `clientId` is what the client
      uses as `Project.id`. */
  datatype RawProject = RawProject(id: int, clientId: string, title: string, active: bool)

  /** An issue as the server stores it; `projectNo` is the numeric key of its project
      (the wire field `project_id`). */
  datatype RawIssue = RawIssue(id: int, clientId: string, projectNo: int, done: bool, title: string, dueDate: string, priority: int)

  /** The argument of `createIssue`: an issue without its id. */
  datatype NewIssue = NewIssue(title: string, priority: string, dueDate: string, done: bool, projectId: string)

  /** The fields of a `Partial<Issue>` that `updateIssue` reads. */
  datatype IssueChanges = IssueChanges(done: Option<bool>, title: Option<string>, dueDate: Option<string>, priority: Option<string>)

  /** The PATCH body `updateIssue` sends; a priority is whatever `parseInt` made of the text. */
  datatype RawChanges = RawChanges(done: Option<bool>, title: Option<string>, dueDate: Option<string>, priority: Option<Num>)

  /** How one HTTP exchange inside the adapter ended: a parsed JSON body, a response
      whose `ok` is false, or a rejected `fetch` or `json()`. */
  datatype Response<T> = Ok(body: T) | HttpError | NetworkError

  /** How a call into the adapter settles for its caller: resolved with a value, or rejected. */
  datatype Reply<T> = Returned(value: T) | Threw

  /** What a creation form reports to its parent once the call has settled: the
      created record (`onProjectCreated`, `onIssueCreated`) or an error text (`onError`). */
  datatype Notice<T> = Created(value: T) | Failed(message: string)

  // ---------------------------------------------------------------- transforms

  function TransformProject(raw: RawProject): (p: Project)
    ensures p.id == raw.clientId && p.name == raw.title
  {
    Project(raw.clientId, raw.title)
  }

  /** The owner is left empty (`getIssues` fills it in) and the numeric priority
      becomes its decimal text, which `parseInt` reads back unchanged. */
  function TransformIssue(raw: RawIssue): (i: Issue)
    ensures i.id == raw.clientId && i.title == raw.title && i.dueDate == raw.dueDate && i.done == raw.done
    ensures i.projectId == ""
    ensures i.priority == IntToString(raw.priority) && ParseInt(i.priority) == Num(raw.priority)
  {
    ParseIntOfIntToString(raw.priority, "");
    assert IntToString(raw.priority) + "" == IntToString(raw.priority);
    Issue(raw.clientId, raw.title, IntToString(raw.priority), raw.dueDate, raw.done, "")
  }

  // ---------------------------------------------------------------- projects

  /** `getProjects`: the active server projects, transformed; `[]` on any failure. */
  function GetProjects(fetched: Response<seq<RawProject>>): (r: seq<Project>)
    ensures !fetched.Ok? ==> r == []
    ensures fetched.Ok? ==> |r| <= |fetched.body|
    ensures fetched.Ok? ==> forall k :: 0 <= k < |fetched.body| && fetched.body[k].active ==>
      TransformProject(fetched.body[k]) in r
    ensures fetched.Ok? ==> forall k :: 0 <= k < |r| ==>
      exists j :: 0 <= j < |fetched.body| && fetched.body[j].active && r[k] == TransformProject(fetched.body[j])
  {
    if fetched.Ok? then ActiveProjects(fetched.body) else []
  }

  function ActiveProjects(raws: seq<RawProject>): (r: seq<Project>)
    ensures |r| <= |raws|
    ensures forall k :: 0 <= k < |raws| && raws[k].active ==> TransformProject(raws[k]) in r
    ensures forall k :: 0 <= k < |r| ==> exists j :: 0 <= j < |raws| && raws[j].active && r[k] == TransformProject(raws[j])
  {
    var active := Filter(raws, (p: RawProject) => p.active);
    var r := Map(active, TransformProject);
    assert forall k :: 0 <= k < |r| ==> active[k] in raws && r[k] == TransformProject(active[k]);
    assert forall k :: 0 <= k < |raws| && raws[k].active ==> raws[k] in active;
    r
  }

  /** Order: the projects of two server lists in a row are those of each, in a row;
      together with the single-record case this pins `getProjects` down completely. */
  lemma ActiveProjectsConcat(a: seq<RawProject>, b: seq<RawProject>)
    ensures ActiveProjects(a + b) == ActiveProjects(a) + ActiveProjects(b)
    ensures ActiveProjects([]) == []
    ensures forall p :: ActiveProjects([p]) == if p.active then [TransformProject(p)] else []
  {
    FilterConcat(a, b, (p: RawProject) => p.active);
    MapConcat(Filter(a, (p: RawProject) => p.active), Filter(b, (p: RawProject) => p.active), TransformProject);
  }

  /** `Math.max(...ids, -1) + 1`: the key of the next record. */
  function NextId(ids: seq<int>): (r: int)
    ensures r >= 0
    ensures forall k :: 0 <= k < |ids| ==> ids[k] < r
    ensures r == 0 || exists k :: 0 <= k < |ids| && ids[k] == r - 1
  {
    MaxOr(ids, -1) + 1
  }

  function ProjectKeys(raws: seq<RawProject>): (r: seq<int>)
    ensures |r| == |raws| && forall k :: 0 <= k < |raws| ==> r[k] == raws[k].id
  {
    Map(raws, (p: RawProject) => p.id)
  }

  function IssueKeys(raws: seq<RawIssue>): (r: seq<int>)
    ensures |r| == |raws| && forall k :: 0 <= k < |raws| ==> r[k] == raws[k].id
  {
    Map(raws, (i: RawIssue) => i.id)
  }

  /** The record `createProject` posts: a key above every existing one, the given
      client id (a fresh UUID in the source), the name as title, active. */
  function NewProjectRecord(existing: seq<RawProject>, name: string, uuid: string): (r: RawProject)
    ensures r.clientId == uuid && r.title == name && r.active
    ensures r.id >= 0 && forall k :: 0 <= k < |existing| ==> existing[k].id < r.id
  {
    RawProject(NextId(ProjectKeys(existing)), uuid, name, true)
  }

  /** `createProject`: `None` (the source's `null`) when listing the existing
      projects or posting the new one fails, else the server's echo, transformed. */
  function CreateProject(existing: Response<seq<RawProject>>, name: string, uuid: string, created: Response<RawProject>): (r: Option<Project>)
    ensures r.Some? <==> existing.Ok? && created.Ok?
    ensures r.Some? ==> r.value.id == created.body.clientId && r.value.name == created.body.title
  {
    if existing.Ok? && created.Ok? then Some(TransformProject(created.body)) else None
  }

  /** When the server stores and echoes the posted record, the client gets back a
      project with the given id and name, and the next `getProjects` lists exactly
      the previous projects followed by it. */
  lemma CreateProjectRoundTrip(existing: seq<RawProject>, name: string, uuid: string)
    ensures CreateProject(Ok(existing), name, uuid, Ok(NewProjectRecord(existing, name, uuid))) == Some(Project(uuid, name))
    ensures GetProjects(Ok(existing + [NewProjectRecord(existing, name, uuid)])) == GetProjects(Ok(existing)) + [Project(uuid, name)]
  {
    ActiveProjectsConcat(existing, [NewProjectRecord(existing, name, uuid)]);
  }

  function FindRawProject(raws: seq<RawProject>, clientId: string): (r: Option<RawProject>)
    ensures r.None? <==> forall k :: 0 <= k < |raws| ==> raws[k].clientId != clientId
    ensures r.Some? ==> r.value.clientId == clientId
    ensures r.Some? ==> exists k :: (0 <= k < |raws| && raws[k] == r.value &&
                                     forall j :: 0 <= j < k ==> raws[j].clientId != clientId)
  {
    Find(raws, (p: RawProject) => p.clientId == clientId)
  }

  /** `deleteProject`: true only when the project is found by client id and the
      PATCH setting it inactive is answered with an ok status. */
  function DeleteProject(fetched: Response<seq<RawProject>>, id: string, patched: Response<()>): (ok: bool)
    ensures ok <==> fetched.Ok? && (exists k :: 0 <= k < |fetched.body| && fetched.body[k].clientId == id) && patched.Ok?
  {
    fetched.Ok? && FindRawProject(fetched.body, id).Some? && patched.Ok?
  }

  // ---------------------------------------------------------------- project keys to client ids

  /** `new Map(raws.map(p => [key, client_id]))`: a key seen twice keeps the later entry. */
  function IdMap(raws: seq<RawProject>): (m: map<int, string>)
    ensures forall n :: n in m <==> exists j :: 0 <= j < |raws| && raws[j].id == n
  {
    if raws == [] then map[]
    else
      var last := raws[|raws| - 1];
      var m := IdMap(raws[..|raws| - 1])[last.id := last.clientId];
      assert forall j :: 0 <= j < |raws| - 1 ==> raws[..|raws| - 1][j] == raws[j];
      m
  }

  /** The entry for a key is the client id of the last project carrying that key. */
  lemma {:induction false} IdMapLastWins(raws: seq<RawProject>, n: int)
    requires n in IdMap(raws)
    ensures exists j :: (0 <= j < |raws| && raws[j].id == n && IdMap(raws)[n] == raws[j].clientId &&
                         forall j' :: j < j' < |raws| ==> raws[j'].id != n)
  {
    var last := raws[|raws| - 1];
    var init := raws[..|raws| - 1];
    if last.id != n {
      IdMapLastWins(init, n);
      var j :| 0 <= j < |init| && init[j].id == n && IdMap(init)[n] == init[j].clientId &&
        forall j' :: j < j' < |init| ==> init[j'].id != n;
      assert raws[j] == init[j];
      assert forall j' :: j < j' < |raws| ==> raws[j'].id != n by {
        forall j' | j < j' < |raws| ensures raws[j'].id != n {
          if j' < |init| { assert raws[j'] == init[j']; }
        }
      }
    } else {
      assert IdMap(raws)[n] == raws[|raws| - 1].clientId;
    }
  }

  /** The same map built the way the source builds it, one entry at a time. */
  method BuildIdMap(raws: seq<RawProject>) returns (m: map<int, string>)
    ensures m == IdMap(raws)
  {
    m := map[];
    var i := 0;
    while i < |raws|
      invariant 0 <= i <= |raws|
      invariant m == IdMap(raws[..i])
    {
      assert raws[..i + 1][..i] == raws[..i];
      m := m[raws[i].id := raws[i].clientId];
      i := i + 1;
    }
    assert raws[..|raws|] == raws;
  }

  /** `projectIdMap.get(projectNo) || ''`: the client id of the last project with
      that key, or "" when no project has it. */
  function ClientIdOf(raws: seq<RawProject>, projectNo: int): (r: string)
    ensures (forall j :: 0 <= j < |raws| ==> raws[j].id != projectNo) ==> r == ""
    ensures forall j :: (0 <= j < |raws| && raws[j].id == projectNo &&
                         (forall j' :: j < j' < |raws| ==> raws[j'].id != projectNo)) ==> r == raws[j].clientId
  {
    var m := IdMap(raws);
    if projectNo in m then
      IdMapLastWins(raws, projectNo);
      m[projectNo]
    else ""
  }

  // ---------------------------------------------------------------- issues

  /** One server issue as `getIssues` returns it: transformed, owner resolved. */
  function JoinIssue(projects: seq<RawProject>, raw: RawIssue): (i: Issue)
    ensures i.id == raw.clientId && i.title == raw.title && i.dueDate == raw.dueDate && i.done == raw.done
    ensures i.priority == IntToString(raw.priority)
    ensures (forall j :: 0 <= j < |projects| ==> projects[j].id != raw.projectNo) ==> i.projectId == ""
    ensures forall j :: (0 <= j < |projects| && projects[j].id == raw.projectNo &&
                         (forall j' :: j < j' < |projects| ==> projects[j'].id != raw.projectNo)) ==> i.projectId == projects[j].clientId
  {
    TransformIssue(raw).(projectId := ClientIdOf(projects, raw.projectNo))
  }

  /** `getIssues`: one issue per server issue, in order, each owned by the project
      whose key is its `project_id`; `[]` when either list cannot be fetched. */
  function GetIssues(issuesF: Response<seq<RawIssue>>, projectsF: Response<seq<RawProject>>): (r: seq<Issue>)
    ensures !(issuesF.Ok? && projectsF.Ok?) ==> r == []
    ensures issuesF.Ok? && projectsF.Ok? ==> |r| == |issuesF.body|
    ensures issuesF.Ok? && projectsF.Ok? ==> forall k :: 0 <= k < |r| ==> r[k] == JoinIssue(projectsF.body, issuesF.body[k])
  {
    if issuesF.Ok? && projectsF.Ok? then
      var projects := projectsF.body;
      Map(issuesF.body, (raw: RawIssue) => JoinIssue(projects, raw))
    else []
  }

  /** `getIssuesByProject`: exactly the issues of `getIssues` owned by `projectId`, in order. */
  function IssuesByProject(issuesF: Response<seq<RawIssue>>, projectsF: Response<seq<RawProject>>, projectId: string): (r: seq<Issue>)
    ensures forall k :: 0 <= k < |r| ==> r[k].projectId == projectId && r[k] in GetIssues(issuesF, projectsF)
    ensures forall i :: i in GetIssues(issuesF, projectsF) && i.projectId == projectId ==> i in r
    ensures IsSubseq(r, GetIssues(issuesF, projectsF))
  {
    var all := GetIssues(issuesF, projectsF);
    FilterIsSubseq(all, (i: Issue) => i.projectId == projectId);
    Filter(all, (i: Issue) => i.projectId == projectId)
  }

  /** Order and multiplicity: the owned issues of two server lists in a row are
      those of each, in a row, and a single server issue is kept exactly when its
      joined owner is `projectId`. */
  lemma IssuesByProjectConcat(a: seq<RawIssue>, b: seq<RawIssue>, projects: seq<RawProject>, projectId: string)
    ensures IssuesByProject(Ok(a + b), Ok(projects), projectId) ==
            IssuesByProject(Ok(a), Ok(projects), projectId) + IssuesByProject(Ok(b), Ok(projects), projectId)
    ensures IssuesByProject(Ok([]), Ok(projects), projectId) == []
    ensures forall raw ::
              IssuesByProject(Ok([raw]), Ok(projects), projectId) ==
              (var i := JoinIssue(projects, raw); if i.projectId == projectId then [i] else [])
  {
    var join := (raw: RawIssue) => JoinIssue(projects, raw);
    MapConcat(a, b, join);
    FilterConcat(Map(a, join), Map(b, join), (i: Issue) => i.projectId == projectId);
  }

  /** `parseInt(text) || 0`: text that does not start with a number becomes 0. */
  function PriorityNumber(text: string): (n: int)
    ensures ParseInt(text).Num? ==> n == ParseInt(text).value
    ensures ParseInt(text).NaN? ==> n == 0
  {
    match ParseInt(text)
    case Num(v) => v
    case NaN => 0
  }

  function FindRawIssue(raws: seq<RawIssue>, clientId: string): (r: Option<RawIssue>)
    ensures r.None? <==> forall k :: 0 <= k < |raws| ==> raws[k].clientId != clientId
    ensures r.Some? ==> r.value.clientId == clientId
    ensures r.Some? ==> exists k :: (0 <= k < |raws| && raws[k] == r.value &&
                                     forall j :: 0 <= j < k ==> raws[j].clientId != clientId)
  {
    Find(raws, (i: RawIssue) => i.clientId == clientId)
  }

  /** The record `createIssue` posts, or `None` when no project has the requested
      client id (the source throws 'Project not found'). */
  function NewIssueRecord(existing: seq<RawIssue>, projects: seq<RawProject>, req: NewIssue, uuid: string): (r: Option<RawIssue>)
    ensures r.None? <==> forall k :: 0 <= k < |projects| ==> projects[k].clientId != req.projectId
    ensures r.Some? ==> r.value.clientId == uuid && r.value.title == req.title && r.value.dueDate == req.dueDate
    ensures r.Some? ==> r.value.done == req.done && r.value.priority == PriorityNumber(req.priority)
    ensures r.Some? ==> r.value.id >= 0 && forall k :: 0 <= k < |existing| ==> existing[k].id < r.value.id
    ensures r.Some? ==> exists k :: (0 <= k < |projects| && projects[k].clientId == req.projectId && projects[k].id == r.value.projectNo &&
                                     forall j :: 0 <= j < k ==> projects[j].clientId != req.projectId)
  {
    match FindRawProject(projects, req.projectId)
    case None => None
    case Some(p) =>
      Some(RawIssue(NextId(IssueKeys(existing)), uuid, p.id, req.done, req.title, req.dueDate, PriorityNumber(req.priority)))
  }

  /** `createIssue`: `None` when a fetch or the post fails or the project is unknown;
      otherwise the server's echo, transformed, owned by the requested project. */
  function CreateIssue(existingF: Response<seq<RawIssue>>, projectsF: Response<seq<RawProject>>, req: NewIssue, uuid: string,
                       created: Response<RawIssue>): (r: Option<Issue>)
    ensures projectsF.Ok? && (forall k :: 0 <= k < |projectsF.body| ==> projectsF.body[k].clientId != req.projectId) ==> r.None?
    ensures r.Some? <==> existingF.Ok? && projectsF.Ok? && NewIssueRecord(existingF.body, projectsF.body, req, uuid).Some? && created.Ok?
    ensures r.Some? ==> r.value == TransformIssue(created.body).(projectId := req.projectId)
  {
    if existingF.Ok? && projectsF.Ok? && NewIssueRecord(existingF.body, projectsF.body, req, uuid).Some? && created.Ok? then
      Some(TransformIssue(created.body).(projectId := req.projectId))
    else None
  }

  /** When the server echoes the posted record, the client gets the requested issue
      back under the new client id, its priority normalised to the decimal text of
      `parseInt(priority) || 0`. */
  lemma CreateIssueRoundTrip(existing: seq<RawIssue>, projects: seq<RawProject>, req: NewIssue, uuid: string)
    requires exists k :: 0 <= k < |projects| && projects[k].clientId == req.projectId
    ensures NewIssueRecord(existing, projects, req, uuid).Some?
    ensures CreateIssue(Ok(existing), Ok(projects), req, uuid, Ok(NewIssueRecord(existing, projects, req, uuid).value))
      == Some(Issue(uuid, req.title, IntToString(PriorityNumber(req.priority)), req.dueDate, req.done, req.projectId))
  {
  }

  /** A priority written as a non-negative decimal number survives creation unchanged. */
  lemma NumericPriorityRoundTrip(n: nat)
    ensures IntToString(PriorityNumber(NatToString(n))) == NatToString(n)
  {
    ParseIntOfNat(n, "");
    assert NatToString(n) + "" == NatToString(n);
  }

  /** The priorities the form offers survive the round trip; "no priority" comes back as "0". */
  lemma PriorityRoundTrip()
    ensures IntToString(PriorityNumber("1")) == "1"
    ensures IntToString(PriorityNumber("2")) == "2"
    ensures IntToString(PriorityNumber("3")) == "3"
    ensures IntToString(PriorityNumber("")) == "0"
  {
    assert NatToString(1) == "1";
    NumericPriorityRoundTrip(1);
    assert NatToString(2) == "2";
    NumericPriorityRoundTrip(2);
    assert NatToString(3) == "3";
    NumericPriorityRoundTrip(3);
    EmptyPriorityIsZero();
  }

  /** `parseInt('') || 0` is 0, which reads back as "0". */
  lemma EmptyPriorityIsZero()
    ensures IntToString(PriorityNumber("")) == "0"
  {
    assert ParseInt("") == NaN;
    assert IntToString(0) == "0";
  }

  /** The PATCH body of `updateIssue`, built field by field: `done` whenever it is
      given (false included), the other fields only when their text is non-empty. */
  method BuildRawChanges(updates: IssueChanges) returns (raw: RawChanges)
    ensures raw.done == updates.done
    ensures raw.title.Some? <==> updates.title.Some? && updates.title.value != ""
    ensures raw.title.Some? ==> raw.title == updates.title
    ensures raw.dueDate.Some? <==> updates.dueDate.Some? && updates.dueDate.value != ""
    ensures raw.dueDate.Some? ==> raw.dueDate == updates.dueDate
    ensures raw.priority.Some? <==> updates.priority.Some? && updates.priority.value != ""
    ensures raw.priority.Some? ==> raw.priority.value == ParseInt(updates.priority.value)
  {
    raw := RawChanges(None, None, None, None);
    if updates.done.Some? {
      raw := raw.(done := updates.done);
    }
    if updates.title.Some? && updates.title.value != "" {
      raw := raw.(title := updates.title);
    }
    if updates.dueDate.Some? && updates.dueDate.value != "" {
      raw := raw.(dueDate := updates.dueDate);
    }
    if updates.priority.Some? && updates.priority.value != "" {
      raw := raw.(priority := Some(ParseInt(updates.priority.value)));
    }
  }

  /** `updateIssue`: `None` when the issue list cannot be fetched, no issue has the
      client id, the PATCH fails, or the project list fetch is rejected; otherwise
      the server's record, its owner resolved from the project list, or "" when
      that list came back with an error status. */
  function UpdateIssue(issuesF: Response<seq<RawIssue>>, id: string, patched: Response<RawIssue>,
                       projectsF: Response<seq<RawProject>>): (r: Option<Issue>)
    ensures issuesF.Ok? && (forall k :: 0 <= k < |issuesF.body| ==> issuesF.body[k].clientId != id) ==> r.None?
    ensures r.Some? <==> issuesF.Ok? && FindRawIssue(issuesF.body, id).Some? && patched.Ok? && !projectsF.NetworkError?
    ensures r.Some? && projectsF.Ok? ==> r.value == JoinIssue(projectsF.body, patched.body)
    ensures r.Some? && projectsF.HttpError? ==> r.value == TransformIssue(patched.body)
  {
    if !issuesF.Ok? || FindRawIssue(issuesF.body, id).None? || !patched.Ok? then None
    else match projectsF
      case Ok(projects) => Some(JoinIssue(projects, patched.body))
      case HttpError => Some(TransformIssue(patched.body))
      case NetworkError => None
  }

  /** `deleteIssue`: true only when the issue is found by client id and the DELETE
      is answered with an ok status. */
  function DeleteIssue(fetched: Response<seq<RawIssue>>, id: string, deleted: Response<()>): (ok: bool)
    ensures ok <==> fetched.Ok? && (exists k :: 0 <= k < |fetched.body| && fetched.body[k].clientId == id) && deleted.Ok?
  {
    fetched.Ok? && FindRawIssue(fetched.body, id).Some? && deleted.Ok?
  }
}
