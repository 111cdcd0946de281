/** One row of the issue table (src/components/IssueRow.tsx): the checkbox and
    delete button wired to the issue's id, the owner label, the priority badge
    table, the due-date badge and the `done` styling. */
module IssueRowView {
  import opened Text
  import opened Api

  datatype Badge = Badge(text: string, classes: string)

  const HighBadge := Badge("🔴 Hoch", "badge bg-danger priority-badge")
  const MediumBadge := Badge("🟡 Mittel", "badge bg-warning priority-badge")
  const LowBadge := Badge("🟢 Niedrig", "badge bg-success priority-badge")
  const UnsetBadge := Badge("-", "badge bg-secondary priority-badge")

  const NoDueDate := "Kein Datum"
  const DueDateClasses := "badge border border-white text-white due-date-badge"
  const NoDueDateClasses := "badge bg-secondary due-date-badge"

  const DoneRowClass := "table-success bg-opacity-25"
  const DoneTitleClass := "text-decoration-line-through text-white"
  const OpenTitleClass := "text-light"

  /** The priority cell: four independent `cond && <span>` guards, rendered in order. */
  function PriorityBadges(priority: string): (r: seq<Badge>)
    ensures |r| <= 1
    ensures r == [] <==> priority != "" && priority != "1" && priority != "2" && priority != "3"
  {
    (if priority == "1" then [HighBadge] else [])
    + (if priority == "2" then [MediumBadge] else [])
    + (if priority == "3" then [LowBadge] else [])
    + (if priority == "" then [UnsetBadge] else [])
  }

  /** The decision table of the priority cell. */
  lemma PriorityBadgeTable(priority: string)
    ensures priority == "1" ==> PriorityBadges(priority) == [HighBadge]
    ensures priority == "2" ==> PriorityBadges(priority) == [MediumBadge]
    ensures priority == "3" ==> PriorityBadges(priority) == [LowBadge]
    ensures priority == "" ==> PriorityBadges(priority) == [UnsetBadge]
  {
  }

  /** An issue created with no priority shows "-" in the form's terms, but the
      server stores `parseInt('') || 0`, so the record read back carries "0"
      and its row shows no priority badge at all. */
  lemma UnsetPriorityLosesBadge()
    ensures PriorityBadges("") == [UnsetBadge]
    ensures PriorityBadges(IntToString(PriorityNumber(""))) == []
  {
    EmptyPriorityIsZero();
    assert PriorityBadges("0") == [];
  }

  /** The date shown in a badge: `formatDate` gives "" for an empty string and
      otherwise the locale rendering, which is left as the parameter `locale`. */
  function FormatDate(locale: string -> string, dateString: string): (r: string)
    ensures dateString == [] ==> r == []
  {
    if dateString == [] then [] else locale(dateString)
  }

  /** The due-date cell: the formatted date in an outlined badge, or "Kein Datum". */
  function DueDateBadge(dueDate: string, formatDate: string -> string): (r: Badge)
    ensures dueDate == [] <==> r.classes == NoDueDateClasses
    ensures dueDate == [] ==> r.text == NoDueDate
    ensures dueDate != [] ==> r.text == formatDate(dueDate)
  {
    if dueDate != [] then Badge(formatDate(dueDate), DueDateClasses) else Badge(NoDueDate, NoDueDateClasses)
  }

  function RowClass(done: bool): (r: string)
    ensures r == DoneRowClass <==> done
    ensures !done ==> r == []
  {
    if done then DoneRowClass else []
  }

  function TitleClass(done: bool): (r: string)
    ensures r == DoneTitleClass <==> done
    ensures !done ==> r == OpenTitleClass
  {
    if done then DoneTitleClass else OpenTitleClass
  }

  /** What a row shows and which id each of its controls reports. */
  datatype Row = Row(
    rowClass: string,
    checked: bool,
    toggleId: string,
    titleClass: string,
    title: string,
    projectLabel: string,
    projectWidth: nat,
    priority: seq<Badge>,
    priorityWidth: nat,
    dueDate: Badge,
    dueDateWidth: nat,
    deleteId: string)

  /** `IssueRow` as a function of its props. */
  function Render(issue: Issue, projectName: string -> string, formatDate: string -> string,
                  projectWidth: nat, priorityWidth: nat, dueDateWidth: nat): (r: Row)
    ensures r.toggleId == issue.id && r.deleteId == issue.id
    ensures r.projectLabel == projectName(issue.projectId)
    ensures r.checked == issue.done && r.title == issue.title
    ensures r.rowClass == DoneRowClass <==> issue.done
    ensures r.titleClass == DoneTitleClass <==> issue.done
    ensures r.priority == PriorityBadges(issue.priority) && |r.priority| <= 1
    ensures r.dueDate == DueDateBadge(issue.dueDate, formatDate)
    ensures r.projectWidth == projectWidth && r.priorityWidth == priorityWidth && r.dueDateWidth == dueDateWidth
  {
    Row(RowClass(issue.done), issue.done, issue.id, TitleClass(issue.done), issue.title,
        projectName(issue.projectId), projectWidth, PriorityBadges(issue.priority), priorityWidth,
        DueDateBadge(issue.dueDate, formatDate), dueDateWidth, issue.id)
  }
}
