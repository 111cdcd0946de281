/** The issue table (src/components/IssuesList.tsx): which issues it shows, the
    header count, the owner label, and the widths of the three badge columns. */
module IssuesListView {
  import opened Lists
  import opened Text
  import opened Api
  import IssueRowView

  const NoProject := "Kein Projekt"
  const ChooseProjectPrompt := "Wählen Sie ein Projekt aus, um Issues anzuzeigen."
  const NoIssuesForSelection := "Keine Issues für das ausgewählte Projekt vorhanden."

  /** The issues owned by one of the `selected` projects, in their original order. */
  function InProjects(issues: seq<Issue>, selected: seq<string>): (r: seq<Issue>)
    ensures IsSubseq(r, issues)
    ensures forall k :: 0 <= k < |r| ==> r[k] in issues && r[k].projectId in selected
    ensures forall k :: 0 <= k < |issues| && issues[k].projectId in selected ==> issues[k] in r
  {
    FilterIsSubseq(issues, (i: Issue) => i.projectId in selected);
    Filter(issues, (i: Issue) => i.projectId in selected)
  }

  /** Order and multiplicity: the issues of two lists in a row are those of each,
      in a row, and a single issue stays exactly when its owner is selected. */
  lemma InProjectsConcat(a: seq<Issue>, b: seq<Issue>, selected: seq<string>)
    ensures InProjects(a + b, selected) == InProjects(a, selected) + InProjects(b, selected)
    ensures InProjects([], selected) == []
    ensures forall i :: InProjects([i], selected) == if i.projectId in selected then [i] else []
  {
    FilterConcat(a, b, (i: Issue) => i.projectId in selected);
  }

  /** `filteredIssues`: nothing at all while no project is selected. */
  function FilteredIssues(issues: seq<Issue>, selected: seq<string>): (r: seq<Issue>)
    ensures selected == [] ==> r == []
    ensures selected != [] ==> r == InProjects(issues, selected)
  {
    if |selected| > 0 then InProjects(issues, selected) else []
  }

  const HeaderPrefix := "Issue Übersicht ("
  const HeaderSuffix := " Issues)"

  /** The card header "Issue Übersicht (n Issues)": the number after the
      parenthesis is the count of shown issues. */
  function HeaderTitle(issues: seq<Issue>, selected: seq<string>): (r: string)
    ensures |r| > |HeaderPrefix| && r[..|HeaderPrefix|] == HeaderPrefix
    ensures ParseInt(r[|HeaderPrefix|..]) == Num(|FilteredIssues(issues, selected)|)
  {
    var n := |FilteredIssues(issues, selected)|;
    CountAfterPrefix(HeaderPrefix, n, HeaderSuffix);
    HeaderPrefix + NatToString(n) + HeaderSuffix
  }

  lemma CountAfterPrefix(prefix: string, n: nat, suffix: string)
    requires suffix == [] || !IsDigit(suffix[0])
    ensures |prefix + NatToString(n) + suffix| > |prefix|
    ensures (prefix + NatToString(n) + suffix)[..|prefix|] == prefix
    ensures ParseInt((prefix + NatToString(n) + suffix)[|prefix|..]) == Num(n)
  {
    var digits := NatToString(n);
    var s := prefix + (digits + suffix);
    assert prefix + digits + suffix == s;
    assert s[..|prefix|] == prefix;
    assert s[|prefix|..] == digits + suffix;
    ParseIntOfNat(n, suffix);
  }

  /** The text of the placeholder row, present exactly when no issue is shown. */
  function EmptyRowText(issues: seq<Issue>, selected: seq<string>): (r: Option<string>)
    ensures r.Some? <==> FilteredIssues(issues, selected) == []
    ensures selected == [] ==> r == Some(ChooseProjectPrompt)
    ensures r.Some? && selected != [] ==> r.value == NoIssuesForSelection
  {
    if FilteredIssues(issues, selected) == [] then
      Some(if |selected| > 0 then NoIssuesForSelection else ChooseProjectPrompt)
    else None
  }

  /** `getProjectName`: the name of the first project with that id, else "Kein Projekt". */
  function ProjectName(projects: seq<Project>, projectId: string): (r: string)
    ensures (forall k :: 0 <= k < |projects| ==> projects[k].id != projectId) ==> r == NoProject
    ensures forall k :: (0 <= k < |projects| && projects[k].id == projectId &&
                         forall j :: 0 <= j < k ==> projects[j].id != projectId) ==> r == projects[k].name
  {
    match FindIndex(projects, (p: Project) => p.id == projectId)
    case Some(i) => projects[i].name
    case None => NoProject
  }

  /** `texts.reduce((longest, t) => t.length > longest.length ? t : longest, acc)`:
      the first text of greatest `.length`, unless none is longer than `acc`. */
  function LongestFrom(acc: string, texts: seq<string>): (r: string)
    decreases |texts|
    ensures Utf16Length(acc) <= Utf16Length(r)
    ensures forall k :: 0 <= k < |texts| ==> Utf16Length(texts[k]) <= Utf16Length(r)
    ensures r == acc || r in texts
  {
    if texts == [] then acc
    else
      var next := if Utf16Length(texts[0]) > Utf16Length(acc) then texts[0] else acc;
      LongestFrom(next, texts[1..])
  }

  /** `texts[k]` is `r`, longer than `acc` and than every text before it. */
  predicate FirstLongerAt(acc: string, texts: seq<string>, r: string, k: int) {
    0 <= k < |texts| && texts[k] == r && Utf16Length(acc) < Utf16Length(r) &&
    forall j :: 0 <= j < k ==> Utf16Length(texts[j]) < Utf16Length(r)
  }

  /** Ties go to the earlier text: the result is `acc` or the first text of its
      length, and that length beats `acc` and everything before it. */
  lemma {:induction false} LongestFromIsFirst(acc: string, texts: seq<string>)
    ensures LongestFrom(acc, texts) == acc || exists k :: FirstLongerAt(acc, texts, LongestFrom(acc, texts), k)
    decreases |texts|
  {
    if texts != [] {
      var next := if Utf16Length(texts[0]) > Utf16Length(acc) then texts[0] else acc;
      var r := LongestFrom(next, texts[1..]);
      assert LongestFrom(acc, texts) == r;
      LongestFromIsFirst(next, texts[1..]);
      if r != acc {
        if r == next {
          assert FirstLongerAt(acc, texts, r, 0);
        } else {
          var k :| FirstLongerAt(next, texts[1..], r, k);
          assert Utf16Length(acc) <= Utf16Length(next);
          assert Utf16Length(texts[0]) <= Utf16Length(next);
          forall j | 0 <= j < k + 1
            ensures Utf16Length(texts[j]) < Utf16Length(r)
          {
            if j > 0 {
              assert texts[j] == texts[1..][j - 1];
            }
          }
          assert FirstLongerAt(acc, texts, r, k + 1);
        }
      }
    }
  }

  function Longest(texts: seq<string>): (r: string)
    ensures r == "" || r in texts
    ensures forall k :: 0 <= k < |texts| ==> Utf16Length(texts[k]) <= Utf16Length(r)
  {
    LongestFrom("", texts)
  }

  /** `Math.round(w * 0.7)`, computed exactly (half rounds up). */
  function Round70(w: nat): nat {
    (7 * w + 5) / 10
  }

  lemma Round70Monotone(a: nat, b: nat)
    requires a <= b
    ensures Round70(a) <= Round70(b)
  {
  }

  function Max(a: int, b: int): int {
    if a >= b then a else b
  }

  /** `maxProjectNameLength`: 84 with no projects; otherwise 70% of a width that
      grows with the longest name, "Kein Projekt" included. */
  function ProjectBadgeWidth(projects: seq<Project>): (r: nat)
    ensures projects == [] ==> r == 84
    ensures projects != [] ==> r >= 109
    ensures projects != [] ==> forall k :: 0 <= k < |projects| ==> r >= NameWidth(projects[k].name)
    ensures projects != [] ==> r == 109 || exists k :: 0 <= k < |projects| && r == NameWidth(projects[k].name)
  {
    if |projects| == 0 then 84
    else
      ColumnWidthBounds(projects);
      ColumnWidth(projects)
  }

  /** 70% of the width for the longest badge text, "Kein Projekt" included. */
  function ColumnWidth(projects: seq<Project>): nat {
    Round70(BadgeWidth(Utf16Length(Longest(BadgeNames(projects)))))
  }

  lemma ColumnWidthBounds(projects: seq<Project>)
    ensures ColumnWidth(projects) >= 109
    ensures forall k :: 0 <= k < |projects| ==> ColumnWidth(projects) >= NameWidth(projects[k].name)
    ensures ColumnWidth(projects) == 109 ||
            exists k :: 0 <= k < |projects| && ColumnWidth(projects) == NameWidth(projects[k].name)
  {
    ColumnWidthAboveNames(projects);
    ColumnWidthAttained(projects);
  }

  lemma ColumnWidthAboveNames(projects: seq<Project>)
    ensures ColumnWidth(projects) >= 109
    ensures forall k :: 0 <= k < |projects| ==> ColumnWidth(projects) >= NameWidth(projects[k].name)
  {
    var longest := Utf16Length(Longest(BadgeNames(projects)));
    BadgeNamesBound(projects);
    NameWidthsBound(projects, longest);
  }

  lemma ColumnWidthAttained(projects: seq<Project>)
    ensures ColumnWidth(projects) == 109 ||
            exists k :: 0 <= k < |projects| && ColumnWidth(projects) == NameWidth(projects[k].name)
  {
    var longest := Utf16Length(Longest(BadgeNames(projects)));
    BadgeNamesBound(projects);
    LongestBadgeName(projects);
    WidthAttained(projects, longest);
  }

  /** The column is exactly as wide as the badge for "Kein Projekt" or for some name. */
  lemma WidthAttained(projects: seq<Project>, longest: nat)
    requires longest >= 12
    requires longest == 12 || exists k :: 0 <= k < |projects| && Utf16Length(projects[k].name) == longest
    ensures Round70(BadgeWidth(longest)) == 109 ||
            exists k :: 0 <= k < |projects| && Round70(BadgeWidth(longest)) == NameWidth(projects[k].name)
  {
    assert BadgeWidth(longest) == longest * 8 + 60;
    if longest == 12 {
      assert Round70(156) == 109;
    } else {
      var k :| 0 <= k < |projects| && Utf16Length(projects[k].name) == longest;
    }
  }

  /** The longest badge text is "Kein Projekt" or one of the names. */
  lemma LongestBadgeName(projects: seq<Project>)
    ensures Utf16Length(Longest(BadgeNames(projects))) == 12 ||
            exists k :: 0 <= k < |projects| && Utf16Length(projects[k].name) == Utf16Length(Longest(BadgeNames(projects)))
  {
    var names := BadgeNames(projects);
    assert names[|projects|] == NoProject;
    assert forall k :: 0 <= k < |projects| ==> names[k] == projects[k].name;
    NoProjectLength();
    LongestNameOrFallback(projects, names, Utf16Length(NoProject));
  }

  /** When the last text is a non-empty fallback after the project names, the
      longest text is as long as the fallback or as some project name. */
  lemma LongestNameOrFallback(projects: seq<Project>, names: seq<string>, fallback: nat)
    requires |names| == |projects| + 1 && Utf16Length(names[|projects|]) == fallback > 0
    requires forall k :: 0 <= k < |projects| ==> names[k] == projects[k].name
    ensures Utf16Length(Longest(names)) == fallback ||
            exists k :: 0 <= k < |projects| && Utf16Length(projects[k].name) == Utf16Length(Longest(names))
  {
    var r := Longest(names);
    assert Utf16Length(r) >= Utf16Length(names[|projects|]);
    assert Utf16Length("") == 0;
    var j :| 0 <= j < |names| && names[j] == r;
    if j < |projects| {
      assert Utf16Length(projects[j].name) == Utf16Length(r);
    }
  }

  /** The rounded width a badge for `name` alone would get. */
  function NameWidth(name: string): nat {
    Round70(BadgeWidth(Utf16Length(name)))
  }

  /** The unrounded badge width for a longest name of `len` UTF-16 units. */
  function BadgeWidth(len: nat): nat {
    Max(120, len * 8 + 60)
  }

  /** Every name no longer than the longest gets a badge no wider than the column,
      and the column is at least as wide as the one for "Kein Projekt". */
  lemma NameWidthsBound(projects: seq<Project>, longest: nat)
    requires longest >= 12
    requires forall k :: 0 <= k < |projects| ==> Utf16Length(projects[k].name) <= longest
    ensures Round70(BadgeWidth(longest)) >= 109
    ensures forall k :: 0 <= k < |projects| ==> NameWidth(projects[k].name) <= Round70(BadgeWidth(longest))
  {
    assert Round70(156) == 109;
    Round70Monotone(156, BadgeWidth(longest));
    forall k | 0 <= k < |projects|
      ensures NameWidth(projects[k].name) <= Round70(BadgeWidth(longest))
    {
      Round70Monotone(BadgeWidth(Utf16Length(projects[k].name)), BadgeWidth(longest));
    }
  }

  /** The texts the project column can show: every name, and "Kein Projekt". */
  function BadgeNames(projects: seq<Project>): seq<string> {
    Map(projects, (p: Project) => p.name) + [NoProject]
  }

  lemma BadgeNamesBound(projects: seq<Project>)
    ensures Utf16Length(Longest(BadgeNames(projects))) >= 12
    ensures forall k :: 0 <= k < |projects| ==> Utf16Length(projects[k].name) <= Utf16Length(Longest(BadgeNames(projects)))
  {
    var names := BadgeNames(projects);
    assert names[|projects|] == NoProject;
    assert forall k :: 0 <= k < |projects| ==> names[k] == projects[k].name;
    NoProjectLength();
    LongestAboveNames(projects, names, Utf16Length(NoProject));
  }

  /** The longest text is at least as long as the fallback after the names and as
      every project name. */
  lemma LongestAboveNames(projects: seq<Project>, names: seq<string>, fallback: nat)
    requires |names| == |projects| + 1 && Utf16Length(names[|projects|]) == fallback
    requires forall k :: 0 <= k < |projects| ==> names[k] == projects[k].name
    ensures Utf16Length(Longest(names)) >= fallback
    ensures forall k :: 0 <= k < |projects| ==> Utf16Length(projects[k].name) <= Utf16Length(Longest(names))
  {
    assert forall k :: 0 <= k < |projects| ==> Utf16Length(projects[k].name) == Utf16Length(names[k]);
  }

  const PriorityTexts := ["🔴 Hoch", "🟡 Mittel", "🟢 Niedrig", "-"]
  const DueDateTexts := ["📅 31.12.2025", "Kein Datum"]

  lemma NoProjectLength()
    ensures Utf16Length(NoProject) == 12
  {
  }

  lemma {:induction false} Utf16LengthConcat(a: string, b: string)
    ensures Utf16Length(a + b) == Utf16Length(a) + Utf16Length(b)
  {
    if a == [] {
      assert a + b == b;
    } else {
      assert (a + b)[0] == a[0];
      assert (a + b)[1..] == a[1..] + b;
      Utf16LengthConcat(a[1..], b);
      assert Utf16Length(a + b) == (if a[0] as int < 0x1_0000 then 1 else 2) + Utf16Length(a[1..] + b);
    }
  }

  /** An emoji from beyond the Basic Multilingual Plane followed by plain text. */
  lemma EmojiTextLength(emoji: char, text: string)
    requires emoji as int >= 0x1_0000
    requires forall k :: 0 <= k < |text| ==> text[k] as int < 0x1_0000
    ensures Utf16Length([emoji] + text) == 2 + |text|
  {
    Utf16LengthConcat([emoji], text);
  }

  /** `.length` of the priority labels: each emoji is a surrogate pair. */
  lemma HighLength()
    ensures Utf16Length(PriorityTexts[0]) == 7
  {
    assert PriorityTexts[0] == ['\U{1F534}'] + " Hoch" by { assert PriorityTexts[0][1..] == " Hoch"; }
    EmojiTextLength('\U{1F534}', " Hoch");
  }

  lemma MediumLength()
    ensures Utf16Length(PriorityTexts[1]) == 9
  {
    assert PriorityTexts[1] == ['\U{1F7E1}'] + " Mittel" by { assert PriorityTexts[1][1..] == " Mittel"; }
    EmojiTextLength('\U{1F7E1}', " Mittel");
  }

  lemma LowLength()
    ensures Utf16Length(PriorityTexts[2]) == 10
  {
    assert PriorityTexts[2] == ['\U{1F7E2}'] + " Niedrig" by { assert PriorityTexts[2][1..] == " Niedrig"; }
    EmojiTextLength('\U{1F7E2}', " Niedrig");
  }

  lemma PriorityTextsLongest()
    ensures Utf16Length(Longest(PriorityTexts)) == 10
  {
    HighLength();
    MediumLength();
    LowLength();
    assert Utf16Length(PriorityTexts[3]) == 1;
    LongestOfFour(PriorityTexts, 7, 9, 10, 1);
  }

  /** The longest of four texts is as long as the longest of their lengths. */
  lemma LongestOfFour(texts: seq<string>, n0: nat, n1: nat, n2: nat, n3: nat)
    requires |texts| == 4
    requires Utf16Length(texts[0]) == n0 && Utf16Length(texts[1]) == n1
    requires Utf16Length(texts[2]) == n2 && Utf16Length(texts[3]) == n3
    ensures Utf16Length(Longest(texts)) == Max(Max(n0, n1), Max(n2, n3))
  {
    var r := Longest(texts);
    var m := Max(Max(n0, n1), Max(n2, n3));
    assert Utf16Length(r) >= n0 && Utf16Length(r) >= n1 && Utf16Length(r) >= n2 && Utf16Length(r) >= n3;
    assert Utf16Length("") == 0;
    assert r == "" || r == texts[0] || r == texts[1] || r == texts[2] || r == texts[3];
    assert Utf16Length(r) <= m;
  }

  /** `.length` of the widest due date. */
  lemma DateTextLength()
    ensures Utf16Length(DueDateTexts[0]) == 13
  {
    assert DueDateTexts[0] == ['\U{1F4C5}'] + " 31.12.2025" by { assert DueDateTexts[0][1..] == " 31.12.2025"; }
    EmojiTextLength('\U{1F4C5}', " 31.12.2025");
  }

  /** `.length` of the placeholder "Kein Datum". */
  lemma NoDateTextLength()
    ensures Utf16Length(DueDateTexts[1]) == 10
  {
    assert DueDateTexts[1] == IssueRowView.NoDueDate;
  }

  lemma DueDateTextsLongest()
    ensures Utf16Length(Longest(DueDateTexts)) == 13
  {
    DateTextLength();
    NoDateTextLength();
  }

  /** `maxPriorityBadgeLength`: the longest label is "🟢 Niedrig", ten UTF-16 units. */
  function PriorityBadgeWidth(): (r: nat)
    ensures r >= 80
    ensures r == 100
  {
    PriorityTextsLongest();
    Max(80, Utf16Length(Longest(PriorityTexts)) * 8 + 20)
  }

  /** `maxDueDateBadgeLength`: the longest text is "📅 31.12.2025", thirteen UTF-16 units. */
  function DueDateBadgeWidth(): (r: nat)
    ensures r >= 120
    ensures r == 134
  {
    DueDateTextsLongest();
    Max(120, Utf16Length(Longest(DueDateTexts)) * 8 + 30)
  }

  /** One `IssueRow` per issue, in order, labelled by `getProjectName` over
      `projects` and sized by the given widths. */
  function RenderAll(shown: seq<Issue>, projects: seq<Project>, locale: string -> string,
                     projectWidth: nat, priorityWidth: nat, dueDateWidth: nat): (r: seq<IssueRowView.Row>)
    ensures |r| == |shown|
    ensures forall k :: 0 <= k < |r| ==>
              r[k].toggleId == shown[k].id && r[k].deleteId == shown[k].id &&
              r[k].projectLabel == ProjectName(projects, shown[k].projectId)
    ensures forall k :: 0 <= k < |r| ==>
              r[k].projectWidth == projectWidth && r[k].priorityWidth == priorityWidth && r[k].dueDateWidth == dueDateWidth
  {
    var projectName := (id: string) => ProjectName(projects, id);
    var formatDate := (d: string) => IssueRowView.FormatDate(locale, d);
    Map(shown, (i: Issue) => IssueRowView.Render(i, projectName, formatDate, projectWidth, priorityWidth, dueDateWidth))
  }

  /** The table body when issues are shown: one `IssueRow` per shown issue, in
      order, labelled by `getProjectName` and sized by the three widths. */
  function Rows(issues: seq<Issue>, projects: seq<Project>, selected: seq<string>, locale: string -> string)
    : (r: seq<IssueRowView.Row>)
    ensures var shown := FilteredIssues(issues, selected);
            |r| == |shown| &&
            forall k :: 0 <= k < |r| ==>
              r[k].toggleId == shown[k].id && r[k].deleteId == shown[k].id &&
              r[k].projectLabel == ProjectName(projects, shown[k].projectId)
    ensures forall k :: 0 <= k < |r| ==>
              r[k].projectWidth == ProjectBadgeWidth(projects) &&
              r[k].priorityWidth == PriorityBadgeWidth() && r[k].dueDateWidth == DueDateBadgeWidth()
  {
    RenderAll(FilteredIssues(issues, selected), projects, locale, ProjectBadgeWidth(projects), PriorityBadgeWidth(), DueDateBadgeWidth())
  }
}
