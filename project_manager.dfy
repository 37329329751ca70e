/** ProjectManager: projects with their numbers `E{yy}-1-{nnn}`, the counter
  * that numbers them, quote and tender numbers derived from a project's
  * number, the new-project form check, the project list filter and adding a
  * quote to a project. The clock (the year, the id and the creation time)
  * and the saved list are parameters. */
module ProjectManager {
  import opened Basics
  import opened Text
  import opened JsValues

  /** The new-project form; a missing element reads as None. */
  datatype Form = Form(projectNumber: Option<string>, clientName: Option<string>, clientType: Option<string>,
                       contactPerson: Option<string>, contactEmail: Option<string>, contactPhone: Option<string>,
                       siteAddress: Option<string>, description: Option<string>, salesPerson: Option<string>)

  datatype Project = Project(
    id: string, number: Option<string>, clientName: Option<string>, clientType: Option<string>,
    contactPerson: Option<string>, contactEmail: Option<string>, contactPhone: Option<string>,
    siteAddress: Option<string>, description: Option<string>, salesPerson: Option<string>,
    status: string, createdDate: string,
    quotes: seq<JsValue>, tenders: seq<JsValue>, orders: seq<JsValue>, documents: seq<JsValue>, notes: seq<JsValue>)

  // ---------------------------------------------------------------------
  // Numbers

  /** A counter padded to three digits. */
  function Padded(n: nat): (r: string)
    ensures |r| >= 3 && forall k :: 0 <= k < |r| ==> IsDigit(r[k])
  {
    var s := NatToString(n);
    var r := PadStart(s, 3, '0');
    PadStartShape(s, 3, '0');
    assert forall k :: 0 <= k < |r| ==> IsDigit(r[k]) by {
      forall k | 0 <= k < |r| ensures IsDigit(r[k]) {
        if k >= |r| - |s| {
          assert r[k] == r[|r| - |s|..][k - (|r| - |s|)];
        }
      }
    }
    r
  }

  /** generateProjectNumber. */
  function ProjectNumber(year: nat, counter: nat): string {
    "E" + YearSuffix(year) + "-1-" + Padded(counter)
  }

  /** The third '-'-separated segment, if there is one. */
  function ProjectSequence(number: string): Option<string> {
    var parts := Split(number, '-');
    if |parts| >= 3 then Some(parts[2]) else None
  }

  /** `parseInt(number.split('-')[2]) || 0`. */
  function SequenceValue(number: string): int {
    match ProjectSequence(number)
    case None => 0
    case Some(segment) =>
      match ParseIntPrefix(segment)
      case None => 0
      case Some(v) => v
  }

  /** A number splits into its three parts. */
  lemma ProjectNumberParts(year: nat, counter: nat)
    ensures Split(ProjectNumber(year, counter), '-') == ["E" + YearSuffix(year), "1", Padded(counter)]
  {
    var parts := ["E" + YearSuffix(year), "1", Padded(counter)];
    assert parts[1..][1..] == [parts[2]];
    assert Join(parts[1..], '-') == parts[1] + ['-'] + parts[2];
    assert Join(parts, '-') == parts[0] + ['-'] + (parts[1] + ['-'] + parts[2]);
    assert ProjectNumber(year, counter) == Join(parts, '-');
    forall k | 0 <= k < |parts| ensures '-' !in parts[k] {
      if k == 0 {
        assert forall m :: 0 <= m < |parts[0]| ==> parts[0][m] == 'E' || IsDigit(parts[0][m]);
      }
    }
    SplitJoin(parts, '-');
  }

  /** The sequence read back from a generated number is the counter that
    * generated it. */
  lemma SequenceOfProjectNumber(year: nat, counter: nat)
    ensures ProjectSequence(ProjectNumber(year, counter)) == Some(Padded(counter))
    ensures SequenceValue(ProjectNumber(year, counter)) == counter
  {
    ProjectNumberParts(year, counter);
    ParseIntOfPaddedNat(counter, 3);
  }

  /** A sequence value is never negative: a segment has no '-'. */
  lemma SequenceValueNonNegative(number: string)
    ensures SequenceValue(number) >= 0
  {
    SplitPartsFree(number, '-');
    match ProjectSequence(number)
    case None =>
    case Some(segment) =>
      var t := TrimStart(segment);
      if t != [] {
        assert t[0] == segment[|segment| - |t|];
      }
  }

  /** `number.split('-')[2]` as text: a number with fewer than three parts
    * gives "undefined". */
  function SequenceText(number: string): string {
    var sequence := ProjectSequence(number);
    if sequence.Some? then sequence.value else "undefined"
  }

  /** generateQuoteNumber: `Q`, the project's sequence, the next quote
    * number padded to three digits, `A`; None where the project has no
    * number (the source throws there). */
  function QuoteNumber(p: Project): (r: Option<string>)
    ensures r.Some? <==> p.number.Some?
    ensures r.Some? ==> |r.value| >= 5 && r.value[0] == 'Q' && r.value[|r.value| - 1] == 'A'
  {
    if p.number.None? then None
    else Some("Q" + SequenceText(p.number.value) + Padded(|p.quotes| + 1) + "A")
  }

  /** generateTenderNumber: the same with `T` and the tender count. */
  function TenderNumber(p: Project): (r: Option<string>)
    ensures r.Some? <==> p.number.Some?
    ensures r.Some? ==> |r.value| >= 5 && r.value[0] == 'T' && r.value[|r.value| - 1] == 'A'
  {
    if p.number.None? then None
    else Some("T" + SequenceText(p.number.value) + Padded(|p.tenders| + 1) + "A")
  }

  /** For a generated project number the quote and tender numbers carry the
    * project's padded counter and the next padded quote or tender count. */
  lemma QuoteAndTenderNumbers(p: Project, year: nat, counter: nat)
    requires p.number == Some(ProjectNumber(year, counter))
    ensures QuoteNumber(p) == Some("Q" + Padded(counter) + Padded(|p.quotes| + 1) + "A")
    ensures TenderNumber(p) == Some("T" + Padded(counter) + Padded(|p.tenders| + 1) + "A")
  {
    SequenceOfProjectNumber(year, counter);
  }

  /** Whether every project has a number (the counter restore reads them). */
  predicate AllNumbered(ps: seq<Project>) {
    forall k :: 0 <= k < |ps| ==> ps[k].number.Some?
  }

  /** `projects.map(p => sequence of p.number)`. */
  function Sequences(ps: seq<Project>): (r: seq<int>)
    requires AllNumbered(ps)
    ensures |r| == |ps| && forall k :: 0 <= k < |ps| ==> r[k] == SequenceValue(ps[k].number.value)
  {
    seq(|ps|, k requires 0 <= k < |ps| => SequenceValue(ps[k].number.value))
  }

  /** `Math.max(...xs)` for a non-empty list. */
  function MaxOf(xs: seq<int>): (m: int)
    requires |xs| > 0
    ensures forall k :: 0 <= k < |xs| ==> xs[k] <= m
    ensures exists k :: 0 <= k < |xs| && xs[k] == m
    decreases |xs|
  {
    if |xs| == 1 then xs[0]
    else
      var m := MaxOf(xs[1..]);
      assert forall k :: 1 <= k < |xs| ==> xs[k] == xs[1..][k - 1];
      Max(xs[0], m)
  }

  /** The highest saved sequence. */
  function MaxSequence(ps: seq<Project>): (m: int)
    requires |ps| > 0 && AllNumbered(ps)
    ensures m >= 0
    ensures forall k :: 0 <= k < |ps| ==> SequenceValue(ps[k].number.value) <= m
  {
    var xs := Sequences(ps);
    var m := MaxOf(xs);
    SequenceValueNonNegative(ps[0].number.value);
    assert xs[0] <= m;
    m
  }

  /** After loading, the next generated number differs from every saved
    * number that was itself generated: its counter exceeds all of theirs. */
  lemma RestoredCounterIsFresh(ps: seq<Project>, year: nat, years: seq<nat>, counters: seq<nat>)
    requires |ps| > 0 && AllNumbered(ps) && |years| == |ps| && |counters| == |ps|
    requires forall k :: 0 <= k < |ps| ==> ps[k].number == Some(ProjectNumber(years[k], counters[k]))
    ensures forall k :: 0 <= k < |ps| ==> ProjectNumber(year, MaxSequence(ps) + 1) != ps[k].number.value
  {
    var m := MaxSequence(ps);
    SequenceOfProjectNumber(year, m + 1);
    forall k | 0 <= k < |ps| ensures ProjectNumber(year, m + 1) != ps[k].number.value {
      SequenceOfProjectNumber(years[k], counters[k]);
      assert SequenceValue(ps[k].number.value) <= m;
    }
  }

  // ---------------------------------------------------------------------
  // Form check, filter

  /** `!value?.trim()`. */
  predicate Blank(value: Option<string>) {
    value.None? || Trim(value.value) == []
  }

  /** validateProjectForm's messages, in order. */
  function ValidationErrors(form: Form): (errors: seq<string>)
    ensures errors == [] <==>
      !Blank(form.clientName) && form.clientType.Some? && form.clientType.value != [] && !Blank(form.siteAddress)
    ensures Blank(form.clientName) <==> |errors| > 0 && errors[0] == "Client name is required"
    ensures "Site address is required" in errors <==> Blank(form.siteAddress)
  {
    var site := "Site address is required";
    assert site != "Client name is required" && site != "Client type is required" by {
      assert site[0] == 'S' && "Client name is required"[0] == 'C' && "Client type is required"[0] == 'C';
    }
    (if Blank(form.clientName) then ["Client name is required"] else []) +
    (if form.clientType.None? || form.clientType.value == [] then ["Client type is required"] else []) +
    (if Blank(form.siteAddress) then [site] else [])
  }

  /** A missing text field is read as empty. */
  function FieldText(value: Option<string>): string {
    if value.Some? then value.value else []
  }

  /** filterProjects' test; the search term arrives lower-cased. */
  predicate ProjectMatches(p: Project, search: string, clientType: string, status: string) {
    (Contains(Lower(FieldText(p.clientName)), search) || Contains(Lower(FieldText(p.number)), search) ||
     Contains(Lower(FieldText(p.siteAddress)), search)) &&
    (clientType == [] || p.clientType == Some(clientType)) &&
    (status == [] || p.status == status)
  }

  function FilterProjects(ps: seq<Project>, search: string, clientType: string, status: string): (r: seq<Project>)
    ensures |r| <= |ps|
    ensures forall p :: p in r <==> p in ps && ProjectMatches(p, search, clientType, status)
  {
    if ps == [] then []
    else
      var rest := FilterProjects(ps[1..], search, clientType, status);
      assert forall p :: p in ps <==> p == ps[0] || p in ps[1..];
      if ProjectMatches(ps[0], search, clientType, status) then [ps[0]] + rest else rest
  }

  /** With an empty search and no filters every project is listed. */
  lemma {:induction false} EmptyFilterKeepsAll(ps: seq<Project>)
    ensures FilterProjects(ps, [], [], []) == ps
    decreases |ps|
  {
    if ps != [] {
      ContainsEmpty(Lower(FieldText(ps[0].clientName)));
      EmptyFilterKeepsAll(ps[1..]);
      assert ps == [ps[0]] + ps[1..];
    }
  }

  /** The index of the first project with the id. */
  function FindProject(ps: seq<Project>, id: string): (r: Option<nat>)
    ensures r.Some? ==> r.value < |ps| && ps[r.value].id == id
    ensures r.Some? ==> forall k :: 0 <= k < r.value ==> ps[k].id != id
    ensures r.None? <==> forall k :: 0 <= k < |ps| ==> ps[k].id != id
  {
    if ps == [] then None
    else if ps[0].id == id then Some(0)
    else
      match FindProject(ps[1..], id)
      case None =>
        assert forall k :: 1 <= k < |ps| ==> ps[k] == ps[1..][k - 1];
        None
      case Some(i) => Some(i + 1)
  }

  /** A new project from a checked form. */
  function NewProject(form: Form, id: string, createdDate: string): Project {
    Project(id, form.projectNumber, form.clientName, form.clientType, form.contactPerson, form.contactEmail,
            form.contactPhone, form.siteAddress, form.description, form.salesPerson,
            "enquiry", createdDate, [], [], [], [], [])
  }

  // ---------------------------------------------------------------------
  // The manager

  class Manager {
    var projects: seq<Project>
    var projectCounter: int

    predicate Valid()
      reads this
    {
      projectCounter >= 1
    }

    /** A new manager restores the saved projects. */
    constructor(saved: Option<Result<seq<Project>, string>>)
      ensures Valid()
      ensures saved.None? || saved.value.Err? ==> projects == [] && projectCounter == 1
      ensures saved.Some? && saved.value.Ok? && AllNumbered(saved.value.value) ==>
        projects == saved.value.value &&
        projectCounter == if |projects| > 0 then MaxSequence(projects) + 1 else 1
    {
      projects := [];
      projectCounter := 1;
      new;
      LoadExistingProjects(saved);
    }

    /** loadExistingProjects: the saved list, if there is one and it parses,
      * with the counter set past the highest saved sequence. A project
      * without a number makes the read fail. */
    method LoadExistingProjects(saved: Option<Result<seq<Project>, string>>)
      modifies this
      requires Valid()
      ensures Valid()
      ensures saved.None? ==> projects == old(projects) && projectCounter == old(projectCounter)
      ensures saved.Some? && saved.value.Err? ==> projects == [] && projectCounter == old(projectCounter)
      ensures saved.Some? && saved.value.Ok? && !AllNumbered(saved.value.value) ==>
        projects == [] && projectCounter == old(projectCounter)
      ensures saved.Some? && saved.value.Ok? && AllNumbered(saved.value.value) ==>
        projects == saved.value.value &&
        projectCounter == if |projects| > 0 then MaxSequence(projects) + 1 else old(projectCounter)
    {
      if saved.None? {
        return;
      }
      if saved.value.Err? || !AllNumbered(saved.value.value) {
        projects := [];
        return;
      }
      projects := saved.value.value;
      if |projects| > 0 {
        projectCounter := MaxSequence(projects) + 1;
      }
    }

    /** generateProjectNumber for the given year. */
    method GenerateProjectNumber(year: nat) returns (number: string)
      requires Valid()
      ensures number == ProjectNumber(year, projectCounter)
      ensures SequenceValue(number) == projectCounter
    {
      number := ProjectNumber(year, projectCounter);
      SequenceOfProjectNumber(year, projectCounter);
    }

    /** createProject: a failing check changes nothing and returns its
      * messages; otherwise the project is appended in the 'enquiry' status
      * and the counter moves on. */
    method CreateProject(form: Form, id: string, createdDate: string) returns (errors: seq<string>)
      modifies this
      requires Valid()
      ensures Valid()
      ensures errors == ValidationErrors(form)
      ensures errors != [] ==> projects == old(projects) && projectCounter == old(projectCounter)
      ensures errors == [] ==>
        projects == old(projects) + [NewProject(form, id, createdDate)] && projectCounter == old(projectCounter) + 1
    {
      errors := ValidationErrors(form);
      if errors != [] {
        return;
      }
      projects := projects + [NewProject(form, id, createdDate)];
      projectCounter := projectCounter + 1;
    }

    /** addQuoteToProject. */
    method AddQuoteToProject(projectId: string, quote: JsValue) returns (ok: bool)
      modifies this
      ensures ok <==> FindProject(old(projects), projectId).Some?
      ensures !ok ==> projects == old(projects)
      ensures ok ==>
        var i := FindProject(old(projects), projectId).value;
        projects == old(projects)[i := old(projects)[i].(quotes := old(projects)[i].quotes + [quote])]
      ensures projectCounter == old(projectCounter)
    {
      var index := FindProject(projects, projectId);
      ok := index.Some?;
      if ok {
        var i := index.value;
        projects := projects[i := projects[i].(quotes := projects[i].quotes + [quote])];
      }
    }
  }

  /** A created project starts in 'enquiry' with nothing attached. */
  lemma NewProjectEmpty(form: Form, id: string, createdDate: string)
    ensures var p := NewProject(form, id, createdDate);
      p.status == "enquiry" && p.quotes == [] && p.tenders == [] && p.orders == [] &&
      p.documents == [] && p.notes == [] && p.number == form.projectNumber && p.clientName == form.clientName
  {}

  /** Adding a quote moves the project's next quote number on by one. */
  lemma AddedQuoteAdvancesNumber(p: Project, quote: JsValue, year: nat, counter: nat)
    requires p.number == Some(ProjectNumber(year, counter))
    ensures QuoteNumber(p.(quotes := p.quotes + [quote])) == Some("Q" + Padded(counter) + Padded(|p.quotes| + 2) + "A")
  {
    QuoteAndTenderNumbers(p.(quotes := p.quotes + [quote]), year, counter);
  }
}
