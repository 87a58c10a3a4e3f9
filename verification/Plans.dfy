/** Plans and the dockets made from a preset: how a task is cut into plan elements, their ids, and the round-robin
    routing of jurors. */
module Plans {
  import opened Text
  import opened Splitting
  import opened Lists
  import opened CourtTypes
  import Court

  datatype PlanElement = PlanElement(id: string, title: string, detail: string)

  /** A plan as BuildPlan leaves it: it has at least one element. */
  datatype PlanArtifact = PlanArtifact(headline: string, operatorPrompt: string, summary: string, elements: seq<PlanElement>)
  type Plan = p: PlanArtifact | p.elements != [] witness PlanArtifact("", "", "", [PlanElement("", "", "")])

  datatype Assignment = Assignment(
    id: string, title: string, instructions: string, targetIDs: seq<string>, planElementIDs: seq<string>,
    expected: string, rationale: string)

  const DELIVERABLE := "Structured findings, " + "risks, next actions, and a direct recommendation."

  // Numerals

  function Pow10(n: nat): nat {
    if n == 0 then 1 else 10 * Pow10(n - 1)
  }

  lemma Pow10Of19()
    ensures Pow10(19) == 10000000000000000000
  {
    assert Pow10(5) == 100000;
    assert Pow10(10) == 10000000000;
    assert Pow10(15) == 1000000000000000;
  }

  /** The twenty places of the buffer suffice for every non-negative 64-bit integer, and what is written there
      is the decimal numeral. A negative value is printed as the empty string. */
  method Itoa(value: int) returns (s: string)
    requires value < 0x8000_0000_0000_0000
    ensures s == if value < 0 then "" else Decimal(value)
    ensures |s| <= 19
  {
    var digits := "0123456789";
    if value == 0 {
      return "0";
    }
    var buf := new char[20](_ => '0');
    var i, v := buf.Length, value;
    Pow10Of19();
    while v > 0
      invariant 0 < i <= buf.Length == 20
      invariant v < Pow10(i - 1)
      invariant value < 0 ==> i == 20 && v == value
      invariant value > 0 ==> 0 <= v && (v == 0 ==> Decimal(value) == buf[i..])
      invariant value > 0 && v > 0 ==> Decimal(value) == Decimal(v) + buf[i..]
    {
      i := i - 1;
      ghost var written := buf[i + 1..];
      buf[i] := digits[v % 10];
      assert buf[i + 1..] == written;
      assert buf[i..] == [Digit(v % 10)] + written;
      v := v / 10;
    }
    s := buf[i..];
  }

  // Plans

  function PlanID(i: nat): string {
    "plan-" + Decimal(i + 1)
  }

  lemma PlanIDsDistinct(i: nat, j: nat)
    requires PlanID(i) == PlanID(j)
    ensures i == j
  {
    assert PlanID(i)[5..] == Decimal(i + 1) && PlanID(j)[5..] == Decimal(j + 1);
    DecimalInjective(i + 1, j + 1);
  }

  predicate Numbered(elements: seq<PlanElement>) {
    forall i :: 0 <= i < |elements| ==> elements[i].id == PlanID(i)
  }

  predicate IsBullet(line: string) {
    "- " <= TrimSpace(line) || "* " <= TrimSpace(line)
  }

  /** The texts of the lines that are bullets. */
  function Bullets(lines: seq<string>): seq<string> {
    if lines == [] then []
    else
      var init, line := lines[..|lines| - 1], lines[|lines| - 1];
      Bullets(init) + if IsBullet(line) then [TrimSpace(TrimSpace(line)[2..])] else []
  }

  /** The paragraphs that hold a word, collapsed. */
  function Collapsed(paragraphs: seq<string>): seq<string> {
    if paragraphs == [] then []
    else
      var init, last := paragraphs[..|paragraphs| - 1], Collapse(paragraphs[|paragraphs| - 1]);
      Collapsed(init) + if last != "" then [last] else []
  }

  /** The bullets of a task; its paragraphs when it has no bullets; the task itself when it has no words. */
  function Bodies(task: string): (bodies: seq<string>)
    ensures bodies != []
  {
    var bullets, paragraphs := Bullets(Split(task, "\n")), Collapsed(Split(task, "\n\n"));
    if bullets != [] then bullets
    else if paragraphs != [] then paragraphs
    else [task]
  }

  /** The text before the first occurrence of the character, or the whole text. */
  function Before(s: string, c: char): string {
    if s == "" || s[0] == c then "" else [s[0]] + Before(s[1..], c)
  }

  function Truncate(s: string, limit: nat): string {
    if |s| <= limit then s else TrimSpace(s[..limit])
  }

  function TitleOf(body: string): string {
    var title := Truncate(Collapse(Before(body, ':')), 72);
    if title == "" then "task" else title
  }

  predicate HasDetail(element: PlanElement, body: string) {
    element.detail == Collapse(body)
  }

  predicate IsElementOf(element: PlanElement, body: string) {
    element.title == TitleOf(body) && HasDetail(element, body)
  }

  predicate AreElementsOf(elements: seq<PlanElement>, bodies: seq<string>) {
    |elements| == |bodies| && forall i :: 0 <= i < |bodies| ==> IsElementOf(elements[i], bodies[i])
  }

  lemma BulletsSnoc(lines: seq<string>, line: string)
    ensures Bullets(lines + [line]) == Bullets(lines) + if IsBullet(line) then [TrimSpace(TrimSpace(line)[2..])] else []
  {
    assert (lines + [line])[..|lines|] == lines;
  }

  lemma CollapsedSnoc(paragraphs: seq<string>, paragraph: string)
    ensures Collapsed(paragraphs + [paragraph]) == Collapsed(paragraphs) + if Collapse(paragraph) != "" then [Collapse(paragraph)] else []
  {
    assert (paragraphs + [paragraph])[..|paragraphs|] == paragraphs;
  }

  /** The bodies a task is cut into. */
  method FindBodies(task: string) returns (bodies: seq<string>)
    ensures bodies == Bodies(task) && |bodies| <= |task| + 1
  {
    var lines := Split(task, "\n");
    bodies := [];
    for i := 0 to |lines|
      invariant bodies == Bullets(lines[..i]) && |bodies| <= i
    {
      var item := TrimSpace(lines[i]);
      BulletsSnoc(lines[..i], lines[i]);
      assert lines[..i + 1] == lines[..i] + [lines[i]];
      if "- " <= item || "* " <= item {
        bodies := bodies + [TrimSpace(item[2..])];
      }
    }
    assert lines[..|lines|] == lines;
    if |bodies| == 0 {
      bodies := FindParagraphs(task);
    }
    if |bodies| == 0 {
      bodies := [task];
    }
  }

  method FindParagraphs(task: string) returns (bodies: seq<string>)
    ensures bodies == Collapsed(Split(task, "\n\n")) && |bodies| <= |task| + 1
  {
    var paragraphs := Split(task, "\n\n");
    bodies := [];
    for i := 0 to |paragraphs|
      invariant bodies == Collapsed(paragraphs[..i]) && |bodies| <= i
    {
      var text := Collapse(paragraphs[i]);
      CollapsedSnoc(paragraphs[..i], paragraphs[i]);
      assert paragraphs[..i + 1] == paragraphs[..i] + [paragraphs[i]];
      if text != "" {
        bodies := bodies + [text];
      }
    }
    assert paragraphs[..|paragraphs|] == paragraphs;
  }

  lemma NumberedDiffer(elements: seq<PlanElement>)
    requires Numbered(elements)
    ensures forall i, j :: 0 <= i < j < |elements| ==> elements[i].id != elements[j].id
  {
    forall i, j | 0 <= i < j < |elements|
      ensures elements[i].id != elements[j].id
    {
      if elements[i].id == elements[j].id {
        PlanIDsDistinct(i, j);
      }
    }
  }

  method DraftElement(i: nat, body: string) returns (element: PlanElement)
    requires i < 0x7FFF_FFFF_FFFF_FFFF
    ensures element.id == PlanID(i) && IsElementOf(element, body)
  {
    var title := Truncate(Collapse(Before(body, ':')), 72);
    if title == "" {
      title := "task";
    }
    var number := Itoa(i + 1);
    element := PlanElement("plan-" + number, title, Collapse(body));
  }

  lemma ElementsSnoc(elements: seq<PlanElement>, bodies: seq<string>, element: PlanElement, body: string)
    requires AreElementsOf(elements, bodies) && Numbered(elements)
    requires IsElementOf(element, body) && element.id == PlanID(|elements|)
    ensures AreElementsOf(elements + [element], bodies + [body]) && Numbered(elements + [element])
  {
    forall i | 0 <= i < |bodies| + 1
      ensures IsElementOf((elements + [element])[i], (bodies + [body])[i])
    {
      if i < |bodies| {
        assert IsElementOf(elements[i], bodies[i]);
      }
    }
  }

  method DraftElements(bodies: seq<string>) returns (elements: seq<PlanElement>)
    requires |bodies| < 0x8000_0000_0000_0000
    ensures AreElementsOf(elements, bodies) && Numbered(elements)
  {
    elements := [];
    for i := 0 to |bodies|
      invariant |elements| == i && AreElementsOf(elements, bodies[..i]) && Numbered(elements)
    {
      var element := DraftElement(i, bodies[i]);
      ElementsSnoc(elements, bodies[..i], element, bodies[i]);
      assert bodies[..i + 1] == bodies[..i] + [bodies[i]];
      elements := elements + [element];
    }
    assert bodies[..|bodies|] == bodies;
  }

  /** The plan has one element for each body of the task, numbered in order, so with pairwise different ids. The
      length of a task is a 64-bit integer. */
  method BuildPlan(task: string) returns (plan: Plan)
    requires |task| < 0x7FFF_FFFF_FFFF_FFFF
    ensures plan.operatorPrompt == TrimSpace(task)
    ensures AreElementsOf(plan.elements, Bodies(TrimSpace(task)))
    ensures Numbered(plan.elements)
    ensures forall i :: 0 <= i < |plan.elements| ==> plan.elements[i].id == "plan-" + Decimal(i + 1)
    ensures forall i, j :: 0 <= i < j < |plan.elements| ==> plan.elements[i].id != plan.elements[j].id
    ensures plan.headline == plan.elements[0].title && plan.summary == Truncate(plan.elements[0].detail, 180)
  {
    var trimmed := TrimSpace(task);
    TrimShortens(task);
    var bodies := FindBodies(trimmed);
    var elements := DraftElements(bodies);
    NumberedDiffer(elements);
    plan := PlanArtifact(elements[0].title, trimmed, Truncate(elements[0].detail, 180), elements);
  }

  // What becomes of the words of a task

  /** The words of the texts, one text after the other. */
  function WordsOf(texts: seq<string>): seq<string> {
    if texts == [] then [] else WordsOf(texts[..|texts| - 1]) + Fields(texts[|texts| - 1])
  }

  lemma WordsOfSnoc(texts: seq<string>, last: string)
    ensures WordsOf(texts + [last]) == WordsOf(texts) + Fields(last)
  {
    assert (texts + [last])[..|texts|] == texts;
  }

  /** No word spans a blank line. */
  lemma {:induction false} WordsOfParagraphs(paragraphs: seq<string>)
    ensures WordsOf(paragraphs) == Fields(Join(paragraphs, "\n\n"))
  {
    if paragraphs != [] {
      var init, last := paragraphs[..|paragraphs| - 1], paragraphs[|paragraphs| - 1];
      WordsOfParagraphs(init);
      WordsOfSnoc(init, last);
      assert init + [last] == paragraphs;
      if init != [] {
        JoinSnoc(init, last, "\n\n");
        FieldsAcross(Join(init, "\n\n"), "\n\n", last);
      }
    }
  }

  /** Collapsing a paragraph, or leaving it out when it is blank, keeps the words. */
  lemma CollapsedKeepsLast(paragraphs: seq<string>, init: seq<string>, last: string)
    requires WordsOf(Collapsed(init)) == WordsOf(init) && paragraphs == init + [last]
    ensures WordsOf(Collapsed(paragraphs)) == WordsOf(paragraphs)
  {
    WordsOfSnoc(init, last);
    CollapsedSnoc(init, last);
    CollapseKeepsWords(last);
    if Collapse(last) != "" {
      WordsOfSnoc(Collapsed(init), Collapse(last));
    } else {
      assert Collapsed(init) + [] == Collapsed(init);
    }
  }

  lemma {:induction false} CollapsedKeepsWords(paragraphs: seq<string>)
    ensures WordsOf(Collapsed(paragraphs)) == WordsOf(paragraphs)
  {
    if paragraphs != [] {
      var init, last := paragraphs[..|paragraphs| - 1], paragraphs[|paragraphs| - 1];
      CollapsedKeepsWords(init);
      CollapsedKeepsLast(paragraphs, init, last);
    }
  }

  /** A task without bullets loses no word: the words of its bodies, one after the other, are its words. */
  lemma BodiesKeepWords(task: string)
    requires Bullets(Split(task, "\n")) == []
    ensures WordsOf(Bodies(task)) == Fields(task)
  {
    var paragraphs := Split(task, "\n\n");
    JoinSplit(task, "\n\n");
    WordsOfParagraphs(paragraphs);
    CollapsedKeepsWords(paragraphs);
    if Collapsed(paragraphs) == [] {
      WordsOfSnoc([], task);
    }
  }

  /** A bullet is never blank. */
  lemma BulletHasWords(line: string)
    requires IsBullet(line)
    ensures Fields(TrimSpace(TrimSpace(line)[2..])) != []
  {
    var item := TrimSpace(line);
    TrimRightEnds(TrimLeft(line));
    assert item[1] == ' ' && !IsSpace(item[|item| - 1]);
    assert item[2..][|item| - 3] == item[|item| - 1];
    NoFieldsExactlyWhenBlank(item[2..]);
    TrimKeepsWords(item[2..]);
  }

  lemma {:induction false} BulletsHaveWords(lines: seq<string>)
    ensures forall i :: 0 <= i < |Bullets(lines)| ==> Fields(Bullets(lines)[i]) != []
  {
    if lines != [] {
      BulletsHaveWords(lines[..|lines| - 1]);
      if IsBullet(lines[|lines| - 1]) {
        BulletHasWords(lines[|lines| - 1]);
      }
    }
  }

  lemma {:induction false} CollapsedHaveWords(paragraphs: seq<string>)
    ensures forall i :: 0 <= i < |Collapsed(paragraphs)| ==> Fields(Collapsed(paragraphs)[i]) != []
  {
    if paragraphs != [] {
      CollapsedHaveWords(paragraphs[..|paragraphs| - 1]);
      CollapseKeepsWords(paragraphs[|paragraphs| - 1]);
    }
  }

  /** Every body of a task has a word, unless the task has none. */
  lemma BodiesHaveWordsExactlyWhenTaskDoes(task: string)
    ensures (forall i :: 0 <= i < |Bodies(task)| ==> Fields(Bodies(task)[i]) != []) <==> Fields(task) != []
  {
    BulletsHaveWords(Split(task, "\n"));
    CollapsedHaveWords(Split(task, "\n\n"));
    if Fields(task) == [] {
      BlankHasNoBullets(task);
      BodiesKeepWords(task);
      assert Bodies(task)[..|Bodies(task)| - 1] + [Bodies(task)[|Bodies(task)| - 1]] == Bodies(task);
      WordsOfSnoc(Bodies(task)[..|Bodies(task)| - 1], Bodies(task)[|Bodies(task)| - 1]);
    }
  }

  /** No line of a blank task is a bullet. */
  lemma BlankHasNoBullets(task: string)
    requires Fields(task) == []
    ensures Bullets(Split(task, "\n")) == []
  {
    JoinSplit(task, "\n");
    JoinHasNoWords(Split(task, "\n"));
    NoBullets(Split(task, "\n"));
  }

  predicate AllBlank(lines: seq<string>) {
    forall i :: 0 <= i < |lines| ==> Fields(lines[i]) == []
  }

  lemma {:induction false} JoinHasNoWords(lines: seq<string>)
    requires Fields(Join(lines, "\n")) == []
    ensures AllBlank(lines)
  {
    if |lines| > 1 {
      FieldsAcross(lines[0], "\n", Join(lines[1..], "\n"));
      JoinHasNoWords(lines[1..]);
      assert forall i :: 0 < i < |lines| ==> lines[i] == lines[1..][i - 1];
    }
  }

  lemma {:induction false} NoBullets(lines: seq<string>)
    requires AllBlank(lines)
    ensures Bullets(lines) == []
  {
    if lines != [] {
      var init, last := lines[..|lines| - 1], lines[|lines| - 1];
      NoBullets(init);
      TrimKeepsWords(last);
      NoFieldsExactlyWhenBlank(TrimSpace(last));
      assert !IsBullet(last) by {
        assert TrimSpace(last) != "" ==> IsSpace(TrimSpace(last)[0]);
      }
    }
  }

  function Details(elements: seq<PlanElement>): seq<string> {
    seq(|elements|, i requires 0 <= i < |elements| => elements[i].detail)
  }

  lemma SameWordsSnoc(a: seq<string>, b: seq<string>, x: string, y: string)
    requires WordsOf(a) == WordsOf(b) && Fields(x) == Fields(y)
    ensures WordsOf(a + [x]) == WordsOf(b + [y])
  {
    WordsOfSnoc(a, x);
    WordsOfSnoc(b, y);
  }

  lemma {:induction false} DetailsKeepWords(elements: seq<PlanElement>, bodies: seq<string>)
    requires |elements| == |bodies| && forall i :: 0 <= i < |bodies| ==> HasDetail(elements[i], bodies[i])
    ensures WordsOf(Details(elements)) == WordsOf(bodies)
  {
    var n := |bodies|;
    if n == 0 {
      assert Details(elements) == [];
    } else {
      var init, last := bodies[..n - 1], bodies[n - 1];
      DetailsKeepWords(elements[..n - 1], init);
      CollapseKeepsWords(last);
      assert HasDetail(elements[n - 1], last);
      assert Details(elements) == Details(elements[..n - 1]) + [elements[n - 1].detail];
      assert bodies == init + [last];
      SameWordsSnoc(Details(elements[..n - 1]), init, elements[n - 1].detail, last);
    }
  }

  /** What the plan of a task keeps: without bullets its elements hold the words of the task, each once and in order;
      with or without, none of them is empty unless the task has no word. */
  lemma PlanKeepsWords(task: string, elements: seq<PlanElement>)
    requires AreElementsOf(elements, Bodies(TrimSpace(task)))
    ensures Bullets(Split(TrimSpace(task), "\n")) == [] ==> WordsOf(Details(elements)) == Fields(task)
    ensures (forall i :: 0 <= i < |elements| ==> elements[i].detail != "") <==> Fields(task) != []
  {
    var trimmed := TrimSpace(task);
    TrimKeepsWords(task);
    forall i | 0 <= i < |elements|
      ensures HasDetail(elements[i], Bodies(trimmed)[i])
    {
      assert IsElementOf(elements[i], Bodies(trimmed)[i]);
    }
    if Bullets(Split(trimmed, "\n")) == [] {
      BodiesKeepWords(trimmed);
      DetailsKeepWords(elements, Bodies(trimmed));
    }
    BodiesHaveWordsExactlyWhenTaskDoes(trimmed);
    forall i | 0 <= i < |elements|
      ensures elements[i].detail != "" <==> Fields(Bodies(trimmed)[i]) != []
    {
      assert HasDetail(elements[i], Bodies(trimmed)[i]);
      CollapseKeepsWords(Bodies(trimmed)[i]);
    }
  }

  // Titles

  lemma {:induction false} BeforeFirst(s: string, c: char)
    ensures c !in Before(s, c)
    ensures Before(s, c) == s || Before(s, c) + [c] <= s
  {
    if s != "" && s[0] != c {
      BeforeFirst(s[1..], c);
      assert s == [s[0]] + s[1..];
    }
  }

  /** A title is never empty and at most 72 characters long. It begins the collapsed text before the first colon and is
      all of it when that is no longer; when there is nothing before the colon it is a placeholder. */
  lemma TitleSummarises(body: string)
    ensures var head := Collapse(Before(body, ':'));
            && 1 <= |TitleOf(body)| <= 72
            && (head == "" ==> TitleOf(body) == "task")
            && (head != "" ==> TitleOf(body) <= head)
            && (head != "" && |head| <= 72 ==> TitleOf(body) == head)
  {
    var head := Collapse(Before(body, ':'));
    CollapseKeepsWords(Before(body, ':'));
    if head != "" {
      CollapseHead(Before(body, ':'));
      if |head| > 72 {
        TrimRightIsPrefix(head[..72]);
        TrimRightKeepsHead(head[..72]);
      }
    }
  }

  function AllPlanIDs(elements: seq<PlanElement>): seq<string> {
    seq(|elements|, i requires 0 <= i < |elements| => elements[i].id)
  }

  // Dockets from a preset

  function Jurors(preset: seq<Role>): seq<Role> {
    Court.RolesOfKind(preset, Juror)
  }

  /** The element the i-th juror is routed to. */
  function RoutedTo(plan: Plan, i: nat): PlanElement {
    plan.elements[i % |plan.elements|]
  }

  function Instructions(plan: Plan, workflow: Workflow, brief: string, i: nat): string {
    match workflow
    case Routed => RoutedTo(plan, i).detail
    case RoleScoped => "Review the full task through this role scope:\n\n" + brief + "\n\nTask:\n" + plan.operatorPrompt
    case _ => plan.operatorPrompt
  }

  function Rationale(workflow: Workflow): string {
    match workflow
    case Routed => "deterministic local routing until clerk routing is online"
    case RoleScoped => "role-scoped workflow keeps the full task visible while specializing each juror by role brief"
    case _ => "parallel consensus broadcasts the same prompt to each juror"
  }

  /** The assignment names this juror alone. Under routing it covers one plan element, chosen in turn; otherwise
      it covers the whole plan. */
  predicate IsFor(a: Assignment, juror: Role, brief: string, plan: Plan, workflow: Workflow, i: nat) {
    && a.id == juror.id && a.targetIDs == [juror.id] && a.title == juror.title
    && a.planElementIDs == (if workflow.Routed? then [RoutedTo(plan, i).id] else AllPlanIDs(plan.elements))
    && a.instructions == Instructions(plan, workflow, brief, i)
    && a.expected == DELIVERABLE && a.rationale == Rationale(workflow)
  }

  method DraftAssignment(juror: Role, brief: string, plan: Plan, workflow: Workflow, i: nat) returns (a: Assignment)
    ensures IsFor(a, juror, brief, plan, workflow, i)
  {
    var planIDs, instructions := AllPlanIDs(plan.elements), plan.operatorPrompt;
    var rationale := "parallel consensus broadcasts the same prompt to each juror";
    match workflow {
      case Routed =>
        var element := plan.elements[i % |plan.elements|];
        planIDs, instructions := [element.id], element.detail;
        rationale := "deterministic local routing until clerk routing is online";
      case RoleScoped =>
        instructions := "Review the full task through this role scope:\n\n" + brief + "\n\nTask:\n" + plan.operatorPrompt;
        rationale := "role-scoped workflow keeps the full task visible while specializing each juror by role brief";
      case _ =>
    }
    a := Assignment(juror.id, juror.title, instructions, [juror.id], planIDs, DELIVERABLE, rationale);
  }

  /** One assignment for each juror of the preset, in order. */
  method BuildDocket(plan: Plan, preset: seq<Role>, briefs: map<string, string>, workflow: Workflow)
    returns (assignments: seq<Assignment>)
    ensures |assignments| == |Jurors(preset)|
    ensures forall i :: 0 <= i < |assignments| ==>
              IsFor(assignments[i], Jurors(preset)[i], Brief(briefs, Jurors(preset)[i].id), plan, workflow, i)
  {
    var jurors := Jurors(preset);
    assignments := [];
    for i := 0 to |jurors|
      invariant |assignments| == i
      invariant forall k :: 0 <= k < i ==> IsFor(assignments[k], jurors[k], Brief(briefs, jurors[k].id), plan, workflow, k)
    {
      var a := DraftAssignment(jurors[i], Brief(briefs, jurors[i].id), plan, workflow, i);
      assignments := assignments + [a];
    }
  }

  function Brief(briefs: map<string, string>, id: string): string {
    if id in briefs then briefs[id] else ""
  }

  // Balance

  /** How many assignments are for this plan element alone. */
  function Load(assignments: seq<Assignment>, elementID: string): nat {
    if assignments == [] then 0
    else
      Load(assignments[..|assignments| - 1], elementID)
      + if assignments[|assignments| - 1].planElementIDs == [elementID] then 1 else 0
  }

  /** Taking turns among m elements: how many rounds are complete after i turns, and whose turn it is. */
  function Rounds(i: nat, m: nat): nat {
    if i == 0 then 0 else Rounds(i - 1, m) + if Turn(i - 1, m) + 1 == m then 1 else 0
  }

  function Turn(i: nat, m: nat): nat {
    if i == 0 || Turn(i - 1, m) + 1 == m then 0 else Turn(i - 1, m) + 1
  }

  lemma {:induction false} TurnsDivide(i: nat, m: nat)
    requires m > 0
    ensures Turn(i, m) < m && i == Rounds(i, m) * m + Turn(i, m)
    ensures Rounds(i, m) == i / m && Turn(i, m) == i % m
  {
    if i > 0 {
      TurnsDivide(i - 1, m);
      if Turn(i - 1, m) + 1 == m {
        assert Rounds(i, m) * m == Rounds(i - 1, m) * m + m;
      }
    }
    DivUnique(i, m, Rounds(i, m), Turn(i, m));
  }

  lemma DivUnique(n: nat, m: nat, q: nat, r: nat)
    requires 0 <= r < m && n == q * m + r
    ensures n / m == q && n % m == r
  {
    var p, s := n / m, n % m;
    assert n == p * m + s;
    MulMonotone(p + 1, q, m);
    MulMonotone(q + 1, p, m);
  }

  lemma MulMonotone(a: nat, b: nat, m: nat)
    ensures a <= b ==> a * m <= b * m
  {
    if a <= b {
      assert b * m == a * m + (b - a) * m;
    }
  }

  /** The i-th assignment is for the element whose turn it is, alone. */
  ghost predicate IsRouted(assignments: seq<Assignment>, elements: seq<PlanElement>) {
    forall i {:trigger assignments[i]} :: 0 <= i < |assignments| ==> ForTurn(assignments[i], elements, Turn(i, |elements|))
  }

  predicate ForTurn(a: Assignment, elements: seq<PlanElement>, turn: nat) {
    turn < |elements| && a.planElementIDs == [elements[turn].id]
  }

  lemma {:induction false} LoadIsShare(assignments: seq<Assignment>, elements: seq<PlanElement>, e: nat)
    requires IsRouted(assignments, elements) && Numbered(elements) && e < |elements|
    ensures var n, m := |assignments|, |elements|;
            Load(assignments, elements[e].id) == Rounds(n, m) + if e < Turn(n, m) then 1 else 0
  {
    var n, m := |assignments|, |elements|;
    if n > 0 {
      var init := assignments[..n - 1];
      forall i | 0 <= i < |init|
        ensures ForTurn(init[i], elements, Turn(i, m))
      {
        assert init[i] == assignments[i];
      }
      LoadIsShare(init, elements, e);
      TurnInRange(n - 1, m);
      var turn := Turn(n - 1, m);
      assert ForTurn(assignments[n - 1], elements, turn);
      assert [elements[turn].id] == [elements[e].id] <==> turn == e by {
        assert [elements[turn].id][0] == elements[turn].id && [elements[e].id][0] == elements[e].id;
        if elements[turn].id == elements[e].id {
          PlanIDsDistinct(turn, e);
        }
      }
    }
  }

  lemma {:induction false} TurnInRange(i: nat, m: nat)
    requires m > 0
    ensures Turn(i, m) < m
  {
    if i > 0 {
      TurnInRange(i - 1, m);
    }
  }

  /** The load of each element. */
  function Loads(assignments: seq<Assignment>, elements: seq<PlanElement>): seq<nat> {
    seq(|elements|, e requires 0 <= e < |elements| => Load(assignments, elements[e].id))
  }

  /** n items are spread over the places so that each gets the floor or the ceiling of its share, and no place is
      left empty exactly when there are enough items. */
  ghost predicate Balanced(loads: seq<nat>, n: nat)
    requires loads != []
  {
    && (forall e :: 0 <= e < |loads| ==> n / |loads| <= loads[e] <= (n + |loads| - 1) / |loads|)
    && ((forall e :: 0 <= e < |loads| ==> loads[e] > 0) <==> n >= |loads|)
  }

  predicate TakeTurns(loads: seq<nat>, n: nat) {
    forall e :: 0 <= e < |loads| ==> loads[e] == Rounds(n, |loads|) + if e < Turn(n, |loads|) then 1 else 0
  }

  lemma LoadsTakeTurns(assignments: seq<Assignment>, elements: seq<PlanElement>)
    requires IsRouted(assignments, elements) && Numbered(elements)
    ensures TakeTurns(Loads(assignments, elements), |assignments|)
  {
    forall e | 0 <= e < |elements|
      ensures Loads(assignments, elements)[e] == Rounds(|assignments|, |elements|) + if e < Turn(|assignments|, |elements|) then 1 else 0
    {
      LoadIsShare(assignments, elements, e);
    }
  }

  lemma TurnsAreBalanced(loads: seq<nat>, n: nat)
    requires loads != [] && TakeTurns(loads, n)
    ensures Balanced(loads, n)
  {
    var m := |loads|;
    TurnsDivide(n, m);
    Ceiling(n, m);
    FloorIsZeroExactlyWhenLess(n, m);
    assert loads[m - 1] == Rounds(n, m);
  }

  /** Routing is balanced: each of the m elements goes to the floor or the ceiling of n/m of the n jurors, and
      every element is covered exactly when there are at least as many jurors as elements. */
  lemma RoutingIsBalanced(assignments: seq<Assignment>, elements: seq<PlanElement>)
    requires IsRouted(assignments, elements) && Numbered(elements) && elements != []
    ensures Balanced(Loads(assignments, elements), |assignments|)
  {
    LoadsTakeTurns(assignments, elements);
    TurnsAreBalanced(Loads(assignments, elements), |assignments|);
  }

  lemma Ceiling(n: nat, m: nat)
    requires m > 0
    ensures (n + m - 1) / m == n / m + if n % m == 0 then 0 else 1
  {
    var q, r := n / m, n % m;
    if r == 0 {
      DivUnique(n + m - 1, m, q, m - 1);
    } else {
      assert (q + 1) * m == q * m + m;
      DivUnique(n + m - 1, m, q + 1, r - 1);
    }
  }

  lemma FloorIsZeroExactlyWhenLess(n: nat, m: nat)
    requires m > 0
    ensures n / m == 0 <==> n < m
  {
    if n < m {
      DivUnique(n, m, 0, n);
    } else {
      DivUnique(n, m, (n - m) / m + 1, (n - m) % m);
    }
  }

  /** What a routed docket built from a preset and a built plan does with its jurors. */
  method RouteJurors(task: string, preset: seq<Role>, briefs: map<string, string>)
    returns (plan: Plan, assignments: seq<Assignment>)
    requires |task| < 0x7FFF_FFFF_FFFF_FFFF
    ensures |assignments| == |Jurors(preset)|
    ensures IsRouted(assignments, plan.elements) && Numbered(plan.elements)
  {
    plan := BuildPlan(task);
    assignments := BuildDocket(plan, preset, briefs, Routed);
    forall i | 0 <= i < |assignments|
      ensures ForTurn(assignments[i], plan.elements, Turn(i, |plan.elements|))
    {
      assert IsFor(assignments[i], Jurors(preset)[i], Brief(briefs, Jurors(preset)[i].id), plan, Routed, i);
      TurnsDivide(i, |plan.elements|);
    }
  }
}
