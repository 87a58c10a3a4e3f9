/** What a plan takes from the bullets of a task, and what a preset's docket tells its jurors. */
module PlanTexts {
  import opened Text
  import opened Splitting
  import opened Lists
  import opened Places
  import opened CourtTypes
  import opened Plans

  // Bullets

  /** The line is a bullet: trimmed, it begins with a dash or a star and a space; and this is what follows them. */
  predicate IsBulletWith(line: string, rest: string) {
    TrimSpace(line) == "- " + rest || TrimSpace(line) == "* " + rest
  }

  lemma BulletHasRest(line: string)
    ensures IsBullet(line) <==> exists rest :: IsBulletWith(line, rest)
    ensures forall rest :: IsBulletWith(line, rest) ==> TrimSpace(line)[2..] == rest
  {
    if IsBullet(line) {
      var rest := TrimSpace(line)[2..];
      assert TrimSpace(line) == TrimSpace(line)[..2] + rest;
      assert IsBulletWith(line, rest);
    }
  }

  ghost predicate BulletsAt(bullets: seq<string>, lines: seq<string>, places: seq<nat>) {
    |bullets| == |places| && forall k :: 0 <= k < |places| ==> IsBulletAt(bullets[k], lines, places[k])
  }

  /** The text is what follows the mark of the bullet on this line, trimmed. */
  ghost predicate IsBulletAt(text: string, lines: seq<string>, place: nat) {
    place < |lines| && exists rest :: IsBulletWith(lines[place], rest) && text == TrimSpace(rest)
  }

  lemma OneMoreBullet(bullets: seq<string>, lines: seq<string>, places: seq<nat>, n: nat)
    requires n < |lines| && BulletsAt(bullets, lines[..n], places)
    ensures BulletsAt(bullets, lines, places)
    ensures IsBullet(lines[n]) ==> BulletsAt(bullets + [TrimSpace(TrimSpace(lines[n])[2..])], lines, places + [n])
  {
    forall k | 0 <= k < |places|
      ensures IsBulletAt(bullets[k], lines, places[k])
    {
      assert IsBulletAt(bullets[k], lines[..n], places[k]);
    }
    if IsBullet(lines[n]) {
      BulletHasRest(lines[n]);
      assert IsBulletAt(TrimSpace(TrimSpace(lines[n])[2..]), lines, n);
    }
  }

  /** The bullets of a task are the texts of its bullet lines, all of them, in order. */
  lemma {:induction false} BulletsAre(lines: seq<string>, places: seq<nat>)
    requires Picks(lines, IsBullet, places)
    ensures BulletsAt(Bullets(lines), lines, places)
  {
    if lines == [] {
      PicksNothing(IsBullet, places);
    } else {
      var n := |lines| - 1;
      PicksInit(lines, IsBullet, places);
      BulletsSnoc(lines[..n], lines[n]);
      assert lines == lines[..n] + [lines[n]];
      if IsBullet(lines[n]) {
        var init := places[..|places| - 1];
        BulletsAre(lines[..n], init);
        OneMoreBullet(Bullets(lines[..n]), lines, init, n);
        assert places == init + [n];
      } else {
        BulletsAre(lines[..n], places);
        OneMoreBullet(Bullets(lines[..n]), lines, places, n);
        assert Bullets(lines[..n]) + [] == Bullets(lines[..n]);
      }
    }
  }

  /** A task with bullets is cut into them; one without, into its paragraphs that hold a word; and one without words stays
      whole. */
  lemma BodiesAre(task: string)
    ensures Bullets(Split(task, "\n")) != [] ==> Bodies(task) == Bullets(Split(task, "\n"))
    ensures Bullets(Split(task, "\n")) == [] && Fields(task) != [] ==> Bodies(task) == Collapsed(Split(task, "\n\n"))
    ensures Fields(task) == [] ==> Bodies(task) == [task]
  {
    ParagraphsHoldTheWords(task);
    if Fields(task) == [] {
      BlankHasNoBullets(task);
    }
  }

  lemma NoWordsExactlyWhenNoTexts(texts: seq<string>)
    requires forall i :: 0 <= i < |texts| ==> Fields(texts[i]) != []
    ensures WordsOf(texts) == [] <==> texts == []
  {
  }

  /** A task has paragraphs with words exactly when it has words. */
  lemma ParagraphsHoldTheWords(task: string)
    ensures Collapsed(Split(task, "\n\n")) == [] <==> Fields(task) == []
  {
    var paragraphs := Split(task, "\n\n");
    JoinSplit(task, "\n\n");
    WordsOfParagraphs(paragraphs);
    CollapsedKeepsWords(paragraphs);
    CollapsedHaveWords(paragraphs);
    NoWordsExactlyWhenNoTexts(Collapsed(paragraphs));
  }

  /** The summary of a plan begins its first detail and is all of it up to 180 characters. */
  lemma SummaryBegins(detail: string)
    requires Collapse(detail) == detail && detail != ""
    ensures Truncate(detail, 180) <= detail && 1 <= |Truncate(detail, 180)| <= 180
    ensures |detail| <= 180 ==> Truncate(detail, 180) == detail
  {
    CollapseKeepsWords(detail);
    CollapseHead(detail);
    if |detail| > 180 {
      TrimRightIsPrefix(detail[..180]);
      TrimRightKeepsHead(detail[..180]);
    }
  }

  // Dockets

  /** Under routing a juror is told the detail of its element alone. */
  lemma RoutedSays(a: Assignment, juror: Role, brief: string, plan: Plan, i: nat)
    requires IsFor(a, juror, brief, plan, Routed, i)
    ensures var element := plan.elements[i % |plan.elements|];
            a.planElementIDs == [element.id] && a.instructions == element.detail
  {
  }

  /** Otherwise it is told the whole prompt, which a role-scoped workflow puts after the brief of its role. */
  lemma UnroutedSays(a: Assignment, juror: Role, brief: string, plan: Plan, workflow: Workflow, i: nat)
    requires IsFor(a, juror, brief, plan, workflow, i) && !workflow.Routed?
    ensures |a.planElementIDs| == |plan.elements| && forall k :: 0 <= k < |plan.elements| ==> a.planElementIDs[k] == plan.elements[k].id
    ensures a.instructions ==
            if workflow.RoleScoped? then
              "Review the full task through this role scope:\n\n" + brief + "\n\nTask:\n" + plan.operatorPrompt
            else plan.operatorPrompt
  {
  }
}
