/** Numbering the events of a stream so that the events of one uninterrupted segment of a scope share a number. */
module Segments {

  /** What the numbering sees of an event: its scope ("" if it takes no number), and whether it starts or ends a
      segment. */
  datatype Mark = Mark(scope: string, starts: bool, ends: bool)

  /** The open number of each scope, and how many numbers have been issued. */
  datatype Numbering = Numbering(active: map<string, nat>, issued: nat)

  const NONE_OPEN := Numbering(map[], 0)

  predicate Opens(st: Numbering, m: Mark) {
    m.starts || m.scope !in st.active
  }

  function NumberOf(st: Numbering, m: Mark): nat {
    if Opens(st, m) then st.issued + 1 else st.active[m.scope]
  }

  function Next(st: Numbering, m: Mark): Numbering {
    if m.scope == "" then st
    else
      Numbering(if m.ends then st.active - {m.scope} else st.active[m.scope := NumberOf(st, m)],
                if Opens(st, m) then st.issued + 1 else st.issued)
  }

  function After(marks: seq<Mark>): Numbering {
    if marks == [] then NONE_OPEN else Next(After(marks[..|marks| - 1]), marks[|marks| - 1])
  }

  /** The number of mark i. */
  function NumberAt(marks: seq<Mark>, i: nat): nat
    requires i < |marks|
  {
    NumberOf(After(marks[..i]), marks[i])
  }

  lemma AfterNext(marks: seq<Mark>, i: nat)
    requires i < |marks|
    ensures After(marks[..i + 1]) == Next(After(marks[..i]), marks[i])
  {
    assert marks[..i + 1][..i] == marks[..i];
  }

  /** From i to just before p, no mark of the scope of i starts a segment after i, and none from i on ends one. */
  predicate Unbroken(marks: seq<Mark>, i: nat, p: nat)
    requires i < p <= |marks|
  {
    && (forall k :: i < k < p && marks[k].scope == marks[i].scope ==> !marks[k].starts)
    && (forall k :: i <= k < p && marks[k].scope == marks[i].scope ==> !marks[k].ends)
  }

  /** The two marks are in one segment of one scope. */
  predicate SameSegment(marks: seq<Mark>, i: nat, j: nat)
    requires i < j < |marks|
  {
    marks[j].scope == marks[i].scope && Unbroken(marks, i, j) && !marks[j].starts
  }

  predicate NumbersInUse(st: Numbering) {
    && (forall s :: s in st.active ==> 0 < st.active[s] <= st.issued)
    && (forall s, t :: s in st.active && t in st.active && st.active[s] == st.active[t] ==> s == t)
  }

  lemma {:induction false} NumbersStayInUse(marks: seq<Mark>)
    ensures NumbersInUse(After(marks))
  {
    if marks != [] {
      NumbersStayInUse(marks[..|marks| - 1]);
    }
  }

  predicate Holds(st: Numbering, scope: string, n: nat) {
    scope in st.active && st.active[scope] == n
  }

  lemma UnbrokenStep(marks: seq<Mark>, i: nat, p: nat)
    requires i < p < |marks|
    ensures Unbroken(marks, i, p + 1)
       <==> Unbroken(marks, i, p) && (marks[p].scope == marks[i].scope ==> !marks[p].starts && !marks[p].ends)
  {
  }

  /** A scope keeps its number open exactly as long as its segment is unbroken. */
  lemma {:induction false} OpenExactlyWhileUnbroken(marks: seq<Mark>, i: nat, p: nat)
    requires i < p <= |marks| && marks[i].scope != ""
    ensures NumberAt(marks, i) <= After(marks[..p]).issued
    ensures Holds(After(marks[..p]), marks[i].scope, NumberAt(marks, i)) <==> Unbroken(marks, i, p)
  {
    NumbersStayInUse(marks[..p - 1]);
    AfterNext(marks, p - 1);
    if i < p - 1 {
      OpenExactlyWhileUnbroken(marks, i, p - 1);
      UnbrokenStep(marks, i, p - 1);
    }
  }

  lemma NumberGoesToItsScope(st: Numbering, m: Mark, s: string)
    requires NumbersInUse(st) && m.scope != "" && Holds(Next(st, m), s, NumberOf(st, m))
    ensures s == m.scope
  {
  }

  lemma UsedNumbersDoNotSpread(st: Numbering, m: Mark, s: string, n: nat)
    requires NumbersInUse(st) && n <= st.issued && Holds(Next(st, m), s, n)
    ensures Holds(st, s, n)
  {
  }

  /** A number given to one scope is never open in another. */
  lemma {:induction false} OnlyOwnScopeHolds(marks: seq<Mark>, i: nat, p: nat, s: string)
    requires i < p <= |marks| && marks[i].scope != ""
    requires Holds(After(marks[..p]), s, NumberAt(marks, i))
    ensures s == marks[i].scope
  {
    NumbersStayInUse(marks[..p - 1]);
    AfterNext(marks, p - 1);
    if i < p - 1 {
      OpenExactlyWhileUnbroken(marks, i, p - 1);
      UsedNumbersDoNotSpread(After(marks[..p - 1]), marks[p - 1], s, NumberAt(marks, i));
      OnlyOwnScopeHolds(marks, i, p - 1, s);
    } else {
      NumberGoesToItsScope(After(marks[..i]), marks[i], s);
    }
  }

  /** Two marks get the same number exactly when they are in one segment: of one scope, with no start after the
      first and no end before the second. */
  lemma NumbersMarkSegments(marks: seq<Mark>, i: nat, j: nat)
    requires i < j < |marks| && marks[i].scope != "" && marks[j].scope != ""
    ensures NumberAt(marks, i) == NumberAt(marks, j) <==> SameSegment(marks, i, j)
  {
    var n := NumberAt(marks, i);
    var st := After(marks[..j]);
    OpenExactlyWhileUnbroken(marks, i, j);
    NumbersStayInUse(marks[..j]);
    if !Opens(st, marks[j]) && st.active[marks[j].scope] == n {
      OnlyOwnScopeHolds(marks, i, j, marks[j].scope);
    }
  }
}
