/** What trimming and the choice of the first text come to. */
module TextProperties {
  import opened Text

  predicate Blank(s: string) {
    forall i :: 0 <= i < |s| ==> IsSpace(s[i])
  }

  lemma {:induction false} TrimLeftIsSuffix(s: string) returns (head: string)
    ensures s == head + TrimLeft(s) && Blank(head)
  {
    if s != "" && IsSpace(s[0]) {
      head := TrimLeftIsSuffix(s[1..]);
      head := [s[0]] + head;
      assert s == [s[0]] + s[1..];
    } else {
      head := "";
    }
  }

  lemma {:induction false} TrimRightIsPrefix(s: string) returns (tail: string)
    ensures s == TrimRight(s) + tail && Blank(tail)
  {
    if s != "" && IsSpace(s[|s| - 1]) {
      tail := TrimRightIsPrefix(s[..|s| - 1]);
      tail := tail + [s[|s| - 1]];
      assert s == s[..|s| - 1] + [s[|s| - 1]];
    } else {
      tail := "";
    }
  }

  /** Trimming takes white space off both ends, all of it and nothing else. */
  lemma TrimSpaceIsMiddle(s: string) returns (head: string, tail: string)
    ensures s == head + TrimSpace(s) + tail && Blank(head) && Blank(tail)
    ensures TrimSpace(s) != "" ==> !IsSpace(TrimSpace(s)[0]) && !IsSpace(TrimSpace(s)[|TrimSpace(s)| - 1])
  {
    head := TrimLeftIsSuffix(s);
    tail := TrimRightIsPrefix(TrimLeft(s));
    TrimLeftEnds(s);
    TrimRightEnds(TrimLeft(s));
    if TrimLeft(s) != "" {
      TrimRightKeepsHead(TrimLeft(s));
    }
    assert s == head + (TrimSpace(s) + tail);
  }

  lemma FirstOfOne(a: string)
    ensures FirstNonEmpty([a]) == TrimSpace(a)
  {
    assert [a][1..] == [];
  }

  lemma FirstOfTwo(a: string, b: string)
    ensures FirstNonEmpty([a, b]) == if TrimSpace(a) != "" then TrimSpace(a) else TrimSpace(b)
  {
    assert [a, b][1..] == [b];
    FirstOfOne(b);
  }

  lemma FirstOfThree(a: string, b: string, c: string)
    ensures FirstNonEmpty([a, b, c]) ==
            if TrimSpace(a) != "" then TrimSpace(a) else if TrimSpace(b) != "" then TrimSpace(b) else TrimSpace(c)
  {
    assert [a, b, c][1..] == [b, c];
    FirstOfTwo(b, c);
  }

  /** The first text that is not blank is chosen, trimmed; "" is chosen exactly when all are blank. */
  lemma {:induction false} FirstNonEmptyIsFirst(values: seq<string>)
    ensures FirstNonEmpty(values) == "" <==> forall i :: 0 <= i < |values| ==> TrimSpace(values[i]) == ""
    ensures forall i :: 0 <= i < |values| && TrimSpace(values[i]) != "" && (forall j :: 0 <= j < i ==> TrimSpace(values[j]) == "") ==>
              FirstNonEmpty(values) == TrimSpace(values[i])
  {
    if values != [] {
      FirstNonEmptyIsFirst(values[1..]);
      assert forall i :: 0 < i < |values| ==> values[i] == values[1..][i - 1];
      assert forall i :: 0 <= i < |values| - 1 ==> values[1..][i] == values[i + 1];
    }
  }
}
