/** Splitting and joining strings, and the words of a text. */
module Splitting {
  import opened Text

  /** strings.Join */
  function Join(parts: seq<string>, sep: string): string {
    if parts == [] then ""
    else if |parts| == 1 then parts[0]
    else parts[0] + sep + Join(parts[1..], sep)
  }

  /** strings.Split: the pieces between the occurrences of the separator, the leftmost ones that do not overlap. */
  function Split(s: string, sep: string): (r: seq<string>)
    requires sep != ""
    ensures 1 <= |r| <= |s| + 1
    decreases |s|
  {
    if s == "" then [""]
    else if sep <= s then [""] + Split(s[|sep|..], sep)
    else
      var rest := Split(s[1..], sep);
      [[s[0]] + rest[0]] + rest[1..]
  }

  lemma JoinCons(first: string, rest: seq<string>, sep: string)
    requires rest != []
    ensures Join([first] + rest, sep) == first + sep + Join(rest, sep)
  {
    assert ([first] + rest)[1..] == rest;
  }

  /** A character put in front of the first part comes in front of the whole. */
  lemma JoinHead(c: char, parts: seq<string>, sep: string)
    requires parts != []
    ensures Join([[c] + parts[0]] + parts[1..], sep) == [c] + Join(parts, sep)
  {
    if |parts| == 1 {
      assert [[c] + parts[0]] + parts[1..] == [[c] + parts[0]];
    } else {
      JoinCons([c] + parts[0], parts[1..], sep);
      assert [c] + parts[0] + sep + Join(parts[1..], sep) == [c] + (parts[0] + sep + Join(parts[1..], sep));
    }
  }

  /** Joining undoes splitting, for every separator: no character is lost. */
  lemma {:induction false} JoinSplit(s: string, sep: string)
    requires sep != ""
    ensures Join(Split(s, sep), sep) == s
    decreases |s|
  {
    if s == "" {
    } else if sep <= s {
      JoinSplit(s[|sep|..], sep);
      JoinCons("", Split(s[|sep|..], sep), sep);
      assert s == "" + sep + s[|sep|..];
    } else {
      JoinSplit(s[1..], sep);
      JoinHead(s[0], Split(s[1..], sep), sep);
      assert s == [s[0]] + s[1..];
    }
  }

  /** The separator stands nowhere in the text. */
  predicate Lacks(s: string, sep: string) {
    forall k :: 0 <= k <= |s| ==> !(sep <= s[k..])
  }

  lemma LacksCons(c: char, s: string, sep: string)
    requires Lacks(s, sep) && !(sep <= [c] + s)
    ensures Lacks([c] + s, sep)
  {
    forall k | 0 <= k <= |s| + 1
      ensures !(sep <= ([c] + s)[k..])
    {
      if k > 0 {
        assert ([c] + s)[k..] == s[k - 1..];
      } else {
        assert ([c] + s)[0..] == [c] + s;
      }
    }
  }

  /** Splitting cuts at every separator: the first piece begins the text, and no piece holds one. */
  lemma {:induction false} PiecesLackTheSeparator(s: string, sep: string)
    requires sep != ""
    ensures Split(s, sep)[0] <= s
    ensures forall i :: 0 <= i < |Split(s, sep)| ==> Lacks(Split(s, sep)[i], sep)
    decreases |s|
  {
    if s == "" {
    } else if sep <= s {
      PiecesLackTheSeparator(s[|sep|..], sep);
    } else {
      var rest := Split(s[1..], sep);
      PiecesLackTheSeparator(s[1..], sep);
      assert s == [s[0]] + s[1..];
      assert [s[0]] + rest[0] <= s;
      LacksCons(s[0], rest[0], sep);
    }
  }

  lemma StartsWith(c: char, s: string)
    ensures [c] <= s <==> s != "" && s[0] == c
  {
  }

  lemma {:induction false} SplitPlain(s: string, c: char)
    requires c !in s
    ensures Split(s, [c]) == [s]
  {
    StartsWith(c, s);
    if s != "" {
      SplitPlain(s[1..], c);
      assert s == [s[0]] + s[1..];
    }
  }

  lemma {:induction false} SplitAfter(s: string, c: char, rest: string)
    requires c !in s
    ensures Split(s + [c] + rest, [c]) == [s] + Split(rest, [c])
  {
    var t := s + [c] + rest;
    StartsWith(c, t);
    if s == "" {
      assert t == [c] + rest && t[1..] == rest;
    } else {
      assert t[1..] == s[1..] + [c] + rest;
      SplitAfter(s[1..], c, rest);
      assert s == [s[0]] + s[1..];
      assert ([s[1..]] + Split(rest, [c]))[1..] == Split(rest, [c]);
    }
  }

  /** Splitting undoes joining, as long as no part holds the separator. */
  lemma {:induction false} SplitJoin(parts: seq<string>, c: char)
    requires parts != [] && forall i :: 0 <= i < |parts| ==> c !in parts[i]
    ensures Split(Join(parts, [c]), [c]) == parts
  {
    if |parts| == 1 {
      SplitPlain(parts[0], c);
    } else {
      SplitAfter(parts[0], c, Join(parts[1..], [c]));
      SplitJoin(parts[1..], c);
    }
  }

  lemma {:induction false} JoinSnoc(parts: seq<string>, last: string, sep: string)
    requires parts != []
    ensures Join(parts + [last], sep) == Join(parts, sep) + sep + last
  {
    if |parts| > 1 {
      JoinSnoc(parts[1..], last, sep);
      assert (parts + [last])[1..] == parts[1..] + [last];
    } else {
      assert (parts + [last])[1..] == [last];
    }
  }

  // Words

  predicate IsWord(s: string) {
    s != "" && forall i :: 0 <= i < |s| ==> !IsSpace(s[i])
  }

  /** The words when a character comes in front of a text with these words: it starts a word of its own, or is
      joined to the first word if nothing is between them. */
  function Prepend(c: char, joins: bool, words: seq<string>): seq<string>
    requires joins ==> words != []
  {
    if IsSpace(c) then words
    else if joins then [[c] + words[0]] + words[1..]
    else [[c]] + words
  }

  /** strings.Fields: the words of a text, which are its longest runs of characters other than white space. */
  function Fields(s: string): (r: seq<string>)
    ensures s != "" && !IsSpace(s[0]) ==> r != []
  {
    if s == "" then [] else Prepend(s[0], |s| > 1 && !IsSpace(s[1]), Fields(s[1..]))
  }

  lemma PrependConcat(c: char, joins: bool, a: seq<string>, b: seq<string>)
    requires joins ==> a != []
    ensures Prepend(c, joins, a + b) == Prepend(c, joins, a) + b
  {
  }

  lemma {:induction false} FieldsAreWords(s: string)
    ensures forall i :: 0 <= i < |Fields(s)| ==> IsWord(Fields(s)[i])
  {
    if s != "" {
      FieldsAreWords(s[1..]);
    }
  }

  /** A text without words is one of white space only. */
  lemma {:induction false} NoFieldsExactlyWhenBlank(s: string)
    ensures Fields(s) == [] <==> forall i :: 0 <= i < |s| ==> IsSpace(s[i])
  {
    if s != "" {
      NoFieldsExactlyWhenBlank(s[1..]);
      assert forall i :: 0 < i < |s| ==> s[i] == s[1..][i - 1];
    }
  }

  /** White space separates words. */
  lemma {:induction false} FieldsConcat(a: string, c: char, b: string)
    requires IsSpace(c)
    ensures Fields(a + [c] + b) == Fields(a) + Fields(b)
  {
    var s := a + [c] + b;
    if a == "" {
      assert s[1..] == b;
    } else {
      assert s[1..] == a[1..] + [c] + b;
      FieldsConcat(a[1..], c, b);
      var joins := |a| > 1 && !IsSpace(a[1]);
      assert |a| > 1 ==> a[1..][0] == a[1] == s[1];
      assert |a| == 1 ==> s[1] == c;
      PrependConcat(a[0], joins, Fields(a[1..]), Fields(b));
    }
  }

  lemma {:induction false} FieldsAfterGap(gap: string, b: string)
    requires forall i :: 0 <= i < |gap| ==> IsSpace(gap[i])
    ensures Fields(gap + b) == Fields(b)
  {
    if gap == "" {
      assert gap + b == b;
    } else {
      assert (gap + b)[1..] == gap[1..] + b;
      FieldsAfterGap(gap[1..], b);
    }
  }

  lemma FieldsAcross(a: string, gap: string, b: string)
    requires gap != "" && forall i :: 0 <= i < |gap| ==> IsSpace(gap[i])
    ensures Fields(a + gap + b) == Fields(a) + Fields(b)
  {
    var rest := gap[1..] + b;
    FieldsConcat(a, gap[0], rest);
    FieldsAfterGap(gap[1..], b);
    assert a + gap + b == a + [gap[0]] + rest;
  }

  lemma {:induction false} FieldsOfWord(w: string)
    requires IsWord(w)
    ensures Fields(w) == [w]
  {
    assert !IsSpace(w[0]);
    if |w| > 1 {
      assert IsWord(w[1..]) && !IsSpace(w[1]);
      FieldsOfWord(w[1..]);
      assert w == [w[0]] + w[1..];
    } else {
      assert w[1..] == "" && w == [w[0]];
    }
  }

  /** The words of words put in a row are these words. */
  lemma {:induction false} FieldsOfJoin(words: seq<string>)
    requires forall i :: 0 <= i < |words| ==> IsWord(words[i])
    ensures Fields(Join(words, " ")) == words
  {
    if words != [] {
      FieldsOfWord(words[0]);
      if |words| > 1 {
        FieldsOfJoin(words[1..]);
        FieldsConcat(words[0], ' ', Join(words[1..], " "));
        assert words == [words[0]] + words[1..];
      }
    }
  }

  /** The words of a text with one space between them. */
  function Collapse(s: string): string {
    Join(Fields(s), " ")
  }

  /** Collapsing white space keeps the words, so that doing it twice is doing it once. */
  lemma CollapseKeepsWords(s: string)
    ensures Fields(Collapse(s)) == Fields(s)
    ensures Collapse(Collapse(s)) == Collapse(s)
    ensures Collapse(s) == "" <==> Fields(s) == []
  {
    FieldsAreWords(s);
    FieldsOfJoin(Fields(s));
  }

  /** A collapsed text does not begin with white space. */
  lemma CollapseHead(s: string)
    requires Fields(s) != []
    ensures Collapse(s) != "" && !IsSpace(Collapse(s)[0])
  {
    FieldsAreWords(s);
    assert IsWord(Fields(s)[0]);
  }

  lemma {:induction false} FieldsOfTrimRight(s: string)
    ensures Fields(TrimRight(s)) == Fields(s)
  {
    if s != "" && IsSpace(s[|s| - 1]) {
      var init := s[..|s| - 1];
      FieldsOfTrimRight(init);
      FieldsConcat(init, s[|s| - 1], "");
      assert init + [s[|s| - 1]] + "" == s;
    }
  }

  lemma {:induction false} FieldsOfTrimLeft(s: string)
    ensures Fields(TrimLeft(s)) == Fields(s)
  {
    if s != "" && IsSpace(s[0]) {
      FieldsOfTrimLeft(s[1..]);
    }
  }

  /** Trimming keeps the words. */
  lemma TrimKeepsWords(s: string)
    ensures Fields(TrimSpace(s)) == Fields(s)
  {
    FieldsOfTrimLeft(s);
    FieldsOfTrimRight(TrimLeft(s));
  }

  lemma TrimRightIsPrefix(s: string)
    ensures TrimRight(s) <= s
  {
    if s != "" && IsSpace(s[|s| - 1]) {
      TrimRightIsPrefix(s[..|s| - 1]);
    }
  }

  lemma TrimLeftShortens(s: string)
    ensures |TrimLeft(s)| <= |s|
  {
    if s != "" && IsSpace(s[0]) {
      TrimLeftShortens(s[1..]);
    }
  }

  lemma TrimShortens(s: string)
    ensures |TrimSpace(s)| <= |s|
  {
    TrimLeftShortens(s);
    TrimRightIsPrefix(TrimLeft(s));
  }
}
