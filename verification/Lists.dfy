/** Options, membership, duplicate removal and counting over sequences. */
module Lists {
  import opened Text

  datatype Option<+T> = None | Some(value: T)

  ghost predicate Distinct<T>(s: seq<T>) {
    forall i, j :: 0 <= i < j < |s| ==> s[i] != s[j]
  }

  /** s without repetitions, each element at the place of its first occurrence. */
  function Dedup<T(==)>(s: seq<T>): seq<T> {
    if s == [] then []
    else
      var r, last := Dedup(s[..|s| - 1]), s[|s| - 1];
      if last in r then r else r + [last]
  }

  lemma {:induction false} DedupMembers<T>(s: seq<T>)
    ensures forall x :: x in Dedup(s) <==> x in s
    ensures Distinct(Dedup(s))
  {
    if s != [] {
      var init, last := s[..|s| - 1], s[|s| - 1];
      DedupMembers(init);
      assert s == init + [last];
    }
  }

  lemma DedupSnoc<T>(s: seq<T>, x: T)
    ensures Dedup(s + [x]) == if x in Dedup(s) then Dedup(s) else Dedup(s) + [x]
  {
    assert (s + [x])[..|s|] == s;
  }

  /** A list without repetitions is its own Dedup. */
  lemma {:induction false} DedupOfDistinct<T>(s: seq<T>)
    requires Distinct(s)
    ensures Dedup(s) == s
  {
    if s != [] {
      var init := s[..|s| - 1];
      assert s == init + [s[|s| - 1]];
      DedupOfDistinct(init);
    }
  }

  /** The trimmed, non-empty strings of a list. */
  function Trimmed(values: seq<string>): (r: seq<string>)
    ensures forall x :: x in r ==> x != ""
  {
    if values == [] then []
    else
      var rest, v := Trimmed(values[..|values| - 1]), TrimSpace(values[|values| - 1]);
      if v == "" then rest else rest + [v]
  }

  lemma TrimmedSnoc(values: seq<string>, v: string)
    ensures Trimmed(values + [v]) == if TrimSpace(v) == "" then Trimmed(values) else Trimmed(values) + [TrimSpace(v)]
  {
    assert (values + [v])[..|values|] == values;
  }

  lemma {:induction false} TrimmedConcat(a: seq<string>, b: seq<string>)
    ensures Trimmed(a + b) == Trimmed(a) + Trimmed(b)
  {
    if b == [] {
      assert a + b == a;
    } else {
      var init, last := b[..|b| - 1], b[|b| - 1];
      assert a + b == (a + init) + [last];
      TrimmedConcat(a, init);
      TrimmedSnoc(a + init, last);
    }
  }

  /** Every element of a Trimmed list is already trimmed. */
  lemma {:induction false} TrimmedAreTrimmed(values: seq<string>)
    ensures forall x :: x in Trimmed(values) ==> TrimSpace(x) == x
  {
    if values != [] {
      TrimmedAreTrimmed(values[..|values| - 1]);
      TrimSpaceIdempotent(values[|values| - 1]);
    }
  }

  lemma {:induction false} TrimmedFixed(values: seq<string>)
    requires forall x :: x in values ==> x != "" && TrimSpace(x) == x
    ensures Trimmed(values) == values
  {
    if values != [] {
      var init, last := values[..|values| - 1], values[|values| - 1];
      assert values == init + [last];
      assert forall x :: x in init ==> x in values;
      TrimmedFixed(init);
    }
  }

  function Filter<T>(s: seq<T>, p: T -> bool): (r: seq<T>) {
    if s == [] then []
    else Filter(s[..|s| - 1], p) + if p(s[|s| - 1]) then [s[|s| - 1]] else []
  }

  lemma FilterSnoc<T>(s: seq<T>, x: T, p: T -> bool)
    ensures Filter(s + [x], p) == Filter(s, p) + if p(x) then [x] else []
  {
    assert (s + [x])[..|s|] == s;
  }

  /** The place of the first occurrence of x in s. */
  function FirstIndex<T(==)>(s: seq<T>, x: T): (i: nat)
    requires x in s
    ensures i < |s| && s[i] == x
    ensures forall k :: 0 <= k < i ==> s[k] != x
  {
    if s[0] == x then 0 else 1 + FirstIndex(s[1..], x)
  }

  /** Dedup keeps the order in which elements first occur. */
  lemma {:induction false} DedupKeepsFirstOrder<T(!new)>(s: seq<T>, i: nat, j: nat)
    requires i < j < |Dedup(s)|
    ensures Dedup(s)[i] in s && Dedup(s)[j] in s
    ensures FirstIndex(s, Dedup(s)[i]) < FirstIndex(s, Dedup(s)[j])
  {
    var init, last := s[..|s| - 1], s[|s| - 1];
    var r := Dedup(s);
    DedupMembers(s);
    DedupMembers(init);
    assert r[i] in r && r[j] in r;
    assert s == init + [last];
    var a, b := FirstIndex(s, r[i]), FirstIndex(s, r[j]);
    FirstIndexOfPrefix(init, last, r[i]);
    if j < |Dedup(init)| {
      DedupKeepsFirstOrder(init, i, j);
      FirstIndexOfPrefix(init, last, r[j]);
    } else {
      assert r[j] == last && last !in init;
      assert r[i] in init;
      assert forall k :: 0 <= k < |init| ==> init[k] in init;
    }
  }

  lemma FirstIndexOfPrefix<T>(init: seq<T>, last: T, x: T)
    ensures x in init ==> FirstIndex(init + [last], x) == FirstIndex(init, x)
  {
    if x in init {
      var s := init + [last];
      assert s[FirstIndex(init, x)] == x;
      assert forall k :: 0 <= k < |init| ==> s[k] == init[k];
    }
  }

  /** Removing repetitions from the tail first changes nothing. */
  lemma {:induction false} DedupAfterDedup<T(!new)>(a: seq<T>, s: seq<T>)
    ensures Dedup(a + Dedup(s)) == Dedup(a + s)
  {
    if s != [] {
      var init, last := s[..|s| - 1], s[|s| - 1];
      assert s == init + [last];
      DedupAfterDedup(a, init);
      DedupSnoc(init, last);
      DedupMembers(init);
      DedupMembers(a + init);
      DedupMembers(a + Dedup(init));
      assert a + s == (a + init) + [last];
      DedupSnoc(a + init, last);
      if last in init {
      } else {
        assert a + Dedup(s) == (a + Dedup(init)) + [last];
        DedupSnoc(a + Dedup(init), last);
      }
    }
  }
}
