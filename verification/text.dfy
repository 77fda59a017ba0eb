/** Trimming, cutting and splitting; trimming knows the white space below U+0100. */
module Text {
  import opened Sequences

  const WHITE_SPACE := {' ', '\t', '\n', '\r', '\U{000B}', '\U{000C}', '\U{0085}', '\U{00A0}'}

  function TrimLeft(s: string): string {
    if s != "" && s[0] in WHITE_SPACE then TrimLeft(s[1..]) else s
  }

  function TrimRight(s: string): string {
    if s != "" && s[|s| - 1] in WHITE_SPACE then TrimRight(s[..|s| - 1]) else s
  }

  function TrimSpace(s: string): string {
    TrimRight(TrimLeft(s))
  }

  predicate AllWhite(s: string) {
    forall c :: c in s ==> c in WHITE_SPACE
  }

  lemma {:induction false} TrimLeftIs(s: string) returns (n: nat)
    ensures n <= |s| && TrimLeft(s) == s[n..] && AllWhite(s[..n])
    ensures n < |s| ==> s[n] !in WHITE_SPACE
  {
    if s != "" && s[0] in WHITE_SPACE {
      var m := TrimLeftIs(s[1..]);
      n := m + 1;
      assert s[1..][m..] == s[n..] && s[..n] == [s[0]] + s[1..][..m];
    } else {
      n := 0;
    }
  }

  lemma {:induction false} TrimRightIs(s: string) returns (n: nat)
    ensures n <= |s| && TrimRight(s) == s[..n] && AllWhite(s[n..])
    ensures n > 0 ==> s[n - 1] !in WHITE_SPACE
  {
    if s != "" && s[|s| - 1] in WHITE_SPACE {
      var front := s[..|s| - 1];
      n := TrimRightIs(front);
      assert front[..n] == s[..n] && s[n..] == front[n..] + [s[|s| - 1]];
    } else {
      n := |s|;
    }
  }

  /** Trimming takes white space off both ends, and leaves none there. */
  lemma {:induction false} TrimIs(s: string) returns (left: string, right: string)
    ensures s == left + TrimSpace(s) + right && AllWhite(left) && AllWhite(right)
    ensures var t := TrimSpace(s); t != "" ==> t[0] !in WHITE_SPACE && t[|t| - 1] !in WHITE_SPACE
  {
    var m := TrimLeftIs(s);
    var n := TrimRightIs(s[m..]);
    left, right := s[..m], s[m..][n..];
    assert s[m..] == s[m..][..n] + s[m..][n..];
  }

  lemma {:induction false} TrimLeftOf(left: string, s: string)
    requires AllWhite(left) && (s != "" ==> s[0] !in WHITE_SPACE)
    ensures TrimLeft(left + s) == s
  {
    if left == "" {
      assert left + s == s;
    } else {
      assert left[0] in left && (left + s)[1..] == left[1..] + s;
      TrimLeftOf(left[1..], s);
    }
  }

  lemma {:induction false} TrimRightOf(s: string, right: string)
    requires AllWhite(right) && (s != "" ==> s[|s| - 1] !in WHITE_SPACE)
    ensures TrimRight(s + right) == s
  {
    if right == "" {
      assert s + right == s;
    } else {
      var n := |right| - 1;
      assert right[n] in right && (s + right)[..|s + right| - 1] == s + right[..n];
      TrimRightOf(s, right[..n]);
    }
  }

  lemma {:induction false} TrimOf(left: string, s: string, right: string)
    requires AllWhite(left) && AllWhite(right)
    requires s != "" && s[0] !in WHITE_SPACE && s[|s| - 1] !in WHITE_SPACE
    ensures TrimSpace(left + s + right) == s
  {
    assert left + s + right == left + (s + right);
    TrimLeftOf(left, s + right);
    TrimRightOf(s, right);
  }

  // ---- cutting and splitting ----

  /** The text before the first sep, the text after it, and whether there is one. */
  function Cut(s: string, sep: char): (r: (string, string, bool))
    ensures !r.2 ==> r.0 == s && r.1 == ""
    ensures r.2 ==> s == r.0 + [sep] + r.1
    ensures sep !in r.0
  {
    if s == "" then ("", "", false)
    else if s[0] == sep then ("", s[1..], true)
    else
      var (before, after, found) := Cut(s[1..], sep);
      assert s == [s[0]] + s[1..];
      ([s[0]] + before, after, found)
  }

  /** The parts of s between the occurrences of sep; there is always at least one. */
  function Split(s: string, sep: char): (parts: seq<string>)
    ensures parts != []
  {
    if s == "" then [""]
    else
      var rest := Split(s[1..], sep);
      if s[0] == sep then [""] + rest else [[s[0]] + rest[0]] + rest[1..]
  }

  lemma {:induction false} CutAt(before: string, sep: char, after: string)
    requires sep !in before
    ensures Cut(before + [sep] + after, sep) == (before, after, true)
  {
    var s := before + [sep] + after;
    if before == "" {
      assert s[1..] == after;
    } else {
      CutAt(before[1..], sep, after);
      assert s[1..] == before[1..] + [sep] + after;
      assert [before[0]] + before[1..] == before;
    }
  }

  lemma {:induction false} SplitJoins(s: string, sep: char)
    ensures Join(Split(s, sep), [sep]) == s
  {
    if s != "" {
      var rest := Split(s[1..], sep);
      SplitJoins(s[1..], sep);
      if s[0] != sep {
        var parts := Split(s, sep);
        assert parts[1..] == rest[1..] && parts[0] == [s[0]] + rest[0];
      } else {
        assert Split(s, sep)[1..] == rest;
      }
    }
  }

  lemma {:induction false} SplitIsFree(s: string, sep: char)
    ensures forall part :: part in Split(s, sep) ==> sep !in part
  {
    if s != "" {
      var rest := Split(s[1..], sep);
      SplitIsFree(s[1..], sep);
      assert rest[0] in rest && forall part :: part in rest[1..] ==> part in rest;
    }
  }

  lemma {:induction false} JoinStep(first: string, rest: seq<string>, sep: string)
    requires first != ""
    ensures Join([first] + rest, sep) == [first[0]] + Join([first[1..]] + rest, sep)
  {
    assert ([first] + rest)[1..] == rest && ([first[1..]] + rest)[1..] == rest;
    assert first == [first[0]] + first[1..];
    if rest != [] {
      var tail := sep + Join(rest, sep);
      assert first + sep + Join(rest, sep) == first + tail;
      assert first[1..] + sep + Join(rest, sep) == first[1..] + tail;
    }
  }

  lemma {:induction false} SplitStep(c: char, s: string, sep: char)
    requires c != sep
    ensures Split([c] + s, sep) == [[c] + Split(s, sep)[0]] + Split(s, sep)[1..]
  {
    assert ([c] + s)[1..] == s;
  }

  /** What splits is what joins: texts without sep come back from their join. */
  lemma {:induction false} JoinSplits(first: string, rest: seq<string>, sep: char)
    requires sep !in first && forall part :: part in rest ==> sep !in part
    ensures Split(Join([first] + rest, [sep]), sep) == [first] + rest
    decreases |rest|, |first|
  {
    if first != "" {
      JoinStep(first, rest, [sep]);
      JoinSplits(first[1..], rest, sep);
      SplitStep(first[0], Join([first[1..]] + rest, [sep]), sep);
      assert first == [first[0]] + first[1..];
    } else if rest != [] {
      JoinSplits(rest[0], rest[1..], sep);
      assert [rest[0]] + rest[1..] == rest && ([first] + rest)[1..] == rest;
      assert Join([first] + rest, [sep]) == [sep] + Join(rest, [sep]);
    }
  }
}
