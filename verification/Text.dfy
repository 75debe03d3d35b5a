/** Text cut at a separator, as `strings.Split` and `strings.Join` do. */
module Text {
  predicate Clean(s: string, sep: char) { sep !in s }

  ghost predicate AllClean(parts: seq<string>, sep: char) { forall i :: 0 <= i < |parts| ==> Clean(parts[i], sep) }

  // The text up to the first separator, or all of it.
  function Head(s: string, sep: char): (r: string)
    ensures r <= s && Clean(r, sep)
    ensures |r| < |s| ==> s[|r|] == sep
  {
    if s == "" || s[0] == sep then "" else [s[0]] + Head(s[1..], sep)
  }

  function Split(s: string, sep: char): (r: seq<string>)
    ensures r != [] && AllClean(r, sep)
    decreases |s|
  {
    var h := Head(s, sep);
    if |h| == |s| then [s] else [h] + Split(s[|h| + 1..], sep)
  }

  function Join(parts: seq<string>, sep: char): string
    requires parts != []
  {
    if |parts| == 1 then parts[0] else parts[0] + [sep] + Join(parts[1..], sep)
  }

  lemma {:induction false} HeadOf(a: string, rest: string, sep: char)
    requires Clean(a, sep)
    ensures Head(a + [sep] + rest, sep) == a && Head(a, sep) == a
    decreases |a|
  {
    if a != "" {
      HeadOf(a[1..], rest, sep);
      assert (a + [sep] + rest)[1..] == a[1..] + [sep] + rest;
    }
  }

  // Parts without a separator survive being joined and split again.
  lemma {:induction false} SplitJoin(parts: seq<string>, sep: char)
    requires parts != [] && AllClean(parts, sep)
    ensures Split(Join(parts, sep), sep) == parts
    decreases |parts|
  {
    var s := Join(parts, sep);
    if |parts| == 1 {
      HeadOf(s, "", sep);
    } else {
      HeadOf(parts[0], Join(parts[1..], sep), sep);
      assert s[|parts[0]| + 1..] == Join(parts[1..], sep);
      SplitJoin(parts[1..], sep);
    }
  }

  // Splitting loses nothing.
  lemma {:induction false} JoinSplit(s: string, sep: char)
    ensures Join(Split(s, sep), sep) == s
    decreases |s|
  {
    var h := Head(s, sep);
    if |h| < |s| {
      JoinSplit(s[|h| + 1..], sep);
      assert s == h + [sep] + s[|h| + 1..];
    }
  }

  // Joining in two steps.
  lemma {:induction false} JoinMore(a: seq<string>, b: seq<string>, sep: char)
    requires a != [] && b != []
    ensures Join(a + b, sep) == Join(a, sep) + [sep] + Join(b, sep)
    decreases |a|
  {
    if |a| == 1 {
      assert (a + b)[1..] == b;
    } else {
      JoinMore(a[1..], b, sep);
      assert (a + b)[1..] == a[1..] + b;
    }
  }
}
