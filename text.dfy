/**
 * The string steps the sanitizers are built from, with the platform's meaning of each
 * character class: `replaceAll` of a character class, `strip`, `trim`, `substring`,
 * collapsing `\s+`, and the literal-pattern removals.
 */
module Text {

  // ---------------------------------------------------------------------------------
  // Character classes

  predicate IsAsciiLetterOrDigit(c: char) {
    ('a' <= c <= 'z') || ('A' <= c <= 'Z') || ('0' <= c <= '9')
  }

  /** `\p{Cntrl}` without Unicode classes: the C0 controls and DEL. */
  predicate IsCntrl(c: char) {
    c as int < 0x20 || c as int == 0x7F
  }

  /** `Character.isWhitespace`, the test `strip` uses. */
  predicate IsJavaWhitespace(c: char) {
    var n := c as int;
    (0x09 <= n <= 0x0D) || (0x1C <= n <= 0x20) || n == 0x1680 || (0x2000 <= n <= 0x2006)
    || (0x2008 <= n <= 0x200A) || n == 0x2028 || n == 0x2029 || n == 0x205F || n == 0x3000
  }

  /** The regular-expression class `\s`. */
  predicate IsRegexSpace(c: char) {
    c == ' ' || c == '\t' || c == '\n' || c as int == 0x0B || c as int == 0x0C || c == '\r'
  }

  /** Every character but those of `\s`. */
  predicate IsNotRegexSpace(c: char) {
    !IsRegexSpace(c)
  }

  /** What `trim` removes: every character up to and including the space. */
  predicate IsTrimmable(c: char) {
    c as int <= 0x20
  }

  // ---------------------------------------------------------------------------------
  // Removing characters

  /** `replaceAll("[...]", "")` for the class `keep` rejects: the characters `keep` accepts, in order. */
  function Filter(s: string, keep: char -> bool): (r: string)
    ensures |r| <= |s|
    ensures forall c :: c in r <==> c in s && keep(c)
  {
    if s == [] then []
    else
      assert forall c :: c in s <==> c == s[0] || c in s[1..];
      (if keep(s[0]) then [s[0]] else []) + Filter(s[1..], keep)
  }

  /** Filtering a string whose characters all pass leaves it as it is. */
  lemma {:induction false} FilterKeepsAccepted(s: string, keep: char -> bool)
    requires forall c :: c in s ==> keep(c)
    ensures Filter(s, keep) == s
  {
    if s != [] {
      assert forall c :: c in s[1..] ==> c in s;
      FilterKeepsAccepted(s[1..], keep);
    }
  }

  /** Filtering is order-preserving: filtering a concatenation filters each part. */
  lemma {:induction false} FilterAppend(a: string, b: string, keep: char -> bool)
    ensures Filter(a + b, keep) == Filter(a, keep) + Filter(b, keep)
  {
    if a == [] {
      assert a + b == b;
    } else {
      assert (a + b)[0] == a[0] && (a + b)[1..] == a[1..] + b;
      FilterAppend(a[1..], b, keep);
    }
  }

  /** `replaceAll` of a single character: every `from` becomes `to`, the rest stays. */
  function ReplaceChar(s: string, from: char, to: char): (r: string)
    ensures |r| == |s|
    ensures forall i :: 0 <= i < |s| ==> r[i] == if s[i] == from then to else s[i]
  {
    seq(|s|, i requires 0 <= i < |s| => if s[i] == from then to else s[i])
  }

  /** `pattern` occurs in `s` at index `i`. */
  predicate OccursAt(s: string, pattern: string, i: int) {
    0 <= i && i + |pattern| <= |s| && s[i..i + |pattern|] == pattern
  }

  /** `pattern` occurs somewhere in `s`. */
  predicate Occurs(s: string, pattern: string) {
    exists i :: 0 <= i <= |s| && OccursAt(s, pattern, i)
  }

  /**
   * `replaceAll` of a literal pattern: every leftmost non-overlapping occurrence is
   * removed, in one pass over the input.
   */
  function RemoveAll(s: string, pattern: string): (r: string)
    requires |pattern| > 0
    ensures |r| <= |s|
    ensures forall c :: c in r ==> c in s
    ensures !Occurs(s, pattern) ==> r == s
    ensures Occurs(s, pattern) ==> |r| <= |s| - |pattern|
    decreases |s|
  {
    if |s| < |pattern| then s
    else if s[..|pattern|] == pattern then
      var rest := RemoveAll(s[|pattern|..], pattern);
      assert forall c :: c in s[|pattern|..] ==> c in s;
      assert OccursAt(s, pattern, 0);
      rest
    else
      var rest := RemoveAll(s[1..], pattern);
      assert forall c :: c in s[1..] ==> c in s;
      assert !OccursAt(s, pattern, 0);
      OccursInTail(s, pattern);
      assert !Occurs(s, pattern) ==> [s[0]] + rest == s;
      [s[0]] + rest
  }

  /** One pass only: removing `../` from `....//` leaves a new `../`. */
  lemma RemoveAllIsSinglePass()
    ensures RemoveAll("....//", "../") == "../"
  {
    assert "....//"[..3] == "..." && "....//"[1..] == "...//";
    assert "...//"[..3] == "..." && "...//"[1..] == "..//";
    assert "..//"[..3] == "../" && "..//"[3..] == "/";
  }

  /** The first `n` characters are kept when no occurrence starts among them. */
  lemma {:induction false} RemoveAllKeepsFirst(s: string, n: nat, pattern: string)
    requires |pattern| > 0 && n <= |s|
    requires forall i :: 0 <= i < n ==> !OccursAt(s, pattern, i)
    ensures RemoveAll(s, pattern) == s[..n] + RemoveAll(s[n..], pattern)
    decreases n
  {
    if n == 0 {
      assert s[..0] + s[0..] == s;
    } else if |s| < |pattern| {
      RemoveAllShort(s, n, pattern);
    } else {
      NoOccurrenceInTail(s, n, pattern);
      RemoveAllKeepsFirst(s[1..], n - 1, pattern);
      RemoveAllConsStep(s, n, pattern);
    }
  }

  /** A text shorter than the pattern, and any of its suffixes, is left as it is. */
  lemma RemoveAllShort(s: string, n: nat, pattern: string)
    requires |pattern| > 0 && n <= |s| < |pattern|
    ensures RemoveAll(s, pattern) == s[..n] + RemoveAll(s[n..], pattern)
  {
    assert s[..n] + s[n..] == s;
  }

  /** No occurrence among the first `n` places of `s`: none among the first `n - 1` of its tail. */
  lemma NoOccurrenceInTail(s: string, n: nat, pattern: string)
    requires 0 < n <= |s|
    requires forall i :: 0 <= i < n ==> !OccursAt(s, pattern, i)
    ensures forall i :: 0 <= i < n - 1 ==> !OccursAt(s[1..], pattern, i)
  {
    forall i | 0 <= i < n - 1
      ensures !OccursAt(s[1..], pattern, i)
    {
      OccursAtTail(s, pattern, i);
    }
  }

  /** One kept character in front of the kept rest. */
  lemma RemoveAllConsStep(s: string, n: nat, pattern: string)
    requires |pattern| > 0 && 0 < n <= |s| && |s| >= |pattern| && !OccursAt(s, pattern, 0)
    requires RemoveAll(s[1..], pattern) == s[1..][..n - 1] + RemoveAll(s[1..][n - 1..], pattern)
    ensures RemoveAll(s, pattern) == s[..n] + RemoveAll(s[n..], pattern)
  {
    RemoveAllKeepsHead(s, pattern);
    assert s[1..][n - 1..] == s[n..];
    ConsSlice(s, n, RemoveAll(s[n..], pattern));
  }

  /** Without an occurrence at the front, the first character is kept. */
  lemma RemoveAllKeepsHead(s: string, pattern: string)
    requires |pattern| > 0 && |s| >= |pattern| && !OccursAt(s, pattern, 0)
    ensures RemoveAll(s, pattern) == [s[0]] + RemoveAll(s[1..], pattern)
  {
    assert s[..|pattern|] != pattern;
  }

  /** Text before the first occurrence of the pattern is kept as it is. */
  lemma RemoveAllKeepsPrefix(a: string, b: string, pattern: string)
    requires |pattern| > 0
    requires forall i :: 0 <= i < |a| ==> !OccursAt(a + b, pattern, i)
    ensures RemoveAll(a + b, pattern) == a + RemoveAll(b, pattern)
  {
    RemoveAllKeepsFirst(a + b, |a|, pattern);
    assert (a + b)[..|a|] == a && (a + b)[|a|..] == b;
  }

  /** Without an occurrence at the front, `s` holds the pattern exactly when its tail does. */
  lemma OccursInTail(s: string, pattern: string)
    requires s != [] && !OccursAt(s, pattern, 0)
    ensures Occurs(s, pattern) <==> Occurs(s[1..], pattern)
  {
    if Occurs(s, pattern) {
      var i :| 0 <= i <= |s| && OccursAt(s, pattern, i);
      OccursAtTail(s, pattern, i - 1);
    }
    if Occurs(s[1..], pattern) {
      var i :| 0 <= i <= |s[1..]| && OccursAt(s[1..], pattern, i);
      OccursAtTail(s, pattern, i);
    }
  }

  /** An occurrence in the tail of `s` is one in `s`, one place further on. */
  lemma OccursAtTail(s: string, pattern: string, i: int)
    requires s != []
    ensures OccursAt(s[1..], pattern, i) <==> 0 <= i && OccursAt(s, pattern, i + 1)
  {
    if 0 <= i && i + 1 + |pattern| <= |s| {
      assert s[1..][i..i + |pattern|] == s[i + 1..i + 1 + |pattern|];
    }
  }

  /** An occurrence at the front is removed and the scan goes on after it. */
  lemma RemoveAllDropsLeading(pattern: string, b: string)
    requires |pattern| > 0
    ensures RemoveAll(pattern + b, pattern) == RemoveAll(b, pattern)
  {
    assert (pattern + b)[..|pattern|] == pattern;
    assert (pattern + b)[|pattern|..] == b;
  }

  /** The index of the first `c` in `s`. */
  function IndexOf(s: string, c: char): (i: nat)
    requires c in s
    ensures i < |s| && s[i] == c && forall j :: 0 <= j < i ==> s[j] != c
  {
    if s[0] == c then 0 else 1 + IndexOf(s[1..], c)
  }

  /**
   * `replaceAll("<[^>]*>", "")`: from each `<` that has a `>` after it, up to the first
   * such `>`, is removed; a `<` with no `>` after it stays.
   */
  function RemoveTags(s: string): (r: string)
    ensures |r| <= |s|
    ensures forall c :: c in r ==> c in s
    ensures '>' !in s ==> r == s
    decreases |s|
  {
    if s == [] then []
    else if s[0] == '<' && '>' in s[1..] then
      var rest := RemoveTags(s[IndexOf(s[1..], '>') + 2..]);
      assert forall c :: c in s[IndexOf(s[1..], '>') + 2..] ==> c in s;
      rest
    else
      var rest := RemoveTags(s[1..]);
      assert forall c :: c in s[1..] ==> c in s;
      [s[0]] + rest
  }

  /** The first `n` characters are kept when none of them is `<`. */
  lemma {:induction false} RemoveTagsKeepsFirst(s: string, n: nat)
    requires n <= |s| && forall i :: 0 <= i < n ==> s[i] != '<'
    ensures RemoveTags(s) == s[..n] + RemoveTags(s[n..])
    decreases n
  {
    if n == 0 {
      assert s[..0] + s[0..] == s;
    } else {
      RemoveTagsKeepsFirst(s[1..], n - 1);
      RemoveTagsKeepsHead(s);
      assert s[1..][n - 1..] == s[n..];
      ConsSlice(s, n, RemoveTags(s[n..]));
    }
  }

  /** A first character other than `<` is kept. */
  lemma RemoveTagsKeepsHead(s: string)
    requires s != [] && s[0] != '<'
    ensures RemoveTags(s) == [s[0]] + RemoveTags(s[1..])
  {
  }

  /** Text before the first `<` is kept as it is. */
  lemma RemoveTagsKeepsPrefix(a: string, b: string)
    requires '<' !in a
    ensures RemoveTags(a + b) == a + RemoveTags(b)
  {
    assert forall i :: 0 <= i < |a| ==> (a + b)[i] == a[i];
    RemoveTagsKeepsFirst(a + b, |a|);
    assert (a + b)[..|a|] == a && (a + b)[|a|..] == b;
  }

  /** A tag at the front, up to its first `>`, is removed and the scan goes on after it. */
  lemma RemoveTagsDropsTag(t: string, b: string)
    requires '>' !in t
    ensures RemoveTags("<" + t + ">" + b) == RemoveTags(b)
  {
    var s := "<" + t + ">" + b;
    assert s[1..] == t + ">" + b;
    assert s[1..][|t|] == '>';
    assert forall j :: 0 <= j < |t| ==> s[1..][j] == t[j];
    assert IndexOf(s[1..], '>') == |t|;
    assert s[|t| + 2..] == b;
  }

  /** After tag removal no `<` is followed, anywhere later, by a `>`: no tag is left. */
  lemma {:induction false} RemoveTagsLeavesNoTag(s: string)
    ensures forall i, j :: 0 <= i < j < |RemoveTags(s)| ==> !(RemoveTags(s)[i] == '<' && RemoveTags(s)[j] == '>')
    decreases |s|
  {
    if s != [] {
      if s[0] == '<' && '>' in s[1..] {
        RemoveTagsLeavesNoTag(s[IndexOf(s[1..], '>') + 2..]);
      } else {
        RemoveTagsLeavesNoTag(s[1..]);
        var r := RemoveTags(s);
        if s[0] == '<' {
          assert forall c :: c in RemoveTags(s[1..]) ==> c in s[1..];
          assert forall j :: 0 < j < |r| ==> r[j] == RemoveTags(s[1..])[j - 1] && r[j] in RemoveTags(s[1..]);
        }
      }
    }
  }

  // ---------------------------------------------------------------------------------
  // Trimming, truncating, collapsing

  /** How many characters at the front of `s` satisfy `w`. */
  function LeadingCount(s: string, w: char -> bool): (n: nat)
    ensures n <= |s|
    ensures forall k :: 0 <= k < n ==> w(s[k])
    ensures n < |s| ==> !w(s[n])
  {
    if s == [] || !w(s[0]) then 0 else 1 + LeadingCount(s[1..], w)
  }

  /** Where the run of characters satisfying `w` at the end of `s` begins. */
  function TrailingStart(s: string, w: char -> bool): (n: nat)
    ensures n <= |s|
    ensures forall k :: n <= k < |s| ==> w(s[k])
    ensures n > 0 ==> !w(s[n - 1])
  {
    if s == [] || !w(s[|s| - 1]) then |s| else TrailingStart(s[..|s| - 1], w)
  }

  /** `s` without its leading and trailing characters satisfying `w`. */
  function StripWith(s: string, w: char -> bool): (r: string)
    ensures r == [] || (!w(r[0]) && !w(r[|r| - 1]))
    ensures exists i, j :: 0 <= i <= j <= |s| && r == s[i..j]
                           && (forall k :: 0 <= k < i ==> w(s[k])) && (forall k :: j <= k < |s| ==> w(s[k]))
    ensures forall c :: c in r ==> c in s
    ensures forall c :: c in s && !w(c) ==> c in r
  {
    var i := LeadingCount(s, w);
    if i == |s| then
      assert s[0..0] == [];
      []
    else
      var j := TrailingStart(s, w);
      assert i < j;
      assert forall k :: 0 <= k < |s| && !w(s[k]) ==> i <= k < j && s[k] == s[i..j][k - i];
      s[i..j]
  }

  /** Stripping what has nothing to strip changes nothing. */
  lemma StripWithStable(s: string, w: char -> bool)
    requires s == [] || (!w(s[0]) && !w(s[|s| - 1]))
    ensures StripWith(s, w) == s
  {
    if s != [] {
      assert LeadingCount(s, w) == 0;
      assert TrailingStart(s, w) == |s|;
    }
  }

  /** What stripping leaves is a contiguous piece of the input. */
  lemma StripWithIsSlice(s: string, w: char -> bool) returns (i: nat)
    ensures i + |StripWith(s, w)| <= |s| && StripWith(s, w) == s[i..i + |StripWith(s, w)|]
  {
    i := LeadingCount(s, w);
    var r := StripWith(s, w);
    if i == |s| {
      assert r == [];
      i := 0;
      assert r == s[0..0];
    } else {
      var j := TrailingStart(s, w);
      assert r == s[i..j];
      assert i + |r| == j;
    }
  }

  /** `String.strip`. */
  function Strip(s: string): (r: string)
    ensures r == [] || (!IsJavaWhitespace(r[0]) && !IsJavaWhitespace(r[|r| - 1]))
    ensures forall c :: c in r ==> c in s
    ensures forall c :: c in s && !IsJavaWhitespace(c) ==> c in r
    ensures |r| <= |s|
    ensures s == [] || (!IsJavaWhitespace(s[0]) && !IsJavaWhitespace(s[|s| - 1])) ==> r == s
  {
    if s == [] || (!IsJavaWhitespace(s[0]) && !IsJavaWhitespace(s[|s| - 1])) then
      StripWithStable(s, IsJavaWhitespace);
      StripWith(s, IsJavaWhitespace)
    else StripWith(s, IsJavaWhitespace)
  }

  /** `String.trim`. */
  function Trim(s: string): (r: string)
    ensures r == [] || (!IsTrimmable(r[0]) && !IsTrimmable(r[|r| - 1]))
    ensures forall c :: c in r ==> c in s
  {
    StripWith(s, IsTrimmable)
  }

  /** `if (s.length() > n) s = s.substring(0, n)`. */
  function Truncate(s: string, n: nat): (r: string)
    ensures |r| <= n && |r| <= |s|
    ensures r == s[..|r|]
    ensures |s| <= n ==> r == s
    ensures |s| > n ==> |r| == n
    ensures forall c :: c in r ==> c in s
  {
    if |s| > n then s[..n] else s
  }

  /** `s` without its leading `\s` characters. */
  function DropSpaces(s: string): (r: string)
    ensures |r| <= |s| && r == s[|s| - |r|..]
    ensures r == [] || !IsRegexSpace(r[0])
  {
    if s != [] && IsRegexSpace(s[0]) then DropSpaces(s[1..]) else s
  }

  /** Dropping leading `\s` characters keeps every other character. */
  lemma {:induction false} DropSpacesKeepsText(s: string)
    ensures Filter(DropSpaces(s), IsNotRegexSpace) == Filter(s, IsNotRegexSpace)
  {
    if s != [] && IsRegexSpace(s[0]) {
      DropSpacesKeepsText(s[1..]);
    }
  }

  /**
   * `replaceAll("\\s+", " ")`: each maximal run of `\s` characters becomes one space.
   * The result has no `\s` character but the space, and never two spaces in a row.
   */
  function CollapseWhitespace(s: string): (r: string)
    ensures |r| <= |s|
    ensures s != [] ==> r != [] && (r[0] == ' ' <==> IsRegexSpace(s[0]))
    ensures forall k :: 0 <= k < |r| - 1 ==> !(r[k] == ' ' && r[k + 1] == ' ')
    ensures forall c :: c in r ==> c == ' ' || (c in s && !IsRegexSpace(c))
    decreases |s|
  {
    if s == [] then []
    else if IsRegexSpace(s[0]) then
      var tail := DropSpaces(s[1..]);
      var rest := CollapseWhitespace(tail);
      assert forall c :: c in tail ==> c in s;
      [' '] + rest
    else
      var rest := CollapseWhitespace(s[1..]);
      assert forall c :: c in s[1..] ==> c in s;
      [s[0]] + rest
  }

  /** Collapsing keeps every non-`\s` character, in order: only the runs of `\s` change. */
  lemma {:induction false} CollapseKeepsText(s: string)
    ensures Filter(CollapseWhitespace(s), IsNotRegexSpace) == Filter(s, IsNotRegexSpace)
    decreases |s|
  {
    if s != [] {
      var r := CollapseWhitespace(s);
      if IsRegexSpace(s[0]) {
        CollapseKeepsText(DropSpaces(s[1..]));
        DropSpacesKeepsText(s[1..]);
        assert r[1..] == CollapseWhitespace(DropSpaces(s[1..]));
      } else {
        CollapseKeepsText(s[1..]);
        assert r[1..] == CollapseWhitespace(s[1..]);
      }
    }
  }

  /**
   * Leading `\s` is dropped within a string that ends in another character, so text
   * after it is untouched; what is left still ends in that character.
   */
  lemma {:induction false} DropSpacesAppend(a: string, b: string)
    requires a != [] && !IsRegexSpace(a[|a| - 1])
    ensures DropSpaces(a + b) == DropSpaces(a) + b
    ensures DropSpaces(a) != [] && DropSpaces(a)[|DropSpaces(a)| - 1] == a[|a| - 1]
    decreases |a|
  {
    assert (a + b)[0] == a[0];
    if IsRegexSpace(a[0]) {
      assert (a + b)[1..] == a[1..] + b;
      DropSpacesAppend(a[1..], b);
    }
  }

  /** Concatenation regroups around a leading character. */
  lemma ConsAppend(x: char, p: string, q: string)
    ensures [x] + (p + q) == ([x] + p) + q
  {
  }

  /** The first character, then the next `n - 1`, then `x`: the first `n`, then `x`. */
  lemma ConsSlice(s: string, n: nat, x: string)
    requires 0 < n <= |s|
    ensures [s[0]] + (s[1..][..n - 1] + x) == s[..n] + x
  {
    assert s[..n] == [s[0]] + s[1..][..n - 1];
    ConsAppend(s[0], s[1..][..n - 1], x);
  }

  /** A leading `\s` run becomes one space before the rest, collapsed. */
  lemma CollapseSpaceStep(a: string, b: string)
    requires a != [] && IsRegexSpace(a[0]) && !IsRegexSpace(a[|a| - 1])
    requires DropSpaces((a + b)[1..]) == DropSpaces(a[1..]) + b
    requires CollapseWhitespace(DropSpaces(a[1..]) + b) == CollapseWhitespace(DropSpaces(a[1..])) + CollapseWhitespace(b)
    ensures CollapseWhitespace(a + b) == CollapseWhitespace(a) + CollapseWhitespace(b)
  {
    var rest := CollapseWhitespace(DropSpaces(a[1..]));
    assert (a + b)[0] == a[0];
    assert CollapseWhitespace(a + b) == [' '] + (rest + CollapseWhitespace(b));
    assert CollapseWhitespace(a) == [' '] + rest;
    ConsAppend(' ', rest, CollapseWhitespace(b));
  }

  /** A leading character other than `\s` is kept before the rest, collapsed. */
  lemma CollapseCharStep(a: string, b: string)
    requires a != [] && !IsRegexSpace(a[0])
    requires CollapseWhitespace((a + b)[1..]) == CollapseWhitespace(a[1..]) + CollapseWhitespace(b)
    ensures CollapseWhitespace(a + b) == CollapseWhitespace(a) + CollapseWhitespace(b)
  {
    var rest := CollapseWhitespace(a[1..]);
    assert (a + b)[0] == a[0];
    assert CollapseWhitespace(a + b) == [a[0]] + (rest + CollapseWhitespace(b));
    assert CollapseWhitespace(a) == [a[0]] + rest;
    ConsAppend(a[0], rest, CollapseWhitespace(b));
  }

  /** Text split after a non-`\s` character collapses piece by piece: words never merge. */
  lemma {:induction false} CollapseAppend(a: string, b: string)
    requires a != [] && !IsRegexSpace(a[|a| - 1])
    ensures CollapseWhitespace(a + b) == CollapseWhitespace(a) + CollapseWhitespace(b)
    decreases |a|
  {
    if IsRegexSpace(a[0]) {
      assert (a + b)[1..] == a[1..] + b;
      DropSpacesAppend(a[1..], b);
      CollapseAppend(DropSpaces(a[1..]), b);
      CollapseSpaceStep(a, b);
    } else if |a| == 1 {
      assert a[1..] == [] && (a + b)[1..] == b;
      CollapseCharStep(a, b);
    } else {
      CollapseAppend(a[1..], b);
      assert (a + b)[1..] == a[1..] + b;
      CollapseCharStep(a, b);
    }
  }

  /** A non-empty run of `\s` becomes exactly one space. */
  lemma CollapseRun(w: string)
    requires w != [] && forall c :: c in w ==> IsRegexSpace(c)
    ensures CollapseWhitespace(w) == " "
  {
    assert forall c :: c in w[1..] ==> c in w;
  }

  /** Stripping a string whose whitespace is single spaces keeps that shape. */
  lemma {:induction false} StripKeepsSingleSpaces(s: string)
    requires forall k :: 0 <= k < |s| && IsRegexSpace(s[k]) ==> s[k] == ' '
    requires forall k :: 0 <= k < |s| - 1 ==> !(s[k] == ' ' && s[k + 1] == ' ')
    ensures forall k :: 0 <= k < |Strip(s)| && IsRegexSpace(Strip(s)[k]) ==> Strip(s)[k] == ' '
    ensures forall k :: 0 <= k < |Strip(s)| - 1 ==> !(Strip(s)[k] == ' ' && Strip(s)[k + 1] == ' ')
  {
    var i := StripWithIsSlice(s, IsJavaWhitespace);
    var r := Strip(s);
    assert forall k :: 0 <= k < |r| ==> r[k] == s[i + k];
  }

  // ---------------------------------------------------------------------------------
  // Case

  /** Upper case of an ASCII letter; every other character is unchanged. */
  function AsciiUpper(c: char): (u: char)
    ensures 'a' <= c <= 'z' ==> u as int == c as int - 32
    ensures !('a' <= c <= 'z') ==> u == c
  {
    if 'a' <= c <= 'z' then (c as int - 32) as char else c
  }

  /** `equalsIgnoreCase` on strings whose letters are ASCII. */
  predicate EqualsIgnoreCase(a: string, b: string) {
    |a| == |b| && forall i :: 0 <= i < |a| ==> AsciiUpper(a[i]) == AsciiUpper(b[i])
  }
}
