/** The experience card (ExperienceCard.tsx): the role title split into a
    main line and a parenthesised detail line, the metrics it shows, and its
    tags rendered as a "·"-separated line or as clickable buttons. */
module ExperienceCard {
  import opened Common

  // ---------------------------------------------------------------------------
  // `String.prototype.trim`

  /** The characters `trim` removes: the ECMAScript WhiteSpace and
      LineTerminator characters (tab, vertical tab, form feed, space,
      no-break space, byte order mark, the other space separators, line
      feed, carriage return, line and paragraph separators). */
  predicate IsWhitespace(c: char) {
    c == '\t' || c == '\n' || c == '\U{000B}' || c == '\U{000C}' || c == '\r' || c == ' '
    || c == '\U{00A0}' || c == '\U{1680}' || ('\U{2000}' <= c <= '\U{200A}')
    || c == '\U{2028}' || c == '\U{2029}' || c == '\U{202F}' || c == '\U{205F}'
    || c == '\U{3000}' || c == '\U{FEFF}'
  }

  predicate Blank(s: string) {
    forall k :: 0 <= k < |s| ==> IsWhitespace(s[k])
  }

  /** The first index at or after `i` that is not whitespace, or `|s|`. */
  function SkipLeading(s: string, i: nat): (r: nat)
    requires i <= |s|
    ensures i <= r <= |s|
    ensures forall k :: i <= k < r ==> IsWhitespace(s[k])
    ensures r < |s| ==> !IsWhitespace(s[r])
    decreases |s| - i
  {
    if i < |s| && IsWhitespace(s[i]) then SkipLeading(s, i + 1) else i
  }

  /** The end of `s[lo..j]` with its trailing whitespace removed. */
  function SkipTrailing(s: string, lo: nat, j: nat): (r: nat)
    requires lo <= j <= |s|
    ensures lo <= r <= j
    ensures forall k :: r <= k < j ==> IsWhitespace(s[k])
    ensures r > lo ==> !IsWhitespace(s[r - 1])
    decreases j
  {
    if j > lo && IsWhitespace(s[j - 1]) then SkipTrailing(s, lo, j - 1) else j
  }

  /** `s.trim()`: `s` without its leading and trailing whitespace. */
  function Trim(s: string): (r: string)
    ensures |r| > 0 ==> !IsWhitespace(r[0]) && !IsWhitespace(r[|r| - 1])
    ensures r == "" <==> Blank(s)
    ensures exists i, j :: 0 <= i <= j <= |s| && r == s[i..j] && Blank(s[..i]) && Blank(s[j..])
  {
    var i := SkipLeading(s, 0);
    var j := SkipTrailing(s, i, |s|);
    TrimBounds(s, i, j);
    s[i..j]
  }

  lemma TrimBounds(s: string, i: nat, j: nat)
    requires i == SkipLeading(s, 0) && j == SkipTrailing(s, i, |s|)
    ensures Blank(s[..i]) && Blank(s[j..])
    ensures i == j <==> Blank(s)
  {
    assert Blank(s[..i]) && Blank(s[j..]);
    if i < |s| {
      assert !IsWhitespace(s[i]);
    }
  }

  /** Trimming twice removes nothing more. */
  lemma TrimIdempotent(s: string)
    ensures Trim(Trim(s)) == Trim(s)
  {
    var t := Trim(s);
    if |t| > 0 {
      TrimUnchanged(t);
    }
  }

  /** A string that neither starts nor ends with whitespace is its own trim. */
  lemma TrimUnchanged(t: string)
    requires |t| > 0 && !IsWhitespace(t[0]) && !IsWhitespace(t[|t| - 1])
    ensures Trim(t) == t
  {
    assert SkipLeading(t, 0) == 0;
    assert SkipTrailing(t, 0, |t|) == |t|;
  }

  /** Padding a string with whitespace on both sides does not change its trim. */
  lemma TrimPadded(pre: string, t: string, post: string)
    requires Blank(pre) && Blank(post)
    requires |t| > 0 && !IsWhitespace(t[0]) && !IsWhitespace(t[|t| - 1])
    ensures Trim(pre + t + post) == t
  {
    var s := pre + t + post;
    assert forall k :: 0 <= k < |pre| ==> s[k] == pre[k];
    assert s[|pre|] == t[0];
    SkipLeadingPast(s, 0, |pre|);
    assert forall k :: 0 <= k < |post| ==> s[|pre| + |t| + k] == post[k];
    assert s[|pre| + |t| - 1] == t[|t| - 1];
    SkipTrailingPast(s, |pre|, |s|, |pre| + |t|);
    assert s[|pre|..|pre| + |t|] == t;
  }

  lemma {:induction false} SkipLeadingPast(s: string, i: nat, m: nat)
    requires i <= m < |s|
    requires forall k :: i <= k < m ==> IsWhitespace(s[k])
    requires !IsWhitespace(s[m])
    ensures SkipLeading(s, i) == m
    decreases m - i
  {
    if i < m {
      SkipLeadingPast(s, i + 1, m);
    }
  }

  lemma {:induction false} SkipTrailingPast(s: string, lo: nat, j: nat, m: nat)
    requires lo < m <= j <= |s|
    requires forall k :: m <= k < j ==> IsWhitespace(s[k])
    requires !IsWhitespace(s[m - 1])
    ensures SkipTrailing(s, lo, j) == m
    decreases j
  {
    if m < j {
      SkipTrailingPast(s, lo, j - 1, m);
    }
  }

  // ---------------------------------------------------------------------------
  // `splitRole`

  /** `s.indexOf(c)`: the first position of `c`, or -1. */
  function IndexOf(s: string, c: char): (r: int)
    ensures r == -1 <==> c !in s
    ensures r != -1 ==> 0 <= r < |s| && s[r] == c && c !in s[..r]
  {
    if |s| == 0 then -1
    else if s[0] == c then 0
    else
      var r := IndexOf(s[1..], c);
      assert s[1..] == s[..|s|][1..];
      if r == -1 then -1
      else
        assert s[..r + 1] == [s[0]] + s[1..][..r];
        r + 1
  }

  /** The title's lines: without "(" the role itself, untrimmed; otherwise
      the trimmed text before the first "(" and the trimmed rest, the
      former dropped when it is empty (`filter(Boolean)`). */
  function SplitRole(role: string): (lines: seq<string>)
    ensures '(' !in role ==> lines == [role]
    ensures '(' in role ==> 1 <= |lines| <= 2
    ensures '(' in role ==> var open := IndexOf(role, '(');
      && lines[|lines| - 1] == Trim(role[open..])
      && |lines[|lines| - 1]| > 0 && lines[|lines| - 1][0] == '('
      && (|lines| == 1 <==> Blank(role[..open]))
      && (|lines| == 2 ==> lines[0] == Trim(role[..open]) && '(' !in lines[0])
  {
    var open := IndexOf(role, '(');
    if open == -1 then [role]
    else
      var main := Trim(role[..open]);
      var detail := Trim(role[open..]);
      DetailKeepsParen(role[open..]);
      MainHasNoParen(role[..open]);
      if main == "" then [detail] else [main, detail]
  }

  /** The trimmed detail still starts with its "(". */
  lemma DetailKeepsParen(rest: string)
    requires |rest| > 0 && rest[0] == '('
    ensures |Trim(rest)| > 0 && Trim(rest)[0] == '('
  {
    assert SkipLeading(rest, 0) == 0;
    assert !Blank(rest);
  }

  /** Trimming introduces no "(". */
  lemma MainHasNoParen(prefix: string)
    requires '(' !in prefix
    ensures '(' !in Trim(prefix)
  {
    var t := Trim(prefix);
    var i, j :| 0 <= i <= j <= |prefix| && t == prefix[i..j] && Blank(prefix[..i]) && Blank(prefix[j..]);
    forall k | 0 <= k < |t| ensures t[k] != '(' {
      assert t[k] == prefix[i + k];
    }
  }

  /** Splitting undoes writing a title and its parenthesised detail with a space between. */
  lemma SplitRoleInverse(main: string, detail: string)
    requires |main| > 0 && !IsWhitespace(main[0]) && !IsWhitespace(main[|main| - 1])
    requires '(' !in main
    requires |detail| > 0 && detail[0] == '(' && !IsWhitespace(detail[|detail| - 1])
    ensures SplitRole(main + " " + detail) == [main, detail]
  {
    var role := main + " " + detail;
    assert role[|main| + 1] == '(';
    assert '(' !in role[..|main| + 1] by {
      forall k | 0 <= k < |main| + 1 ensures role[k] != '(' {
        if k < |main| { assert role[k] == main[k]; }
      }
    }
    assert IndexOf(role, '(') == |main| + 1;
    assert role[..|main| + 1] == main + " " + "";
    TrimPadded("", main, " ");
    assert role[|main| + 1..] == "" + detail + "";
    TrimPadded("", detail, "");
  }

  /** The intern's title splits into the title and the parenthesised kind. */
  lemma SplitRoleExample()
    ensures SplitRole("Product Manager (Internship)") == ["Product Manager", "(Internship)"]
  {
    assert "Product Manager (Internship)" == "Product Manager" + " " + "(Internship)";
    SplitRoleInverse("Product Manager", "(Internship)");
  }

  // ---------------------------------------------------------------------------
  // Metrics and tags

  datatype Metric = Metric(value: string, title: string)

  /** Only the first three metrics are shown, in order. */
  function ShownMetrics(metrics: seq<Metric>): (shown: seq<Metric>)
    ensures |shown| <= 3 && shown <= metrics
    ensures |metrics| >= 3 ==> |shown| == 3
    ensures |metrics| < 3 ==> shown == metrics
  {
    FirstN(metrics, 3)
  }

  /** The separator after every tag but the last. */
  const TagSeparator: string := " \U{00B7} "

  /** The text of the default variant's tag spans: each tag, followed by the
      separator unless it is the last. */
  function TagSpans(tags: seq<string>): (spans: seq<string>)
    ensures |spans| == |tags|
    ensures forall i :: 0 <= i < |tags| - 1 ==> spans[i] == tags[i] + TagSeparator
    ensures |tags| > 0 ==> spans[|tags| - 1] == tags[|tags| - 1]
  {
    seq(|tags|, i requires 0 <= i < |tags| => tags[i] + (if i < |tags| - 1 then TagSeparator else ""))
  }

  /** The strings of a sequence one after the other. */
  function Concat(xs: seq<string>): string {
    if |xs| == 0 then "" else xs[0] + Concat(xs[1..])
  }

  /** The spans read as the tags joined by " · ", with no separator after the last. */
  lemma {:induction false} SpansReadAsJoin(tags: seq<string>)
    ensures Concat(TagSpans(tags)) == Join(tags, TagSeparator)
  {
    if |tags| > 1 {
      SpansReadAsJoin(tags[1..]);
      assert TagSpans(tags)[1..] == TagSpans(tags[1..]);
    } else if |tags| == 1 {
      assert TagSpans(tags)[1..] == [];
    }
  }

  datatype Variant = Default | Interactive

  /** The interactive variant's click handler on the tag at `index`: the
      calls made to `onTagClick`, none when the callback is absent. */
  function ClickTag(tags: seq<string>, index: nat, hasCallback: bool): (calls: seq<string>)
    requires index < |tags|
    ensures hasCallback ==> calls == [tags[index]]
    ensures !hasCallback ==> calls == []
  {
    var tag := tags[index];
    if hasCallback then [tag] else []
  }
}
