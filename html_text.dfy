/// The text cleaner applied to every scraped textarea: line-break tags
/// become newlines, any other tag on one line is deleted, and the ends are
/// stripped of whitespace.
module HtmlText {
  import opened Wrappers
  import opened PyStrings

  // Length of a match of `<br\s*/?>` (either case of `b` and `r`) at the
  // front of `s`, or 0 when there is none.
  function BreakTagLength(s: string): (n: nat)
    ensures n == 0 || 4 <= n <= |s|
    ensures n > 0 ==> s[0] == '<' && s[n - 1] == '>'
  {
    if |s| < 3 || s[0] != '<' || (s[1] != 'b' && s[1] != 'B') || (s[2] != 'r' && s[2] != 'R') then 0
    else
      var w := 3 + LeadingSpace(s[3..]);
      if w < |s| && s[w] == '>' then w + 1
      else if w + 1 < |s| && s[w] == '/' && s[w + 1] == '>' then w + 2
      else 0
  }

  // `re.sub(r'<br\s*/?>', '\n', s, flags=re.IGNORECASE)`, scanning left to right.
  function ReplaceBreaks(s: string): (r: string)
    ensures |r| <= |s|
    ensures '<' !in s ==> r == s
    decreases |s|
  {
    if s == [] then []
    else if BreakTagLength(s) > 0 then "\n" + ReplaceBreaks(s[BreakTagLength(s)..])
    else [s[0]] + ReplaceBreaks(s[1..])
  }

  /** Offset in `s` of the first '>' reached before any line break. */
  function CloseBeforeBreak(s: string): (r: Option<nat>)
    ensures r.Some? ==> r.value < |s| && s[r.value] == '>'
    ensures r.Some? ==> forall i :: 0 <= i < r.value ==> s[i] != '\n'
    ensures r.None? ==> GtAfterNewline(s)
  {
    if s == [] then None
    else if s[0] == '>' then Some(0)
    else if s[0] == '\n' then None
    else
      match CloseBeforeBreak(s[1..])
      case None =>
        assert forall j :: 1 <= j < |s| ==> s[j] == s[1..][j - 1];
        None
      case Some(j) => Some(j + 1)
  }

  /** Every '>' of `t` comes after some line break of `t`. */
  ghost predicate GtAfterNewline(t: string) {
    forall j :: 0 <= j < |t| && t[j] == '>' ==> exists k :: 0 <= k < j && t[k] == '\n'
  }

  /** `t` holds no complete tag on one line: between any '<' and any later
      '>' there is a line break. */
  ghost predicate NoSingleLineTag(t: string) {
    forall i, j :: 0 <= i < j < |t| && t[i] == '<' && t[j] == '>' ==> exists k :: i < k < j && t[k] == '\n'
  }

  /** `re.sub('<.*?>', '', s)`: a '<' that reaches a '>' without crossing a
      line break is deleted together with everything up to that '>'. */
  function RemoveTags(s: string): (r: string)
    ensures |r| <= |s|
    ensures '<' !in s ==> r == s
    decreases |s|
  {
    if s == [] then []
    else if s[0] == '<' && CloseBeforeBreak(s[1..]).Some? then RemoveTags(s[CloseBeforeBreak(s[1..]).value + 2..])
    else [s[0]] + RemoveTags(s[1..])
  }

  /** `_remove_html_tags`: `None` gives the empty string; otherwise the
      breaks are replaced, the one-line tags deleted and the ends stripped,
      and the result is never longer than the text. */
  function RemoveHtmlTags(text: Option<string>): (r: string)
    ensures text.None? ==> r == ""
    ensures text.Some? ==> |r| <= |text.value|
  {
    match text
    case None => ""
    case Some(t) => Strip(RemoveTags(ReplaceBreaks(t)))
  }

  /** The cleaned text has no whitespace at either end and holds no tag
      that fits on one line. */
  lemma CleanedTextHasNoTag(text: Option<string>)
    ensures var r := RemoveHtmlTags(text);
            (r != [] ==> !IsSpace(r[0]) && !IsSpace(r[|r| - 1])) && NoSingleLineTag(r)
  {
    if text.Some? {
      var t := text.value;
      var u := RemoveTags(ReplaceBreaks(t));
      RemovedTagsLeaveNone(ReplaceBreaks(t));
      var a, r := LeadingSpace(u), Strip(u);
      NoSingleLineTagSlice(u, a, a + |r|, r);
    }
  }

  /** Deleting tags keeps "every '>' comes after a line break". */
  lemma {:induction false} RemoveTagsKeepsGtAfterNewline(s: string)
    requires GtAfterNewline(s)
    ensures GtAfterNewline(RemoveTags(s))
    decreases |s|
  {
    if s != [] {
      var r := RemoveTags(s);
      if s[0] == '\n' {
        assert r == "\n" + RemoveTags(s[1..]);
        forall j | 0 <= j < |r| && r[j] == '>'
          ensures exists k :: 0 <= k < j && r[k] == '\n'
        {
          assert r[0] == '\n';
        }
      } else {
        assert s[0] != '>';
        if s[0] == '<' && CloseBeforeBreak(s[1..]).Some? {
          assert false;
        } else {
          var rest := RemoveTags(s[1..]);
          forall j | 0 <= j < |s[1..]| && s[1..][j] == '>'
            ensures exists k :: 0 <= k < j && s[1..][k] == '\n'
          {
            var k :| 0 <= k < j + 1 && s[k] == '\n';
            assert k != 0;
            assert s[1..][k - 1] == '\n';
          }
          RemoveTagsKeepsGtAfterNewline(s[1..]);
          assert r == [s[0]] + rest;
          forall j | 0 <= j < |r| && r[j] == '>'
            ensures exists k :: 0 <= k < j && r[k] == '\n'
          {
            assert j > 0 && rest[j - 1] == '>';
            var k :| 0 <= k < j - 1 && rest[k] == '\n';
            assert r[k + 1] == '\n';
          }
        }
      }
    }
  }

  /** After deleting tags, no tag that fits on one line remains. */
  lemma {:induction false} RemovedTagsLeaveNone(s: string)
    ensures NoSingleLineTag(RemoveTags(s))
    decreases |s|
  {
    if s != [] {
      if s[0] == '<' && CloseBeforeBreak(s[1..]).Some? {
        RemovedTagsLeaveNone(s[CloseBeforeBreak(s[1..]).value + 2..]);
      } else {
        var rest := RemoveTags(s[1..]);
        var r := [s[0]] + rest;
        RemovedTagsLeaveNone(s[1..]);
        if s[0] == '<' {
          RemoveTagsKeepsGtAfterNewline(s[1..]);
        }
        forall i, j | 0 <= i < j < |r| && r[i] == '<' && r[j] == '>'
          ensures exists k :: i < k < j && r[k] == '\n'
        {
          assert rest[j - 1] == '>';
          if i == 0 {
            var k :| 0 <= k < j - 1 && rest[k] == '\n';
            assert r[k + 1] == '\n';
          } else {
            assert rest[i - 1] == '<';
            var k :| i - 1 < k < j - 1 && rest[k] == '\n';
            assert r[k + 1] == '\n';
          }
        }
      }
    }
  }

  /** A slice of a string without one-line tags has none either. */
  lemma NoSingleLineTagSlice(t: string, a: nat, b: nat, u: string)
    requires NoSingleLineTag(t) && a <= b <= |t| && u == t[a..b]
    ensures NoSingleLineTag(u)
  {
    forall i, j | 0 <= i < j < |u| && u[i] == '<' && u[j] == '>'
      ensures exists k :: i < k < j && u[k] == '\n'
    {
      assert t[a + i] == '<' && t[a + j] == '>';
      var k :| a + i < k < a + j && t[k] == '\n';
      assert u[k - a] == '\n';
    }
  }

  /** A break tag is recognised whatever follows it. */
  lemma BreakTagExtends(t: string, y: string)
    requires |t| > 0 && BreakTagLength(t) == |t|
    ensures BreakTagLength(t + y) == |t|
  {
    var w := 3 + LeadingSpace(t[3..]);
    assert w < |t|;
    LeadingSpaceConcat(t[3..], y);
    assert (t + y)[3..] == t[3..] + y;
  }

  /** Text that ends before a '<' is scanned for break tags as if it ended there. */
  lemma BreakTagLengthBeforeTag(x: string, w: string)
    requires x != [] && (w == [] || w[0] == '<')
    ensures BreakTagLength(x + w) == BreakTagLength(x)
  {
    if |x| >= 3 {
      LeadingSpaceConcat(x[3..], w);
      assert (x + w)[3..] == x[3..] + w;
    }
  }

  /** Break replacement splits at any '<'. */
  lemma {:induction false} ReplaceBreaksConcat(x: string, w: string)
    requires w == [] || w[0] == '<'
    ensures ReplaceBreaks(x + w) == ReplaceBreaks(x) + ReplaceBreaks(w)
    decreases |x|, 1
  {
    if x == [] {
      assert x + w == w;
    } else {
      ReplaceBreaksConcatNonEmpty(x, w);
    }
  }

  /** The inductive case of `ReplaceBreaksConcat`. */
  lemma {:induction false} ReplaceBreaksConcatNonEmpty(x: string, w: string)
    requires x != [] && (w == [] || w[0] == '<')
    ensures ReplaceBreaks(x + w) == ReplaceBreaks(x) + ReplaceBreaks(w)
    decreases |x|, 0
  {
    var k, head := ReplaceBreaksStep(x, w);
    ReplaceBreaksConcat(x[k..], w);
    ConcatRegroup(head, ReplaceBreaks(x[k..]), ReplaceBreaks(w), ReplaceBreaks(x), ReplaceBreaks(x + w));
  }

  /** Regrouping a three-part concatenation. */
  lemma ConcatRegroup(head: string, a: string, b: string, whole: string, joined: string)
    requires whole == head + a && joined == head + (a + b)
    ensures joined == whole + b
  {
  }

  /** One step of the break scan over `x` is the same step over `x + w`
      when `w` starts with a '<'. */
  lemma ReplaceBreaksStep(x: string, w: string) returns (k: nat, head: string)
    requires x != [] && (w == [] || w[0] == '<')
    ensures 0 < k <= |x|
    ensures ReplaceBreaks(x) == head + ReplaceBreaks(x[k..])
    ensures ReplaceBreaks(x + w) == head + ReplaceBreaks(x[k..] + w)
  {
    var n := BreakTagLength(x);
    k := if n > 0 then n else 1;
    head := if n > 0 then "\n" else [x[0]];
    BreakTagLengthBeforeTag(x, w);
    assert (x + w)[k..] == x[k..] + w;
    assert (x + w)[0] == x[0];
  }

  // `<br>`, `<br/>`, `<BR />` and every other match of `<br\s*/?>` become
  // one newline, wherever they stand and whatever surrounds them.
  lemma BreakBecomesNewline(x: string, t: string, y: string)
    requires |t| > 0 && BreakTagLength(t) == |t|
    ensures ReplaceBreaks(x + t + y) == ReplaceBreaks(x) + "\n" + ReplaceBreaks(y)
  {
    ReplaceBreaksConcat(x, t + y);
    assert x + t + y == x + (t + y);
    BreakTagExtends(t, y);
    assert (t + y)[|t|..] == y;
  }

  /** The three spellings of a line break found in note text. */
  lemma BreakSpellings()
    ensures BreakTagLength("<br>") == 4
    ensures BreakTagLength("<br/>") == 5
    ensures BreakTagLength("<BR />") == 6
    ensures BreakTagLength("<bra>") == 0
  {
    assert "<BR />"[3..] == " />";
    assert LeadingSpace(" />") == 1 by { assert " />"[1..] == "/>"; }
  }

  /** One character that does not start a break tag is copied by the break pass. */
  lemma ReplaceBreaksCopies(s: string)
    requires s != [] && BreakTagLength(s) == 0
    ensures ReplaceBreaks(s) == [s[0]] + ReplaceBreaks(s[1..])
  {
  }

  /** One character that does not start a one-line tag is copied by tag deletion. */
  lemma RemoveTagsCopies(s: string)
    requires s != [] && (s[0] != '<' || CloseBeforeBreak(s[1..]).None?)
    ensures RemoveTags(s) == [s[0]] + RemoveTags(s[1..])
  {
  }

  /** A tag that is not a break tag goes through the break pass unchanged,
      as does tag-free text before it. */
  lemma NonBreakTagKept(x: string, tag: string)
    requires '<' !in x && tag != [] && tag[0] == '<' && BreakTagLength(tag) == 0 && '<' !in tag[1..]
    ensures ReplaceBreaks(x + tag) == x + tag
  {
    ReplaceBreaksConcat(x, tag);
    ReplaceBreaksCopies(tag);
    assert [tag[0]] + tag[1..] == tag;
  }

  /** Tag deletion leaves text without a '<' as it is. */
  lemma {:induction false} TagFreePrefixKept(x: string, w: string)
    requires '<' !in x
    ensures RemoveTags(x + w) == x + RemoveTags(w)
    decreases |x|
  {
    if x == [] {
      assert x + w == w;
    } else {
      TagFreeStep(x, w);
      TagFreePrefixKept(x[1..], w);
      assert x == [x[0]] + x[1..];
      PrefixRegroup([x[0]], x[1..], RemoveTags(w), RemoveTags(x + w), x);
    }
  }

  /** The first character of `x + w` is copied when it is not a '<'. */
  lemma TagFreeStep(x: string, w: string)
    requires x != [] && x[0] != '<'
    ensures RemoveTags(x + w) == [x[0]] + RemoveTags(x[1..] + w)
  {
    var s := x + w;
    assert s[0] == x[0] && s[1..] == x[1..] + w;
    RemoveTagsCopies(s);
  }

  /** Regrouping a concatenation whose head and tail make up `x`. */
  lemma PrefixRegroup(head: string, tail: string, rest: string, whole: string, x: string)
    requires whole == head + (tail + rest) && x == head + tail
    ensures whole == x + rest
  {
  }

  /** The scan for a closing '>' stops at the first one when no line break
      or '>' comes before it. */
  lemma {:induction false} CloseBeforeBreakFinds(s: string, j: nat)
    requires j < |s| && s[j] == '>'
    requires forall i :: 0 <= i < j ==> s[i] != '>' && s[i] != '\n'
    ensures CloseBeforeBreak(s) == Some(j)
    decreases j
  {
    if j > 0 {
      CloseBeforeBreakFinds(s[1..], j - 1);
    }
  }

  /** A tag on one line is deleted with everything inside it; the text around
      it is kept. */
  lemma OneLineTagDeleted(x: string, tag: string, y: string)
    requires '<' !in x && |tag| >= 2 && tag[0] == '<' && tag[|tag| - 1] == '>'
    requires forall i :: 1 <= i < |tag| - 1 ==> tag[i] != '>' && tag[i] != '\n'
    ensures RemoveTags(x + tag + y) == x + RemoveTags(y)
  {
    assert x + tag + y == x + (tag + y);
    TagFreePrefixKept(x, tag + y);
    var s := tag + y;
    assert s[0] == '<';
    CloseBeforeBreakFinds(s[1..], |tag| - 2);
    assert s[|tag|..] == y;
  }

  /** Text that holds no one-line tag is left alone by tag deletion. */
  lemma {:induction false} TaglessTextKept(s: string)
    requires NoSingleLineTag(s)
    ensures RemoveTags(s) == s
    decreases |s|
  {
    if s != [] {
      if s[0] == '<' && CloseBeforeBreak(s[1..]).Some? {
        assert false;
      } else {
        NoSingleLineTagSlice(s, 1, |s|, s[1..]);
        TaglessTextKept(s[1..]);
        RemoveTagsCopies(s);
        assert [s[0]] + s[1..] == s;
      }
    }
  }

  /** Deleting tags twice deletes no more than deleting them once. */
  lemma RemoveTagsIdempotent(s: string)
    ensures RemoveTags(RemoveTags(s)) == RemoveTags(s)
  {
    RemovedTagsLeaveNone(s);
    TaglessTextKept(RemoveTags(s));
  }

  /** A one-line tag that is not a break tag (a closing tag such as `</b>`)
      is dropped from the cleaned text. */
  lemma CleaningDropsTag(x: string, tag: string)
    requires '<' !in x && |tag| >= 2 && tag[0] == '<' && tag[|tag| - 1] == '>' && BreakTagLength(tag) == 0
    requires forall i :: 1 <= i < |tag| - 1 ==> tag[i] != '>' && tag[i] != '\n' && tag[i] != '<'
    ensures RemoveHtmlTags(Some(x + tag)) == Strip(x)
  {
    assert '<' !in tag[1..] by {
      forall i | 0 <= i < |tag[1..]| ensures tag[1..][i] != '<' { assert tag[1..][i] == tag[i + 1]; }
    }
    NonBreakTagKept(x, tag);
    OneLineTagDeleted(x, tag, "");
    assert x + tag + "" == x + tag && x + [] == x;
  }

  /** A break tag between two runs of tag-free text becomes a newline
      between them in the cleaned text. */
  lemma CleaningTurnsBreakIntoNewline(x: string, t: string, y: string)
    requires '<' !in x && '<' !in y && |t| > 0 && BreakTagLength(t) == |t|
    ensures RemoveHtmlTags(Some(x + t + y)) == Strip(x + "\n" + y)
  {
    BreakBecomesNewline(x, t, y);
    assert '<' !in x + "\n" + y;
  }

  /** Text without break tags or one-line tags is only stripped: a `<...>`
      that spans a line break is not a tag to the cleaner. */
  lemma CleaningKeepsMultiLineAngles(s: string)
    requires (s == [] || ('<' !in s[1..] && BreakTagLength(s) == 0)) && NoSingleLineTag(s)
    ensures RemoveHtmlTags(Some(s)) == Strip(s)
  {
    if s != [] {
      if s[0] == '<' {
        NonBreakTagKept("", s);
        assert "" + s == s;
      } else {
        assert '<' !in s by { assert s == [s[0]] + s[1..]; }
      }
    }
    TaglessTextKept(s);
  }
}
