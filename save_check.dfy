/// The save confirmation: after a note is written the server answers with
/// `background`, U+0001, the note's `DH_` token, U+0001 and the same token
/// again, and the writer accepts the save only on that answer.
module SaveCheck {
  import opened PyStrings

  /** `[A-Z0-9]` */
  predicate IsUpperAlnum(c: char) {
    ('A' <= c <= 'Z') || ('0' <= c <= '9')
  }

  /** `DH_[A-Z0-9]+` as a whole string. */
  predicate IsToken(t: string) {
    |t| > 3 && t[..3] == "DH_" && forall i :: 3 <= i < |t| ==> IsUpperAlnum(t[i])
  }

  /** The answer that echoes token `t`; Python's `$` also matches just
      before one final newline. */
  predicate Echoes(s: string, t: string) {
    s == "background\U{1}" + t + "\U{1}" + t
    || s == "background\U{1}" + t + "\U{1}" + t + "\n"
  }

  /** The answers the save confirmation is meant to accept. */
  ghost predicate IsSaveAnswer(s: string) {
    exists t :: IsToken(t) && Echoes(s, t)
  }

  /** Length of the greedy `[A-Z0-9]+` run at the front of `s`. */
  function UpperAlnumRun(s: string): (n: nat)
    ensures n <= |s|
    ensures forall i :: 0 <= i < n ==> IsUpperAlnum(s[i])
    ensures n < |s| ==> !IsUpperAlnum(s[n])
  {
    if s == [] || !IsUpperAlnum(s[0]) then 0 else 1 + UpperAlnumRun(s[1..])
  }

  /** The literal text before the group. */
  const Head := "background\U{1}"

  /** `bool(re.match(r'^background\u0001(DH_[A-Z0-9]+)\u0001\1$', data))` */
  function VerifyNoteStr(s: string): (ok: bool)
    ensures ok ==> StartsWith(s, Head) && StartsWith(s[|Head|..], "DH_")
    ensures ok ==> |s| >= |Head| + 9
  {
    StartsWith(s, Head) && GroupEchoed(s[|Head|..])
  }

  /** `(DH_[A-Z0-9]+)\u0001\1$` at the front of `r`. The group is the greedy
      run: backtracking to a shorter run would leave a letter or digit
      where U+0001 must come. */
  function GroupEchoed(r: string): (ok: bool)
    ensures ok ==> StartsWith(r, "DH_") && |r| >= 9
  {
    if !StartsWith(r, "DH_") then false
    else
      var tokenEnd := 3 + UpperAlnumRun(r[3..]);
      if tokenEnd == 3 || tokenEnd == |r| || r[tokenEnd] != '\U{1}' then false
      else
        var token := r[..tokenEnd];
        var echo := r[tokenEnd + 1..];
        echo == token || echo == token + "\n"
  }

  // ---------------------------------------------------------------------
  // Properties of the check

  /** A run of `[A-Z0-9]` followed by anything else is the greedy run. */
  lemma {:induction false} RunStopsAtOther(run: string, rest: string)
    requires forall i :: 0 <= i < |run| ==> IsUpperAlnum(run[i])
    requires rest == [] || !IsUpperAlnum(rest[0])
    ensures UpperAlnumRun(run + rest) == |run|
  {
    if run != [] {
      assert (run + rest)[1..] == run[1..] + rest;
      RunStopsAtOther(run[1..], rest);
    } else {
      assert run + rest == rest;
    }
  }

  /** What follows the literal head when the group is echoed. */
  predicate EchoTail(r: string, t: string) {
    r == t + "\U{1}" + t || r == t + "\U{1}" + t + "\n"
  }

  /** An accepted group is a token echoed once. */
  lemma GroupEchoedIsToken(r: string) returns (t: string)
    requires GroupEchoed(r)
    ensures IsToken(t) && EchoTail(r, t)
  {
    var tokenEnd := 3 + UpperAlnumRun(r[3..]);
    t := r[..tokenEnd];
    assert forall i :: 3 <= i < |t| ==> t[i] == r[3..][i - 3];
    assert r == t + [r[tokenEnd]] + r[tokenEnd + 1..];
  }

  /** A token echoed once is an accepted group. */
  lemma TokenEchoedIsGroup(r: string, t: string)
    requires IsToken(t) && EchoTail(r, t)
    ensures GroupEchoed(r)
  {
    var tail := if r == t + "\U{1}" + t then t else t + "\n";
    var run := t[3..];
    assert r == t + "\U{1}" + tail;
    assert r[..3] == t[..3];
    assert r[3..] == run + ("\U{1}" + tail);
    RunStopsAtOther(run, "\U{1}" + tail);
    assert r[..|t|] == t;
    assert r[|t| + 1..] == tail;
  }

  /** The check accepts only answers that echo one `DH_` token. */
  lemma VerifyAcceptsOnlyEchoes(s: string)
    requires VerifyNoteStr(s)
    ensures IsSaveAnswer(s)
  {
    var t := GroupEchoedIsToken(s[|Head|..]);
    assert s == Head + s[|Head|..];
    assert Echoes(s, t);
  }

  /** The check accepts every answer that echoes one `DH_` token: the two
      tokens identical, optionally followed by one newline. */
  lemma VerifyAcceptsEchoes(s: string, t: string)
    requires IsToken(t) && Echoes(s, t)
    ensures VerifyNoteStr(s)
  {
    var r := s[|Head|..];
    assert s[..|Head|] == Head;
    assert EchoTail(r, t);
    TokenEchoedIsGroup(r, t);
  }

  /** Both directions together. */
  lemma VerifyAcceptsExactlyEchoes(s: string)
    ensures VerifyNoteStr(s) <==> IsSaveAnswer(s)
  {
    if VerifyNoteStr(s) {
      VerifyAcceptsOnlyEchoes(s);
    }
    if IsSaveAnswer(s) {
      var t :| IsToken(t) && Echoes(s, t);
      VerifyAcceptsEchoes(s, t);
    }
  }

  /** The empty answer and an answer with one token only are rejected. */
  lemma VerifyRejectsShortAnswers()
    ensures !VerifyNoteStr("")
    ensures !VerifyNoteStr("background\U{1}DH_7QX2")
  {
    var r := "background\U{1}DH_7QX2"[|Head|..];
    assert r == "DH_7QX2";
    RunStopsAtOther("7QX2", "");
    assert r[3..] == "7QX2" + "";
  }

  /** An answer that carries two different tokens is rejected. */
  lemma VerifyRejectsMismatch(t1: string, t2: string)
    requires IsToken(t1) && IsToken(t2) && t1 != t2
    ensures !VerifyNoteStr(Head + t1 + "\U{1}" + t2)
  {
    var rest := "\U{1}" + t2;
    Assoc4(Head, t1, "\U{1}", t2);
    HeadThenGroup(t1 + rest);
    GroupAfterToken(t1, rest);
    assert rest[1..] == t2;
    assert t2[|t2| - 1] != '\n';
  }

  /** The check on the literal head followed by `r` is the group check on `r`. */
  lemma HeadThenGroup(r: string)
    ensures VerifyNoteStr(Head + r) == GroupEchoed(r)
  {
    assert (Head + r)[..|Head|] == Head && (Head + r)[|Head|..] == r;
  }

  /** After a token and U+0001, the group check compares the rest with the token. */
  lemma GroupAfterToken(t: string, rest: string)
    requires IsToken(t) && rest != [] && rest[0] == '\U{1}'
    ensures GroupEchoed(t + rest) == (rest[1..] == t || rest[1..] == t + "\n")
  {
    var r := t + rest;
    assert r[..3] == t[..3];
    assert r[3..] == t[3..] + rest;
    RunStopsAtOther(t[3..], rest);
    assert r[..|t|] == t && r[|t| + 1..] == rest[1..];
  }

  /** Regrouping four concatenated parts. */
  lemma Assoc4(a: string, b: string, c: string, d: string)
    ensures a + b + c + d == a + (b + (c + d))
  {
  }

  /** A token in lower case is rejected even when it is echoed. */
  lemma VerifyRejectsLowerCase()
    ensures !VerifyNoteStr("background\U{1}DH_7qx2\U{1}DH_7qx2")
  {
    var q := "background\U{1}DH_7qx2\U{1}DH_7qx2"[|Head|..];
    assert q[3..][1] == 'q';
    assert UpperAlnumRun(q[3..]) == 1;
  }

  /** The echo followed by one newline is accepted. */
  lemma VerifyAcceptsTrailingNewline()
    ensures VerifyNoteStr("background\U{1}DH_7QX2\U{1}DH_7QX2\n")
  {
    var t := "DH_7QX2";
    assert IsToken(t);
    assert Echoes("background\U{1}DH_7QX2\U{1}DH_7QX2\n", t);
    VerifyAcceptsEchoes("background\U{1}DH_7QX2\U{1}DH_7QX2\n", t);
  }
}
