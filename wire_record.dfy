/// The `sNameValues` record that saves a note: nineteen positional fields
/// separated by the three-character text `%02`, the eighteenth of which is
/// the merged form state as `id%01value` pairs, again separated by `%02`.
/// The follow-up and the consultation writers build the same record and
/// differ only in the template code and display name.
module WireRecord {
  import opened PyStrings
  import opened Dicts
  import opened Wrappers

  /** Which note writer builds the record. */
  datatype NoteKind = FollowUp | Consultation

  function TemplateCode(kind: NoteKind): string {
    match kind
    case FollowUp => "AsteraMedOncFollowUp-2023v9"
    case Consultation => "AsteraMedOncInitialConsultation-2023v3"
  }

  function TemplateName(kind: NoteKind): string {
    match kind
    case FollowUp => "Astera MedOnc Follow Up - 2023 v8"
    case Consultation => "Astera MedOnc Initial Consultation - 2023 v3"
  }

  /** The values the writer substitutes into the record besides the block:
      the current date, the note's form id, the practice group id, the
      patient id and the note GUID. */
  datatype NoteHeader = NoteHeader(
    kind: NoteKind,
    date: string,
    formId: string,
    groupId: string,
    patientId: string,
    guid: string)

  /** `[f"{k}%01{v}" for k, v in items]` */
  function Pairs(items: seq<(string, string)>): (r: seq<string>)
    ensures |r| == |items|
  {
    seq(|items|, i requires 0 <= i < |items| => items[i].0 + "%01" + items[i].1)
  }

  /** The merged form state in insertion order, pairs joined by `%02`. */
  function Block(formState: Dict<string>): (r: string)
    requires formState.Valid()
    ensures r == "" <==> formState.keys == []
  {
    Join("%02", Pairs(formState.Items()))
  }

  /** The nineteen positional fields of the record, in order. */
  function Fields(h: NoteHeader, block: string): (r: seq<string>)
    ensures |r| == 19 && r[0] == "" && r[17] == block && r[18] == "PRINT"
  {
    ["", "", TemplateCode(h.kind), TemplateName(h.kind), h.date, h.formId,
     "background", TemplateName(h.kind), h.date, "", h.groupId, h.patientId,
     "", "", "PRINT", h.guid, "MD Visit Note", block, "PRINT"]
  }

  /** Each field on a line of its own, followed by `%02`. */
  function Lines(fields: seq<string>): string {
    if fields == [] then "" else fields[0] + "%02\n" + Lines(fields[1..])
  }

  /** The triple-quoted template as written: a leading newline, eighteen
      lines each ending in `%02`, and a last line `PRINT` followed by the
      indentation of the closing quotes. */
  function ParamString(h: NoteHeader, block: string): string {
    "\n" + Lines(Fields(h, block)[..18]) + "PRINT" + "\n    "
  }

  /** `param_string.replace("\n", '').strip()` */
  function NameValues(h: NoteHeader, block: string): (r: string)
    ensures '\n' !in r
  {
    Strip(RemoveChar(ParamString(h, block), '\n'))
  }

  /** Every field with its newlines removed. */
  function WithoutNewlines(fields: seq<string>): (r: seq<string>)
    ensures |r| == |fields|
    ensures forall i :: 0 <= i < |fields| ==> r[i] == RemoveChar(fields[i], '\n')
  {
    seq(|fields|, i requires 0 <= i < |fields| => RemoveChar(fields[i], '\n'))
  }

  // ---------------------------------------------------------------------
  // Properties of the record

  /** Removing the newlines from the line layout leaves the fields joined
      by `%02`, each with its own newlines removed. */
  lemma {:induction false} LinesAreJoinedFields(fields: seq<string>, last: string)
    ensures RemoveChar(Lines(fields) + last, '\n') == Join("%02", WithoutNewlines(fields + [last]))
  {
    if fields == [] {
      assert Lines(fields) + last == last;
      assert fields + [last] == [last];
    } else {
      LinesStep(fields, last);
      JoinWithoutNewlinesStep(fields, last);
      LinesAreJoinedFields(fields[1..], last);
    }
  }

  /** The first line of the layout loses its newline and keeps its `%02`. */
  lemma LinesStep(fields: seq<string>, last: string)
    requires fields != []
    ensures RemoveChar(Lines(fields) + last, '\n')
         == RemoveChar(fields[0], '\n') + ("%02" + RemoveChar(Lines(fields[1..]) + last, '\n'))
  {
    var head, rest := fields[0] + "%02\n", Lines(fields[1..]) + last;
    assert Lines(fields) + last == head + rest;
    RemoveCharConcat(head, rest, '\n');
    RemoveCharConcat(fields[0], "%02\n", '\n');
    SeparatorLineRemoved();
    Regroup(RemoveChar(head + rest, '\n'), RemoveChar(head, '\n'), RemoveChar(fields[0], '\n'), "%02", RemoveChar(rest, '\n'));
  }

  /** Regrouping a concatenation of three parts. */
  lemma Regroup(whole: string, ab: string, a: string, b: string, c: string)
    requires whole == ab + c && ab == a + b
    ensures whole == a + (b + c)
  {
  }

  /** The separator line without its newline. */
  lemma SeparatorLineRemoved()
    ensures RemoveChar("%02\n", '\n') == "%02"
  {
    assert "%02\n"[1..] == "02\n";
    assert "02\n"[1..] == "2\n";
    assert "2\n"[1..] == "\n";
  }

  /** The join of the cleaned fields starts with the first cleaned field and
      the separator. */
  lemma JoinWithoutNewlinesStep(fields: seq<string>, last: string)
    requires fields != []
    ensures Join("%02", WithoutNewlines(fields + [last]))
         == RemoveChar(fields[0], '\n') + ("%02" + Join("%02", WithoutNewlines(fields[1..] + [last])))
  {
    var parts := WithoutNewlines(fields + [last]);
    assert (fields + [last])[1..] == fields[1..] + [last];
    assert parts[1..] == WithoutNewlines(fields[1..] + [last]);
    assert parts[0] == RemoveChar(fields[0], '\n');
  }

  /** A join of two or more parts ends with the separator and the last part. */
  lemma {:induction false} JoinEndsWithLast(sep: string, parts: seq<string>)
    requires |parts| >= 2
    ensures Join(sep, parts) == Join(sep, parts[..|parts| - 1]) + sep + parts[|parts| - 1]
  {
    if |parts| > 2 {
      JoinEndsWithLast(sep, parts[1..]);
      assert parts[1..][..|parts| - 2] == parts[..|parts| - 1][1..];
    } else {
      assert parts[..|parts| - 1] == [parts[0]];
    }
  }

  /** Trailing whitespace after a word whose ends are not whitespace is
      exactly what `strip()` removes. */
  lemma StripTrailingBlanks(w: string, blanks: string)
    requires w != [] && !IsSpace(w[0]) && !IsSpace(w[|w| - 1])
    requires forall i :: 0 <= i < |blanks| ==> IsSpace(blanks[i])
    ensures Strip(w + blanks) == w
  {
    var s := w + blanks;
    assert s[0] == w[0];
    assert LeadingSpace(s) == 0;
    assert s[|w| - 1] == w[|w| - 1];
    assert forall i :: |w| <= i < |s| ==> IsSpace(s[i]) by {
      forall i | |w| <= i < |s| ensures IsSpace(s[i]) {
        assert s[i] == blanks[i - |w|];
      }
    }
    assert s[..|w|] == w;
  }

  /** Removing the newlines from the layout leaves the joined fields
      followed by the closing indentation. */
  lemma {:induction false} LayoutWithoutNewlines(fields: seq<string>)
    requires |fields| == 19 && fields[18] == "PRINT"
    ensures RemoveChar("\n" + Lines(fields[..18]) + "PRINT" + "\n    ", '\n')
         == Join("%02", WithoutNewlines(fields)) + "    "
  {
    var lines := Lines(fields[..18]);
    RemoveCharConcat("\n" + lines + "PRINT", "\n    ", '\n');
    assert "\n" + lines + "PRINT" == "\n" + (lines + "PRINT");
    RemoveCharConcat("\n", lines + "PRINT", '\n');
    assert RemoveChar("\n", '\n') == "";
    assert RemoveChar("\n    ", '\n') == "    " by {
      assert "\n    "[1..] == "    ";
    }
    LinesAreJoinedFields(fields[..18], "PRINT");
    assert fields[..18] + ["PRINT"] == fields;
  }

  /** The joined fields start with `%` (the first field is empty) and end
      with the `T` of the last field `PRINT`. */
  lemma JoinedFieldsEnds(fields: seq<string>)
    requires |fields| == 19 && fields[0] == "" && fields[18] == "PRINT"
    ensures var w := Join("%02", WithoutNewlines(fields));
      w != [] && w[0] == '%' && w[|w| - 1] == 'T'
  {
    var cleaned := WithoutNewlines(fields);
    assert cleaned[0] == "" && cleaned[18] == "PRINT";
    var w := Join("%02", cleaned);
    assert w == cleaned[0] + "%02" + Join("%02", cleaned[1..]);
    JoinEndsWithLast("%02", cleaned);
  }

  /** The record is the nineteen positional fields joined by `%02`, each
      with its newlines removed: the removal reaches into the substituted
      values, and `strip()` takes away only the closing indentation. */
  lemma RecordIsJoinedFields(h: NoteHeader, block: string)
    ensures NameValues(h, block) == Join("%02", WithoutNewlines(Fields(h, block)))
  {
    var fields := Fields(h, block);
    LayoutWithoutNewlines(fields);
    JoinedFieldsEnds(fields);
    StripClosingIndent(ParamString(h, block), Join("%02", WithoutNewlines(fields)));
  }

  /** `strip()` after the newline removal takes away only the closing
      indentation of the template. */
  lemma StripClosingIndent(p: string, w: string)
    requires RemoveChar(p, '\n') == w + "    "
    requires w != [] && w[0] == '%' && w[|w| - 1] == 'T'
    ensures Strip(RemoveChar(p, '\n')) == w
  {
    StripTrailingBlanks(w, "    ");
  }

  /** The record contains no newline at all, not even one that came inside
      a substituted value, and ends in `PRINT`. */
  lemma RecordHasNoNewline(h: NoteHeader, block: string)
    ensures '\n' !in NameValues(h, block)
    ensures |NameValues(h, block)| >= 5
    ensures NameValues(h, block)[|NameValues(h, block)| - 5..] == "PRINT"
  {
    RecordIsJoinedFields(h, block);
    var cleaned := WithoutNewlines(Fields(h, block));
    JoinEndsWithLast("%02", cleaned);
    assert cleaned[18] == "PRINT";
  }

  // ---------------------------------------------------------------------
  // Reading the block back

  /** Whether `sep` occurs in `s` at index `i`. */
  predicate OccursAt(s: string, sep: string, i: int) {
    0 <= i && i + |sep| <= |s| && s[i..i + |sep|] == sep
  }

  /** Whether `sep` occurs anywhere in `s`. */
  predicate Contains(s: string, sep: string) {
    exists i :: 0 <= i <= |s| && OccursAt(s, sep, i)
  }

  /** `s.split(sep)`: the parts between the occurrences of `sep`, found
      left to right without overlap. */
  function Split(s: string, sep: string): (r: seq<string>)
    requires sep != []
    ensures r != []
    decreases |s|
  {
    if StartsWith(s, sep) then [""] + Split(s[|sep|..], sep)
    else if s == [] then [""]
    else
      var rest := Split(s[1..], sep);
      [[s[0]] + rest[0]] + rest[1..]
  }

  /** `s.partition(sep)` when `sep` occurs: the text before its first
      occurrence and the text after it. */
  function Partition(s: string, sep: string): (r: Option<(string, string)>)
    requires sep != []
    ensures r.Some? ==> r.value.0 + sep + r.value.1 == s
    decreases |s|
  {
    if StartsWith(s, sep) then Some(([], s[|sep|..]))
    else if s == [] then None
    else match Partition(s[1..], sep)
      case None => None
      case Some((before, after)) => Some(([s[0]] + before, after))
  }

  /** The pairs of a block, each read back as its id and value. */
  function DecodePairs(parts: seq<string>): Option<seq<(string, string)>> {
    if parts == [] then Some([])
    else match (Partition(parts[0], "%01"), DecodePairs(parts[1..]))
      case (Some(pair), Some(rest)) => Some([pair] + rest)
      case _ => None
  }

  /** A block read back as the form state's items. */
  function DecodeBlock(block: string): Option<seq<(string, string)>> {
    if block == "" then Some([]) else DecodePairs(Split(block, "%02"))
  }

  /** Neither an id nor a value carries the separators that would make the
      block ambiguous. */
  predicate Unambiguous(formState: Dict<string>) {
    forall k :: k in formState.vals ==>
      !Contains(k, "%01") && !Contains(k, "%02") && !Contains(formState.vals[k], "%02")
  }

  /** A text without `%02`, then `%02`, splits there first. */
  lemma {:induction false} SplitAtFirstSeparator(p: string, rest: string)
    requires !Contains(p, "%02")
    ensures Split(p + "%02" + rest, "%02") == [p] + Split(rest, "%02")
  {
    var s := p + "%02" + rest;
    if p == [] {
      assert s == "%02" + rest;
      assert s[3..] == rest;
    } else {
      if |p| >= 3 {
        assert !OccursAt(p, "%02", 0);
        assert s[..3] == p[..3];
      } else {
        assert s[|p|] == '%';
      }
      assert !StartsWith(s, "%02");
      NoSeparatorInTail(p, "%02");
      assert s[1..] == p[1..] + "%02" + rest;
      SplitAtFirstSeparator(p[1..], rest);
      assert s[0] == p[0] && [p[0]] + p[1..] == p;
    }
  }

  /** A text without `%02` is a single part. */
  lemma {:induction false} SplitWithoutSeparator(p: string)
    requires !Contains(p, "%02")
    ensures Split(p, "%02") == [p]
  {
    if p != [] {
      assert !OccursAt(p, "%02", 0);
      assert !StartsWith(p, "%02");
      NoSeparatorInTail(p, "%02");
      SplitWithoutSeparator(p[1..]);
      assert [p[0]] + p[1..] == p;
    }
  }

  /** Dropping the first character cannot create an occurrence. */
  lemma NoSeparatorInTail(p: string, sep: string)
    requires p != [] && !Contains(p, sep)
    ensures !Contains(p[1..], sep)
  {
    if Contains(p[1..], sep) {
      var i :| 0 <= i <= |p[1..]| && OccursAt(p[1..], sep, i);
      assert i + |sep| <= |p[1..]|;
      assert p[i + 1..i + 1 + |sep|] == p[1..][i..i + |sep|];
      assert OccursAt(p, sep, i + 1);
    }
  }

  /** Joining parts without `%02` and splitting at `%02` gives the parts
      back. */
  lemma {:induction false} SplitJoin(parts: seq<string>)
    requires parts != []
    requires forall i :: 0 <= i < |parts| ==> !Contains(parts[i], "%02")
    ensures Split(Join("%02", parts), "%02") == parts
  {
    if |parts| == 1 {
      SplitWithoutSeparator(parts[0]);
    } else {
      SplitAtFirstSeparator(parts[0], Join("%02", parts[1..]));
      SplitJoin(parts[1..]);
    }
  }

  /** An id without `%01` is cut off at the `%01` that follows it. */
  lemma {:induction false} PartitionPair(k: string, v: string)
    requires !Contains(k, "%01")
    ensures Partition(k + "%01" + v, "%01") == Some((k, v))
  {
    var s := k + "%01" + v;
    if k == [] {
      assert s == "%01" + v;
      assert s[3..] == v;
    } else {
      if |k| >= 3 {
        assert !OccursAt(k, "%01", 0);
        assert s[..3] == k[..3];
      } else {
        assert s[|k|] == '%';
      }
      assert !StartsWith(s, "%01");
      NoSeparatorInTail(k, "%01");
      assert s[1..] == k[1..] + "%01" + v;
      PartitionPair(k[1..], v);
      assert s[0] == k[0] && [k[0]] + k[1..] == k;
    }
  }

  /** A pair `id%01value` carries no `%02` when neither its id nor its
      value does. */
  lemma PairWithoutSeparator(k: string, v: string)
    requires !Contains(k, "%02") && !Contains(v, "%02")
    ensures !Contains(k + "%01" + v, "%02")
  {
    var s := k + "%01" + v;
    assert s[|k|] == '%' && s[|k| + 1] == '0' && s[|k| + 2] == '1';
    forall i | 0 <= i <= |s|
      ensures !OccursAt(s, "%02", i)
    {
      if i + 3 <= |k| {
        assert s[i..i + 3] == k[i..i + 3];
        assert !OccursAt(k, "%02", i);
      } else if i >= |k| + 3 && i + 3 <= |s| {
        assert s[i..i + 3] == v[i - |k| - 3..i - |k|];
        assert !OccursAt(v, "%02", i - |k| - 3);
      } else if i + 3 <= |s| {
        assert s[i..i + 3][0] == s[i] && s[i..i + 3][1] == s[i + 1] && s[i..i + 3][2] == s[i + 2];
      }
    }
  }

  /** Reading back the pairs of a list of items. */
  lemma {:induction false} DecodePairsOfItems(items: seq<(string, string)>)
    requires forall i :: 0 <= i < |items| ==> !Contains(items[i].0, "%01")
    ensures DecodePairs(Pairs(items)) == Some(items)
  {
    if items != [] {
      var pairs := Pairs(items);
      PartitionPair(items[0].0, items[0].1);
      assert pairs[1..] == Pairs(items[1..]);
      DecodePairsOfItems(items[1..]);
      assert [items[0]] + items[1..] == items;
    }
  }

  /** The block reads back as the form state's items, in insertion order,
      as long as no id carries `%01` or `%02` and no value carries `%02`. */
  lemma BlockRoundTrip(formState: Dict<string>)
    requires formState.Valid() && Unambiguous(formState)
    ensures DecodeBlock(Block(formState)) == Some(formState.Items())
  {
    var items := formState.Items();
    var pairs := Pairs(items);
    forall i | 0 <= i < |items|
      ensures !Contains(items[i].0, "%01") && !Contains(pairs[i], "%02")
    {
      PairWithoutSeparator(items[i].0, items[i].1);
    }
    DecodePairsOfItems(items);
    if items != [] {
      SplitJoin(pairs);
    }
  }
}
