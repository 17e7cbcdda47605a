/** `extract_objet` (courriers/utils/ocr_utils.py:171-195): the subject is read
    from the raw lines of the text (not the cleaned ones), first after an
    "Objet :" label, then after a line holding only "A" or "À". As for the sender
    and the recipient, the passes are stated over a record of line tests and then
    instantiated with the extractor's own tests. */
module Objet {
  import opened OcrText

  const SubjectPlaceholder: string := "Objet non spécifié"

  /** "objet" in the lower-cased text. */
  predicate MentionsObjet(s: string) { Contains(LowerStr(s), "objet") }

  /** A label line: it mentions "objet" and has a colon somewhere. */
  predicate IsLabel(line: string) { MentionsObjet(line) && ':' in line }

  /** A line that is only the addressing article, once trimmed. */
  predicate IsBareA(line: string) { Strip(line) == "A" || Strip(line) == "À" }

  /** The line tests of the two passes. */
  datatype SubjectRules = SubjectRules(
    isLabel: string -> bool,
    isBareA: string -> bool,
    mentions: string -> bool)

  /** The tests `extract_objet` uses. */
  const Rules: SubjectRules := SubjectRules(IsLabel, IsBareA, MentionsObjet)

  /** What the first pass takes at line `i`: the trimmed text after the label's
      first colon when there is one and it is not blank, otherwise the next line,
      trimmed, when there is one and it is not blank; otherwise the scan goes on. */
  function LabelValue(lines: seq<string>, R: SubjectRules, i: nat): Option<string>
    requires i < |lines|
  {
    if !R.isLabel(lines[i]) then None
    else
      var parts := SplitOnce(lines[i], ':');
      if |parts| > 1 && Strip(parts[1]) != "" then Some(Strip(parts[1]))
      else if i + 1 < |lines| && Strip(lines[i + 1]) != "" then Some(Strip(lines[i + 1]))
      else None
  }

  /** What the second pass takes at line `i`: after a bare article, the next line
      trimmed, unless it is blank or mentions "objet". */
  function BareAValue(lines: seq<string>, R: SubjectRules, i: nat): Option<string>
    requires i < |lines|
  {
    if R.isBareA(lines[i]) && i + 1 < |lines| then
      var next := Strip(lines[i + 1]);
      if next != "" && !R.mentions(next) then Some(next) else None
    else None
  }

  function LabelValues(lines: seq<string>, R: SubjectRules): (r: seq<Option<string>>)
    ensures |r| == |lines|
    ensures forall i :: 0 <= i < |r| ==> r[i] == LabelValue(lines, R, i)
  {
    seq(|lines|, i requires 0 <= i < |lines| => LabelValue(lines, R, i))
  }

  function BareAValues(lines: seq<string>, R: SubjectRules): (r: seq<Option<string>>)
    ensures |r| == |lines|
    ensures forall i :: 0 <= i < |r| ==> r[i] == BareAValue(lines, R, i)
  {
    seq(|lines|, i requires 0 <= i < |lines| => BareAValue(lines, R, i))
  }

  function SubjectBy(lines: seq<string>, R: SubjectRules): string {
    match FirstSome(LabelValues(lines, R), 0)
    case Some(s) => s
    case None =>
      match FirstSome(BareAValues(lines, R), 0)
      case Some(s) => s
      case None => SubjectPlaceholder
  }

  /** The two loops of `extract_objet`. */
  method SelectSubject(lines: seq<string>, R: SubjectRules) returns (r: string)
    ensures r == SubjectBy(lines, R)
  {
    ghost var labels := LabelValues(lines, R);
    for i := 0 to |lines|
      invariant FirstSome(labels, i) == FirstSome(labels, 0)
    {
      var line := lines[i];
      if R.isLabel(line) {
        var parts := SplitOnce(line, ':');
        if |parts| > 1 && Strip(parts[1]) != "" {
          return Strip(parts[1]);
        } else if i + 1 < |lines| && Strip(lines[i + 1]) != "" {
          return Strip(lines[i + 1]);
        }
      }
    }
    ghost var bare := BareAValues(lines, R);
    for i := 0 to |lines|
      invariant FirstSome(bare, i) == FirstSome(bare, 0)
    {
      if R.isBareA(lines[i]) && i + 1 < |lines| {
        var next := Strip(lines[i + 1]);
        if next != "" && !R.mentions(next) {
          return next;
        }
      }
    }
    return SubjectPlaceholder;
  }

  /** The subject `extract_objet` returns. */
  function SubjectOf(text: string): string {
    SubjectBy(Split(text, '\n'), Rules)
  }

  method ExtractObjet(text: string) returns (r: string)
    ensures r == SubjectOf(text)
  {
    r := SelectSubject(Split(text, '\n'), Rules);
  }

  /** `r` is what follows the first colon of label line `i`, or the line after it. */
  predicate FromLabel(lines: seq<string>, R: SubjectRules, i: nat, r: string)
    requires i < |lines|
  {
    R.isLabel(lines[i])
    && (r == Strip(SplitOnce(lines[i], ':')[|SplitOnce(lines[i], ':')| - 1])
        || (i + 1 < |lines| && r == Strip(lines[i + 1])))
  }

  /** `r` is the line after the bare article on line `i`, and passes no
      mention test. */
  predicate AfterBareA(lines: seq<string>, R: SubjectRules, i: nat, r: string)
    requires i < |lines|
  {
    R.isBareA(lines[i]) && i + 1 < |lines| && r == Strip(lines[i + 1]) && !R.mentions(r)
  }

  /** A labelled subject is non-blank and trimmed, and it comes from the label
      line or the line after it. */
  lemma LabelValueShape(lines: seq<string>, R: SubjectRules, i: nat)
    requires i < |lines| && LabelValue(lines, R, i).Some?
    ensures var v := LabelValue(lines, R, i).value;
      v != "" && Strip(v) == v && FromLabel(lines, R, i, v)
  {
    var parts := SplitOnce(lines[i], ':');
    StripIdempotent(parts[|parts| - 1]);
    if i + 1 < |lines| {
      StripIdempotent(lines[i + 1]);
    }
  }

  /** A subject after a bare article is the next line, non-blank and trimmed. */
  lemma BareAValueShape(lines: seq<string>, R: SubjectRules, i: nat)
    requires i < |lines| && BareAValue(lines, R, i).Some?
    ensures var v := BareAValue(lines, R, i).value;
      v != "" && Strip(v) == v && AfterBareA(lines, R, i, v)
  {
    StripIdempotent(lines[i + 1]);
  }

  /** The subject is the placeholder, or a non-blank trimmed text taken from a
      label line or the line after it, or from the line after a bare article. */
  lemma SubjectShapeBy(lines: seq<string>, R: SubjectRules)
    ensures var r := SubjectBy(lines, R);
      r == SubjectPlaceholder
      || (r != "" && Strip(r) == r
          && exists i :: 0 <= i < |lines| && (FromLabel(lines, R, i, r) || AfterBareA(lines, R, i, r)))
  {
    var r := SubjectBy(lines, R);
    var labels, bare := LabelValues(lines, R), BareAValues(lines, R);
    FirstSomeIsFirst(labels, 0);
    FirstSomeIsFirst(bare, 0);
    if FirstSome(labels, 0).Some? {
      var i :| 0 <= i < |labels| && labels[i] == FirstSome(labels, 0) && forall j :: 0 <= j < i ==> labels[j].None?;
      LabelValueShape(lines, R, i);
      assert FromLabel(lines, R, i, r);
    } else if FirstSome(bare, 0).Some? {
      var i :| 0 <= i < |bare| && bare[i] == FirstSome(bare, 0) && forall j :: 0 <= j < i ==> bare[j].None?;
      BareAValueShape(lines, R, i);
      assert AfterBareA(lines, R, i, r);
    }
  }

  /** The first label line with a non-blank text after its colon decides the
      subject when no earlier line yields one, whatever follows. */
  lemma FirstLabelWins(lines: seq<string>, R: SubjectRules, i: nat)
    requires i < |lines| && R.isLabel(lines[i]) && ':' in lines[i]
    requires Strip(SplitOnce(lines[i], ':')[1]) != ""
    requires forall j :: 0 <= j < i ==> LabelValue(lines, R, j).None?
    ensures SubjectBy(lines, R) == Strip(SplitOnce(lines[i], ':')[1])
  {
    FirstSomeSkips(LabelValues(lines, R), 0, i);
  }

  /** When no label line yields a subject, the first bare-article line whose
      next line yields one decides the subject, whatever follows. */
  lemma FirstBareAWins(lines: seq<string>, R: SubjectRules, i: nat)
    requires forall j :: 0 <= j < |lines| ==> LabelValue(lines, R, j).None?
    requires i < |lines| && BareAValue(lines, R, i).Some?
    requires forall j :: 0 <= j < i ==> BareAValue(lines, R, j).None?
    ensures SubjectBy(lines, R) == BareAValue(lines, R, i).value
  {
    FirstSomeIsFirst(LabelValues(lines, R), 0);
    FirstSomeSkips(BareAValues(lines, R), 0, i);
  }

  /** The bare-article pass is a fallback: when a label line yields a subject the
      result is what the first such line yields; otherwise, when a bare-article
      line yields one, the result is what the first such line yields; the
      placeholder comes when neither pass yields anything. */
  lemma FallbackOrder(lines: seq<string>, R: SubjectRules)
    ensures (exists i :: 0 <= i < |lines| && LabelValue(lines, R, i).Some?)
              ==> exists i :: 0 <= i < |lines| && LabelValue(lines, R, i) == Some(SubjectBy(lines, R))
                    && forall j :: 0 <= j < i ==> LabelValue(lines, R, j).None?
    ensures ((forall i :: 0 <= i < |lines| ==> LabelValue(lines, R, i).None?)
               && (exists i :: 0 <= i < |lines| && BareAValue(lines, R, i).Some?))
              ==> exists i :: 0 <= i < |lines| && BareAValue(lines, R, i) == Some(SubjectBy(lines, R))
                    && forall j :: 0 <= j < i ==> BareAValue(lines, R, j).None?
    ensures (forall i :: 0 <= i < |lines| ==> LabelValue(lines, R, i).None? && BareAValue(lines, R, i).None?)
              ==> SubjectBy(lines, R) == SubjectPlaceholder
  {
    var labels, bare := LabelValues(lines, R), BareAValues(lines, R);
    FirstSomeIsFirst(labels, 0);
    if forall i :: 0 <= i < |lines| ==> LabelValue(lines, R, i).None? {
      assert forall i :: 0 <= i < |labels| ==> labels[i].None?;
      FirstSomeIsFirst(bare, 0);
      if exists i :: 0 <= i < |lines| && BareAValue(lines, R, i).Some? {
        var i :| 0 <= i < |bare| && bare[i] == FirstSome(bare, 0) && forall j :: 0 <= j < i ==> bare[j].None?;
        FirstBareAWins(lines, R, i);
      } else {
        assert forall i :: 0 <= i < |bare| ==> bare[i].None?;
      }
    }
  }
}
