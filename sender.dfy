/** `extract_expediteur` (courriers/utils/ocr_utils.py:74-130): a chain of four
    sender rules over the cleaned lines, each looking at a different number of
    leading lines, ending in a fixed placeholder. The chain is stated over a
    record of line tests and instantiated with the extractor's own tests. */
module Expediteur {
  import opened OcrText
  import opened Patterns

  const SenderPlaceholder: string := "Expéditeur non identifié"

  /** Institutional letterheads and titled names, searched anywhere in a line
      (the last five are anchored at its start), all ignoring case. */
  const AcademicPatterns: seq<Matcher> := [
    FaculteDeAt, UniversiteAt, DepartementDeAt, ServiceDeAt, ChuAt, HopitalAt,
    TitleNameNameAt, DocteurAt, DrAt, ProfesseurAt, PrAt
  ]

  const AcademicKeywords: seq<string> := [
    "faculté", "université", "médecine", "medecine", "pharmacie",
    "hôpital", "hopital", "chu", "service", "département", "departement",
    "professeur", "docteur", "dr.", "chef de service"
  ]

  /** Titles of the last rule, looked for case-sensitively. */
  const FormalTitles: seq<string> := ["Madame", "Monsieur", "Mme", "M."]

  /** Substrings that disqualify a line in the last rule, looked for in its
      lower-cased form: any `a` or `à` anywhere rules the line out. */
  const SalutationWords: seq<string> := ["objet", "à", "a"]

  /** Rule 2: a "place, le day month year" dateline occurs in the line. */
  predicate IsDateline(line: string) { Matches(DatelineAt, line) }

  /** Rule 3: the lower-cased line contains an institutional keyword. */
  predicate HasAcademicKeyword(line: string)
    ensures HasAcademicKeyword(line) <==>
              exists k :: 0 <= k < |AcademicKeywords| && Contains(LowerStr(line), AcademicKeywords[k])
  {
    ContainsAnyIff(LowerStr(line), AcademicKeywords);
    ContainsAny(LowerStr(line), AcademicKeywords)
  }

  /** Rule 4: long, titled, and free of "objet", "à" and "a". */
  predicate LooksFormal(line: string)
    ensures LooksFormal(line) <==>
              |line| > 15
              && (exists k :: 0 <= k < |FormalTitles| && Contains(line, FormalTitles[k]))
              && forall k :: 0 <= k < |SalutationWords| ==> !Contains(LowerStr(line), SalutationWords[k])
  {
    ContainsAnyIff(line, FormalTitles);
    ContainsAnyIff(LowerStr(line), SalutationWords);
    |line| > 15 && ContainsAny(line, FormalTitles) && !ContainsAny(LowerStr(line), SalutationWords)
  }

  /** The line tests of the four rules: the patterns of rule 1 (a line is a
      letterhead when one of them matches), and the predicates of rules 2 to 4. */
  datatype SenderRules = SenderRules(
    letterheads: seq<Matcher>,
    dateline: string -> bool,
    keyword: string -> bool,
    formal: string -> bool)

  /** The tests `extract_expediteur` uses. */
  const Rules: SenderRules := SenderRules(AcademicPatterns, IsDateline, HasAcademicKeyword, LooksFormal)

  /** Which rule decides, and on which cleaned line. */
  datatype SenderHit =
    | Letterhead(i: nat)
    | DatelineLine(i: nat)
    | KeywordLine(i: nat)
    | FormalLine(i: nat)
    | NoSender

  /** The rules in priority order: the first 10 lines for a letterhead, then the
      first 5 for a dateline, then the first 8 for a keyword, then all lines. */
  function HitBy(lines: seq<string>, R: SenderRules): (h: SenderHit)
    ensures !h.NoSender? ==> h.i < |lines|
  {
    match FirstMatching(Take(lines, 10), R.letterheads)
    case Some(i) => Letterhead(i)
    case None =>
      match FirstLine(Take(lines, 5), R.dateline)
      case Some(i) => DatelineLine(i)
      case None =>
        match FirstLine(Take(lines, 8), R.keyword)
        case Some(i) => KeywordLine(i)
        case None =>
          match FirstLine(lines, R.formal)
          case Some(i) => FormalLine(i)
          case None => NoSender
  }

  /** The text each rule returns: the line itself, or for a dateline the part
      before its first comma, trimmed; cut to 255 characters in every case. */
  function SenderText(lines: seq<string>, h: SenderHit): string
    requires !h.NoSender? ==> h.i < |lines|
  {
    match h
    case NoSender => SenderPlaceholder
    case DatelineLine(i) =>
      var line := lines[i];
      if ',' in line then Take(Strip(Split(line, ',')[0]), 255) else Take(Strip(line), 255)
    case _ => Take(Strip(lines[h.i]), 255)
  }

  function SenderBy(lines: seq<string>, R: SenderRules): string {
    SenderText(lines, HitBy(lines, R))
  }

  /** The four loops of `extract_expediteur`, each returning on its first hit. */
  method SelectSender(lines: seq<string>, R: SenderRules) returns (r: string)
    ensures r == SenderBy(lines, R)
  {
    var letterhead := FindFirstMatching(Take(lines, 10), R.letterheads);
    if letterhead.Some? {
      return Take(Strip(lines[letterhead.value]), 255);
    }
    var dateline := FindFirstLine(Take(lines, 5), R.dateline);
    if dateline.Some? {
      var line := lines[dateline.value];
      if ',' in line {
        return Take(Strip(Split(line, ',')[0]), 255);
      }
      return Take(Strip(line), 255);
    }
    var keyword := FindFirstLine(Take(lines, 8), R.keyword);
    if keyword.Some? {
      return Take(Strip(lines[keyword.value]), 255);
    }
    var formal := FindFirstLine(lines, R.formal);
    if formal.Some? {
      return Take(Strip(lines[formal.value]), 255);
    }
    return SenderPlaceholder;
  }

  /** The sender `extract_expediteur` returns. */
  function SenderOf(text: string): string {
    SenderBy(CleanLines(text), Rules)
  }

  method ExtractExpediteur(text: string) returns (r: string)
    ensures r == SenderOf(text)
  {
    r := SelectSender(CleanLines(text), Rules);
  }

  /** Each rule fires on the first line of its window that passes its test, and
      only when no earlier rule fired anywhere in its own window; with no hit at
      all, no window holds a passing line. */
  lemma RulePriority(lines: seq<string>, R: SenderRules)
    ensures var h := HitBy(lines, R);
      (h.Letterhead? ==> h.i < 10 && AnyMatches(R.letterheads, lines[h.i])
                         && forall j :: 0 <= j < h.i ==> !AnyMatches(R.letterheads, lines[j]))
      && (!h.Letterhead? ==> forall j :: 0 <= j < |lines| && j < 10 ==> !AnyMatches(R.letterheads, lines[j]))
      && (h.DatelineLine? ==> h.i < 5 && R.dateline(lines[h.i])
                              && forall j :: 0 <= j < h.i ==> !R.dateline(lines[j]))
      && (!h.Letterhead? && !h.DatelineLine? ==>
            forall j :: 0 <= j < |lines| && j < 5 ==> !R.dateline(lines[j]))
      && (h.KeywordLine? ==> h.i < 8 && R.keyword(lines[h.i])
                             && forall j :: 0 <= j < h.i ==> !R.keyword(lines[j]))
      && ((h.FormalLine? || h.NoSender?) ==>
            forall j :: 0 <= j < |lines| && j < 8 ==> !R.keyword(lines[j]))
      && (h.FormalLine? ==> R.formal(lines[h.i])
                            && forall j :: 0 <= j < h.i ==> !R.formal(lines[j]))
      && (h.NoSender? ==> forall j :: 0 <= j < |lines| ==> !R.formal(lines[j]))
  {
    var w10, w5, w8 := Take(lines, 10), Take(lines, 5), Take(lines, 8);
    FirstMatchingSpec(w10, R.letterheads);
    FirstLineSpec(w5, R.dateline);
    FirstLineSpec(w8, R.keyword);
    FirstLineSpec(lines, R.formal);
    assert forall j :: 0 <= j < |w10| ==> w10[j] == lines[j];
    assert forall j :: 0 <= j < |w5| ==> w5[j] == lines[j];
    assert forall j :: 0 <= j < |w8| ==> w8[j] == lines[j];
  }

  /** Over lines that are already trimmed, the sender is the placeholder or at most
      255 characters long; it is then a prefix of one of the lines, or the trimmed
      text before the first comma of a line among the first five that passes the
      dateline test. */
  lemma SenderShapeBy(lines: seq<string>, R: SenderRules)
    requires forall k :: 0 <= k < |lines| ==> Strip(lines[k]) == lines[k]
    ensures var r := SenderBy(lines, R);
      r == SenderPlaceholder
      || (|r| <= 255
          && exists k :: 0 <= k < |lines|
               && (r <= lines[k]
                   || (k < 5 && R.dateline(lines[k])
                       && r == Take(Strip(Split(lines[k], ',')[0]), 255))))
  {
    var h := HitBy(lines, R);
    RulePriority(lines, R);
    if !h.NoSender? {
      assert Strip(lines[h.i]) == lines[h.i];
    }
  }

  /** The sender is the placeholder or at most 255 characters long; it is a prefix
      of a cleaned line, or the trimmed text before the first comma of a dateline
      among the first five cleaned lines. */
  lemma SenderShape(text: string)
    ensures var r := SenderOf(text);
      r == SenderPlaceholder
      || (|r| <= 255
          && exists k :: 0 <= k < |CleanLines(text)|
               && (r <= CleanLines(text)[k]
                   || (k < 5 && IsDateline(CleanLines(text)[k])
                       && r == Take(Strip(Split(CleanLines(text)[k], ',')[0]), 255))))
  {
    SenderShapeBy(CleanLines(text), Rules);
  }

  /** A dateline match needs a comma in the line, so the dateline rule always
      cuts at the first comma. */
  lemma DatelineHasComma(line: string)
    requires IsDateline(line)
    ensures ',' in line
  {
    var q := SearchFrom(DatelineAt, line, 0).value;
    assert DatelineAt(line, q).Some?;
  }

  /** A line taken by the last rule is longer than 15 characters and contains
      neither `a` nor `à` once lower-cased. */
  lemma FormalSenderHasNoA(text: string)
    ensures var lines := CleanLines(text);
      HitBy(lines, Rules).FormalLine? ==>
        var line := lines[HitBy(lines, Rules).i];
        !Contains(LowerStr(line), "a") && !Contains(LowerStr(line), "à") && |line| > 15
  {
    var lines := CleanLines(text);
    var h := HitBy(lines, Rules);
    RulePriority(lines, Rules);
    if h.FormalLine? {
      var line := lines[h.i];
      assert LooksFormal(line);
      ContainsAnyIff(LowerStr(line), SalutationWords);
      assert SalutationWords[1] == "à" && SalutationWords[2] == "a";
    }
  }
}
