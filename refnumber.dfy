/** `extract_num_ordre` (courriers/utils/ocr_utils.py:197-233): the order number,
    searched in the first five raw lines, then on keyword lines, then in the
    whole text. On a keyword line without a `DDDDD/DD` token the extractor
    evaluates `re.search(r'[\d-/]{6,10}', line)`, and Python's `re` refuses that
    pattern (a class escape cannot end a range), so the call raises `re.error`
    instead of returning: the model says so with an outcome that is either a
    returned value or a raised error. */
module NumOrdre {
  import opened OcrText
  import opened Patterns

  /** How `extract_num_ordre` ends: it returns a number or `None`, or it raises. */
  datatype Outcome = Returned(value: Option<string>) | Raised(message: string)

  /** The text of the `re.error` raised for `[\d-/]`. */
  const BadRangeError: string := "bad character range \\d-/ at position 1"

  /** Keywords looked for, as substrings, in the lower-cased line. */
  const RefKeywords: seq<string> := ["n°", "numéro", "no", "ref", "réf"]

  predicate HasRefKeyword(line: string)
    ensures HasRefKeyword(line) <==>
              exists k :: 0 <= k < |RefKeywords| && Contains(LowerStr(line), RefKeywords[k])
  {
    ContainsAnyIff(LowerStr(line), RefKeywords);
    ContainsAny(LowerStr(line), RefKeywords)
  }

  /** The matchers and the keyword test of the three steps. */
  datatype RefRules = RefRules(strict: Matcher, isolated: Matcher, keyword: string -> bool)

  /** `\b(\d{5}/\d{2})\b`, `^\s*(\d{4,6}/\d{2})\s*$` and the keyword list. */
  const Rules: RefRules := RefRules(RefTokenAt, IsolatedRefAt, HasRefKeyword)

  /** What the first step takes from one of the first five lines: the strict
      token, else the isolated one, cut to 50 characters. */
  function HeadValue(line: string, R: RefRules): Option<string> {
    match Search(R.strict, line)
    case Some(m) => Some(Take(m, 50))
    case None =>
      match Search(R.isolated, line)
      case Some(m) => Some(Take(m, 50))
      case None => None
  }

  /** What the second step does on a line: nothing without a keyword; with one,
      return the strict token or raise. */
  function KeywordOutcome(line: string, R: RefRules): Option<Outcome> {
    if !R.keyword(line) then None
    else
      match Search(R.strict, line)
      case Some(m) => Some(Returned(Some(Take(m, 50))))
      case None => Some(Raised(BadRangeError))
  }

  function HeadValues(lines: seq<string>, R: RefRules): (r: seq<Option<string>>)
    ensures |r| == |lines|
    ensures forall i :: 0 <= i < |r| ==> r[i] == HeadValue(lines[i], R)
  {
    seq(|lines|, i requires 0 <= i < |lines| => HeadValue(lines[i], R))
  }

  function KeywordOutcomes(lines: seq<string>, R: RefRules): (r: seq<Option<Outcome>>)
    ensures |r| == |lines|
    ensures forall i :: 0 <= i < |r| ==> r[i] == KeywordOutcome(lines[i], R)
  {
    seq(|lines|, i requires 0 <= i < |lines| => KeywordOutcome(lines[i], R))
  }

  function NumOrdreBy(text: string, R: RefRules): Outcome {
    var lines := Split(text, '\n');
    match FirstSome(HeadValues(Take(lines, 5), R), 0)
    case Some(v) => Returned(Some(v))
    case None =>
      match FirstSome(KeywordOutcomes(lines, R), 0)
      case Some(o) => o
      case None =>
        match Search(R.strict, text)
        case Some(m) => Returned(Some(Take(m, 50)))
        case None => Returned(None)
  }

  /** The three steps of `extract_num_ordre`. */
  method SelectNumOrdre(text: string, R: RefRules) returns (o: Outcome)
    ensures o == NumOrdreBy(text, R)
  {
    var lines := Split(text, '\n');
    var head := Take(lines, 5);
    ghost var heads := HeadValues(head, R);
    for i := 0 to |head|
      invariant FirstSome(heads, i) == FirstSome(heads, 0)
    {
      var m := Search(R.strict, head[i]);
      if m.Some? {
        return Returned(Some(Take(m.value, 50)));
      }
      m := Search(R.isolated, head[i]);
      if m.Some? {
        return Returned(Some(Take(m.value, 50)));
      }
    }
    ghost var keyed := KeywordOutcomes(lines, R);
    for i := 0 to |lines|
      invariant FirstSome(keyed, i) == FirstSome(keyed, 0)
    {
      if R.keyword(lines[i]) {
        var m := Search(R.strict, lines[i]);
        if m.Some? {
          return Returned(Some(Take(m.value, 50)));
        }
        // the "more general" pattern `[\d-/]{6,10}` does not compile
        return Raised(BadRangeError);
      }
    }
    var m := Search(R.strict, text);
    if m.Some? {
      return Returned(Some(Take(m.value, 50)));
    }
    return Returned(None);
  }

  /** How `extract_num_ordre` ends on `text`. */
  function NumOrdreOf(text: string): Outcome {
    NumOrdreBy(text, Rules)
  }

  method ExtractNumOrdre(text: string) returns (o: Outcome)
    ensures o == NumOrdreOf(text)
  {
    o := SelectNumOrdre(text, Rules);
  }

  /** None of the first five lines yields a value. */
  predicate NoHeadValue(lines: seq<string>, R: RefRules) {
    forall i :: 0 <= i < |lines| && i < 5 ==> HeadValue(lines[i], R).None?
  }

  /** No line carries a keyword. */
  predicate NoKeywordLine(lines: seq<string>, R: RefRules) {
    forall i :: 0 <= i < |lines| ==> !R.keyword(lines[i])
  }

  /** The first step finds nothing exactly when no head line yields a value. */
  lemma HeadStepEmpty(lines: seq<string>, R: RefRules)
    ensures FirstSome(HeadValues(Take(lines, 5), R), 0).None? <==> NoHeadValue(lines, R)
  {
    var head := Take(lines, 5);
    FirstSomeIsFirst(HeadValues(head, R), 0);
    assert forall i :: 0 <= i < |head| ==> head[i] == lines[i];
  }

  /** The second step finds nothing exactly when no line carries a keyword. */
  lemma KeywordStepEmpty(lines: seq<string>, R: RefRules)
    ensures FirstSome(KeywordOutcomes(lines, R), 0).None? <==> NoKeywordLine(lines, R)
  {
    var keyed := KeywordOutcomes(lines, R);
    FirstSomeIsFirst(keyed, 0);
    assert forall i :: 0 <= i < |lines| ==> (keyed[i].None? <==> !R.keyword(lines[i]));
  }

  /** `extract_num_ordre` returns `None` exactly when no step finds anything:
      no value on the first five lines, no keyword line, and no strict token in
      the whole text. */
  lemma NoneOnlyWhenNothingFound(text: string, R: RefRules)
    ensures var lines := Split(text, '\n');
      NumOrdreBy(text, R) == Returned(None) <==>
        NoHeadValue(lines, R) && NoKeywordLine(lines, R) && Search(R.strict, text).None?
  {
    var lines := Split(text, '\n');
    var headStep := FirstSome(HeadValues(Take(lines, 5), R), 0);
    var keyed := KeywordOutcomes(lines, R);
    HeadStepEmpty(lines, R);
    KeywordStepEmpty(lines, R);
    if headStep.Some? {
      assert NumOrdreBy(text, R) == Returned(Some(headStep.value));
    } else if FirstSome(keyed, 0).Some? {
      FirstSomeIsFirst(keyed, 0);
      var i :| 0 <= i < |keyed| && keyed[i] == FirstSome(keyed, 0);
      assert keyed[i] != Some(Returned(None));
      assert NumOrdreBy(text, R) == keyed[i].value;
    }
  }

  /** The extractor raises only on the first keyword line, when that line has no
      strict token and none of the first five lines yields a value; the message
      is the one `re` gives for `[\d-/]`. */
  lemma RaisesOnFirstKeywordLine(text: string, R: RefRules)
    ensures var lines, o := Split(text, '\n'), NumOrdreBy(text, R);
      o.Raised? ==>
        o.message == BadRangeError && NoHeadValue(lines, R)
        && exists i :: 0 <= i < |lines| && R.keyword(lines[i]) && Search(R.strict, lines[i]).None?
             && forall j :: 0 <= j < i ==> !R.keyword(lines[j])
  {
    var lines := Split(text, '\n');
    var keyed := KeywordOutcomes(lines, R);
    if NumOrdreBy(text, R).Raised? {
      HeadStepEmpty(lines, R);
      FirstSomeIsFirst(keyed, 0);
      var i :| 0 <= i < |keyed| && keyed[i] == FirstSome(keyed, 0) && forall j :: 0 <= j < i ==> keyed[j].None?;
      assert forall j :: 0 <= j < i ==> !R.keyword(lines[j]);
      assert R.keyword(lines[i]) && Search(R.strict, lines[i]).None?;
    }
  }

  /** Line `i` is the first line that carries a keyword. */
  predicate FirstKeywordLine(lines: seq<string>, R: RefRules, i: nat) {
    i < |lines| && R.keyword(lines[i]) && forall j :: 0 <= j < i ==> !R.keyword(lines[j])
  }

  /** The keyword step is reached when the first five lines yield nothing, and
      then its first keyword line decides: without a strict token the extractor
      raises the bad-range error. */
  lemma RaisesWhenFirstKeywordLineMisses(text: string, R: RefRules, i: nat)
    requires NoHeadValue(Split(text, '\n'), R) && FirstKeywordLine(Split(text, '\n'), R, i)
    requires Search(R.strict, Split(text, '\n')[i]).None?
    ensures NumOrdreBy(text, R) == Raised(BadRangeError)
  {
    var lines := Split(text, '\n');
    HeadStepEmpty(lines, R);
    FirstSomeSkips(KeywordOutcomes(lines, R), 0, i);
  }

  /** With a strict token, the first keyword line returns that token cut to 50
      characters, whatever the later lines and the rest of the text hold. */
  lemma ReturnsFirstKeywordToken(text: string, R: RefRules, i: nat)
    requires NoHeadValue(Split(text, '\n'), R) && FirstKeywordLine(Split(text, '\n'), R, i)
    requires Search(R.strict, Split(text, '\n')[i]).Some?
    ensures NumOrdreBy(text, R) == Returned(Some(Take(Search(R.strict, Split(text, '\n')[i]).value, 50)))
  {
    var lines := Split(text, '\n');
    HeadStepEmpty(lines, R);
    FirstSomeSkips(KeywordOutcomes(lines, R), 0, i);
  }

  /** A one-line text "no" reaches the keyword step ("no" is a keyword) without a
      strict token, so the extractor raises. */
  lemma KeywordWithoutTokenRaises()
    ensures NumOrdreOf("no") == Raised(BadRangeError)
  {
    var lines := Split("no", '\n');
    assert lines == ["no"];
    assert HasRefKeyword("no") by {
      assert LowerStr("no") == "no";
      assert Contains("no", RefKeywords[2]);
    }
    assert !RefTokenStartsAt("no", 0) && !RefTokenStartsAt("no", 1) && !RefTokenStartsAt("no", 2);
    assert Search(RefTokenAt, "no").None?;
    assert IsolatedRefAt("no", 0).None? by {
      assert RunEnd("no", 0, IsSpace) == 0;
      assert RunEnd("no", 0, IsDigit) == 0;
    }
    assert Search(IsolatedRefAt, "no").None?;
    RaisesWhenFirstKeywordLineMisses("no", Rules, 0);
  }

  /** Every returned number is what a matcher captured, cut to 50 characters: the
      strict or the isolated one on one of the first five lines, the strict one
      on a keyword line or on the whole text. So when both matchers only ever
      capture values satisfying `Q`, every returned number is such a value cut
      to 50 characters. */
  lemma NumOrdreCaptured(text: string, R: RefRules, Q: string -> bool)
    requires forall s :: Search(R.strict, s).Some? ==> Q(Search(R.strict, s).value)
    requires forall s :: Search(R.isolated, s).Some? ==> Q(Search(R.isolated, s).value)
    ensures var o := NumOrdreBy(text, R);
      o.Returned? && o.value.Some? ==> exists m :: Q(m) && o.value.value == Take(m, 50)
  {
    var lines := Split(text, '\n');
    var heads, keyed := HeadValues(Take(lines, 5), R), KeywordOutcomes(lines, R);
    FirstSomeIsFirst(heads, 0);
    FirstSomeIsFirst(keyed, 0);
    var o := NumOrdreBy(text, R);
    if FirstSome(heads, 0).Some? {
      var i :| 0 <= i < |heads| && heads[i] == FirstSome(heads, 0) && forall j :: 0 <= j < i ==> heads[j].None?;
      var line := Take(lines, 5)[i];
      if Search(R.strict, line).Some? {
        assert Q(Search(R.strict, line).value);
      } else {
        assert Q(Search(R.isolated, line).value);
      }
    } else if FirstSome(keyed, 0).Some? {
      var i :| 0 <= i < |keyed| && keyed[i] == FirstSome(keyed, 0) && forall j :: 0 <= j < i ==> keyed[j].None?;
      if Search(R.strict, lines[i]).Some? {
        assert Q(Search(R.strict, lines[i]).value);
      }
    } else if Search(R.strict, text).Some? {
      assert Q(Search(R.strict, text).value);
    }
  }

  /** A `DDDDD/DD` or `D{4,6}/DD` token. */
  predicate IsRefNumber(t: string) { IsRefToken(t) || IsIsolatedRefToken(t) }

  /** A number `extract_num_ordre` returns is a `DDDDD/DD` or `D{4,6}/DD` token
      of at most 9 characters, so the cut to 50 characters never shortens it. */
  lemma NumOrdreShape(text: string)
    ensures var o := NumOrdreOf(text);
      o.Returned? && o.value.Some? ==> IsRefNumber(o.value.value) && |o.value.value| <= 9
  {
    forall s | Search(RefTokenAt, s).Some?
      ensures IsRefNumber(Search(RefTokenAt, s).value)
    {
      RefTokenShape(s);
    }
    forall s | Search(IsolatedRefAt, s).Some?
      ensures IsRefNumber(Search(IsolatedRefAt, s).value)
    {
      IsolatedRefShape(s);
    }
    NumOrdreCaptured(text, Rules, IsRefNumber);
  }
}
