/** `extract_date` (courriers/utils/ocr_utils.py:33-72): five date grammars tried
    in a fixed order over the raw OCR text; the first match of the first grammar
    that matches is normalised (French month name to English) and handed to a
    date parser; a parse failure moves on to the next grammar. The parser
    (`dateutil.parser.parse(..., dayfirst=True, fuzzy=True)`) is a parameter:
    `parse(t)` is `Some(d)` when it returns a datetime whose `.date()` is `d` and
    `None` when it raises ValueError or TypeError. */
module DateField {
  import opened OcrText
  import opened Patterns

  datatype Date = Date(year: int, month: int, day: int)

  type DateParser = string -> Option<Date>

  /** The grammars, in the order `extract_date` tries them. */
  const DatePatterns: seq<Matcher> :=
    [LeDayMonthYearAt, DayMonthYearAt, SlashDateAt, DashDateAt, IsoDateAt]

  /** The French-to-English month table, in its insertion order. */
  const MonthTable: seq<(string, string)> := [
    ("janvier", "January"), ("février", "February"), ("fevrier", "February"),
    ("mars", "March"), ("avril", "April"), ("mai", "May"), ("juin", "June"),
    ("juillet", "July"), ("août", "August"), ("aout", "August"),
    ("septembre", "September"), ("octobre", "October"),
    ("novembre", "November"), ("décembre", "December"), ("decembre", "December")
  ]

  /** The French name of entry `j` occurs in the lower-cased text `low`. */
  predicate HasMonth(low: string, j: nat)
    requires j < |MonthTable|
  {
    Contains(low, MonthTable[j].0)
  }

  /** The first table entry at or after `j` whose French name occurs in `low`. */
  function FirstMonthKey(low: string, j: nat): (r: Option<nat>)
    ensures r.Some? ==> j <= r.value < |MonthTable| && HasMonth(low, r.value)
    ensures r.Some? ==> forall i :: j <= i < r.value ==> !HasMonth(low, i)
    ensures r.None? ==> forall i :: j <= i < |MonthTable| ==> !HasMonth(low, i)
    decreases |MonthTable| - j
  {
    if j >= |MonthTable| then None
    else if HasMonth(low, j) then Some(j)
    else FirstMonthKey(low, j + 1)
  }

  /** The first-key search is determined by where the first key is. */
  lemma {:induction false} FirstMonthKeyAt(low: string, i: nat, j: nat)
    requires i <= j <= |MonthTable|
    requires forall k :: i <= k < j ==> !HasMonth(low, k)
    ensures FirstMonthKey(low, i) == FirstMonthKey(low, j)
    decreases j - i
  {
    if i < j {
      FirstMonthKeyAt(low, i + 1, j);
    }
  }

  /** The search from the start of the table finds exactly the first entry
      that occurs, and nothing when none occurs. */
  lemma FirstMonthKeyFromStart(low: string)
    ensures forall j :: 0 <= j < |MonthTable| && HasMonth(low, j)
              && (forall i :: 0 <= i < j ==> !HasMonth(low, i))
              ==> FirstMonthKey(low, 0) == Some(j)
    ensures (forall j :: 0 <= j < |MonthTable| ==> !HasMonth(low, j)) ==> FirstMonthKey(low, 0) == None
  {
    var r := FirstMonthKey(low, 0);
    assert r.Some? ==> 0 <= r.value < |MonthTable| && HasMonth(low, r.value)
                       && forall i :: 0 <= i < r.value ==> !HasMonth(low, i);
  }

  /** The month substitution of `extract_date`: only the first key (in table
      order) found in the lower-cased text is replaced, everywhere in the
      lower-cased text; with no key the text is left as it was, case included. */
  function TranslateMonth(s: string): (r: string)
    ensures (forall j :: 0 <= j < |MonthTable| ==> !HasMonth(LowerStr(s), j)) ==> r == s
    ensures forall j :: 0 <= j < |MonthTable| && HasMonth(LowerStr(s), j)
              && (forall i :: 0 <= i < j ==> !HasMonth(LowerStr(s), i))
              ==> r == ReplaceAll(LowerStr(s), MonthTable[j].0, MonthTable[j].1)
  {
    FirstMonthKeyFromStart(LowerStr(s));
    match FirstMonthKey(LowerStr(s), 0)
    case None => s
    case Some(j) => ReplaceAll(LowerStr(s), MonthTable[j].0, MonthTable[j].1)
  }

  /** What trying grammar `k` yields: nothing when it does not match, otherwise
      the parse of its first match after the month substitution. */
  function Attempt(text: string, parse: DateParser, k: nat): Option<Date>
    requires k < |DatePatterns|
  {
    match Search(DatePatterns[k], text)
    case None => None
    case Some(m) => parse(TranslateMonth(m))
  }

  /** The outcomes of all grammars, in order. */
  function Attempts(text: string, parse: DateParser): (r: seq<Option<Date>>)
    ensures |r| == |DatePatterns|
    ensures forall k :: 0 <= k < |r| ==> r[k] == Attempt(text, parse, k)
  {
    seq(|DatePatterns|, k requires 0 <= k < |DatePatterns| => Attempt(text, parse, k))
  }

  /** The date `extract_date` returns. */
  function DateOf(text: string, parse: DateParser): Option<Date> {
    FirstSome(Attempts(text, parse), 0)
  }

  /** The month-name loop of `extract_date`. */
  method ReplaceMonthName(m: string) returns (dateStr: string)
    ensures dateStr == TranslateMonth(m)
  {
    dateStr := m;
    var j := 0;
    while j < |MonthTable|
      invariant 0 <= j <= |MonthTable|
      invariant dateStr == m
      invariant forall i :: 0 <= i < j ==> !HasMonth(LowerStr(dateStr), i)
    {
      if HasMonth(LowerStr(dateStr), j) {
        FirstMonthKeyAt(LowerStr(dateStr), 0, j);
        dateStr := ReplaceAll(LowerStr(dateStr), MonthTable[j].0, MonthTable[j].1);
        break;
      }
      j := j + 1;
    }
    if j == |MonthTable| {
      FirstMonthKeyAt(LowerStr(dateStr), 0, j);
    }
  }

  method ExtractDate(text: string, parse: DateParser) returns (r: Option<Date>)
    ensures r == DateOf(text, parse)
  {
    ghost var outcomes := Attempts(text, parse);
    for k := 0 to |DatePatterns|
      invariant FirstSome(outcomes, k) == DateOf(text, parse)
    {
      var matches := Search(DatePatterns[k], text);
      if matches.Some? {
        var dateStr := ReplaceMonthName(matches.value);
        var parsed := parse(dateStr);
        if parsed.Some? {
          return parsed;
        }
      }
    }
    return None;
  }

  /** `extract_date` returns a date exactly when some grammar matches and its first
      match, after the month substitution, parses; the date is that of the first
      such grammar. */
  lemma DateIsFirstSuccess(text: string, parse: DateParser)
    ensures DateOf(text, parse).Some? ==>
              exists k :: 0 <= k < |DatePatterns| && Search(DatePatterns[k], text).Some?
                && parse(TranslateMonth(Search(DatePatterns[k], text).value)) == DateOf(text, parse)
                && forall j :: 0 <= j < k ==> Attempt(text, parse, j).None?
    ensures DateOf(text, parse).None? <==>
              forall k :: 0 <= k < |DatePatterns| ==> Attempt(text, parse, k).None?
  {
    FirstSomeIsFirst(Attempts(text, parse), 0);
  }

  /** Text in which no grammar matches has no date, whatever the parser does. */
  lemma NoDateWithoutMatch(text: string, parse: DateParser)
    requires forall k :: 0 <= k < |DatePatterns| ==> !Matches(DatePatterns[k], text)
    ensures DateOf(text, parse) == None
  {
    FirstSomeIsFirst(Attempts(text, parse), 0);
  }

  /** The first grammar that matches and parses decides the date, whatever later
      grammars would have matched. */
  lemma FirstParsedGrammarWins(text: string, parse: DateParser, k: nat, d: Date)
    requires k < |DatePatterns|
    requires forall j :: 0 <= j < k ==> Attempt(text, parse, j).None?
    requires Search(DatePatterns[k], text).Some?
    requires parse(TranslateMonth(Search(DatePatterns[k], text).value)) == Some(d)
    ensures DateOf(text, parse) == Some(d)
  {
    FirstSomeSkips(Attempts(text, parse), 0, k);
  }
}
