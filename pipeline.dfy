/** `process_courrier_ocr` (courriers/utils/ocr_utils.py:235-267): runs the five
    extractors over the OCR text and assembles the result dictionary, or one of
    two error dictionaries. The OCR text (what `extract_text_from_image` returns,
    an "Error ..." message on failure) and the date parser are inputs. */
module CourrierOcr {
  import opened OcrText
  import opened DateField
  import opened Expediteur
  import opened Destination
  import opened Objet
  import opened NumOrdre
  import opened Patterns

  /** A value of the result dictionary: `None`, a string or a date. */
  datatype Value = Null | Str(s: string) | DateValue(date: Date)

  type Record = map<string, Value>

  const ErrorPrefix: string := "Erreur lors du traitement OCR: "

  const SuccessKeys: set<string> :=
    {"date", "expediteur", "destination", "objet", "num_ordre", "raw_text", "language"}

  const FailureKeys: set<string> :=
    {"error", "date", "expediteur", "destination", "objet", "num_ordre", "raw_text", "language"}

  /** `text[:1000] + '...' if len(text) > 1000 else text`. */
  function RawText(text: string): (r: string)
    ensures |r| <= 1003
    ensures |text| <= 1000 ==> r == text
    ensures |text| > 1000 ==> |r| == 1003 && r[..1000] == text[..1000] && r[1000..] == "..."
  {
    if |text| > 1000 then text[..1000] + "..." else text
  }

  /** The dictionary of the `except` branch, for an exception whose text is `msg`. */
  function ErrorRecord(msg: string, lang: string): Record {
    map["error" := Str(ErrorPrefix + msg), "date" := Null, "expediteur" := Str(""),
        "destination" := Str(""), "objet" := Str(""), "num_ordre" := Str(""),
        "raw_text" := Str(""), "language" := Str(lang)]
  }

  /** `None` or the string. */
  function OptStr(v: Option<string>): Value {
    match v
    case None => Null
    case Some(s) => Str(s)
  }

  /** `None` or the date. */
  function OptDate(v: Option<Date>): Value {
    match v
    case None => Null
    case Some(d) => DateValue(d)
  }

  /** The dictionary `process_courrier_ocr` builds from the OCR text and what the
      five extractors give for it: the two-key record when the text carries the
      failure prefix, the error record when the order-number extractor raised,
      and the seven-key record otherwise. */
  function Assemble(text: string, lang: string, date: Option<Date>, sender: string,
                    recipient: string, subject: string, num: Outcome): Record {
    if StartsWith(text, "Error") then map["error" := Str(text), "raw_text" := Str("")]
    else
      match num
      case Raised(msg) => ErrorRecord(msg, lang)
      case Returned(v) =>
        map["date" := OptDate(date), "expediteur" := Str(sender),
            "destination" := Str(recipient), "objet" := Str(subject),
            "num_ordre" := OptStr(v), "raw_text" := Str(RawText(text)),
            "language" := Str(lang)]
  }

  /** The dictionary `process_courrier_ocr` returns for the OCR text `text`. */
  function CourrierRecord(text: string, lang: string, parse: DateParser): Record {
    Assemble(text, lang, DateOf(text, parse), SenderOf(text), RecipientOf(text),
             SubjectOf(text), NumOrdreOf(text))
  }

  method ProcessCourrierOcr(text: string, lang: string, parse: DateParser) returns (r: Record)
    ensures r == CourrierRecord(text, lang, parse)
  {
    if StartsWith(text, "Error") {
      return map["error" := Str(text), "raw_text" := Str("")];
    }
    var date := ExtractDate(text, parse);
    var sender := ExtractExpediteur(text);
    var recipient := ExtractDestination(text);
    var subject := ExtractObjet(text);
    var num := ExtractNumOrdre(text);
    r := BuildRecord(text, lang, date, sender, recipient, subject, num);
  }

  /** The `try` body after the extractors have run: the error record when one of
      them raised, the result dictionary otherwise. */
  method BuildRecord(text: string, lang: string, date: Option<Date>, sender: string,
                     recipient: string, subject: string, num: Outcome) returns (r: Record)
    requires !StartsWith(text, "Error")
    ensures r == Assemble(text, lang, date, sender, recipient, subject, num)
  {
    if num.Raised? {
      return ErrorRecord(num.message, lang);
    }
    r := map["date" := OptDate(date), "expediteur" := Str(sender),
             "destination" := Str(recipient), "objet" := Str(subject),
             "num_ordre" := OptStr(num.value), "raw_text" := Str(RawText(text)),
             "language" := Str(lang)];
  }

  /** OCR text carrying the failure prefix gives exactly the error text and an
      empty raw text, whatever the extractors would give. */
  lemma OcrFailureRecord(text: string, lang: string, date: Option<Date>, sender: string,
                         recipient: string, subject: string, num: Outcome)
    requires StartsWith(text, "Error")
    ensures var r := Assemble(text, lang, date, sender, recipient, subject, num);
      r.Keys == {"error", "raw_text"} && r["error"] == Str(text) && r["raw_text"] == Str("")
  {
  }

  /** When an extractor raises, the record carries the exception's text after the
      fixed prefix, no date, empty strings for the five text fields, and the
      language; a record has an error key only on the two failure paths. */
  lemma ExtractorFailureRecord(text: string, lang: string, date: Option<Date>, sender: string,
                               recipient: string, subject: string, num: Outcome)
    requires !StartsWith(text, "Error")
    ensures var r := Assemble(text, lang, date, sender, recipient, subject, num);
      ("error" in r <==> num.Raised?)
      && (num.Raised? ==>
            r.Keys == FailureKeys
            && r["error"] == Str(ErrorPrefix + num.message) && r["date"] == Null
            && r["expediteur"] == Str("") && r["destination"] == Str("")
            && r["objet"] == Str("") && r["num_ordre"] == Str("")
            && r["raw_text"] == Str("") && r["language"] == Str(lang))
  {
  }

  /** On success the record has exactly the seven field keys and no error key;
      each field is what its extractor gives, the raw text is the text or its
      first 1000 characters followed by "...", and the language is echoed. */
  lemma SuccessRecord(text: string, lang: string, date: Option<Date>, sender: string,
                      recipient: string, subject: string, num: Outcome)
    requires !StartsWith(text, "Error") && num.Returned?
    ensures var r := Assemble(text, lang, date, sender, recipient, subject, num);
      r.Keys == SuccessKeys && "error" !in r
      && r["date"] == OptDate(date) && r["expediteur"] == Str(sender)
      && r["destination"] == Str(recipient) && r["objet"] == Str(subject)
      && r["num_ordre"] == OptStr(num.value) && r["language"] == Str(lang)
      && (|text| <= 1000 ==> r["raw_text"] == Str(text))
      && (|text| > 1000 ==> r["raw_text"] == Str(text[..1000] + "..."))
  {
  }

  /** The only exception the extractors raise is the `re.error` of the order
      number's keyword step, so the full error record always reports it. */
  lemma FailureMessage(text: string, lang: string, parse: DateParser)
    requires !StartsWith(text, "Error") && NumOrdreOf(text).Raised?
    ensures CourrierRecord(text, lang, parse)["error"] == Str(ErrorPrefix + BadRangeError)
  {
    RaisesOnFirstKeywordLine(text, NumOrdre.Rules);
    ExtractorFailureRecord(text, lang, DateOf(text, parse), SenderOf(text), RecipientOf(text),
                           SubjectOf(text), NumOrdreOf(text));
  }

  /** When the first five lines yield no number and the first keyword line has no
      `DDDDD/DD` token, the whole processing returns the error record of the
      bad-range `re.error`. */
  lemma FirstKeywordLineMissFails(text: string, lang: string, parse: DateParser, i: nat)
    requires !StartsWith(text, "Error")
    requires NoHeadValue(Split(text, '\n'), NumOrdre.Rules)
    requires FirstKeywordLine(Split(text, '\n'), NumOrdre.Rules, i)
    requires Search(RefTokenAt, Split(text, '\n')[i]).None?
    ensures CourrierRecord(text, lang, parse) == ErrorRecord(BadRangeError, lang)
  {
    RaisesWhenFirstKeywordLineMisses(text, NumOrdre.Rules, i);
    RaisedNumberFails(text, lang, parse);
  }

  /** The OCR text "no" makes the processing fail with the bad-range error, in
      every language and under every date parser. */
  lemma KeywordOnlyTextFails(lang: string, parse: DateParser)
    ensures CourrierRecord("no", lang, parse) == ErrorRecord(BadRangeError, lang)
  {
    KeywordWithoutTokenRaises();
    RaisedNumberFails("no", lang, parse);
  }

  /** Whenever the order-number extractor raises on text without the failure
      prefix, the processing returns the error record of that exception. */
  lemma RaisedNumberFails(text: string, lang: string, parse: DateParser)
    requires NumOrdreOf(text).Raised?
    ensures !StartsWith(text, "Error") ==>
              CourrierRecord(text, lang, parse) == ErrorRecord(NumOrdreOf(text).message, lang)
  {
  }
}
