/** The regular expressions of courriers/utils/ocr_utils.py, as hand-written
    matchers with Python `re` semantics: each `...At` function gives what its
    pattern captures when a match starts at a given position (its first group,
    if any), `Search` is `re.search` / `re.findall(...)[0]` (the leftmost match), and
    `Matches` is the truth value of `re.search` / `re.match`.

    Every pattern below is a sequence of runs of pairwise disjoint character
    classes, so Python's backtracking always settles on the longest run; the
    matchers take that run and check its length. */
module Patterns {
  import opened OcrText

  /** What follows an alternation of titles. */
  datatype Tail =
    | NothingMore   // the alternation ends the pattern
    | Spaces        // `\s+`
    | NameThenName  // `\s+[A-Z][a-z]+\s+[A-Z]`

  /** `[A-Za-zéûàèùâêîôûäëïöüç]`. */
  predicate IsMonthLetter(c: char) {
    IsAsciiLetter(c) || c == 'é' || c == 'û' || c == 'à' || c == 'è' || c == 'ù'
    || c == 'â' || c == 'ê' || c == 'î' || c == 'ô' || c == 'ä' || c == 'ë' || c == 'ï'
    || c == 'ö' || c == 'ü' || c == 'ç'
  }

  /** The same class under IGNORECASE: capital accented letters match too. */
  predicate IsMonthLetterCi(c: char) { IsMonthLetter(c) || IsMonthLetter(Lower(c)) }

  /** `[A-Za-zâêîôûäëïöüç]`, case-sensitive. */
  predicate IsPlaceLetter(c: char) {
    IsAsciiLetter(c) || c == 'â' || c == 'ê' || c == 'î' || c == 'ô' || c == 'û'
    || c == 'ä' || c == 'ë' || c == 'ï' || c == 'ö' || c == 'ü' || c == 'ç'
  }

  /** `[AÀ]` under IGNORECASE. */
  predicate IsArticleA(c: char) { Lower(c) == 'a' || Lower(c) == 'à' }

  /** The literal `w` occurs at `p`, ignoring case. */
  predicate CiAt(s: string, p: nat, w: string) {
    p + |w| <= |s| && LowerStr(s[p..p + |w|]) == LowerStr(w)
  }

  /** `\d{1,2}\s+[month letters]+\s+\d{4}` from `q`: the end of the match. */
  function DayMonthYearEnd(s: string, q: nat): (r: Option<nat>)
    requires q <= |s|
    ensures r.Some? ==> q + 8 <= r.value <= |s|
  {
    var d := RunEnd(s, q, IsDigit);
    if !(1 <= d - q <= 2) then None else
    var w := RunEnd(s, d, IsSpace);
    if w == d then None else
    var m := RunEnd(s, w, IsMonthLetterCi);
    if m == w then None else
    var w2 := RunEnd(s, m, IsSpace);
    if w2 == m then None else
    var y := RunEnd(s, w2, IsDigit);
    if y - w2 < 4 then None else Some(w2 + 4)
  }

  /** `\d{1,2}<sep>\d{1,2}<sep>\d{4}` from `q`. */
  function NumericDateEnd(s: string, q: nat, sep: char): (r: Option<nat>)
    requires q <= |s|
    ensures r.Some? ==> q + 8 <= r.value <= q + 10 && r.value <= |s| && s[r.value - 5] == sep
  {
    var d1 := RunEnd(s, q, IsDigit);
    if !(1 <= d1 - q <= 2 && d1 < |s| && s[d1] == sep) then None else
    var d2 := RunEnd(s, d1 + 1, IsDigit);
    if !(1 <= d2 - (d1 + 1) <= 2 && d2 < |s| && s[d2] == sep) then None else
    var d3 := RunEnd(s, d2 + 1, IsDigit);
    if d3 - (d2 + 1) < 4 then None else Some(d2 + 5)
  }

  /** `\d{4}-\d{1,2}-\d{1,2}` from `q`; the last `\d{1,2}` is greedy. */
  function IsoDateEnd(s: string, q: nat): (r: Option<nat>)
    requires q <= |s|
    ensures r.Some? ==> q + 8 <= r.value <= q + 10 && r.value <= |s| && s[q + 4] == '-'
  {
    var d1 := RunEnd(s, q, IsDigit);
    if !(d1 - q == 4 && d1 < |s| && s[d1] == '-') then None else
    var d2 := RunEnd(s, d1 + 1, IsDigit);
    if !(1 <= d2 - (d1 + 1) <= 2 && d2 < |s| && s[d2] == '-') then None else
    var d3 := RunEnd(s, d2 + 1, IsDigit);
    if d3 == d2 + 1 then None else Some(if d3 - (d2 + 1) >= 2 then d2 + 3 else d2 + 2)
  }

  /** `w1\s+w2 ... wn` from `p`, ignoring case: the end of the last word. */
  function WordsEnd(s: string, p: nat, words: seq<string>): (r: Option<nat>)
    requires p <= |s|
    ensures r.Some? ==> p <= r.value <= |s|
    ensures r.Some? && words != [] ==> CiAt(s, p, words[0]) && p + |words[0]| <= r.value
    decreases |words|
  {
    if words == [] then Some(p)
    else if !CiAt(s, p, words[0]) then None
    else if |words| == 1 then Some(p + |words[0]|)
    else
      var w := RunEnd(s, p + |words[0]|, IsSpace);
      if w == p + |words[0]| then None else WordsEnd(s, w, words[1..])
  }

  /** What `tail` matches from `q`: the end of the match. */
  function TailEnd(s: string, q: nat, tail: Tail): (r: Option<nat>)
    requires q <= |s|
    ensures r.Some? ==> q <= r.value <= |s|
  {
    match tail
    case NothingMore => Some(q)
    case Spaces =>
      var w := RunEnd(s, q, IsSpace);
      if w == q then None else Some(w)
    case NameThenName =>
      var w := RunEnd(s, q, IsSpace);
      if w == q then None else
      var l := RunEnd(s, w, IsAsciiLetter);
      if l - w < 2 then None else
      var v := RunEnd(s, l, IsSpace);
      if v == l || v == |s| || !IsAsciiLetter(s[v]) then None else Some(v + 1)
  }

  /** `(t1|t2|...)` followed by `tail`, from `p`, ignoring case: alternatives are
      tried in order and the first one after which `tail` matches wins. */
  function AltEnd(s: string, p: nat, alts: seq<string>, tail: Tail): (r: Option<nat>)
    requires p <= |s|
    ensures r.Some? ==> p <= r.value <= |s|
    ensures r.Some? ==> exists k :: 0 <= k < |alts| && CiAt(s, p, alts[k]) && p + |alts[k]| <= r.value
    decreases |alts|
  {
    if alts == [] then None
    else if CiAt(s, p, alts[0]) && TailEnd(s, p + |alts[0]|, tail).Some? then
      TailEnd(s, p + |alts[0]|, tail)
    else AltEnd(s, p, alts[1..], tail)
  }

  const SenderTitles: seq<string> := ["Madame", "Monsieur", "Mme", "M."]
  const AddressTitles: seq<string> := ["Monsieur", "Madame", "M.", "Mme", "Mlle"]
  const ProfessionalTitles: seq<string> :=
    ["Monsieur", "Madame", "M.", "Mme", "Mlle", "Docteur", "Dr", "Professeur", "Pr"]
  const LooseTitles: seq<string> := ["Monsieur", "Madame", "M.", "Mme"]

  /** A matcher gives the text that a pattern captures (its first group, or the
      whole match when it has none) when the match starts at a given position. */
  type Matcher = (string, nat) -> Option<string>

  /** `le\s+(\d{1,2}\s+[A-Za-zéûàèùâêîôûäëïöüç]+\s+\d{4})`, IGNORECASE: the
      group starts after the whitespace. */
  function LeDayMonthYearAt(s: string, p: nat): (r: Option<string>)
    ensures r.Some? ==> CiAt(s, p, "le") && 8 <= |r.value|
                        && exists w :: p + 2 < w <= |s| && DayMonthYearAt(s, w) == r
  {
    if p > |s| || !CiAt(s, p, "le") then None else
    var w := RunEnd(s, p + 2, IsSpace);
    if w == p + 2 then None else
    match DayMonthYearEnd(s, w)
    case None => None
    case Some(e) =>
      assert DayMonthYearAt(s, w) == Some(s[w..e]);
      Some(s[w..e])
  }

  /** `(\d{1,2}\s+[A-Za-zéûàèùâêîôûäëïöüç]+\s+\d{4})`, IGNORECASE. */
  function DayMonthYearAt(s: string, p: nat): (r: Option<string>)
    ensures r.Some? ==> p <= |s| && 8 <= |r.value| && r.value <= s[p..]
  {
    if p > |s| then None else
    match DayMonthYearEnd(s, p)
    case None => None
    case Some(e) => Some(s[p..e])
  }

  /** `(\d{1,2}/\d{1,2}/\d{4})`. */
  function SlashDateAt(s: string, p: nat): (r: Option<string>)
    ensures r.Some? ==> p <= |s| && 8 <= |r.value| <= 10 && r.value <= s[p..]
                        && r.value[|r.value| - 5] == '/'
  {
    if p > |s| then None else
    match NumericDateEnd(s, p, '/')
    case None => None
    case Some(e) => Some(s[p..e])
  }

  /** `(\d{1,2}-\d{1,2}-\d{4})`. */
  function DashDateAt(s: string, p: nat): (r: Option<string>)
    ensures r.Some? ==> p <= |s| && 8 <= |r.value| <= 10 && r.value <= s[p..]
                        && r.value[|r.value| - 5] == '-'
  {
    if p > |s| then None else
    match NumericDateEnd(s, p, '-')
    case None => None
    case Some(e) => Some(s[p..e])
  }

  /** `(\d{4}-\d{1,2}-\d{1,2})`. */
  function IsoDateAt(s: string, p: nat): (r: Option<string>)
    ensures r.Some? ==> p <= |s| && 8 <= |r.value| <= 10 && r.value <= s[p..] && r.value[4] == '-'
  {
    if p > |s| then None else
    match IsoDateEnd(s, p)
    case None => None
    case Some(e) => Some(s[p..e])
  }

  /** `w1\s+w2 ... \s+[A-Z]`, IGNORECASE, with `^` in front when `anchored`. */
  function WordsThenLetterAt(s: string, p: nat, words: seq<string>, anchored: bool): (r: Option<string>)
    ensures r.Some? ==> p <= |s| && (anchored ==> p == 0) && r.value <= s[p..]
                        && |r.value| > 0 && IsAsciiLetter(r.value[|r.value| - 1])
                        && (words != [] ==> CiAt(s, p, words[0]))
  {
    if p > |s| || (anchored && p != 0) then None else
    match WordsEnd(s, p, words)
    case None => None
    case Some(e) =>
      var w := RunEnd(s, e, IsSpace);
      if w == e || w == |s| || !IsAsciiLetter(s[w]) then None else Some(s[p..w + 1])
  }

  /** `Faculté\s+de\s+[A-Z]`. */
  function FaculteDeAt(s: string, p: nat): (r: Option<string>)
    ensures r.Some? ==> CiAt(s, p, "Faculté") && r.value <= s[p..]
  {
    WordsThenLetterAt(s, p, ["Faculté", "de"], false)
  }

  /** `Université\s+[A-Z]`. */
  function UniversiteAt(s: string, p: nat): (r: Option<string>)
    ensures r.Some? ==> CiAt(s, p, "Université") && r.value <= s[p..]
  {
    WordsThenLetterAt(s, p, ["Université"], false)
  }

  /** `Département\s+de\s+[A-Z]`. */
  function DepartementDeAt(s: string, p: nat): (r: Option<string>)
    ensures r.Some? ==> CiAt(s, p, "Département") && r.value <= s[p..]
  {
    WordsThenLetterAt(s, p, ["Département", "de"], false)
  }

  /** `Service\s+de\s+[A-Z]`. */
  function ServiceDeAt(s: string, p: nat): (r: Option<string>)
    ensures r.Some? ==> CiAt(s, p, "Service") && r.value <= s[p..]
  {
    WordsThenLetterAt(s, p, ["Service", "de"], false)
  }

  /** `CHU\s+[A-Z]`. */
  function ChuAt(s: string, p: nat): (r: Option<string>)
    ensures r.Some? ==> CiAt(s, p, "CHU") && r.value <= s[p..]
  {
    WordsThenLetterAt(s, p, ["CHU"], false)
  }

  /** `Hôpital\s+[A-Z]`. */
  function HopitalAt(s: string, p: nat): (r: Option<string>)
    ensures r.Some? ==> CiAt(s, p, "Hôpital") && r.value <= s[p..]
  {
    WordsThenLetterAt(s, p, ["Hôpital"], false)
  }

  /** `^Docteur\s+[A-Z]`. */
  function DocteurAt(s: string, p: nat): (r: Option<string>)
    ensures r.Some? ==> p == 0 && CiAt(s, p, "Docteur") && r.value <= s[p..]
  {
    WordsThenLetterAt(s, p, ["Docteur"], true)
  }

  /** `^Dr\s+[A-Z]`. */
  function DrAt(s: string, p: nat): (r: Option<string>)
    ensures r.Some? ==> p == 0 && CiAt(s, p, "Dr") && r.value <= s[p..]
  {
    WordsThenLetterAt(s, p, ["Dr"], true)
  }

  /** `^Professeur\s+[A-Z]`. */
  function ProfesseurAt(s: string, p: nat): (r: Option<string>)
    ensures r.Some? ==> p == 0 && CiAt(s, p, "Professeur") && r.value <= s[p..]
  {
    WordsThenLetterAt(s, p, ["Professeur"], true)
  }

  /** `^Pr\s+[A-Z]`. */
  function PrAt(s: string, p: nat): (r: Option<string>)
    ensures r.Some? ==> p == 0 && CiAt(s, p, "Pr") && r.value <= s[p..]
  {
    WordsThenLetterAt(s, p, ["Pr"], true)
  }

  /** `^(Madame|Monsieur|Mme|M\.)\s+[A-Z][a-z]+\s+[A-Z]`, IGNORECASE. */
  function TitleNameNameAt(s: string, p: nat): (r: Option<string>)
    ensures r.Some? ==> p == 0 && r.value <= s
                        && exists k :: 0 <= k < |SenderTitles| && CiAt(s, 0, SenderTitles[k])
  {
    if p != 0 then None else
    match AltEnd(s, 0, SenderTitles, NameThenName)
    case None => None
    case Some(e) => Some(s[..e])
  }

  /** `[A-Za-zâêîôûäëïöüç]+,` from `p`: the position after the comma. */
  function PlaceComma(s: string, p: nat): (r: Option<nat>)
    requires p <= |s|
    ensures r.Some? ==> p < r.value <= |s| && s[r.value - 1] == ','
  {
    var a := RunEnd(s, p, IsPlaceLetter);
    if a == p || a == |s| || s[a] != ',' then None else Some(a + 1)
  }

  /** `\s+` then a run of `P` from `q`: the end of the run. */
  function SpacedRun(s: string, q: nat, P: char -> bool): (r: Option<nat>)
    requires q <= |s|
    ensures r.Some? ==> q < r.value <= |s|
  {
    var w := RunEnd(s, q, IsSpace);
    if w == q then None else
    var e := RunEnd(s, w, P);
    if e == w then None else Some(e)
  }

  /** `\s*le\s+\d+\s+[A-Za-z]+\s+\d{4}` from `q`, taken in four stages (`\s*le`,
      `\s+\d+`, `\s+[A-Za-z]+`, `\s+\d{4}`) of which `stage` is the next one:
      the end of the match. */
  function DatelineTail(s: string, q: nat, stage: nat): (r: Option<nat>)
    requires q <= |s|
    ensures r.Some? ==> q < r.value <= |s|
    decreases 3 - stage
  {
    if stage == 0 then
      var c := RunEnd(s, q, IsSpace);
      if c + 2 <= |s| && s[c..c + 2] == "le" then DatelineTail(s, c + 2, 1) else None
    else if stage == 1 then
      match SpacedRun(s, q, IsDigit)
      case None => None
      case Some(d) => DatelineTail(s, d, 2)
    else if stage == 2 then
      match SpacedRun(s, q, IsAsciiLetter)
      case None => None
      case Some(f) => DatelineTail(s, f, 3)
    else
      var g := RunEnd(s, q, IsSpace);
      if g == q || RunEnd(s, g, IsDigit) - g < 4 then None else Some(g + 4)
  }

  /** `[A-Za-zâêîôûäëïöüç]+,\s*le\s+\d+\s+[A-Za-z]+\s+\d{4}`, case-sensitive. */
  function DatelineAt(s: string, p: nat): (r: Option<string>)
    ensures r.Some? ==> ',' in s
  {
    if p > |s| then None else
    match PlaceComma(s, p)
    case None => None
    case Some(b) =>
      match DatelineTail(s, b, 0)
      case None => None
      case Some(e) => Some(s[p..e])
  }

  /** `^[AÀ]\s+(Monsieur|Madame|M\.|Mme|Mlle)`, IGNORECASE. */
  function AddressedTitleAt(s: string, p: nat): (r: Option<string>)
    ensures r.Some? ==> p == 0 && |s| > 1 && IsArticleA(s[0]) && IsSpace(s[1]) && r.value <= s
                        && exists k, q :: 0 <= k < |AddressTitles| && 1 < q
                             && q + |AddressTitles[k]| <= |r.value| && CiAt(s, q, AddressTitles[k])
  {
    if p != 0 || |s| == 0 || !IsArticleA(s[0]) then None else
    var w := RunEnd(s, 1, IsSpace);
    if w == 1 then None else
    match AltEnd(s, w, AddressTitles, NothingMore)
    case None => None
    case Some(e) => Some(s[..e])
  }

  /** `^(Monsieur|Madame|M\.|Mme|Mlle|Docteur|Dr|Professeur|Pr)\s+`, IGNORECASE. */
  function TitleThenSpaceAt(s: string, p: nat): (r: Option<string>)
    ensures r.Some? ==> p == 0 && r.value <= s
                        && exists k :: 0 <= k < |ProfessionalTitles| && CiAt(s, 0, ProfessionalTitles[k])
                             && |ProfessionalTitles[k]| <= |r.value|
  {
    if p != 0 then None else
    match AltEnd(s, 0, ProfessionalTitles, Spaces)
    case None => None
    case Some(e) => Some(s[..e])
  }

  /** `^[AÀ]?\s*(Monsieur|Madame|M\.|Mme)`, IGNORECASE. */
  function OptArticleTitleAt(s: string, p: nat): (r: Option<string>)
    ensures r.Some? ==> p == 0 && r.value <= s
                        && exists k, q: nat :: 0 <= k < |LooseTitles| && q + |LooseTitles[k]| <= |r.value|
                             && CiAt(s, q, LooseTitles[k])
  {
    if p != 0 then None else
    // `[AÀ]?` first tries to take the article, then backtracks to taking nothing
    var withArticle :=
      if |s| > 0 && IsArticleA(s[0]) then AltEnd(s, RunEnd(s, 1, IsSpace), LooseTitles, NothingMore)
      else None;
    match withArticle
    case Some(e) => Some(s[..e])
    case None =>
      match AltEnd(s, RunEnd(s, 0, IsSpace), LooseTitles, NothingMore)
      case None => None
      case Some(e) => Some(s[..e])
  }

  /** `\b(\d{5}/\d{2})\b` at `p`: a digit is a word character, so each `\b`
      asks for a non-word character (or the end of the text) on its outer side. */
  predicate RefTokenStartsAt(s: string, p: nat) {
    p + 8 <= |s| && (p == 0 || !IsWordChar(s[p - 1]))
    && IsDigit(s[p]) && IsDigit(s[p + 1]) && IsDigit(s[p + 2]) && IsDigit(s[p + 3])
    && IsDigit(s[p + 4]) && s[p + 5] == '/' && IsDigit(s[p + 6]) && IsDigit(s[p + 7])
    && (p + 8 == |s| || !IsWordChar(s[p + 8]))
  }

  /** `\b(\d{5}/\d{2})\b`. */
  function RefTokenAt(s: string, p: nat): (r: Option<string>)
    ensures r.Some? ==> p + 8 <= |s| && IsRefToken(r.value) && r.value <= s[p..]
  {
    if RefTokenStartsAt(s, p) then Some(s[p..p + 8]) else None
  }

  /** `^\s*(\d{4,6}/\d{2})\s*$`; `$` can only be the end, as lines hold no `\n`. */
  function IsolatedRefAt(s: string, p: nat): (r: Option<string>)
    ensures r.Some? ==> p == 0 && 7 <= |r.value| <= 9 && r.value[|r.value| - 3] == '/'
  {
    if p != 0 then None else
    var a := RunEnd(s, 0, IsSpace);
    var d := RunEnd(s, a, IsDigit);
    if 4 <= d - a <= 6 && d < |s| && s[d] == '/' && RunEnd(s, d + 1, IsDigit) == d + 3
       && RunEnd(s, d + 3, IsSpace) == |s|
    then Some(s[a..d + 3])
    else None
  }

  /** The leftmost position at or after `i` where `at` matches. */
  function SearchFrom(at: Matcher, s: string, i: nat): (r: Option<nat>)
    requires i <= |s|
    ensures r.Some? ==> i <= r.value <= |s| && at(s, r.value).Some?
    ensures r.Some? ==> forall q :: i <= q < r.value ==> at(s, q).None?
    ensures r.None? ==> forall q :: i <= q <= |s| ==> at(s, q).None?
    decreases |s| - i
  {
    if at(s, i).Some? then Some(i)
    else if i == |s| then None
    else SearchFrom(at, s, i + 1)
  }

  /** What the leftmost match captures: `re.search(...).group(1)`, and
      `re.findall(...)[0]` for the date patterns. */
  function Search(at: Matcher, s: string): (r: Option<string>)
    ensures r.None? <==> forall q :: 0 <= q <= |s| ==> at(s, q).None?
    ensures r.Some? ==> exists p :: 0 <= p <= |s| && at(s, p) == r
                                    && forall q :: 0 <= q < p ==> at(s, q).None?
  {
    match SearchFrom(at, s, 0)
    case None => None
    case Some(p) => at(s, p)
  }

  /** The truth value of `re.search(pat, s)` (and of `re.match` for the anchored ones). */
  predicate Matches(at: Matcher, s: string) { Search(at, s).Some? }

  /** Some matcher of `pats` matches the line. */
  predicate AnyMatches(pats: seq<Matcher>, line: string) {
    pats != [] && (Matches(pats[0], line) || AnyMatches(pats[1..], line))
  }

  /** `AnyMatches` holds exactly when one of the patterns matches. */
  lemma {:induction false} AnyMatchesIff(pats: seq<Matcher>, line: string)
    ensures AnyMatches(pats, line) <==> exists k :: 0 <= k < |pats| && Matches(pats[k], line)
  {
    if pats != [] {
      AnyMatchesIff(pats[1..], line);
      assert forall k :: 0 < k < |pats| ==> pats[1..][k - 1] == pats[k];
    }
  }

  /** The loop `for pattern in pats: if re.search(pattern, line): ...`. */
  method AnyPattern(pats: seq<Matcher>, line: string) returns (b: bool)
    ensures b == AnyMatches(pats, line)
  {
    AnyMatchesIff(pats, line);
    for k := 0 to |pats|
      invariant forall j :: 0 <= j < k ==> !Matches(pats[j], line)
    {
      if Matches(pats[k], line) {
        return true;
      }
    }
    return false;
  }

  /** The index of the first line matched by some pattern of `pats`. */
  function FirstMatching(lines: seq<string>, pats: seq<Matcher>): (r: Option<nat>)
    ensures r.Some? ==> r.value < |lines|
  {
    if lines == [] then None
    else if AnyMatches(pats, lines[0]) then Some(0)
    else match FirstMatching(lines[1..], pats)
      case None => None
      case Some(k) => Some(k + 1)
  }

  /** `FirstMatching` finds a matched line, and none before it, or else there is
      none at all. */
  lemma {:induction false} FirstMatchingSpec(lines: seq<string>, pats: seq<Matcher>)
    ensures var r := FirstMatching(lines, pats);
      (r.Some? ==> AnyMatches(pats, lines[r.value])
                   && forall j :: 0 <= j < r.value ==> !AnyMatches(pats, lines[j]))
      && (r.None? ==> forall j :: 0 <= j < |lines| ==> !AnyMatches(pats, lines[j]))
  {
    if lines != [] && !AnyMatches(pats, lines[0]) {
      FirstMatchingSpec(lines[1..], pats);
      assert forall j :: 0 < j < |lines| ==> lines[1..][j - 1] == lines[j];
    }
  }

  /** A line matched with no matched line before it is the first one. */
  lemma {:induction false} FirstMatchingAt(lines: seq<string>, pats: seq<Matcher>, i: nat)
    requires i < |lines| && AnyMatches(pats, lines[i])
    requires forall j :: 0 <= j < i ==> !AnyMatches(pats, lines[j])
    ensures FirstMatching(lines, pats) == Some(i)
  {
    if i > 0 {
      FirstMatchingAt(lines[1..], pats, i - 1);
    }
  }

  /** The nested loops `for line in lines: for pattern in pats: if re.search(...)`. */
  method FindFirstMatching(lines: seq<string>, pats: seq<Matcher>) returns (r: Option<nat>)
    ensures r == FirstMatching(lines, pats)
  {
    for i := 0 to |lines|
      invariant forall j :: 0 <= j < i ==> !AnyMatches(pats, lines[j])
    {
      var hit := AnyPattern(pats, lines[i]);
      if hit {
        FirstMatchingAt(lines, pats, i);
        return Some(i);
      }
    }
    FirstMatchingSpec(lines, pats);
    return None;
  }

  predicate AllDigits(t: string) { forall k :: 0 <= k < |t| ==> IsDigit(t[k]) }

  /** `DDDDD/DD`. */
  predicate IsRefToken(t: string) {
    |t| == 8 && AllDigits(t[..5]) && t[5] == '/' && AllDigits(t[6..])
  }

  /** `D{4,6}/DD`. */
  predicate IsIsolatedRefToken(t: string) {
    7 <= |t| <= 9 && AllDigits(t[..|t| - 3]) && t[|t| - 3] == '/' && AllDigits(t[|t| - 2..])
  }

  /** Whatever `\b(\d{5}/\d{2})\b` finds is a `DDDDD/DD` token with no word
      character on either side. */
  lemma RefTokenShape(s: string)
    requires Search(RefTokenAt, s).Some?
    ensures IsRefToken(Search(RefTokenAt, s).value)
    ensures var p := SearchFrom(RefTokenAt, s, 0).value;
              RefTokenStartsAt(s, p) && s[p..p + 8] == Search(RefTokenAt, s).value
  {
    var p := SearchFrom(RefTokenAt, s, 0).value;
    var t := s[p..p + 8];
    assert t[..5] == s[p..p + 5];
    assert t[6..] == s[p + 6..p + 8];
  }

  /** Whatever `^\s*(\d{4,6}/\d{2})\s*$` finds is a `D{4,6}/DD` token, and the
      line holds nothing else but whitespace. */
  lemma IsolatedRefShape(s: string)
    requires Search(IsolatedRefAt, s).Some?
    ensures IsIsolatedRefToken(Search(IsolatedRefAt, s).value)
    ensures Strip(s) == Search(IsolatedRefAt, s).value
  {
    assert SearchFrom(IsolatedRefAt, s, 0) == Some(0);
    IsolatedRefAtShape(s);
  }

  lemma IsolatedRefAtShape(s: string)
    requires IsolatedRefAt(s, 0).Some?
    ensures IsIsolatedRefToken(IsolatedRefAt(s, 0).value)
    ensures Strip(s) == IsolatedRefAt(s, 0).value
  {
    var a := RunEnd(s, 0, IsSpace);
    var d := RunEnd(s, a, IsDigit);
    RunEndSpec(s, a, IsDigit);
    IsolatedRefDigits(s, a, d);
    IsolatedRefStrip(s, a, d);
  }

  /** The captured token of an isolated reference is `D{4,6}/DD`. */
  lemma IsolatedRefDigits(s: string, a: nat, d: nat)
    requires a <= d <= |s| && 4 <= d - a <= 6 && d < |s| && s[d] == '/'
    requires forall k :: a <= k < d ==> IsDigit(s[k])
    requires RunEnd(s, d + 1, IsDigit) == d + 3
    ensures IsIsolatedRefToken(s[a..d + 3])
  {
    var t := s[a..d + 3];
    assert t[..|t| - 3] == s[a..d];
    assert t[|t| - 2..] == s[d + 1..d + 3];
  }

  /** Only whitespace surrounds an isolated reference, so stripping the line
      leaves the token. */
  lemma IsolatedRefStrip(s: string, a: nat, d: nat)
    requires a == RunEnd(s, 0, IsSpace) && a <= d && d < |s| && s[d] == '/'
    requires 4 <= d - a && RunEnd(s, d + 1, IsDigit) == d + 3
    requires RunEnd(s, d + 3, IsSpace) == |s|
    ensures Strip(s) == s[a..d + 3]
  {
    RunEndSpec(s, d + 1, IsDigit);
    RunEndSpec(s, d + 3, IsSpace);
    assert IsDigit(s[d + 2]);
    DigitIsNoSpace(s[d + 2]);
    TrailEndAt(s, d + 3);
  }

  lemma DigitIsNoSpace(c: char)
    requires IsDigit(c)
    ensures !IsSpace(c)
  {
  }

  /** `TrailEnd` is the first position after which only whitespace remains. */
  lemma {:induction false} TrailEndAt(s: string, e: nat)
    requires 0 < e <= |s| && !IsSpace(s[e - 1])
    requires forall k :: e <= k < |s| ==> IsSpace(s[k])
    ensures TrailEnd(s) == e
    decreases |s|
  {
    if e < |s| {
      TrailEndAt(s[..|s| - 1], e);
    }
  }
}
