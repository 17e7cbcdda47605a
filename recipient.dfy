/** `extract_destination` (courriers/utils/ocr_utils.py:134-169): the recipient
    is looked for after the first line that names the sending institution. As
    for the sender, the passes are stated over a record of line tests and then
    instantiated with the extractor's own tests. */
module Destination {
  import opened OcrText
  import opened Patterns

  const RecipientPlaceholder: string := "destination non identifié"

  /** Words that mark the sender's line, looked for in the lower-cased line. */
  const SenderMarkers: seq<string> := ["faculté", "université", "doyen", "doyenne"]

  /** The line names the sending institution or its dean. */
  predicate IsSenderMarker(line: string)
    ensures IsSenderMarker(line) <==>
              exists k :: 0 <= k < |SenderMarkers| && Contains(LowerStr(line), SenderMarkers[k])
  {
    ContainsAnyIff(LowerStr(line), SenderMarkers);
    ContainsAny(LowerStr(line), SenderMarkers)
  }

  /** `^[AÀ]\s+(Monsieur|Madame|M\.|Mme|Mlle)`. */
  predicate IsAddressed(line: string) { Matches(AddressedTitleAt, line) }

  /** `^(Monsieur|...|Pr)\s+`. */
  predicate IsTitled(line: string) { Matches(TitleThenSpaceAt, line) }

  /** The previous line names a faculty or a university, so a titled line right
      after it is taken to be part of the sender's block. */
  predicate FollowsInstitution(prev: string) {
    Contains(LowerStr(prev), "faculté") || Contains(LowerStr(prev), "université")
  }

  /** `^[AÀ]?\s*(Monsieur|Madame|M\.|Mme)`. */
  predicate IsLooseTitle(line: string) { Matches(OptArticleTitleAt, line) }

  /** The line tests of the three passes. */
  datatype RecipientRules = RecipientRules(
    marker: string -> bool,
    addressed: string -> bool,
    titled: string -> bool,
    blocked: string -> bool,
    loose: string -> bool)

  /** The tests `extract_destination` uses. */
  const Rules: RecipientRules :=
    RecipientRules(IsSenderMarker, IsAddressed, IsTitled, FollowsInstitution, IsLooseTitle)

  /** `expediteur_index`: the first marked line, or -1. */
  function Boundary(lines: seq<string>, R: RecipientRules): (b: int)
    ensures -1 <= b < |lines|
  {
    match FirstLine(lines, R.marker)
    case None => -1
    case Some(i) => i
  }

  /** The main pass takes line `i` when it is addressed and after the boundary, or
      titled, after the boundary, not the first line, and not right after a
      faculty or university line. */
  predicate Accepts(lines: seq<string>, R: RecipientRules, b: int, i: nat)
    requires i < |lines|
  {
    (R.addressed(lines[i]) && i > b)
    || (R.titled(lines[i]) && i > b && i > 0 && !R.blocked(lines[i - 1]))
  }

  /** The first line from `i` on that the main pass takes. */
  function FirstAccepted(lines: seq<string>, R: RecipientRules, b: int, i: nat): (r: Option<nat>)
    requires i <= |lines|
    ensures r.Some? ==> i <= r.value < |lines|
    decreases |lines| - i
  {
    if i == |lines| then None
    else if Accepts(lines, R, b, i) then Some(i)
    else FirstAccepted(lines, R, b, i + 1)
  }

  /** `FirstAccepted` is decided by the first accepted line from `i` on. */
  lemma {:induction false} FirstAcceptedAt(lines: seq<string>, R: RecipientRules, b: int, i: nat, k: nat)
    requires i <= k <= |lines|
    requires forall j :: i <= j < k ==> !Accepts(lines, R, b, j)
    requires k < |lines| ==> Accepts(lines, R, b, k)
    ensures FirstAccepted(lines, R, b, i) == if k == |lines| then None else Some(k)
    decreases k - i
  {
    if i < k {
      FirstAcceptedAt(lines, R, b, i + 1, k);
    }
  }

  /** `FirstAccepted` gives an accepted line with none before it, or else there
      is none from `i` on. */
  lemma {:induction false} FirstAcceptedSpec(lines: seq<string>, R: RecipientRules, b: int, i: nat)
    requires i <= |lines|
    ensures var r := FirstAccepted(lines, R, b, i);
      (r.Some? ==> Accepts(lines, R, b, r.value)
                   && forall j :: i <= j < r.value ==> !Accepts(lines, R, b, j))
      && (r.None? ==> forall j :: i <= j < |lines| ==> !Accepts(lines, R, b, j))
    decreases |lines| - i
  {
    if i < |lines| && !Accepts(lines, R, b, i) {
      FirstAcceptedSpec(lines, R, b, i + 1);
    }
  }

  /** Which pass decides, and on which cleaned line. */
  datatype RecipientHit = MainLine(i: nat) | LateLine(i: nat) | NoRecipient

  /** The main pass first; when it finds nothing and there is a boundary, the
      first loosely titled line after the boundary. */
  function HitBy(lines: seq<string>, R: RecipientRules): (h: RecipientHit)
    ensures !h.NoRecipient? ==> h.i < |lines|
  {
    var b := Boundary(lines, R);
    match FirstAccepted(lines, R, b, 0)
    case Some(i) => MainLine(i)
    case None =>
      if b == -1 then NoRecipient
      else
        match FirstLine(lines[b + 1..], R.loose)
        case None => NoRecipient
        case Some(j) => LateLine(b + 1 + j)
  }

  function RecipientBy(lines: seq<string>, R: RecipientRules): string {
    match HitBy(lines, R)
    case NoRecipient => RecipientPlaceholder
    case MainLine(i) => Take(Strip(lines[i]), 255)
    case LateLine(i) => Take(Strip(lines[i]), 255)
  }

  /** The three loops of `extract_destination`. */
  method SelectRecipient(lines: seq<string>, R: RecipientRules) returns (r: string)
    ensures r == RecipientBy(lines, R)
  {
    var b := -1;
    for i := 0 to |lines|
      invariant forall j :: 0 <= j < i ==> !R.marker(lines[j])
    {
      if R.marker(lines[i]) {
        FirstLineAt(lines, R.marker, i);
        b := i;
        break;
      }
    }
    if b == -1 {
      FirstLineSpec(lines, R.marker);
    }
    assert b == Boundary(lines, R);
    for i := 0 to |lines|
      invariant forall j :: 0 <= j < i ==> !Accepts(lines, R, b, j)
    {
      if R.addressed(lines[i]) {
        if i > b {
          FirstAcceptedAt(lines, R, b, 0, i);
          return Take(Strip(lines[i]), 255);
        }
      }
      if R.titled(lines[i]) {
        if i > b && i > 0 {
          if !R.blocked(lines[i - 1]) {
            FirstAcceptedAt(lines, R, b, 0, i);
            return Take(Strip(lines[i]), 255);
          }
        }
      }
    }
    FirstAcceptedAt(lines, R, b, 0, |lines|);
    if b != -1 {
      ghost var rest := lines[b + 1..];
      for i := b + 1 to |lines|
        invariant forall j :: 0 <= j < i - (b + 1) ==> !R.loose(rest[j])
      {
        if R.loose(lines[i]) {
          FirstLineAt(rest, R.loose, i - (b + 1));
          return Take(Strip(lines[i]), 255);
        }
      }
      FirstLineSpec(rest, R.loose);
    }
    return RecipientPlaceholder;
  }

  /** The recipient `extract_destination` returns. */
  function RecipientOf(text: string): string {
    RecipientBy(CleanLines(text), Rules)
  }

  method ExtractDestination(text: string) returns (r: string)
    ensures r == RecipientOf(text)
  {
    r := SelectRecipient(CleanLines(text), Rules);
  }

  /** The boundary is -1 exactly when no line is marked, and otherwise the first
      marked line. */
  lemma BoundaryIsFirstMarker(lines: seq<string>, R: RecipientRules)
    ensures var b := Boundary(lines, R);
      (b == -1 <==> forall j :: 0 <= j < |lines| ==> !R.marker(lines[j]))
      && (b != -1 ==> R.marker(lines[b]) && forall j :: 0 <= j < b ==> !R.marker(lines[j]))
  {
    FirstLineSpec(lines, R.marker);
  }

  /** Where the recipient comes from: a main-pass line is after the boundary, and
      a titled one is neither the first line nor right after a blocking line; the
      late pass runs only when the main pass found nothing and there is a
      boundary, and takes the first loose line after it; with no hit, neither
      pass found a line. */
  lemma RecipientPasses(lines: seq<string>, R: RecipientRules)
    ensures var b, h := Boundary(lines, R), HitBy(lines, R);
      (h.MainLine? ==> h.i > b && Accepts(lines, R, b, h.i)
                       && (R.addressed(lines[h.i])
                           || (R.titled(lines[h.i]) && h.i > 0 && !R.blocked(lines[h.i - 1])))
                       && forall j :: 0 <= j < h.i ==> !Accepts(lines, R, b, j))
      && (h.LateLine? ==> b != -1 && h.i > b && R.loose(lines[h.i])
                          && (forall j :: 0 <= j < |lines| ==> !Accepts(lines, R, b, j))
                          && forall j :: b < j < h.i ==> !R.loose(lines[j]))
      && (h.NoRecipient? ==> (forall j :: 0 <= j < |lines| ==> !Accepts(lines, R, b, j))
                             && (b != -1 ==> forall j :: b < j < |lines| ==> !R.loose(lines[j])))
  {
    var b := Boundary(lines, R);
    FirstAcceptedSpec(lines, R, b, 0);
    if b != -1 {
      var rest := lines[b + 1..];
      FirstLineSpec(rest, R.loose);
      assert forall j :: b < j < |lines| ==> rest[j - (b + 1)] == lines[j];
    }
  }

  /** The recipient is the placeholder, or a prefix of at most 255 characters of
      a cleaned line after the boundary. */
  lemma RecipientShape(text: string)
    ensures var lines, r := CleanLines(text), RecipientOf(text);
      r == RecipientPlaceholder
      || (|r| <= 255 && exists k :: Boundary(lines, Rules) < k < |lines| && r <= lines[k])
  {
    var lines := CleanLines(text);
    var h := HitBy(lines, Rules);
    RecipientPasses(lines, Rules);
    if !h.NoRecipient? {
      assert Strip(lines[h.i]) == lines[h.i];
    }
  }

  /** Without a line naming a faculty, a university or a dean, only the main pass
      can find a recipient. */
  lemma NoMarkerNoLatePass(text: string)
    requires forall j :: 0 <= j < |CleanLines(text)| ==> !IsSenderMarker(CleanLines(text)[j])
    ensures !HitBy(CleanLines(text), Rules).LateLine?
  {
    BoundaryIsFirstMarker(CleanLines(text), Rules);
    RecipientPasses(CleanLines(text), Rules);
  }
}
