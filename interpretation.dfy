/** The verdict the engine draws from its best candidate, stated declaratively:
    the candidate's signals are first classified into one branch of the decision
    procedure, then each branch fixes `validated`, `deliverable` and the exact
    sequence of notes. The two copies of the engine differ in two places, both
    selected by `Copy`: only the service copy appends the PO-box note, and only
    the service copy judges deliverability when the DPV code is unknown. */
module Interpretation {
  import opened JsValues
  import opened AddressTypes

  /** Which copy of the interpreter is meant. */
  datatype Copy = ServiceCopy | ProviderCopy

  /** The six signals the interpreter reads, each `undefined` when the candidate
      lacks it or lacks the block (`analysis`, `metadata`) that holds it. */
  datatype Signals = Signals(
    enhancedMatch: Option<string>,
    dpvMatchCode: Option<string>,
    dpvFootnotes: Option<string>,
    dpvVacant: Option<string>,
    dpvNoStat: Option<string>,
    recordType: Option<string>)

  function SignalsOfParts(analysis: Option<Analysis>, metadata: Option<Metadata>): Signals
  {
    Signals(
      if analysis.Some? then analysis.value.enhancedMatch else None,
      if analysis.Some? then analysis.value.dpvMatchCode else None,
      if analysis.Some? then analysis.value.dpvFootnotes else None,
      if analysis.Some? then analysis.value.dpvVacant else None,
      if analysis.Some? then analysis.value.dpvNoStat else None,
      if metadata.Some? then metadata.value.recordType else None)
  }

  /** The signals of a candidate (`address.analysis?.…`, `address.metadata?.record_type`). */
  function SignalsOf(a: SmartyAddress): Signals
  {
    SignalsOfParts(a.analysis, a.metadata)
  }

  /** The interpreter's result. */
  datatype Verdict = Verdict(validated: bool, deliverable: bool, notes: seq<string>)

  const FoundInUsps := "Address found in USPS database"
  const SecondaryRequired := "Secondary information (apartment/suite) is required for delivery"
  const SecondaryNotRequired := "Secondary information is available but not required"
  const SecondaryCorrection := "Secondary information provided but not recognized - correction needed"
  const SecondaryNotNeeded := "Secondary information provided but not needed for delivery"
  const DeliverableByUsps := "Address is deliverable by USPS"
  const MaybeUndeliverable := "Address may not be deliverable by USPS"
  const FoundNonUsps := "Address found in Smarty proprietary data (non-USPS)"
  const SecondaryMightBeNeeded := "Secondary information might be needed for delivery"
  const SecondaryUnrecognised := "Secondary information provided but not recognized"
  const ValidatedByDpv := "Address validated using DPV match code"
  const NotFoundDpvN := "Address not found in USPS database (DPV match code: N)"
  const ValidatedDpvS := "Address validated (DPV match code: S - Secondary information missing)"
  const ValidatedDpvD := "Address validated (DPV match code: D - Secondary information missing)"
  const AppearsValid := "Address appears to be valid based on returned data"
  const AppearsDeliverable := "Address appears to be deliverable"
  const DeliverabilityUnknown := "Deliverability cannot be determined"
  const PoBoxNote := "PO Box address - not deliverable by FedEx, UPS, or other non-USPS carriers"
  const NoMatches := "No matching addresses found"

  /** The branch of the decision procedure a candidate falls into. */
  datatype MatchKind =
    | PostalMatch        // enhanced_match contains "postal-match"
    | NonPostalMatch     // enhanced_match contains "non-postal-match" but not "postal-match"
    | UnrecognisedMatch  // enhanced_match is truthy and contains neither tag
    | DpvConfirmed       // no enhanced_match, DPV code Y
    | DpvNotFound        // DPV code N
    | DpvSecondaryS      // DPV code S
    | DpvSecondaryD      // DPV code D
    | DpvIndeterminate   // any other or no DPV code

  function Classify(s: Signals): MatchKind
  {
    if Truthy(s.enhancedMatch) then
      if Includes(s.enhancedMatch.value, "postal-match") then PostalMatch
      else if Includes(s.enhancedMatch.value, "non-postal-match") then NonPostalMatch
      else UnrecognisedMatch
    else if s.dpvMatchCode == Some("Y") then DpvConfirmed
    else if s.dpvMatchCode == Some("N") then DpvNotFound
    else if s.dpvMatchCode == Some("S") then DpvSecondaryS
    else if s.dpvMatchCode == Some("D") then DpvSecondaryD
    else DpvIndeterminate
  }

  /** `enhanced_match` carries the given tag. */
  predicate Tagged(s: Signals, tag: string)
  {
    OptIncludes(s.enhancedMatch, tag)
  }

  /** `dpv_footnotes` contains the given code. */
  predicate HasFootnote(s: Signals, code: string)
  {
    OptIncludes(s.dpvFootnotes, code)
  }

  /** The delivery point is neither vacant nor "no-stat". */
  predicate Occupied(s: Signals)
  {
    s.dpvVacant == Some("N") && s.dpvNoStat == Some("N")
  }

  /** The USPS deliverability test: occupied and no R7 (phantom carrier route) footnote. */
  predicate DeliveryPointActive(s: Signals)
  {
    Occupied(s) && !HasFootnote(s, "R7")
  }

  function DeliverabilityNote(active: bool): string
  {
    if active then DeliverableByUsps else MaybeUndeliverable
  }

  /** Secondary-unit notes of the postal-match branch: one for "missing-secondary"
      (N1 decides which), then at most one for "unknown-secondary" (C1 before CC). */
  function PostalSecondaryNotes(s: Signals): seq<string>
  {
    (if Tagged(s, "missing-secondary") then
       [if HasFootnote(s, "N1") then SecondaryRequired else SecondaryNotRequired]
     else [])
    + (if Tagged(s, "unknown-secondary") then
         (if HasFootnote(s, "C1") then [SecondaryCorrection]
          else if HasFootnote(s, "CC") then [SecondaryNotNeeded]
          else [])
       else [])
  }

  /** Secondary-unit note of the DPV-Y fallback, by footnote priority N1 > C1 > CC. */
  function FootnoteSecondaryNote(s: Signals): seq<string>
  {
    if HasFootnote(s, "N1") then [SecondaryRequired]
    else if HasFootnote(s, "C1") then [SecondaryCorrection]
    else if HasFootnote(s, "CC") then [SecondaryNotNeeded]
    else []
  }

  predicate IsValidated(k: MatchKind)
  {
    !(k.UnrecognisedMatch? || k.DpvNotFound?)
  }

  predicate IsDeliverable(copy: Copy, k: MatchKind, s: Signals)
  {
    match k
    case PostalMatch => DeliveryPointActive(s)
    case DpvConfirmed => DeliveryPointActive(s)
    case DpvIndeterminate => copy == ServiceCopy && Occupied(s)
    case _ => false
  }

  /** The notes of each branch, before the PO-box note. */
  function BranchNotes(copy: Copy, k: MatchKind, s: Signals): seq<string>
  {
    match k
    case PostalMatch =>
      [FoundInUsps] + PostalSecondaryNotes(s) + [DeliverabilityNote(DeliveryPointActive(s))]
    case NonPostalMatch =>
      [FoundNonUsps]
      + (if Tagged(s, "missing-secondary") then [SecondaryMightBeNeeded] else [])
      + (if Tagged(s, "unknown-secondary") then [SecondaryUnrecognised] else [])
    case UnrecognisedMatch => []
    case DpvConfirmed =>
      [ValidatedByDpv, DeliverabilityNote(DeliveryPointActive(s))] + FootnoteSecondaryNote(s)
    case DpvNotFound => [NotFoundDpvN]
    case DpvSecondaryS => [ValidatedDpvS, SecondaryMightBeNeeded]
    case DpvSecondaryD => [ValidatedDpvD, SecondaryMightBeNeeded]
    case DpvIndeterminate =>
      [AppearsValid]
      + (if copy == ServiceCopy then [if Occupied(s) then AppearsDeliverable else DeliverabilityUnknown] else [])
  }

  /** The PO-box caveat, appended by the service copy whenever the record type is "P". */
  function PoBoxNotes(copy: Copy, s: Signals): seq<string>
  {
    if copy == ServiceCopy && s.recordType == Some("P") then [PoBoxNote] else []
  }

  /** The verdict of a copy on a candidate's signals. No address is deliverable
      without being validated. */
  function Interpret(copy: Copy, s: Signals): (v: Verdict)
    ensures v.deliverable ==> v.validated
  {
    var k := Classify(s);
    Verdict(IsValidated(k), IsDeliverable(copy, k, s), BranchNotes(copy, k, s) + PoBoxNotes(copy, s))
  }

  // ----- Properties of the decision procedure -----

  lemma NonPostalTagContainsPostalTag()
    ensures Includes("non-postal-match", "postal-match")
  {
    IncludesAt("non-postal-match", "postal-match", 4);
  }

  /** Substring semantics: every `enhanced_match` containing "non-postal-match" also
      contains "postal-match", so the non-postal branch is never taken. */
  lemma NonPostalBranchUnreachable(s: Signals)
    ensures Classify(s) != NonPostalMatch
  {
    if Truthy(s.enhancedMatch) && Includes(s.enhancedMatch.value, "non-postal-match") {
      NonPostalTagContainsPostalTag();
      IncludesTransitive(s.enhancedMatch.value, "non-postal-match", "postal-match");
    }
  }

  /** A non-postal match is therefore reported as found in the USPS database. */
  lemma NonPostalTagTakesPostalBranch(copy: Copy, s: Signals)
    requires Truthy(s.enhancedMatch) && Includes(s.enhancedMatch.value, "non-postal-match")
    ensures Classify(s) == PostalMatch
    ensures Interpret(copy, s).notes[0] == FoundInUsps
  {
    NonPostalTagContainsPostalTag();
    IncludesTransitive(s.enhancedMatch.value, "non-postal-match", "postal-match");
  }

  /** `validated` holds exactly for a truthy tag containing "postal-match", or, with
      no tag, for every DPV code but N. */
  lemma ValidatedIff(copy: Copy, s: Signals)
    ensures Interpret(copy, s).validated <==>
      if Truthy(s.enhancedMatch) then Includes(s.enhancedMatch.value, "postal-match")
      else s.dpvMatchCode != Some("N")
  {
    NonPostalBranchUnreachable(s);
  }

  /** Postal match: validated; deliverable iff occupied without R7; the notes are the
      USPS note, the secondary-unit notes, then the deliverability note. */
  lemma PostalMatchVerdict(copy: Copy, s: Signals)
    requires Truthy(s.enhancedMatch) && Includes(s.enhancedMatch.value, "postal-match")
    ensures Interpret(copy, s).validated
    ensures Interpret(copy, s).deliverable <==>
      s.dpvVacant == Some("N") && s.dpvNoStat == Some("N") && !HasFootnote(s, "R7")
    ensures Interpret(copy, s).notes ==
      [FoundInUsps] + PostalSecondaryNotes(s)
      + [if Interpret(copy, s).deliverable then DeliverableByUsps else MaybeUndeliverable]
      + PoBoxNotes(copy, s)
  {
  }

  /** "missing-secondary" adds exactly one note, "unknown-secondary" at most one
      (C1, else CC, else none), and the two come in that order. */
  lemma PostalSecondaryNoteShape(s: Signals)
    ensures |PostalSecondaryNotes(s)| ==
      (if Tagged(s, "missing-secondary") then 1 else 0)
      + (if Tagged(s, "unknown-secondary") && (HasFootnote(s, "C1") || HasFootnote(s, "CC")) then 1 else 0)
    ensures Tagged(s, "missing-secondary") ==>
      PostalSecondaryNotes(s)[0] == (if HasFootnote(s, "N1") then SecondaryRequired else SecondaryNotRequired)
    ensures Tagged(s, "unknown-secondary") && HasFootnote(s, "C1") ==>
      PostalSecondaryNotes(s)[|PostalSecondaryNotes(s)| - 1] == SecondaryCorrection
    ensures Tagged(s, "unknown-secondary") && !HasFootnote(s, "C1") && HasFootnote(s, "CC") ==>
      PostalSecondaryNotes(s)[|PostalSecondaryNotes(s)| - 1] == SecondaryNotNeeded
  {
  }

  /** A postal match without secondary-unit tags at an active delivery point: both
      copies give exactly the notes "found in USPS database" and "deliverable by USPS"
      (with the PO-box caveat after them in the service copy). */
  lemma PlainPostalMatch(copy: Copy, s: Signals)
    requires Truthy(s.enhancedMatch) && Includes(s.enhancedMatch.value, "postal-match")
    requires !Tagged(s, "missing-secondary") && !Tagged(s, "unknown-secondary")
    requires DeliveryPointActive(s)
    ensures Interpret(copy, s) == Verdict(true, true, [FoundInUsps, DeliverableByUsps] + PoBoxNotes(copy, s))
  {
  }

  /** The bare tag "postal-match" of the recorded scenario carries no secondary-unit tag. */
  lemma PostalMatchTagIsPlain(s: Signals)
    requires s.enhancedMatch == Some("postal-match")
    ensures Truthy(s.enhancedMatch) && Includes(s.enhancedMatch.value, "postal-match")
    ensures !Tagged(s, "missing-secondary") && !Tagged(s, "unknown-secondary")
  {
    IncludesNeedsRoom(s.enhancedMatch.value, "missing-secondary");
    IncludesNeedsRoom(s.enhancedMatch.value, "unknown-secondary");
  }

  /** A vacant delivery point is validated but not deliverable. */
  lemma VacantPostalMatch(copy: Copy, s: Signals)
    requires Truthy(s.enhancedMatch) && Includes(s.enhancedMatch.value, "postal-match")
    requires s.dpvVacant == Some("Y")
    ensures Interpret(copy, s).validated && !Interpret(copy, s).deliverable
    ensures MaybeUndeliverable in Interpret(copy, s).notes
  {
    var n := Interpret(copy, s).notes;
    var k := 1 + |PostalSecondaryNotes(s)|;
    assert n[k] == MaybeUndeliverable;
  }

  /** DPV code Y without enhanced_match: validated; the deliverability note comes
      second and is followed by at most one secondary note chosen N1 > C1 > CC. */
  lemma DpvConfirmedVerdict(copy: Copy, s: Signals)
    requires !Truthy(s.enhancedMatch) && s.dpvMatchCode == Some("Y")
    ensures Interpret(copy, s).validated
    ensures Interpret(copy, s).deliverable <==> DeliveryPointActive(s)
    ensures Interpret(copy, s).notes ==
      [ValidatedByDpv, DeliverabilityNote(DeliveryPointActive(s))] + FootnoteSecondaryNote(s) + PoBoxNotes(copy, s)
    ensures |FootnoteSecondaryNote(s)| <= 1
    ensures HasFootnote(s, "N1") ==> FootnoteSecondaryNote(s) == [SecondaryRequired]
    ensures !HasFootnote(s, "N1") && HasFootnote(s, "C1") ==> FootnoteSecondaryNote(s) == [SecondaryCorrection]
    ensures !HasFootnote(s, "N1") && !HasFootnote(s, "C1") && HasFootnote(s, "CC") ==>
      FootnoteSecondaryNote(s) == [SecondaryNotNeeded]
  {
  }

  /** DPV code N: not validated, not deliverable, one note. */
  lemma DpvNotFoundVerdict(copy: Copy, s: Signals)
    requires !Truthy(s.enhancedMatch) && s.dpvMatchCode == Some("N")
    ensures Interpret(copy, s) == Verdict(false, false, [NotFoundDpvN] + PoBoxNotes(copy, s))
  {
  }

  /** DPV codes S and D: validated, not deliverable, exactly two notes naming the code. */
  lemma DpvSecondaryVerdict(copy: Copy, s: Signals)
    requires !Truthy(s.enhancedMatch) && (s.dpvMatchCode == Some("S") || s.dpvMatchCode == Some("D"))
    ensures Interpret(copy, s) == Verdict(true, false,
      [if s.dpvMatchCode == Some("S") then ValidatedDpvS else ValidatedDpvD, SecondaryMightBeNeeded]
      + PoBoxNotes(copy, s))
  {
  }

  /** Unknown or absent DPV code, service copy: validated, and deliverable iff the
      point is occupied; the R7 footnote is not consulted. */
  lemma ServiceIndeterminateVerdict(s: Signals)
    requires Classify(s) == DpvIndeterminate
    ensures Interpret(ServiceCopy, s).validated
    ensures Interpret(ServiceCopy, s).deliverable <==> s.dpvVacant == Some("N") && s.dpvNoStat == Some("N")
    ensures Interpret(ServiceCopy, s).notes ==
      [AppearsValid, if Occupied(s) then AppearsDeliverable else DeliverabilityUnknown] + PoBoxNotes(ServiceCopy, s)
  {
  }

  /** Unknown or absent DPV code, provider copy: validated, never deliverable, exactly one note. */
  lemma ProviderIndeterminateVerdict(s: Signals)
    requires Classify(s) == DpvIndeterminate
    ensures Interpret(ProviderCopy, s) == Verdict(true, false, [AppearsValid])
  {
  }

  /** The R7 footnote blocks deliverability under DPV code Y but not under an unknown code. */
  lemma R7OnlyCheckedWithDpvCode()
    ensures Interpret(ServiceCopy, Signals(None, None, Some("R7"), Some("N"), Some("N"), None)).deliverable
    ensures !Interpret(ServiceCopy, Signals(None, Some("Y"), Some("R7"), Some("N"), Some("N"), None)).deliverable
  {
    IncludesAt("R7", "R7", 0);
  }

  /** A truthy enhanced_match without the postal tag: nothing validated, nothing
      deliverable, and no note but the PO-box one. */
  lemma UnmatchedEnhancedMatch(copy: Copy, s: Signals)
    requires Truthy(s.enhancedMatch) && !Includes(s.enhancedMatch.value, "postal-match")
    ensures Interpret(copy, s) == Verdict(false, false, PoBoxNotes(copy, s))
  {
    NonPostalBranchUnreachable(s);
  }

  /** Notes every branch can produce, apart from the PO-box caveat. */
  predicate IsBranchNote(n: string)
  {
    n in {FoundInUsps, SecondaryRequired, SecondaryNotRequired, SecondaryCorrection, SecondaryNotNeeded,
          DeliverableByUsps, MaybeUndeliverable, FoundNonUsps, SecondaryMightBeNeeded, SecondaryUnrecognised,
          ValidatedByDpv, NotFoundDpvN, ValidatedDpvS, ValidatedDpvD, AppearsValid, AppearsDeliverable,
          DeliverabilityUnknown}
  }

  lemma BranchNotesAreBranchNotes(copy: Copy, k: MatchKind, s: Signals)
    ensures forall n :: n in BranchNotes(copy, k, s) ==> IsBranchNote(n)
  {
  }

  /** The PO-box caveat is the last note of the service copy iff the record type is "P",
      whatever the verdict. */
  lemma PoBoxNoteLastIff(s: Signals)
    ensures (|Interpret(ServiceCopy, s).notes| > 0 &&
             Interpret(ServiceCopy, s).notes[|Interpret(ServiceCopy, s).notes| - 1] == PoBoxNote)
      <==> s.recordType == Some("P")
  {
    var b := BranchNotes(ServiceCopy, Classify(s), s);
    BranchNotesAreBranchNotes(ServiceCopy, Classify(s), s);
    assert !IsBranchNote(PoBoxNote);
    if s.recordType != Some("P") && |b| > 0 {
      assert b[|b| - 1] in b;
    }
  }

  /** The record type changes the notes only by the PO-box caveat: the flags are unaffected. */
  lemma RecordTypeOnlyAddsNote(copy: Copy, s: Signals, recordType: Option<string>)
    ensures Interpret(copy, s.(recordType := recordType)).validated == Interpret(copy, s).validated
    ensures Interpret(copy, s.(recordType := recordType)).deliverable == Interpret(copy, s).deliverable
    ensures Interpret(copy, s.(recordType := recordType)).notes
      == BranchNotes(copy, Classify(s), s) + PoBoxNotes(copy, s.(recordType := recordType))
  {
    var t := s.(recordType := recordType);
    assert Classify(t) == Classify(s);
    assert DeliveryPointActive(t) == DeliveryPointActive(s) && Occupied(t) == Occupied(s);
    assert PostalSecondaryNotes(t) == PostalSecondaryNotes(s) && FootnoteSecondaryNote(t) == FootnoteSecondaryNote(s);
    assert BranchNotes(copy, Classify(t), t) == BranchNotes(copy, Classify(s), s);
  }

  /** The provider copy never produces the PO-box caveat. */
  lemma ProviderHasNoPoBoxNote(s: Signals)
    ensures PoBoxNote !in Interpret(ProviderCopy, s).notes
  {
    BranchNotesAreBranchNotes(ProviderCopy, Classify(s), s);
    assert !IsBranchNote(PoBoxNote);
  }

  /** Outside the unknown-DPV fallback, the copies agree but for the PO-box caveat. */
  lemma CopiesDifferOnlyByPoBox(s: Signals)
    requires Classify(s) != DpvIndeterminate
    ensures Interpret(ServiceCopy, s) ==
      Interpret(ProviderCopy, s).(notes := Interpret(ProviderCopy, s).notes + PoBoxNotes(ServiceCopy, s))
  {
  }
}
