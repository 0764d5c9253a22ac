/** The feedback store: three append-only record lists and the counters that track them
    (services/feedback_collector.py). The clock is a parameter; saving to disk is not modelled. */
module FeedbackCollector {
  import opened Text
  import opened Ranking

  datatype RecordKind = CorrectionKind | QualityKind | DocumentTypeKind

  /** `f"{prefix}_{timestamp}_{index}"`, kept as its three parts. */
  datatype FeedbackId = FeedbackId(kind: RecordKind, stamp: string, index: nat)

  /** One reading of the clock, in the two formats the store writes. */
  datatype Instant = Instant(compact: string, iso: string)

  /** A correction record; a missing `confidence` reads as 1.0 and a missing `applied` as false. */
  datatype CorrectionRecord = CorrectionRecord(
    id: FeedbackId, original: string, corrected: string, documentId: string,
    context: Option<string>, userId: Option<string>, confidence: real, timestamp: string,
    applied: bool, appliedAt: Option<string>)

  datatype QualityRecord = QualityRecord(
    id: FeedbackId, documentId: string, rating: real, issues: seq<string>, userId: Option<string>, timestamp: string)

  datatype DocumentTypeRecord = DocumentTypeRecord(
    id: FeedbackId, documentId: string, predictedType: string, actualType: string, correct: bool,
    userId: Option<string>, timestamp: string)

  datatype FeedbackData = FeedbackData(
    corrections: seq<CorrectionRecord>, documentTypes: seq<DocumentTypeRecord>, qualityRatings: seq<QualityRecord>,
    totalFeedback: nat, correctionsCount: nat, lastUpdated: Option<string>)

  /** The outcome of reading the feedback file. */
  datatype StoreOutcome = StoreMissing | StoreParsed(data: FeedbackData) | StoreUnreadable

  /** Each record's id carries its kind and its own position in its list, as the store writes them. */
  ghost predicate PositionalIds(d: FeedbackData) {
    && (forall i :: 0 <= i < |d.corrections| ==> d.corrections[i].id.kind == CorrectionKind && d.corrections[i].id.index == i)
    && (forall i :: 0 <= i < |d.qualityRatings| ==> d.qualityRatings[i].id.kind == QualityKind && d.qualityRatings[i].id.index == i)
    && (forall i :: 0 <= i < |d.documentTypes| ==> d.documentTypes[i].id.kind == DocumentTypeKind && d.documentTypes[i].id.index == i)
  }

  /** `_load_feedback`: a missing or unreadable file gives an empty store. */
  function LoadFeedback(outcome: StoreOutcome): (d: FeedbackData)
    ensures !outcome.StoreParsed? ==>
      d.corrections == [] && d.documentTypes == [] && d.qualityRatings == []
      && d.totalFeedback == 0 && d.correctionsCount == 0 && d.lastUpdated.None?
  {
    match outcome
    case StoreParsed(data) => data
    case _ => FeedbackData([], [], [], 0, 0, None)
  }

  // ---------------------------------------------------------------- grouping of unapplied corrections

  /** One entry of `correction_groups`. */
  datatype Group = Group(original: string, corrected: string, ids: seq<FeedbackId>, totalConfidence: real)

  /** The position of the group for a pair, if there is one. */
  function FindGroup(groups: seq<Group>, original: string, corrected: string): (r: Option<nat>)
    ensures r.Some? ==> r.value < |groups| && groups[r.value].original == original && groups[r.value].corrected == corrected
    ensures r.None? ==> forall i :: 0 <= i < |groups| ==> !(groups[i].original == original && groups[i].corrected == corrected)
  {
    if groups == [] then None
    else if groups[|groups| - 1].original == original && groups[|groups| - 1].corrected == corrected then Some(|groups| - 1)
    else FindGroup(groups[..|groups| - 1], original, corrected)
  }

  /** One iteration of the grouping loop: applied records are skipped. */
  function AddToGroups(groups: seq<Group>, c: CorrectionRecord): seq<Group> {
    if c.applied then groups
    else
      match FindGroup(groups, c.original, c.corrected)
      case None => groups + [Group(c.original, c.corrected, [c.id], c.confidence)]
      case Some(i) =>
        groups[i := groups[i].(ids := groups[i].ids + [c.id], totalConfidence := groups[i].totalConfidence + c.confidence)]
  }

  function GroupsOf(cs: seq<CorrectionRecord>): seq<Group> {
    if cs == [] then [] else AddToGroups(GroupsOf(cs[..|cs| - 1]), cs[|cs| - 1])
  }

  /** The ids of the unapplied records with this pair, in list order. */
  function IdsOfPair(cs: seq<CorrectionRecord>, original: string, corrected: string): seq<FeedbackId> {
    if cs == [] then []
    else
      var c := cs[|cs| - 1];
      IdsOfPair(cs[..|cs| - 1], original, corrected)
        + (if !c.applied && c.original == original && c.corrected == corrected then [c.id] else [])
  }

  /** The summed confidence of those records. */
  function ConfidenceOfPair(cs: seq<CorrectionRecord>, original: string, corrected: string): real {
    if cs == [] then 0.0
    else
      var c := cs[|cs| - 1];
      ConfidenceOfPair(cs[..|cs| - 1], original, corrected)
        + (if !c.applied && c.original == original && c.corrected == corrected then c.confidence else 0.0)
  }

  predicate IsUnappliedPair(cs: seq<CorrectionRecord>, original: string, corrected: string) {
    exists i :: 0 <= i < |cs| && !cs[i].applied && cs[i].original == original && cs[i].corrected == corrected
  }

  /** A pair has no ids exactly when no unapplied record carries it. */
  lemma {:induction false} IdsOfPairEmpty(cs: seq<CorrectionRecord>, original: string, corrected: string)
    ensures IdsOfPair(cs, original, corrected) == [] <==> !IsUnappliedPair(cs, original, corrected)
    ensures !IsUnappliedPair(cs, original, corrected) ==> ConfidenceOfPair(cs, original, corrected) == 0.0
  {
    if cs != [] {
      var init := cs[..|cs| - 1];
      IdsOfPairEmpty(init, original, corrected);
      UnappliedPairStep(cs, original, corrected);
    }
  }

  lemma UnappliedPairStep(cs: seq<CorrectionRecord>, original: string, corrected: string)
    requires cs != []
    ensures var init := cs[..|cs| - 1]; var last := cs[|cs| - 1];
      IsUnappliedPair(cs, original, corrected) <==>
        IsUnappliedPair(init, original, corrected) || (!last.applied && last.original == original && last.corrected == corrected)
  {
    var init := cs[..|cs| - 1];
    if IsUnappliedPair(cs, original, corrected) {
      var i :| 0 <= i < |cs| && !cs[i].applied && cs[i].original == original && cs[i].corrected == corrected;
      if i < |init| {
        assert init[i] == cs[i];
      }
    }
    if IsUnappliedPair(init, original, corrected) {
      var i :| 0 <= i < |init| && !init[i].applied && init[i].original == original && init[i].corrected == corrected;
      assert cs[i] == init[i];
    }
  }

  /** Every id listed for a pair names an unapplied record carrying that pair. */
  lemma {:induction false} IdsOfPairRecords(cs: seq<CorrectionRecord>, original: string, corrected: string)
    ensures forall id :: id in IdsOfPair(cs, original, corrected) ==>
      exists i :: 0 <= i < |cs| && cs[i].id == id && !cs[i].applied && cs[i].original == original && cs[i].corrected == corrected
  {
    if cs != [] {
      var init := cs[..|cs| - 1];
      IdsOfPairRecords(init, original, corrected);
      assert forall i :: 0 <= i < |init| ==> init[i] == cs[i];
    }
  }

  /** The pairs of a list of groups, in order. */
  function Pairs(gs: seq<Group>): (r: seq<(string, string)>)
    ensures |r| == |gs|
    ensures forall i :: 0 <= i < |gs| ==> r[i] == (gs[i].original, gs[i].corrected)
  {
    seq(|gs|, i requires 0 <= i < |gs| => (gs[i].original, gs[i].corrected))
  }

  /** The grouping step adds the record's pair at the end when it is new and keeps the pairs otherwise. */
  lemma AddToGroupsPairs(gs: seq<Group>, c: CorrectionRecord)
    ensures Pairs(AddToGroups(gs, c)) ==
      if !c.applied && (c.original, c.corrected) !in Pairs(gs) then Pairs(gs) + [(c.original, c.corrected)] else Pairs(gs)
  {
    if !c.applied {
      match FindGroup(gs, c.original, c.corrected)
      case None =>
        assert (c.original, c.corrected) !in Pairs(gs);
        assert Pairs(AddToGroups(gs, c)) == Pairs(gs) + [(c.original, c.corrected)];
      case Some(i) =>
        assert Pairs(gs)[i] == (c.original, c.corrected);
        assert Pairs(AddToGroups(gs, c)) == Pairs(gs);
    }
  }

  /** The groups are keyed by distinct pairs, and a pair has a group exactly when an unapplied record
      carries it. */
  lemma {:induction false} GroupsCover(cs: seq<CorrectionRecord>)
    ensures var ps := Pairs(GroupsOf(cs));
      && (forall i, j :: 0 <= i < j < |ps| ==> ps[i] != ps[j])
      && (forall o, c :: IsUnappliedPair(cs, o, c) <==> (o, c) in ps)
  {
    if cs != [] {
      var init := cs[..|cs| - 1];
      var last := cs[|cs| - 1];
      GroupsCover(init);
      AddToGroupsPairs(GroupsOf(init), last);
      forall o, c ensures IsUnappliedPair(cs, o, c) <==> (o, c) in Pairs(GroupsOf(cs)) {
        UnappliedPairStep(cs, o, c);
      }
    }
  }

  /** Each group holds exactly the ids of its pair's unapplied records, in list order, and their summed
      confidence. */
  lemma {:induction false} GroupsExact(cs: seq<CorrectionRecord>)
    ensures var gs := GroupsOf(cs);
      forall i :: 0 <= i < |gs| ==>
        && gs[i].ids == IdsOfPair(cs, gs[i].original, gs[i].corrected) && gs[i].ids != []
        && gs[i].totalConfidence == ConfidenceOfPair(cs, gs[i].original, gs[i].corrected)
  {
    if cs != [] {
      var init := cs[..|cs| - 1];
      var last := cs[|cs| - 1];
      GroupsExact(init);
      GroupsCover(init);
      var prev := GroupsOf(init);
      var gs := GroupsOf(cs);
      if !last.applied && FindGroup(prev, last.original, last.corrected).None? {
        assert (last.original, last.corrected) !in Pairs(prev);
        IdsOfPairEmpty(init, last.original, last.corrected);
        assert gs == prev + [Group(last.original, last.corrected, [last.id], last.confidence)];
      }
    }
  }

  /** What `get_unapplied_corrections` returns for one pair. */
  datatype Candidate = Candidate(original: string, corrected: string, occurrences: nat, avgConfidence: real, feedbackIds: seq<FeedbackId>)

  function ToCandidate(g: Group): Candidate {
    var count := |g.ids|;
    Candidate(g.original, g.corrected, count, if count > 0 then g.totalConfidence / count as real else 0.0, g.ids)
  }

  predicate Qualifies(c: Candidate, minConfidence: real, minOccurrences: int) {
    c.occurrences >= minOccurrences && c.avgConfidence >= minConfidence
  }

  /** The groups that pass both thresholds, in group order. */
  function Qualified(gs: seq<Group>, minConfidence: real, minOccurrences: int): (r: seq<Candidate>)
    ensures forall c :: c in r ==> Qualifies(c, minConfidence, minOccurrences) && exists g :: g in gs && c == ToCandidate(g)
    ensures forall g :: g in gs && Qualifies(ToCandidate(g), minConfidence, minOccurrences) ==> ToCandidate(g) in r
  {
    if gs == [] then []
    else
      var prev := Qualified(gs[..|gs| - 1], minConfidence, minOccurrences);
      var c := ToCandidate(gs[|gs| - 1]);
      assert forall g :: g in gs ==> g in gs[..|gs| - 1] || g == gs[|gs| - 1];
      if Qualifies(c, minConfidence, minOccurrences) then prev + [c] else prev
  }

  function CandidateRank(c: Candidate): (int, real) {
    (c.occurrences, c.avgConfidence)
  }

  /** `get_unapplied_corrections` as a value. */
  function UnappliedCandidates(cs: seq<CorrectionRecord>, minConfidence: real, minOccurrences: int): seq<Candidate> {
    SortDesc(Qualified(GroupsOf(cs), minConfidence, minOccurrences), CandidateRank)
  }

  /** The id of every unapplied record carrying a pair is listed for it. */
  lemma {:induction false} IdsOfPairComplete(cs: seq<CorrectionRecord>, original: string, corrected: string, j: nat)
    requires j < |cs| && !cs[j].applied && cs[j].original == original && cs[j].corrected == corrected
    ensures cs[j].id in IdsOfPair(cs, original, corrected)
  {
    var init := cs[..|cs| - 1];
    if j < |init| {
      assert init[j] == cs[j];
      IdsOfPairComplete(init, original, corrected, j);
    }
  }

  /** Every candidate passes both thresholds, comes from unapplied records only, and lists exactly the ids of
      the unapplied records with its pair; every qualifying pair is present, once; the list is non-increasing
      by (occurrences, mean confidence). */
  lemma UnappliedCandidatesSpec(cs: seq<CorrectionRecord>, minConfidence: real, minOccurrences: int)
    ensures var r := UnappliedCandidates(cs, minConfidence, minOccurrences);
      && SortedDesc(r, CandidateRank)
      && multiset(r) == multiset(Qualified(GroupsOf(cs), minConfidence, minOccurrences))
      && (forall c :: c in r ==>
            && Qualifies(c, minConfidence, minOccurrences)
            && IsUnappliedPair(cs, c.original, c.corrected)
            && c.feedbackIds == IdsOfPair(cs, c.original, c.corrected)
            && c.occurrences == |c.feedbackIds| > 0
            && c.avgConfidence == ConfidenceOfPair(cs, c.original, c.corrected) / c.occurrences as real)
  {
    var gs := GroupsOf(cs);
    var q := Qualified(gs, minConfidence, minOccurrences);
    SortDescSpec(q, CandidateRank);
    var r := UnappliedCandidates(cs, minConfidence, minOccurrences);
    forall c | c in r
      ensures Qualifies(c, minConfidence, minOccurrences)
      ensures IsUnappliedPair(cs, c.original, c.corrected)
      ensures c.feedbackIds == IdsOfPair(cs, c.original, c.corrected)
      ensures c.occurrences == |c.feedbackIds| > 0
      ensures c.avgConfidence == ConfidenceOfPair(cs, c.original, c.corrected) / c.occurrences as real
    {
      assert c in multiset(r);
      assert c in multiset(q);
      assert c in q;
      var g :| g in gs && c == ToCandidate(g);
      CandidateOfGroup(cs, g);
    }
  }

  /** What a group's candidate says about the store. */
  lemma CandidateOfGroup(cs: seq<CorrectionRecord>, g: Group)
    requires g in GroupsOf(cs)
    ensures var c := ToCandidate(g);
      && IsUnappliedPair(cs, c.original, c.corrected)
      && c.feedbackIds == IdsOfPair(cs, c.original, c.corrected)
      && c.occurrences == |c.feedbackIds| > 0
      && c.avgConfidence == ConfidenceOfPair(cs, c.original, c.corrected) / c.occurrences as real
  {
    var gs := GroupsOf(cs);
    GroupsExact(cs);
    GroupsCover(cs);
    var i :| 0 <= i < |gs| && gs[i] == g;
    assert Pairs(gs)[i] == (g.original, g.corrected);
  }

  // ---------------------------------------------------------------- marking

  /** `mark_corrections_applied` on one record. */
  function MarkOne(c: CorrectionRecord, ids: seq<FeedbackId>, at: string): CorrectionRecord {
    if c.id in ids then c.(applied := true, appliedAt := Some(at)) else c
  }

  function Marked(cs: seq<CorrectionRecord>, ids: seq<FeedbackId>, at: string): (r: seq<CorrectionRecord>)
    ensures |r| == |cs|
  {
    seq(|cs|, i requires 0 <= i < |cs| => MarkOne(cs[i], ids, at))
  }

  /** Marking twice with the same ids changes nothing more, and the flags set do not depend on the time. */
  lemma MarkedIdempotent(cs: seq<CorrectionRecord>, ids: seq<FeedbackId>, at: string, later: string)
    ensures Marked(Marked(cs, ids, at), ids, at) == Marked(cs, ids, at)
    ensures forall i :: 0 <= i < |cs| ==> Marked(Marked(cs, ids, at), ids, later)[i].applied == Marked(cs, ids, at)[i].applied
  {
  }

  /** `sum(1 for c in corrections if c.applied)`. */
  function CountApplied(cs: seq<CorrectionRecord>): (n: nat)
    ensures n <= |cs|
  {
    if cs == [] then 0 else CountApplied(cs[..|cs| - 1]) + (if cs[|cs| - 1].applied then 1 else 0)
  }

  /** Marking never lowers the applied count, and marking every id of the list applies everything. */
  lemma {:induction false} MarkedCount(cs: seq<CorrectionRecord>, ids: seq<FeedbackId>, at: string)
    ensures CountApplied(cs) <= CountApplied(Marked(cs, ids, at))
    ensures (forall i :: 0 <= i < |cs| ==> cs[i].id in ids) ==> CountApplied(Marked(cs, ids, at)) == |cs|
  {
    if cs != [] {
      var init := cs[..|cs| - 1];
      MarkedCount(init, ids, at);
      assert Marked(cs, ids, at)[..|cs| - 1] == Marked(init, ids, at);
    }
  }

  datatype Statistics = Statistics(
    totalFeedback: nat, correctionsCount: nat, lastUpdated: Option<string>,
    totalCorrections: nat, appliedCorrections: nat, pendingCorrections: int,
    qualityRatingsCount: nat, documentTypesFeedbackCount: nat)

  // ---------------------------------------------------------------- the store

  /** The grouping loop of `get_unapplied_corrections`: unapplied records by (original, corrected), in order
      of first appearance. */
  method CollectGroups(cs: seq<CorrectionRecord>) returns (groups: seq<Group>)
    ensures groups == GroupsOf(cs)
  {
    groups := [];
    for i := 0 to |cs|
      invariant groups == GroupsOf(cs[..i])
    {
      assert cs[..i + 1][..i] == cs[..i];
      var c := cs[i];
      if c.applied {
        continue;
      }
      var k := FindGroup(groups, c.original, c.corrected);
      if k.None? {
        groups := groups + [Group(c.original, c.corrected, [c.id], c.confidence)];
      } else {
        var g := groups[k.value];
        groups := groups[k.value := g.(ids := g.ids + [c.id], totalConfidence := g.totalConfidence + c.confidence)];
      }
    }
    assert cs[..|cs|] == cs;
  }

  /** The threshold filter of `get_unapplied_corrections`. */
  method FilterGroups(groups: seq<Group>, minConfidence: real, minOccurrences: int) returns (qualified: seq<Candidate>)
    ensures qualified == Qualified(groups, minConfidence, minOccurrences)
  {
    qualified := [];
    for i := 0 to |groups|
      invariant qualified == Qualified(groups[..i], minConfidence, minOccurrences)
    {
      assert groups[..i + 1][..i] == groups[..i];
      var count := |groups[i].ids|;
      var avg := if count > 0 then groups[i].totalConfidence / count as real else 0.0;
      if count >= minOccurrences && avg >= minConfidence {
        qualified := qualified + [Candidate(groups[i].original, groups[i].corrected, count, avg, groups[i].ids)];
      }
    }
    assert groups[..|groups|] == groups;
  }

  class FeedbackStore {
    var corrections: seq<CorrectionRecord>
    var documentTypes: seq<DocumentTypeRecord>
    var qualityRatings: seq<QualityRecord>
    var totalFeedback: nat
    var correctionsCount: nat
    var lastUpdated: Option<string>

    function Data(): FeedbackData
      reads this
    {
      FeedbackData(corrections, documentTypes, qualityRatings, totalFeedback, correctionsCount, lastUpdated)
    }

    ghost predicate Valid()
      reads this
    {
      PositionalIds(Data())
    }

    /** `__init__`: the store starts from whatever `_load_feedback` returns; a file is taken to have been
        written by a store, so its ids are positional. */
    constructor (outcome: StoreOutcome)
      requires outcome.StoreParsed? ==> PositionalIds(outcome.data)
      ensures Valid()
      ensures Data() == LoadFeedback(outcome)
    {
      var d := LoadFeedback(outcome);
      corrections, documentTypes, qualityRatings := d.corrections, d.documentTypes, d.qualityRatings;
      totalFeedback, correctionsCount, lastUpdated := d.totalFeedback, d.correctionsCount, d.lastUpdated;
    }

    /** `add_correction_feedback`. */
    method AddCorrectionFeedback(original: string, corrected: string, documentId: string, context: Option<string>,
                                 userId: Option<string>, confidence: real, now: Instant) returns (id: FeedbackId)
      requires Valid()
      modifies this
      ensures Valid()
      ensures id == FeedbackId(CorrectionKind, now.compact, |old(corrections)|)
      ensures forall i :: 0 <= i < |old(corrections)| ==> old(corrections)[i].id != id
      ensures corrections == old(corrections) + [CorrectionRecord(id, original, corrected, documentId, context, userId,
                                                                  confidence, now.iso, false, None)]
      ensures totalFeedback == old(totalFeedback) + 1 && correctionsCount == old(correctionsCount) + 1
      ensures documentTypes == old(documentTypes) && qualityRatings == old(qualityRatings)
      ensures lastUpdated == Some(now.iso)
    {
      id := FeedbackId(CorrectionKind, now.compact, |corrections|);
      corrections := corrections + [CorrectionRecord(id, original, corrected, documentId, context, userId,
                                                     confidence, now.iso, false, None)];
      totalFeedback := totalFeedback + 1;
      correctionsCount := correctionsCount + 1;
      lastUpdated := Some(now.iso);
    }

    /** `add_quality_rating`: a missing issue list is stored empty. */
    method AddQualityRating(documentId: string, rating: real, issues: Option<seq<string>>, userId: Option<string>, now: Instant)
      returns (id: FeedbackId)
      requires Valid()
      modifies this
      ensures Valid()
      ensures id == FeedbackId(QualityKind, now.compact, |old(qualityRatings)|)
      ensures qualityRatings == old(qualityRatings) + [QualityRecord(id, documentId, rating,
                                                                      if issues.Some? then issues.value else [], userId, now.iso)]
      ensures totalFeedback == old(totalFeedback) + 1 && correctionsCount == old(correctionsCount)
      ensures corrections == old(corrections) && documentTypes == old(documentTypes)
      ensures lastUpdated == Some(now.iso)
    {
      id := FeedbackId(QualityKind, now.compact, |qualityRatings|);
      qualityRatings := qualityRatings + [QualityRecord(id, documentId, rating,
                                                        if issues.Some? then issues.value else [], userId, now.iso)];
      totalFeedback := totalFeedback + 1;
      lastUpdated := Some(now.iso);
    }

    /** `add_document_type_feedback`: the record says whether the prediction was right. */
    method AddDocumentTypeFeedback(documentId: string, predictedType: string, actualType: string,
                                   userId: Option<string>, now: Instant) returns (id: FeedbackId)
      requires Valid()
      modifies this
      ensures Valid()
      ensures id == FeedbackId(DocumentTypeKind, now.compact, |old(documentTypes)|)
      ensures documentTypes == old(documentTypes) + [DocumentTypeRecord(id, documentId, predictedType, actualType,
                                                                        predictedType == actualType, userId, now.iso)]
      ensures documentTypes[|documentTypes| - 1].correct <==> predictedType == actualType
      ensures totalFeedback == old(totalFeedback) + 1 && correctionsCount == old(correctionsCount)
      ensures corrections == old(corrections) && qualityRatings == old(qualityRatings)
      ensures lastUpdated == Some(now.iso)
    {
      id := FeedbackId(DocumentTypeKind, now.compact, |documentTypes|);
      documentTypes := documentTypes + [DocumentTypeRecord(id, documentId, predictedType, actualType,
                                                           predictedType == actualType, userId, now.iso)];
      totalFeedback := totalFeedback + 1;
      lastUpdated := Some(now.iso);
    }

    /** `get_unapplied_corrections`: the grouping loop, the threshold filter and the sort. */
    method GetUnappliedCorrections(minConfidence: real, minOccurrences: int) returns (candidates: seq<Candidate>)
      ensures candidates == UnappliedCandidates(corrections, minConfidence, minOccurrences)
    {
      var groups := CollectGroups(corrections);
      var qualified := FilterGroups(groups, minConfidence, minOccurrences);
      candidates := SortDesc(qualified, CandidateRank);
    }

    /** `mark_corrections_applied`: flips `applied` on exactly the records whose id is listed. */
    method MarkCorrectionsApplied(ids: seq<FeedbackId>, now: Instant)
      requires Valid()
      modifies this
      ensures Valid()
      ensures corrections == Marked(old(corrections), ids, now.iso)
      ensures forall i :: 0 <= i < |corrections| ==>
        (corrections[i].applied <==> old(corrections)[i].applied || old(corrections)[i].id in ids)
      ensures documentTypes == old(documentTypes) && qualityRatings == old(qualityRatings)
      ensures totalFeedback == old(totalFeedback) && correctionsCount == old(correctionsCount)
      ensures lastUpdated == Some(now.iso)
    {
      var n := |corrections|;
      for i := 0 to n
        invariant |corrections| == n
        invariant corrections[..i] == Marked(old(corrections), ids, now.iso)[..i]
        invariant corrections[i..] == old(corrections)[i..]
        invariant Valid()
        invariant documentTypes == old(documentTypes) && qualityRatings == old(qualityRatings)
        invariant totalFeedback == old(totalFeedback) && correctionsCount == old(correctionsCount)
      {
        if corrections[i].id in ids {
          corrections := corrections[i := corrections[i].(applied := true, appliedAt := Some(now.iso))];
        }
      }
      lastUpdated := Some(now.iso);
    }

    /** `get_statistics`. */
    function GetStatistics(): (s: Statistics)
      reads this
      ensures s.totalCorrections == |corrections|
      ensures s.appliedCorrections <= s.totalCorrections
      ensures s.pendingCorrections == s.totalCorrections - s.appliedCorrections >= 0
    {
      var applied := CountApplied(corrections);
      Statistics(totalFeedback, correctionsCount, lastUpdated, |corrections|, applied, |corrections| - applied,
                 |qualityRatings|, |documentTypes|)
    }
  }

  /** Correction ids in a store are pairwise distinct. */
  lemma IdsDistinct(d: FeedbackData)
    requires PositionalIds(d)
    ensures forall i, j :: 0 <= i < j < |d.corrections| ==> d.corrections[i].id != d.corrections[j].id
  {
  }
}
