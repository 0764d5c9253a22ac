/** Active learning: feedback intake, promotion of repeated corrections into the dictionary, pattern
    analysis and the training export (services/active_learning.py). */
module ActiveLearning {
  import opened Text
  import opened Ranking
  import opened Correctors
  import opened FeedbackCollector

  const DefaultMinOccurrences: int := 2
  const DefaultMinConfidence: real := 0.7
  const MostCommonLimit: nat := 10

  // ---------------------------------------------------------------- promotion

  /** The loop of `_auto_update_corrections` over the first candidates: a candidate whose original is not yet
      a key is added (identity pairs are refused by the dictionary but still counted) and its ids are
      collected. Returns the dictionary, the collected ids and the number added. */
  function Promote(keys: seq<string>, db: map<string, string>, cands: seq<Candidate>)
    : (r: (seq<string>, map<string, string>, seq<FeedbackId>, nat))
    requires Indexed(keys, db)
    ensures Indexed(r.0, r.1)
  {
    if cands == [] then (keys, db, [], 0)
    else
      var prev := Promote(keys, db, cands[..|cands| - 1]);
      var c := cands[|cands| - 1];
      if c.original !in prev.1 then
        var learned := Learned(prev.0, prev.1, c.original, c.corrected);
        (learned.0, learned.1, prev.2 + c.feedbackIds, prev.3 + 1)
      else prev
  }

  /** Promotion never overwrites or removes a key, and every new key comes from a candidate, with that
      candidate's correction. */
  lemma {:induction false} PromoteKeepsAndSources(keys: seq<string>, db: map<string, string>, cands: seq<Candidate>)
    requires Indexed(keys, db)
    ensures var db2 := Promote(keys, db, cands).1;
      && (forall k :: k in db ==> k in db2 && db2[k] == db[k])
      && (forall k :: k in db2 && k !in db ==>
            exists i :: 0 <= i < |cands| && cands[i].original == k && cands[i].corrected == db2[k])
  {
    if cands != [] {
      var init := cands[..|cands| - 1];
      var c := cands[|cands| - 1];
      PromoteKeepsAndSources(keys, db, init);
      var prev := Promote(keys, db, init);
      LearnedSpec(prev.0, prev.1, c.original, c.corrected);
      var db2 := Promote(keys, db, cands).1;
      forall k | k in db2 && k !in db
        ensures exists i :: 0 <= i < |cands| && cands[i].original == k && cands[i].corrected == db2[k]
      {
        if k in prev.1 && !(c.original !in prev.1 && k == c.original) {
          var i :| 0 <= i < |init| && init[i].original == k && init[i].corrected == prev.1[k];
          assert cands[i] == init[i];
        } else {
          assert cands[|cands| - 1] == c;
        }
      }
    }
  }

  /** The first candidate for a key that was absent decides its value, unless it is an identity pair. */
  lemma {:induction false} PromoteFirstWins(keys: seq<string>, db: map<string, string>, cands: seq<Candidate>)
    requires Indexed(keys, db)
    ensures var db2 := Promote(keys, db, cands).1;
      forall i :: 0 <= i < |cands| && cands[i].original !in db && cands[i].original != cands[i].corrected
                  && (forall j :: 0 <= j < i ==> cands[j].original != cands[i].original) ==>
        cands[i].original in db2 && db2[cands[i].original] == cands[i].corrected
  {
    if cands != [] {
      var init := cands[..|cands| - 1];
      var c := cands[|cands| - 1];
      PromoteFirstWins(keys, db, init);
      PromoteKeepsAndSources(keys, db, init);
      var prev := Promote(keys, db, init);
      LearnedSpec(prev.0, prev.1, c.original, c.corrected);
      var db2 := Promote(keys, db, cands).1;
      forall i | 0 <= i < |cands| && cands[i].original !in db && cands[i].original != cands[i].corrected
                 && (forall j :: 0 <= j < i ==> cands[j].original != cands[i].original)
        ensures cands[i].original in db2 && db2[cands[i].original] == cands[i].corrected
      {
        if i < |init| {
          assert init[i] == cands[i];
          assert forall j :: 0 <= j < i ==> init[j] == cands[j];
        } else {
          assert forall m :: 0 <= m < |init| ==> init[m].original != c.original;
        }
      }
    }
  }

  /** Candidate `i` is promoted: its original is not a key when the loop reaches it, neither before the
      update nor added by an earlier candidate of the same run. */
  predicate PromotedAt(keys: seq<string>, db: map<string, string>, cands: seq<Candidate>, i: nat)
    requires Indexed(keys, db) && i < |cands|
  {
    cands[i].original !in Promote(keys, db, cands[..i]).1
  }

  /** `id` belongs to some promoted candidate. */
  ghost predicate CollectedBy(keys: seq<string>, db: map<string, string>, cands: seq<Candidate>, id: FeedbackId)
    requires Indexed(keys, db)
  {
    exists i :: 0 <= i < |cands| && PromotedAt(keys, db, cands, i) && id in cands[i].feedbackIds
  }

  /** An id is collected exactly when it belongs to a promoted candidate; at most one is added per candidate. */
  lemma {:induction false} PromoteIds(keys: seq<string>, db: map<string, string>, cands: seq<Candidate>)
    requires Indexed(keys, db)
    ensures var r := Promote(keys, db, cands);
      && (forall id :: id in r.2 <==> CollectedBy(keys, db, cands, id))
      && r.3 <= |cands|
  {
    if cands != [] {
      PromoteIds(keys, db, cands[..|cands| - 1]);
      forall id
        ensures CollectedBy(keys, db, cands, id) <==>
          CollectedBy(keys, db, cands[..|cands| - 1], id)
          || (PromotedAt(keys, db, cands, |cands| - 1) && id in cands[|cands| - 1].feedbackIds)
      {
        CollectedByStep(keys, db, cands, id);
      }
    }
  }

  /** Being collected by a run splits into being collected by its prefix or by its last candidate. */
  lemma CollectedByStep(keys: seq<string>, db: map<string, string>, cands: seq<Candidate>, id: FeedbackId)
    requires Indexed(keys, db) && cands != []
    ensures CollectedBy(keys, db, cands, id) <==>
      CollectedBy(keys, db, cands[..|cands| - 1], id)
      || (PromotedAt(keys, db, cands, |cands| - 1) && id in cands[|cands| - 1].feedbackIds)
  {
    var n := |cands| - 1;
    if CollectedBy(keys, db, cands, id) {
      var i :| 0 <= i < |cands| && PromotedAt(keys, db, cands, i) && id in cands[i].feedbackIds;
      if i < n {
        PromotedAtPrefix(keys, db, cands, i);
      }
    }
    if CollectedBy(keys, db, cands[..n], id) {
      var i :| 0 <= i < n && PromotedAt(keys, db, cands[..n], i) && id in cands[..n][i].feedbackIds;
      PromotedAtPrefix(keys, db, cands, i);
    }
  }

  /** Whether a candidate is promoted does not depend on the candidates after it. */
  lemma PromotedAtPrefix(keys: seq<string>, db: map<string, string>, cands: seq<Candidate>, i: nat)
    requires Indexed(keys, db) && i + 1 < |cands|
    ensures cands[..|cands| - 1][i] == cands[i]
    ensures PromotedAt(keys, db, cands, i) <==> PromotedAt(keys, db, cands[..|cands| - 1], i)
  {
    assert cands[..|cands| - 1][..i] == cands[..i];
  }

  /** A promoted identity candidate adds no key, yet its ids are collected and will be marked applied. */
  lemma IdentityCandidateMarked(keys: seq<string>, db: map<string, string>, cands: seq<Candidate>, i: nat)
    requires Indexed(keys, db) && i < |cands|
    requires cands[i].original == cands[i].corrected && PromotedAt(keys, db, cands, i)
    ensures Promote(keys, db, cands[..i + 1]).1 == Promote(keys, db, cands[..i]).1
    ensures forall id :: id in cands[i].feedbackIds ==> id in Promote(keys, db, cands).2
  {
    assert cands[..i + 1][..i] == cands[..i];
    PromoteIds(keys, db, cands);
    forall id | id in cands[i].feedbackIds
      ensures id in Promote(keys, db, cands).2
    {
      assert CollectedBy(keys, db, cands, id);
    }
  }

  /** A promoted candidate's original was not a key before the update. */
  lemma PromotedWasAbsent(keys: seq<string>, db: map<string, string>, cands: seq<Candidate>, i: nat)
    requires Indexed(keys, db) && i < |cands| && PromotedAt(keys, db, cands, i)
    ensures cands[i].original !in db
  {
    PromoteKeepsAndSources(keys, db, cands[..i]);
  }

  /** What one automatic update does to a store's candidates: every key it adds comes from an unapplied
      pair seen at least `minOccurrences` times with mean confidence at least `minConfidence`; every id it
      collects names an unapplied record whose original was not a key before the update. */
  lemma PromotionSafety(cs: seq<CorrectionRecord>, minConfidence: real, minOccurrences: int,
                        keys: seq<string>, db: map<string, string>)
    requires Indexed(keys, db)
    ensures var cands := UnappliedCandidates(cs, minConfidence, minOccurrences);
      var r := Promote(keys, db, cands);
      && (forall k :: k in r.1 && k !in db ==>
            && IsUnappliedPair(cs, k, r.1[k])
            && |IdsOfPair(cs, k, r.1[k])| >= minOccurrences
            && |IdsOfPair(cs, k, r.1[k])| > 0
            && ConfidenceOfPair(cs, k, r.1[k]) / |IdsOfPair(cs, k, r.1[k])| as real >= minConfidence)
      && (forall id :: id in r.2 ==>
            exists i :: 0 <= i < |cs| && cs[i].id == id && !cs[i].applied && cs[i].original !in db)
  {
    var cands := UnappliedCandidates(cs, minConfidence, minOccurrences);
    UnappliedCandidatesSpec(cs, minConfidence, minOccurrences);
    PromoteKeepsAndSources(keys, db, cands);
    PromoteIds(keys, db, cands);
    var r := Promote(keys, db, cands);
    forall k | k in r.1 && k !in db
      ensures IsUnappliedPair(cs, k, r.1[k])
      ensures |IdsOfPair(cs, k, r.1[k])| >= minOccurrences
      ensures |IdsOfPair(cs, k, r.1[k])| > 0
      ensures ConfidenceOfPair(cs, k, r.1[k]) / |IdsOfPair(cs, k, r.1[k])| as real >= minConfidence
    {
      var i :| 0 <= i < |cands| && cands[i].original == k && cands[i].corrected == r.1[k];
      assert cands[i] in cands;
    }
    forall id | id in r.2
      ensures exists i :: 0 <= i < |cs| && cs[i].id == id && !cs[i].applied && cs[i].original !in db
    {
      assert CollectedBy(keys, db, cands, id);
      var j :| 0 <= j < |cands| && PromotedAt(keys, db, cands, j) && id in cands[j].feedbackIds;
      PromotedWasAbsent(keys, db, cands, j);
      var c := cands[j];
      assert c in cands;
      IdsOfPairRecords(cs, c.original, c.corrected);
    }
  }

  /** An update marks whole pairs: every unapplied record of a promoted candidate's pair has its id marked. */
  lemma PromotionMarksWholePairs(cs: seq<CorrectionRecord>, minConfidence: real, minOccurrences: int,
                                 keys: seq<string>, db: map<string, string>, i: nat, j: nat)
    requires Indexed(keys, db)
    requires var cands := UnappliedCandidates(cs, minConfidence, minOccurrences);
      i < |cands| && j < |cs| && PromotedAt(keys, db, cands, i)
      && !cs[j].applied && cs[j].original == cands[i].original && cs[j].corrected == cands[i].corrected
    ensures cs[j].id in Promote(keys, db, UnappliedCandidates(cs, minConfidence, minOccurrences)).2
  {
    var cands := UnappliedCandidates(cs, minConfidence, minOccurrences);
    UnappliedCandidatesSpec(cs, minConfidence, minOccurrences);
    PromoteIds(keys, db, cands);
    var c := cands[i];
    assert c in cands;
    IdsOfPairComplete(cs, c.original, c.corrected, j);
    assert CollectedBy(keys, db, cands, cs[j].id);
  }

  /** With no candidates nothing is promoted. */
  lemma NoCandidatesNoChange(keys: seq<string>, db: map<string, string>)
    requires Indexed(keys, db)
    ensures Promote(keys, db, []) == (keys, db, [], 0)
  {
  }

  // ---------------------------------------------------------------- pattern analysis

  datatype ErrorCount = ErrorCount(original: string, corrected: string, count: nat)

  function ErrorRank(e: ErrorCount): (int, real) { (e.count, 0.0) }

  /** The `Counter` over unapplied pairs, in first-seen order: one entry per group. */
  function ErrorCounts(cs: seq<CorrectionRecord>): seq<ErrorCount> {
    var gs := GroupsOf(cs);
    seq(|gs|, i requires 0 <= i < |gs| => ErrorCount(gs[i].original, gs[i].corrected, |gs[i].ids|))
  }

  /** `error_counter.most_common(10)`. */
  function CommonErrors(cs: seq<CorrectionRecord>): seq<ErrorCount> {
    Prefix(SortDesc(ErrorCounts(cs), ErrorRank), MostCommonLimit)
  }

  /** The ten most frequent unapplied pairs (all of them when there are fewer), by count descending: no pair
      left out has a larger count than one listed, and each entry counts exactly the unapplied records of its
      pair. */
  lemma CommonErrorsSpec(cs: seq<CorrectionRecord>)
    ensures var r := CommonErrors(cs);
      && |r| == (if |ErrorCounts(cs)| < 10 then |ErrorCounts(cs)| else 10)
      && (forall i, j :: 0 <= i < j < |r| ==> r[j].count <= r[i].count)
      && (forall e, x :: e in ErrorCounts(cs) && e !in r && x in r ==> e.count <= x.count)
      && (forall e :: e in r ==> e.count == |IdsOfPair(cs, e.original, e.corrected)| > 0
                                  && IsUnappliedPair(cs, e.original, e.corrected))
  {
    CommonErrorsTop(cs);
    CommonErrorsCounts(cs);
  }

  lemma CommonErrorsTop(cs: seq<CorrectionRecord>)
    ensures var r := CommonErrors(cs);
      && (forall i, j :: 0 <= i < j < |r| ==> r[j].count <= r[i].count)
      && (forall e, x :: e in ErrorCounts(cs) && e !in r && x in r ==> e.count <= x.count)
  {
    var all := ErrorCounts(cs);
    var sorted := SortDesc(all, ErrorRank);
    var r := CommonErrors(cs);
    assert r == sorted[..|r|];
    SortDescSorted(all, ErrorRank);
    SortDescTop(all, ErrorRank, |r|);
  }

  lemma CommonErrorsCounts(cs: seq<CorrectionRecord>)
    ensures forall e :: e in CommonErrors(cs) ==>
      e.count == |IdsOfPair(cs, e.original, e.corrected)| > 0 && IsUnappliedPair(cs, e.original, e.corrected)
  {
    var all := ErrorCounts(cs);
    var sorted := SortDesc(all, ErrorRank);
    SortDescPermutes(all, ErrorRank);
    forall e | e in CommonErrors(cs)
      ensures e.count == |IdsOfPair(cs, e.original, e.corrected)| > 0 && IsUnappliedPair(cs, e.original, e.corrected)
    {
      assert e in sorted;
      assert e in multiset(sorted);
      assert e in all;
      var i :| 0 <= i < |all| && all[i] == e;
      var g := GroupsOf(cs)[i];
      assert g in GroupsOf(cs);
      CandidateOfGroup(cs, g);
    }
  }

  /** Classification accuracy for one predicted type. */
  datatype TypeStats = TypeStats(predictedType: string, correct: nat, total: nat)

  function FindType(stats: seq<TypeStats>, t: string): (r: Option<nat>)
    ensures r.Some? ==> r.value < |stats| && stats[r.value].predictedType == t
    ensures r.None? ==> forall i :: 0 <= i < |stats| ==> stats[i].predictedType != t
  {
    if stats == [] then None
    else if stats[|stats| - 1].predictedType == t then Some(|stats| - 1)
    else FindType(stats[..|stats| - 1], t)
  }

  /** One iteration of the `type_accuracy` loop. */
  function CountType(stats: seq<TypeStats>, d: DocumentTypeRecord): seq<TypeStats> {
    var inc := if d.correct then 1 else 0;
    match FindType(stats, d.predictedType)
    case None => stats + [TypeStats(d.predictedType, inc, 1)]
    case Some(i) => stats[i := stats[i].(correct := stats[i].correct + inc, total := stats[i].total + 1)]
  }

  function TypeAccuracy(ds: seq<DocumentTypeRecord>): seq<TypeStats> {
    if ds == [] then [] else CountType(TypeAccuracy(ds[..|ds| - 1]), ds[|ds| - 1])
  }

  /** Records with this predicted type, and those of them marked correct. */
  function TypeTotal(ds: seq<DocumentTypeRecord>, t: string): nat {
    if ds == [] then 0 else TypeTotal(ds[..|ds| - 1], t) + (if ds[|ds| - 1].predictedType == t then 1 else 0)
  }

  function TypeCorrect(ds: seq<DocumentTypeRecord>, t: string): nat {
    if ds == [] then 0
    else TypeCorrect(ds[..|ds| - 1], t) + (if ds[|ds| - 1].predictedType == t && ds[|ds| - 1].correct then 1 else 0)
  }

  /** `st` tallies `ds`: one entry per predicted type, counting exactly its records and its correct ones. */
  ghost predicate Tallies(st: seq<TypeStats>, ds: seq<DocumentTypeRecord>) {
    && (forall i :: 0 <= i < |st| ==>
          st[i].total == TypeTotal(ds, st[i].predictedType) > 0 && st[i].correct == TypeCorrect(ds, st[i].predictedType))
    && (forall i, j :: 0 <= i < j < |st| ==> st[i].predictedType != st[j].predictedType)
    && (forall t :: TypeTotal(ds, t) > 0 ==> FindType(st, t).Some?)
  }

  lemma CountTypeCounts(st: seq<TypeStats>, ds: seq<DocumentTypeRecord>, d: DocumentTypeRecord)
    requires Tallies(st, ds)
    ensures var st2, ds2 := CountType(st, d), ds + [d];
      forall i :: 0 <= i < |st2| ==>
        st2[i].total == TypeTotal(ds2, st2[i].predictedType) > 0 && st2[i].correct == TypeCorrect(ds2, st2[i].predictedType)
  {
    var ds2 := ds + [d];
    assert ds2[..|ds2| - 1] == ds;
    var st2 := CountType(st, d);
    forall i | 0 <= i < |st2|
      ensures st2[i].total == TypeTotal(ds2, st2[i].predictedType) > 0
      ensures st2[i].correct == TypeCorrect(ds2, st2[i].predictedType)
    {
      var t := st2[i].predictedType;
      match FindType(st, d.predictedType)
      case None =>
        if i == |st| {
          TypeCorrectBounded(ds, t);
        } else {
          assert st2[i] == st[i];
        }
      case Some(k) =>
        if i != k {
          assert st2[i] == st[i];
        }
    }
  }

  lemma CountTypeComplete(st: seq<TypeStats>, ds: seq<DocumentTypeRecord>, d: DocumentTypeRecord)
    requires Tallies(st, ds)
    ensures var st2, ds2 := CountType(st, d), ds + [d];
      && (forall i, j :: 0 <= i < j < |st2| ==> st2[i].predictedType != st2[j].predictedType)
      && (forall t :: TypeTotal(ds2, t) > 0 ==> FindType(st2, t).Some?)
  {
    var ds2 := ds + [d];
    assert ds2[..|ds2| - 1] == ds;
    var st2 := CountType(st, d);
    forall t | TypeTotal(ds2, t) > 0 ensures FindType(st2, t).Some? {
      if t != d.predictedType {
        var k := FindType(st, t).value;
        assert st2[k].predictedType == t;
      } else {
        match FindType(st, t)
        case None => assert st2[|st2| - 1].predictedType == t;
        case Some(k) => assert st2[k].predictedType == t;
      }
    }
  }

  /** Each entry counts exactly the records predicted as its type and those of them that were right, so
      correct <= total and total > 0; entries have distinct types and every predicted type has one. */
  lemma {:induction false} TypeAccuracySpec(ds: seq<DocumentTypeRecord>)
    ensures Tallies(TypeAccuracy(ds), ds)
    ensures forall i :: 0 <= i < |TypeAccuracy(ds)| ==> TypeAccuracy(ds)[i].correct <= TypeAccuracy(ds)[i].total
  {
    if ds != [] {
      var init := ds[..|ds| - 1];
      TypeAccuracySpec(init);
      CountTypeCounts(TypeAccuracy(init), init, ds[|ds| - 1]);
      CountTypeComplete(TypeAccuracy(init), init, ds[|ds| - 1]);
      assert init + [ds[|ds| - 1]] == ds;
    }
    var st := TypeAccuracy(ds);
    forall i | 0 <= i < |st| ensures st[i].correct <= st[i].total {
      TypeCorrectBounded(ds, st[i].predictedType);
    }
  }

  lemma {:induction false} TypeCorrectBounded(ds: seq<DocumentTypeRecord>, t: string)
    ensures TypeCorrect(ds, t) <= TypeTotal(ds, t)
    ensures TypeTotal(ds, t) == 0 ==> TypeCorrect(ds, t) == 0
  {
    if ds != [] {
      TypeCorrectBounded(ds[..|ds| - 1], t);
    }
  }

  function Accuracy(s: TypeStats): real {
    if s.total > 0 then s.correct as real / s.total as real else 0.0
  }

  predicate LowAccuracy(s: TypeStats) {
    Accuracy(s) < 0.7 && s.total >= 5
  }

  function LowAccuracyTypes(st: seq<TypeStats>): (r: seq<string>)
    ensures |r| <= |st|
    ensures forall t :: t in r <==> exists i :: 0 <= i < |st| && LowAccuracy(st[i]) && st[i].predictedType == t
  {
    if st == [] then []
    else
      var prev := LowAccuracyTypes(st[..|st| - 1]);
      var s := st[|st| - 1];
      assert forall i :: 0 <= i < |st| - 1 ==> st[..|st| - 1][i] == st[i];
      if LowAccuracy(s) then prev + [s.predictedType] else prev
  }

  datatype Recommendation = AddFrequentErrors(count: nat) | RetrainTypes(types: seq<string>)

  datatype Analysis = Analysis(commonErrors: seq<ErrorCount>, typeAccuracy: seq<TypeStats>, recommendations: seq<Recommendation>)

  function Recommendations(errors: seq<ErrorCount>, st: seq<TypeStats>): (r: seq<Recommendation>)
    ensures (exists i :: 0 <= i < |r| && r[i].AddFrequentErrors?) <==> errors != []
    ensures (exists i :: 0 <= i < |r| && r[i].RetrainTypes?) <==> exists i :: 0 <= i < |st| && LowAccuracy(st[i])
  {
    var low := LowAccuracyTypes(st);
    assert low != [] <==> exists i :: 0 <= i < |st| && LowAccuracy(st[i]) by {
      if exists i :: 0 <= i < |st| && LowAccuracy(st[i]) {
        var i :| 0 <= i < |st| && LowAccuracy(st[i]);
        assert st[i].predictedType in low;
      }
      if low != [] {
        assert low[0] in low;
      }
    }
    var r := (if errors != [] then [AddFrequentErrors(|errors|)] else []) + (if low != [] then [RetrainTypes(low)] else []);
    assert errors != [] ==> r[0].AddFrequentErrors?;
    assert low != [] ==> r[|r| - 1].RetrainTypes?;
    r
  }

  // ---------------------------------------------------------------- export

  datatype TrainingCorrection = TrainingCorrection(original: string, corrected: string, context: Option<string>, confidence: real)

  /** The correction part of `export_training_data`: the unapplied records, in order. */
  function ExportCorrections(cs: seq<CorrectionRecord>): (r: seq<TrainingCorrection>)
    ensures |r| == |cs| - CountApplied(cs)
  {
    if cs == [] then []
    else
      var c := cs[|cs| - 1];
      ExportCorrections(cs[..|cs| - 1])
        + (if !c.applied then [TrainingCorrection(c.original, c.corrected, c.context, c.confidence)] else [])
  }

  /** Exported corrections are exactly the unapplied records. */
  lemma {:induction false} ExportExact(cs: seq<CorrectionRecord>)
    ensures forall t :: t in ExportCorrections(cs) <==>
      exists i :: 0 <= i < |cs| && !cs[i].applied && t == TrainingCorrection(cs[i].original, cs[i].corrected, cs[i].context, cs[i].confidence)
  {
    if cs != [] {
      var init := cs[..|cs| - 1];
      ExportExact(init);
      assert forall i :: 0 <= i < |init| ==> init[i] == cs[i];
    }
  }

  datatype TrainingData = TrainingData(
    corrections: seq<TrainingCorrection>, documentTypes: seq<DocumentTypeRecord>, qualityRatings: seq<QualityRecord>, exportTimestamp: string)

  // ---------------------------------------------------------------- the system

  datatype CorrectionPayload = CorrectionPayload(
    original: string, corrected: string, documentId: string, context: Option<string>, userId: Option<string>, confidence: real)
  datatype QualityPayload = QualityPayload(documentId: string, rating: real, issues: Option<seq<string>>, userId: Option<string>)
  datatype DocumentTypePayload = DocumentTypePayload(documentId: string, predictedType: string, actualType: string, userId: Option<string>)

  /** A feedback submission: any of the three parts may be present. */
  datatype Payload = Payload(correction: Option<CorrectionPayload>, quality: Option<QualityPayload>, documentType: Option<DocumentTypePayload>)

  datatype ProcessResult = ProcessResult(
    correctionsAdded: seq<FeedbackId>, correctionsUpdated: seq<FeedbackId>,
    documentTypesLearned: seq<string>, qualityImprovements: seq<string>)

  /** The error counter of `analyze_feedback_patterns`: unapplied pairs counted, ten most common first. */
  method CountErrors(cs: seq<CorrectionRecord>) returns (common: seq<ErrorCount>)
    ensures common == CommonErrors(cs)
  {
    var groups := CollectGroups(cs);
    var counts := seq(|groups|, i requires 0 <= i < |groups| => ErrorCount(groups[i].original, groups[i].corrected, |groups[i].ids|));
    common := Prefix(SortDesc(counts, ErrorRank), MostCommonLimit);
  }

  /** The per-type tally of `analyze_feedback_patterns`. */
  method CountTypes(ds: seq<DocumentTypeRecord>) returns (stats: seq<TypeStats>)
    ensures stats == TypeAccuracy(ds)
  {
    stats := [];
    for i := 0 to |ds|
      invariant stats == TypeAccuracy(ds[..i])
    {
      assert ds[..i + 1][..i] == ds[..i];
      ghost var next := CountType(stats, ds[i]);
      var inc := if ds[i].correct then 1 else 0;
      var k := FindType(stats, ds[i].predictedType);
      if k.None? {
        stats := stats + [TypeStats(ds[i].predictedType, inc, 1)];
      } else {
        stats := stats[k.value := stats[k.value].(correct := stats[k.value].correct + inc, total := stats[k.value].total + 1)];
      }
      assert stats == next;
    }
    assert ds[..|ds|] == ds;
  }

  // ---------------------------------------------------------------- feedback intake

  /** The record `add_correction_feedback` stores for a submitted correction, at position `n`. */
  function CorrectionOf(c: CorrectionPayload, now: Instant, n: nat): CorrectionRecord {
    CorrectionRecord(FeedbackId(CorrectionKind, now.compact, n), c.original, c.corrected, c.documentId, c.context,
                     c.userId, c.confidence, now.iso, false, None)
  }

  /** The record `add_quality_rating` stores for a submitted rating, at position `n`. */
  function RatingOf(q: QualityPayload, now: Instant, n: nat): QualityRecord {
    QualityRecord(FeedbackId(QualityKind, now.compact, n), q.documentId, q.rating,
                  if q.issues.Some? then q.issues.value else [], q.userId, now.iso)
  }

  /** The record `add_document_type_feedback` stores for a submitted type, at position `n`. */
  function TypeRecordOf(t: DocumentTypePayload, now: Instant, n: nat): DocumentTypeRecord {
    DocumentTypeRecord(FeedbackId(DocumentTypeKind, now.compact, n), t.documentId, t.predictedType, t.actualType,
                       t.predictedType == t.actualType, t.userId, now.iso)
  }

  /** What one run of `_auto_update_corrections` leaves: the corrections, with the collected ids marked
      applied at `at` when any were collected, and the dictionary after promotion. */
  function AutoUpdated(cs: seq<CorrectionRecord>, keys: seq<string>, db: map<string, string>,
                       minConfidence: real, minOccurrences: int, at: string)
    : (r: (seq<CorrectionRecord>, seq<string>, map<string, string>))
    requires Indexed(keys, db)
    ensures Indexed(r.1, r.2) && |r.0| == |cs|
  {
    var p := Promote(keys, db, UnappliedCandidates(cs, minConfidence, minOccurrences));
    (if p.2 == [] then cs else Marked(cs, p.2, at), p.0, p.1)
  }

  /** The behaviour the automatic update exists for, from an empty store with the default thresholds: a
      single submission of a correction promotes nothing and marks nothing. */
  lemma SingleCorrectionNotPromoted(keys: seq<string>, db: map<string, string>, c1: CorrectionPayload, now1: Instant)
    requires Indexed(keys, db)
    ensures var r1 := CorrectionOf(c1, now1, 0);
      AutoUpdated([r1], keys, db, DefaultMinConfidence, DefaultMinOccurrences, now1.iso) == ([r1], keys, db)
  {
    var r1 := CorrectionOf(c1, now1, 0);
    GroupsOfOne(r1);
    var g1 := Group(c1.original, c1.corrected, [r1.id], c1.confidence);
    assert [g1][..0] == [];
    assert Qualified([g1], DefaultMinConfidence, DefaultMinOccurrences) == [];
  }

  /** ... and a second submission of the same correction, with mean confidence at least 0.7 and a source text
      not yet in the dictionary, adds it to the dictionary and marks both submissions applied. */
  lemma RepeatedCorrectionPromoted(keys: seq<string>, db: map<string, string>,
                                   c1: CorrectionPayload, now1: Instant, c2: CorrectionPayload, now2: Instant)
    requires Indexed(keys, db)
    requires c1.original == c2.original && c1.corrected == c2.corrected && c1.original != c1.corrected
    requires c1.original !in db
    requires (c1.confidence + c2.confidence) / 2.0 >= DefaultMinConfidence
    ensures var r1, r2 := CorrectionOf(c1, now1, 0), CorrectionOf(c2, now2, 1);
      var after := AutoUpdated([r1, r2], keys, db, DefaultMinConfidence, DefaultMinOccurrences, now2.iso);
      && after.2 == db[c1.original := c1.corrected]
      && after.0 == [r1.(applied := true, appliedAt := Some(now2.iso)), r2.(applied := true, appliedAt := Some(now2.iso))]
  {
    var r1, r2 := CorrectionOf(c1, now1, 0), CorrectionOf(c2, now2, 1);
    GroupsOfSamePair(r1, r2);
    var g := Group(c1.original, c1.corrected, [r1.id, r2.id], c1.confidence + c2.confidence);
    var cand := PairQualifies(g);
    SortDescSingleton(cand, CandidateRank);
    PromoteSingle(keys, db, cand);
    MarkedBoth(r1, r2, now2.iso);
  }

  /** Marking both ids of a two-record list marks both records. */
  lemma MarkedBoth(r1: CorrectionRecord, r2: CorrectionRecord, at: string)
    ensures Marked([r1, r2], [r1.id, r2.id], at)
         == [r1.(applied := true, appliedAt := Some(at)), r2.(applied := true, appliedAt := Some(at))]
  {
  }

  /** One unapplied record forms one group. */
  lemma GroupsOfOne(r1: CorrectionRecord)
    requires !r1.applied
    ensures GroupsOf([r1]) == [Group(r1.original, r1.corrected, [r1.id], r1.confidence)]
  {
    assert [r1][..0] == [];
  }

  /** Two unapplied records of one pair form one group, in list order. */
  lemma GroupsOfSamePair(r1: CorrectionRecord, r2: CorrectionRecord)
    requires !r1.applied && !r2.applied && r1.original == r2.original && r1.corrected == r2.corrected
    ensures GroupsOf([r1, r2]) == [Group(r1.original, r1.corrected, [r1.id, r2.id], r1.confidence + r2.confidence)]
  {
    GroupsOfOne(r1);
    assert [r1, r2][..1] == [r1];
    var g1 := Group(r1.original, r1.corrected, [r1.id], r1.confidence);
    assert FindGroup([g1], r2.original, r2.corrected) == Some(0);
    assert GroupsOf([r1, r2]) == AddToGroups([g1], r2);
    assert [r1.id] + [r2.id] == [r1.id, r2.id];
  }

  /** A group of two ids whose mean confidence reaches the default threshold is the one candidate. */
  lemma PairQualifies(g: Group) returns (cand: Candidate)
    requires |g.ids| == 2 && g.totalConfidence / 2.0 >= DefaultMinConfidence
    ensures cand == ToCandidate(g) && cand.feedbackIds == g.ids
    ensures Qualified([g], DefaultMinConfidence, DefaultMinOccurrences) == [cand]
  {
    cand := ToCandidate(g);
    assert cand.avgConfidence == g.totalConfidence / 2.0;
    assert [g][..0] == [];
  }

  /** Promoting one candidate whose source text is new adds exactly its entry and collects its ids. */
  lemma PromoteSingle(keys: seq<string>, db: map<string, string>, cand: Candidate)
    requires Indexed(keys, db) && cand.original !in db && cand.original != cand.corrected
    ensures Promote(keys, db, [cand]).1 == db[cand.original := cand.corrected]
    ensures Promote(keys, db, [cand]).2 == cand.feedbackIds
  {
    assert [cand][..0] == [];
  }

  class ActiveLearningSystem {
    const store: FeedbackStore
    const corrector: AutoCorrectionSystem
    var autoUpdateEnabled: bool
    const minOccurrences: int
    const minConfidence: real

    ghost predicate Valid()
      reads this, store, corrector
    {
      store.Valid() && corrector.Valid()
    }

    /** `__init__`: a store and a dictionary of its own, automatic update on, thresholds 2 and 0.7. */
    constructor (storeOutcome: StoreOutcome, dictionaryOutcome: LoadOutcome)
      requires storeOutcome.StoreParsed? ==> PositionalIds(storeOutcome.data)
      ensures Valid() && fresh(store) && fresh(corrector)
      ensures store.Data() == LoadFeedback(storeOutcome)
      ensures (corrector.keys, corrector.db) == LoadCorrections(dictionaryOutcome)
      ensures autoUpdateEnabled && minOccurrences == 2 && minConfidence == 0.7
    {
      store := new FeedbackStore(storeOutcome);
      corrector := new AutoCorrectionSystem(dictionaryOutcome);
      autoUpdateEnabled := true;
      minOccurrences := DefaultMinOccurrences;
      minConfidence := DefaultMinConfidence;
    }

    /** The promotion loop of `_auto_update_corrections`: each candidate whose source text is not in the
        dictionary yet is added, and its feedback ids are collected. */
    method PromoteCandidates(candidates: seq<Candidate>) returns (idsToMark: seq<FeedbackId>, addedCount: nat)
      requires corrector.Valid()
      modifies corrector
      ensures corrector.Valid()
      ensures (corrector.keys, corrector.db, idsToMark, addedCount) == Promote(old(corrector.keys), old(corrector.db), candidates)
    {
      addedCount := 0;
      idsToMark := [];
      for i := 0 to |candidates|
        invariant corrector.Valid()
        invariant (corrector.keys, corrector.db, idsToMark, addedCount)
                  == Promote(old(corrector.keys), old(corrector.db), candidates[..i])
      {
        assert candidates[..i + 1][..i] == candidates[..i];
        var c := candidates[i];
        if c.original !in corrector.db {
          corrector.AddCorrection(c.original, c.corrected, false);
          addedCount := addedCount + 1;
          idsToMark := idsToMark + c.feedbackIds;
        }
      }
      assert candidates[..|candidates|] == candidates;
    }

    /** `_auto_update_corrections`: promotes the current candidates and marks exactly the ids collected. */
    method AutoUpdateCorrections(now: Instant)
      requires Valid()
      modifies store, corrector
      ensures Valid()
      ensures var cands := UnappliedCandidates(old(store.corrections), minConfidence, minOccurrences);
        var (keys, db, ids, _) := Promote(old(corrector.keys), old(corrector.db), cands);
        && corrector.keys == keys && corrector.db == db
        && (ids == [] ==> store.Data() == old(store.Data()))
        && (ids != [] ==> store.corrections == Marked(old(store.corrections), ids, now.iso)
                          && store.lastUpdated == Some(now.iso))
      ensures store.documentTypes == old(store.documentTypes) && store.qualityRatings == old(store.qualityRatings)
      ensures store.totalFeedback == old(store.totalFeedback) && store.correctionsCount == old(store.correctionsCount)
    {
      var candidates := store.GetUnappliedCorrections(minConfidence, minOccurrences);
      if candidates == [] {
        return;
      }
      var idsToMark, _ := PromoteCandidates(candidates);
      if idsToMark != [] {
        store.MarkCorrectionsApplied(idsToMark, now);
      }
    }

    /** The correction part of `process_feedback`: the record is stored, then automatic update runs over the
        store including it, and the new record's id is reported. */
    method ProcessCorrection(c: CorrectionPayload, now: Instant) returns (added: seq<FeedbackId>)
      requires Valid()
      modifies store, corrector
      ensures Valid()
      ensures var rec := CorrectionOf(c, now, |old(store.corrections)|);
        && added == (if autoUpdateEnabled then [rec.id] else [])
        && (autoUpdateEnabled ==>
              (store.corrections, corrector.keys, corrector.db)
              == AutoUpdated(old(store.corrections) + [rec], old(corrector.keys), old(corrector.db),
                             minConfidence, minOccurrences, now.iso))
        && (!autoUpdateEnabled ==>
              && store.corrections == old(store.corrections) + [rec]
              && corrector.keys == old(corrector.keys) && corrector.db == old(corrector.db))
      ensures |store.corrections| == |old(store.corrections)| + 1
      ensures var rec := store.corrections[|old(store.corrections)|];
        && rec.id == FeedbackId(CorrectionKind, now.compact, |old(store.corrections)|)
        && rec.original == c.original && rec.corrected == c.corrected
      ensures old(corrector.db).Keys <= corrector.db.Keys
      ensures forall k :: k in old(corrector.db) ==> corrector.db[k] == old(corrector.db)[k]
      ensures store.documentTypes == old(store.documentTypes) && store.qualityRatings == old(store.qualityRatings)
      ensures store.totalFeedback == old(store.totalFeedback) + 1
      ensures store.correctionsCount == old(store.correctionsCount) + 1
      ensures store.lastUpdated == Some(now.iso)
    {
      var id := store.AddCorrectionFeedback(c.original, c.corrected, c.documentId, c.context, c.userId, c.confidence, now);
      ghost var appended := store.corrections;
      added := [];
      if autoUpdateEnabled {
        ghost var keys0, db0 := corrector.keys, corrector.db;
        AutoUpdateCorrections(now);
        ghost var cands := UnappliedCandidates(appended, minConfidence, minOccurrences);
        PromoteKeepsAndSources(keys0, db0, cands);
        added := [id];
      }
    }

    /** `process_feedback`: records each part of the submission in turn; a correction triggers automatic update
        when it is enabled, and its id is then reported. */
    method ProcessFeedback(payload: Payload, now: Instant) returns (result: ProcessResult)
      requires Valid()
      modifies store, corrector
      ensures Valid()
      ensures payload.correction.Some? ==>
        var rec := CorrectionOf(payload.correction.value, now, |old(store.corrections)|);
        && result.correctionsAdded == (if autoUpdateEnabled then [rec.id] else [])
        && (autoUpdateEnabled ==>
              (store.corrections, corrector.keys, corrector.db)
              == AutoUpdated(old(store.corrections) + [rec], old(corrector.keys), old(corrector.db),
                             minConfidence, minOccurrences, now.iso))
        && (!autoUpdateEnabled ==>
              && store.corrections == old(store.corrections) + [rec]
              && corrector.keys == old(corrector.keys) && corrector.db == old(corrector.db))
      ensures payload.correction.None? ==> result.correctionsAdded == [] && store.corrections == old(store.corrections)
      ensures payload.correction.None? ==> corrector.keys == old(corrector.keys) && corrector.db == old(corrector.db)
      ensures old(corrector.db).Keys <= corrector.db.Keys
      ensures forall k :: k in old(corrector.db) ==> corrector.db[k] == old(corrector.db)[k]
      ensures store.qualityRatings == old(store.qualityRatings)
        + (if payload.quality.Some? then [RatingOf(payload.quality.value, now, |old(store.qualityRatings)|)] else [])
      ensures store.documentTypes == old(store.documentTypes)
        + (if payload.documentType.Some? then [TypeRecordOf(payload.documentType.value, now, |old(store.documentTypes)|)] else [])
      ensures store.totalFeedback == old(store.totalFeedback)
        + (if payload.correction.Some? then 1 else 0) + (if payload.quality.Some? then 1 else 0)
        + (if payload.documentType.Some? then 1 else 0)
      ensures store.correctionsCount == old(store.correctionsCount) + (if payload.correction.Some? then 1 else 0)
      ensures result.documentTypesLearned == (if payload.documentType.Some? then [payload.documentType.value.actualType] else [])
      ensures result.correctionsUpdated == [] && result.qualityImprovements == []
    {
      result := ProcessResult([], [], [], []);
      if payload.correction.Some? {
        var added := ProcessCorrection(payload.correction.value, now);
        result := result.(correctionsAdded := added);
      }
      if payload.quality.Some? {
        var q := payload.quality.value;
        var _ := store.AddQualityRating(q.documentId, q.rating, q.issues, q.userId, now);
      }
      if payload.documentType.Some? {
        var t := payload.documentType.value;
        var _ := store.AddDocumentTypeFeedback(t.documentId, t.predictedType, t.actualType, t.userId, now);
        result := result.(documentTypesLearned := result.documentTypesLearned + [t.actualType]);
      }
    }

    /** `analyze_feedback_patterns`: the counting loops over the store's lists, then the recommendations. */
    method AnalyzeFeedbackPatterns() returns (analysis: Analysis)
      ensures analysis.commonErrors == CommonErrors(store.corrections)
      ensures analysis.typeAccuracy == TypeAccuracy(store.documentTypes)
      ensures analysis.recommendations == Recommendations(analysis.commonErrors, analysis.typeAccuracy)
    {
      var common := CountErrors(store.corrections);
      var stats := CountTypes(store.documentTypes);
      analysis := Analysis(common, stats, Recommendations(common, stats));
    }

    /** `export_training_data` without the file write. */
    function ExportTrainingData(stamp: string): (t: TrainingData)
      reads this, store
      ensures |t.corrections| == |store.corrections| - CountApplied(store.corrections)
      ensures t.documentTypes == store.documentTypes && t.qualityRatings == store.qualityRatings
    {
      TrainingData(ExportCorrections(store.corrections), store.documentTypes, store.qualityRatings, stamp)
    }
  }
}
