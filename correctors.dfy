/** The correction dictionary and the two-phase auto-correction of recognised text
    (core/correctors.py). */
module Correctors {
  import opened Text

  /** Similarity a dictionary key must reach to be proposed (config/settings.py). */
  const SimilarityThreshold: real := 0.8

  /** Cyrillic look-alikes of the digits 0 and 8. */
  const UpperO: char := '\U{041E}'
  const LowerO: char := '\U{043E}'
  const UpperVe: char := '\U{0412}'
  const LowerVe: char := '\U{0432}'

  const RestoredConfidence: real := 0.95

  datatype Method = ExactMatch | SimilarityMatch | ContextualRussianWord | MlTransformer

  /** Extra fields of a phase-1 record. */
  datatype DigitDetail = DigitDetail(context: string, zeroReplacements: nat, eightReplacements: nat, uppercase: bool)

  /** One entry of `corrections_applied`. */
  datatype AppliedCorrection = AppliedCorrection(
    from: string, to: string, confidence: real, how: Method, detail: Option<DigitDetail>)

  /** What `suggest_correction` returns. */
  datatype Suggestion = Suggestion(
    original: string, corrected: string, confidence: real, how: Method, matchedOriginal: Option<string>)

  /** What `find_similar_correction` returns: the key, its correction and the ratio. */
  datatype SimilarMatch = SimilarMatch(key: string, correction: string, similarity: real)

  /** A piece of text as the word pattern of phase 1 cuts it: a match, or the text between matches. */
  datatype Piece = Word(s: string) | Gap(s: string)

  /** The outcome of reading the dictionary file. */
  datatype LoadOutcome = FileMissing | Parsed(entries: seq<(string, string)>) | Unreadable

  // ---------------------------------------------------------------- the dictionary as a value

  /** `keys` lists the keys of `db` once each, in insertion order (Python dict iteration order). */
  ghost predicate Indexed(keys: seq<string>, db: map<string, string>) {
    && (forall i, j :: 0 <= i < j < |keys| ==> keys[i] != keys[j])
    && (forall k :: k in db <==> k in keys)
  }

  /** `db[k] = v` on a Python dict: a new key goes last, an existing one keeps its place. */
  function Put(keys: seq<string>, db: map<string, string>, k: string, v: string): (r: (seq<string>, map<string, string>))
    requires Indexed(keys, db)
    ensures Indexed(r.0, r.1)
    ensures r.1 == db[k := v]
  {
    if k in db then (keys, db[k := v]) else (keys + [k], db[k := v])
  }

  /** The dictionary a Python dict literal or parsed JSON object with these entries builds. */
  function FromEntries(entries: seq<(string, string)>): (r: (seq<string>, map<string, string>))
    ensures Indexed(r.0, r.1)
    ensures forall k :: k in r.1 <==> exists i :: 0 <= i < |entries| && entries[i].0 == k
  {
    if entries == [] then ([], map[])
    else
      var prev := FromEntries(entries[..|entries| - 1]);
      var e := entries[|entries| - 1];
      var r := Put(prev.0, prev.1, e.0, e.1);
      assert forall i :: 0 <= i < |entries| - 1 ==> entries[..|entries| - 1][i] == entries[i];
      r
  }

  /** A key listed more than once takes the value of its last entry. */
  lemma {:induction false} FromEntriesLastWins(entries: seq<(string, string)>, i: nat)
    requires i < |entries| && forall j :: i < j < |entries| ==> entries[j].0 != entries[i].0
    ensures entries[i].0 in FromEntries(entries).1 && FromEntries(entries).1[entries[i].0] == entries[i].1
  {
    if i < |entries| - 1 {
      var init := entries[..|entries| - 1];
      FromEntriesLastWins(init, i);
    }
  }

  /** The seed written when no dictionary file exists (a misread city name and five letter/digit
      look-alikes), in insertion order. */
  const DefaultKeys: seq<string> := [
    "\U{041C}\U{0430}\U{0440}\U{043A}\U{0443}\U{0442}\U{0430}\U{043B}\U{044C}",
    "\U{041E}", "I", "\U{0417}", "\U{0411}", "\U{0412}"]

  const DefaultCorrections: map<string, string> := map[
    "\U{041C}\U{0430}\U{0440}\U{043A}\U{0443}\U{0442}\U{0430}\U{043B}\U{044C}" :=
      "\U{041C}\U{0430}\U{0440}\U{0438}\U{0443}\U{043F}\U{043E}\U{043B}\U{044C}",
    "\U{041E}" := "0", "I" := "1", "\U{0417}" := "3", "\U{0411}" := "6", "\U{0412}" := "8"]

  /** `load_corrections`: the seed when the file is missing, the file's entries when it parses, nothing
      when it cannot be read. */
  function LoadCorrections(outcome: LoadOutcome): (r: (seq<string>, map<string, string>))
    ensures Indexed(r.0, r.1)
    ensures outcome.Unreadable? ==> r.0 == [] && r.1 == map[]
    ensures outcome.FileMissing? ==> r == (DefaultKeys, DefaultCorrections) && |r.0| == 6
    ensures outcome.Parsed? ==> forall k :: k in r.1 <==> exists i :: 0 <= i < |outcome.entries| && outcome.entries[i].0 == k
    ensures outcome.Parsed? ==>
      forall i :: 0 <= i < |outcome.entries| && (forall j :: i < j < |outcome.entries| ==> outcome.entries[j].0 != outcome.entries[i].0)
                  ==> r.1[outcome.entries[i].0] == outcome.entries[i].1
  {
    match outcome
    case FileMissing => (DefaultKeys, DefaultCorrections)
    case Parsed(entries) =>
      assert forall i :: 0 <= i < |entries| && (forall j :: i < j < |entries| ==> entries[j].0 != entries[i].0)
                         ==> FromEntries(entries).1[entries[i].0] == entries[i].1 by {
        forall i | 0 <= i < |entries| && (forall j :: i < j < |entries| ==> entries[j].0 != entries[i].0) {
          FromEntriesLastWins(entries, i);
        }
      }
      FromEntries(entries)
    case Unreadable => ([], map[])
  }

  /** The seed holds no identity pair and every seed value differs from its key. */
  lemma DefaultsHaveNoIdentity()
    ensures forall k :: k in LoadCorrections(FileMissing).1 ==> LoadCorrections(FileMissing).1[k] != k
  {
  }

  /** `learn_from_mistake` on the dictionary value: identical pairs are refused. */
  function Learned(keys: seq<string>, db: map<string, string>, original: string, corrected: string): (r: (seq<string>, map<string, string>))
    requires Indexed(keys, db)
    ensures Indexed(r.0, r.1)
  {
    if original != corrected then Put(keys, db, original, corrected) else (keys, db)
  }

  /** Learning changes at most the learned key, never drops one, and repeating it changes nothing. */
  lemma LearnedSpec(keys: seq<string>, db: map<string, string>, original: string, corrected: string)
    requires Indexed(keys, db)
    ensures var r := Learned(keys, db, original, corrected);
      && (original == corrected ==> r == (keys, db))
      && (original != corrected ==> r.1[original] == corrected)
      && (forall k :: k in db && k != original ==> k in r.1 && r.1[k] == db[k])
      && db.Keys <= r.1.Keys
      && Learned(r.0, r.1, original, corrected) == r
  {
    if original != corrected {
      var r := Learned(keys, db, original, corrected);
      assert original in r.1;
      assert r.1[original := corrected] == r.1;
    }
  }

  /** No call of learning ever puts an identity pair into a dictionary that had none. */
  lemma {:induction false} LearnedKeepsNoIdentity(keys: seq<string>, db: map<string, string>, original: string, corrected: string)
    requires Indexed(keys, db)
    requires forall k :: k in db ==> db[k] != k
    ensures var r := Learned(keys, db, original, corrected); forall k :: k in r.1 ==> r.1[k] != k
  {
  }

  // ---------------------------------------------------------------- similarity lookup

  /** The loop of `find_similar_correction` over the first `n` keys: a key replaces the best so far when its
      ratio is strictly larger and reaches the threshold (the best so far starts at 0.0). */
  function BestSimilar(keys: seq<string>, db: map<string, string>, text: string, ratio: (string, string) -> real, n: nat): (r: Option<SimilarMatch>)
    requires Indexed(keys, db) && n <= |keys|
  {
    if n == 0 then None
    else
      var best := BestSimilar(keys, db, text, ratio, n - 1);
      var k := keys[n - 1];
      var s := ratio(text, k);
      var bestSim := if best.Some? then best.value.similarity else 0.0;
      if s > bestSim && s >= SimilarityThreshold then Some(SimilarMatch(k, db[k], s)) else best
  }

  /** The scan keeps the FIRST key, in insertion order, whose ratio is maximal, provided it reaches the
      threshold; with no key reaching the threshold there is no match. */
  lemma {:induction false} BestSimilarIsFirstMaximal(keys: seq<string>, db: map<string, string>, text: string, ratio: (string, string) -> real, n: nat)
    requires Indexed(keys, db) && n <= |keys|
    ensures var r := BestSimilar(keys, db, text, ratio, n);
      && (r.None? <==> forall j :: 0 <= j < n ==> ratio(text, keys[j]) < SimilarityThreshold)
      && (r.Some? ==>
            && r.value.key in db && r.value.correction == db[r.value.key]
            && r.value.similarity == ratio(text, r.value.key) >= SimilarityThreshold
            && (forall j :: 0 <= j < n ==> ratio(text, keys[j]) <= r.value.similarity)
            && exists i :: 0 <= i < n && keys[i] == r.value.key
                 && forall j :: 0 <= j < i ==> ratio(text, keys[j]) < r.value.similarity)
  {
    if n > 0 {
      BestSimilarIsFirstMaximal(keys, db, text, ratio, n - 1);
    }
  }

  /** `suggest_correction`: an exact key wins with confidence 1.0; otherwise the best similar key. */
  function SuggestCorrection(keys: seq<string>, db: map<string, string>, text: string, ratio: (string, string) -> real): (r: Option<Suggestion>)
    requires Indexed(keys, db)
    ensures r.Some? ==> r.value.original == text
    ensures text in db ==> r == Some(Suggestion(text, db[text], 1.0, ExactMatch, None))
    ensures text !in db && r.Some? ==>
      && r.value.how == SimilarityMatch
      && r.value.matchedOriginal.Some?
      && r.value.matchedOriginal.value in db
      && r.value.corrected == db[r.value.matchedOriginal.value]
      && r.value.confidence == ratio(text, r.value.matchedOriginal.value) >= SimilarityThreshold
      && forall k :: k in db ==> ratio(text, k) <= r.value.confidence
    ensures r.None? <==> text !in db && forall k :: k in db ==> ratio(text, k) < SimilarityThreshold
  {
    BestSimilarIsFirstMaximal(keys, db, text, ratio, |keys|);
    if text in db then Some(Suggestion(text, db[text], 1.0, ExactMatch, None))
    else
      match BestSimilar(keys, db, text, ratio, |keys|)
      case None => None
      case Some(m) => Some(Suggestion(text, m.correction, m.similarity, SimilarityMatch, Some(m.key)))
  }

  // ---------------------------------------------------------------- edit distance

  function Min3(a: nat, b: nat, c: nat): (m: nat)
    ensures m <= a && m <= b && m <= c && (m == a || m == b || m == c)
  {
    if a <= b && a <= c then a else if b <= c then b else c
  }

  /** Edit distance between the first `i` characters of `a` and the first `j` of `b`. */
  function Dist(a: string, b: string, i: nat, j: nat): nat
    requires i <= |a| && j <= |b|
    decreases i + j
  {
    if i == 0 then j
    else if j == 0 then i
    else Min3(Dist(a, b, i - 1, j) + 1, Dist(a, b, i, j - 1) + 1,
              Dist(a, b, i - 1, j - 1) + (if a[i - 1] == b[j - 1] then 0 else 1))
  }

  function EditDistance(a: string, b: string): nat {
    Dist(a, b, |a|, |b|)
  }

  /** Edit distance does not depend on argument order. */
  lemma {:induction false} DistSymmetric(a: string, b: string, i: nat, j: nat)
    requires i <= |a| && j <= |b|
    ensures Dist(a, b, i, j) == Dist(b, a, j, i)
    decreases i + j
  {
    if i > 0 && j > 0 {
      DistSymmetric(a, b, i - 1, j);
      DistSymmetric(a, b, i, j - 1);
      DistSymmetric(a, b, i - 1, j - 1);
      DistSymmetricStep(a, b, i, j);
    }
  }

  /** One cell of the table is symmetric when the three cells it is built from are. */
  lemma DistSymmetricStep(a: string, b: string, i: nat, j: nat)
    requires 0 < i <= |a| && 0 < j <= |b|
    requires Dist(a, b, i - 1, j) == Dist(b, a, j, i - 1)
    requires Dist(a, b, i, j - 1) == Dist(b, a, j - 1, i)
    requires Dist(a, b, i - 1, j - 1) == Dist(b, a, j - 1, i - 1)
    ensures Dist(a, b, i, j) == Dist(b, a, j, i)
  {
  }

  /** The distance is at most the longer length. */
  lemma {:induction false} DistUpperBound(a: string, b: string, i: nat, j: nat)
    requires i <= |a| && j <= |b|
    ensures Dist(a, b, i, j) <= if i <= j then j else i
    decreases i + j
  {
    if i > 0 && j > 0 {
      DistUpperBound(a, b, i - 1, j - 1);
    }
  }

  /** The distance is at least the difference of the lengths. */
  lemma {:induction false} DistLowerBound(a: string, b: string, i: nat, j: nat)
    requires i <= |a| && j <= |b|
    ensures Dist(a, b, i, j) >= if i <= j then j - i else i - j
    decreases i + j
  {
    if i > 0 && j > 0 {
      DistLowerBound(a, b, i - 1, j);
      DistLowerBound(a, b, i, j - 1);
      DistLowerBound(a, b, i - 1, j - 1);
    }
  }

  /** A string is at distance 0 from itself. */
  lemma {:induction false} DistSelf(a: string, i: nat)
    requires i <= |a|
    ensures Dist(a, a, i, i) == 0
  {
    if i > 0 {
      DistSelf(a, i - 1);
    }
  }

  /** One cell of the table from its three neighbours. */
  lemma DistStep(a: string, b: string, i: nat, j: nat)
    requires i < |a| && j < |b|
    ensures Dist(a, b, i + 1, j + 1) == Min3(Dist(a, b, i, j + 1) + 1, Dist(a, b, i + 1, j) + 1,
                                              Dist(a, b, i, j) + (if a[i] != b[j] then 1 else 0))
  {
  }

  /** `row` is row `i` of the table of `a` against `b`. */
  ghost predicate IsRow(a: string, b: string, i: nat, row: seq<nat>)
    requires i <= |a|
  {
    |row| == |b| + 1 && forall j :: 0 <= j <= |b| ==> row[j] == Dist(a, b, i, j)
  }

  /** The inner loop of `levenshtein_distance`: row `i + 1` from row `i`. */
  method NextRow(s1: string, s2: string, i: nat, previous: seq<nat>) returns (current: seq<nat>)
    requires i < |s1| && IsRow(s1, s2, i, previous)
    ensures IsRow(s1, s2, i + 1, current)
  {
    current := [i + 1];
    for j := 0 to |s2|
      invariant |current| == j + 1
      invariant forall k :: 0 <= k <= j ==> current[k] == Dist(s1, s2, i + 1, k)
    {
      var insertions := previous[j + 1] + 1;
      var deletions := current[j] + 1;
      var substitutions := previous[j] + (if s1[i] != s2[j] then 1 else 0);
      DistStep(s1, s2, i, j);
      current := current + [Min3(insertions, deletions, substitutions)];
    }
  }

  /** `levenshtein_distance`: the two-row dynamic programme, after putting the longer string first. */
  method LevenshteinDistance(s1: string, s2: string) returns (d: nat)
    ensures d == EditDistance(s1, s2) == EditDistance(s2, s1)
    ensures s2 == [] ==> d == |s1|
    ensures s1 == s2 ==> d == 0
    decreases if |s1| < |s2| then 1 else 0
  {
    DistSymmetric(s1, s2, |s1|, |s2|);
    DistSelf(s1, |s1|);
    if |s1| < |s2| {
      d := LevenshteinDistance(s2, s1);
      return;
    }
    if |s2| == 0 {
      return |s1|;
    }
    var previous: seq<nat> := seq(|s2| + 1, j requires 0 <= j <= |s2| => j);
    for i := 0 to |s1|
      invariant IsRow(s1, s2, i, previous)
    {
      previous := NextRow(s1, s2, i, previous);
    }
    d := previous[|s2|];
  }


  // ---------------------------------------------------------------- phase 1: digits inside Cyrillic words

  predicate IsRussianChar(c: char) { '\U{0400}' <= c <= '\U{04FF}' }

  predicate IsRussianWord(w: string) { exists i :: 0 <= i < |w| && IsRussianChar(w[i]) }

  /** The guard of `replace_digits_in_russian_word`. */
  predicate ShouldRestore(w: string) {
    IsRussianWord(w) && !AllDigits(w) && ('0' in w || '8' in w)
  }

  /** Upper-case look-alikes when the word has no lower-case letter and some upper-case one. */
  predicate UseUppercase(w: string) {
    && !(exists i :: 0 <= i < |w| && IsAlpha(w[i]) && IsLower(w[i]))
    && (exists i :: 0 <= i < |w| && IsAlpha(w[i]) && IsUpper(w[i]))
  }

  /** `word.replace('0', o).replace('8', v)` with the case chosen for the word. */
  function RestoreLetters(w: string, upper: bool): string {
    ReplaceChar(ReplaceChar(w, '0', if upper then UpperO else LowerO), '8', if upper then UpperVe else LowerVe)
  }

  /** The callback of phase 1 on one matched word: the replacement text and the record, if any. */
  function RestoreWord(w: string): (string, Option<AppliedCorrection>) {
    if ShouldRestore(w) then
      var upper := UseUppercase(w);
      var nw := RestoreLetters(w, upper);
      if nw != w then
        (nw, Some(AppliedCorrection(w, nw, RestoredConfidence, ContextualRussianWord,
                    Some(DigitDetail(w, CountChar(w, '0'), CountChar(w, '8'), upper)))))
      else (w, None)
    else (w, None)
  }

  /** What phase 1 does to one word, stated character by character. */
  lemma RestoreWordSpec(w: string)
    ensures var (nw, rec) := RestoreWord(w);
      && |nw| == |w|
      && (!ShouldRestore(w) ==> nw == w && rec.None?)
      && (ShouldRestore(w) ==>
            && rec.Some?
            && rec.value.from == w && rec.value.to == nw
            && rec.value.confidence == 0.95 && rec.value.how == ContextualRussianWord
            && rec.value.detail == Some(DigitDetail(w, CountChar(w, '0'), CountChar(w, '8'), UseUppercase(w)))
            && forall i :: 0 <= i < |w| ==>
                 nw[i] == (if w[i] == '0' then (if UseUppercase(w) then UpperO else LowerO)
                           else if w[i] == '8' then (if UseUppercase(w) then UpperVe else LowerVe)
                           else w[i]))
  {
    if ShouldRestore(w) {
      var nw := RestoreLetters(w, UseUppercase(w));
      if '0' in w {
        var i :| 0 <= i < |w| && w[i] == '0';
        assert nw[i] != w[i];
      } else {
        var i :| 0 <= i < |w| && w[i] == '8';
        assert nw[i] != w[i];
      }
    }
  }

  /** Pure numbers are never touched by phase 1. */
  lemma PureNumbersUntouched(w: string)
    requires AllDigits(w)
    ensures RestoreWord(w) == (w, None)
  {
    assert !IsRussianWord(w) by {
      forall i | 0 <= i < |w| ensures !IsRussianChar(w[i]) {
        assert IsDigit(w[i]);
      }
    }
  }

  function Concat(pieces: seq<Piece>): string {
    if pieces == [] then [] else Concat(pieces[..|pieces| - 1]) + pieces[|pieces| - 1].s
  }

  /** Phase 1 over the first pieces: matched words are rewritten, the text between them is kept. */
  function Phase1(pieces: seq<Piece>): (string, seq<AppliedCorrection>) {
    if pieces == [] then ([], [])
    else
      var (t, recs) := Phase1(pieces[..|pieces| - 1]);
      match pieces[|pieces| - 1]
      case Gap(g) => (t + g, recs)
      case Word(w) =>
        var (nw, rec) := RestoreWord(w);
        (t + nw, if rec.Some? then recs + [rec.value] else recs)
  }

  predicate IsDigitLookAlike(c: char) {
    c == UpperO || c == LowerO || c == UpperVe || c == LowerVe
  }

  /** Phase 1 keeps the text's length and changes only characters that were `0` or `8`, each into a
      Cyrillic look-alike; every record it makes has confidence 0.95. */
  lemma {:induction false} Phase1Preserves(pieces: seq<Piece>)
    ensures var (t, recs) := Phase1(pieces); var src := Concat(pieces);
      && |t| == |src|
      && (forall k :: 0 <= k < |t| ==> t[k] == src[k] || ((src[k] == '0' || src[k] == '8') && IsDigitLookAlike(t[k])))
      && (forall r :: r in recs ==> r.confidence == 0.95 && r.how == ContextualRussianWord)
  {
    if pieces != [] {
      var init := pieces[..|pieces| - 1];
      Phase1Preserves(init);
      match pieces[|pieces| - 1]
      case Gap(g) =>
      case Word(w) => RestoreWordSpec(w);
    }
  }

  // ---------------------------------------------------------------- phase 2: dictionary lookup

  /** Phase 2 on one token of the phase-1 text: a non-alphanumeric token is skipped; a suggested correction
      replaces the first occurrence of the token, if the text still contains it. */
  function Phase2Step(keys: seq<string>, db: map<string, string>, ratio: (string, string) -> real, w: string,
                      st: (string, seq<AppliedCorrection>)): (string, seq<AppliedCorrection>)
    requires Indexed(keys, db)
  {
    if IsBlank(w) || !AllAlnum(w) then st
    else
      match SuggestCorrection(keys, db, w, ratio)
      case None => st
      case Some(s) =>
        if Contains(st.0, s.original) then
          (ReplaceFirst(st.0, s.original, s.corrected),
           st.1 + [AppliedCorrection(s.original, s.corrected, s.confidence, s.how, None)])
        else st
  }

  function Phase2(keys: seq<string>, db: map<string, string>, ratio: (string, string) -> real, tokens: seq<string>,
                  start: (string, seq<AppliedCorrection>)): (string, seq<AppliedCorrection>)
    requires Indexed(keys, db)
  {
    if tokens == [] then start
    else Phase2Step(keys, db, ratio, tokens[|tokens| - 1], Phase2(keys, db, ratio, tokens[..|tokens| - 1], start))
  }

  /** Every phase-2 record is an exact match (confidence 1.0, the dictionary's own value) or a similarity
      match at or above the threshold; there is at most one record per token, and only alphanumeric tokens
      produce one. */
  lemma {:induction false} Phase2Records(keys: seq<string>, db: map<string, string>, ratio: (string, string) -> real,
                                         tokens: seq<string>, start: (string, seq<AppliedCorrection>))
    requires Indexed(keys, db)
    ensures var (_, recs) := Phase2(keys, db, ratio, tokens, start);
      && |start.1| <= |recs| <= |start.1| + |tokens|
      && recs[..|start.1|] == start.1
      && forall i :: |start.1| <= i < |recs| ==>
           && AllAlnum(recs[i].from) && recs[i].from in tokens
           && (recs[i].how == ExactMatch ==> recs[i].from in db && recs[i].to == db[recs[i].from] && recs[i].confidence == 1.0)
           && (recs[i].how != ExactMatch ==> recs[i].how == SimilarityMatch && recs[i].confidence >= SimilarityThreshold)
  {
    if tokens != [] {
      var init := tokens[..|tokens| - 1];
      Phase2Records(keys, db, ratio, init, start);
      var w := tokens[|tokens| - 1];
      assert forall t :: t in init ==> t in tokens;
      if !(IsBlank(w) || !AllAlnum(w)) {
        var sug := SuggestCorrection(keys, db, w, ratio);
      }
    }
  }

  /** The text `recs` describe: each record's replacement of the first occurrence of its source, in order. */
  function Replayed(t: string, recs: seq<AppliedCorrection>): string {
    if recs == [] then t
    else ReplaceFirst(Replayed(t, recs[..|recs| - 1]), recs[|recs| - 1].from, recs[|recs| - 1].to)
  }

  /** Phase 2 changes the text only through the corrections it records: the result is the starting text
      with exactly the new records replayed in order, so without a new record the text is unchanged. */
  lemma {:induction false} Phase2Replays(keys: seq<string>, db: map<string, string>, ratio: (string, string) -> real,
                                         tokens: seq<string>, start: (string, seq<AppliedCorrection>))
    requires Indexed(keys, db)
    ensures var r := Phase2(keys, db, ratio, tokens, start);
      |start.1| <= |r.1| && r.0 == Replayed(start.0, r.1[|start.1|..])
    ensures var r := Phase2(keys, db, ratio, tokens, start);
      |r.1| == |start.1| ==> r.0 == start.0
  {
    if tokens != [] {
      var init := tokens[..|tokens| - 1];
      Phase2Replays(keys, db, ratio, init, start);
      var st := Phase2(keys, db, ratio, init, start);
      var r := Phase2(keys, db, ratio, tokens, start);
      if r != st {
        var rec := r.1[|r.1| - 1];
        assert r.1 == st.1 + [rec] && r.0 == ReplaceFirst(st.0, rec.from, rec.to);
        assert r.1[|start.1|..] == st.1[|start.1|..] + [rec];
        assert r.1[|start.1|..][..|r.1[|start.1|..]| - 1] == st.1[|start.1|..];
      }
    }
  }

  /** With an empty dictionary phase 2 changes nothing. */
  lemma {:induction false} Phase2EmptyDictionary(ratio: (string, string) -> real, tokens: seq<string>, start: (string, seq<AppliedCorrection>))
    ensures Phase2([], map[], ratio, tokens, start) == start
  {
    if tokens != [] {
      Phase2EmptyDictionary(ratio, tokens[..|tokens| - 1], start);
    }
  }

  /** `correct_text` as a function of the dictionary: phase 1 over the matched words, then phase 2 over the
      tokens `tokenize` finds in the phase-1 text. */
  function CorrectTextSpec(keys: seq<string>, db: map<string, string>, ratio: (string, string) -> real,
                           pieces: seq<Piece>, tokenize: string -> seq<string>): (string, seq<AppliedCorrection>)
    requires Indexed(keys, db)
  {
    var p1 := Phase1(pieces);
    Phase2(keys, db, ratio, tokenize(p1.0), p1)
  }

  // ---------------------------------------------------------------- the stateful corrector

  class AutoCorrectionSystem {
    var keys: seq<string>
    var db: map<string, string>

    ghost predicate Valid()
      reads this
    {
      Indexed(keys, db)
    }

    /** `__init__`: the dictionary comes from `load_corrections`. */
    constructor (outcome: LoadOutcome)
      ensures Valid()
      ensures (keys, db) == LoadCorrections(outcome)
    {
      var r := LoadCorrections(outcome);
      keys, db := r.0, r.1;
    }

    /** `learn_from_mistake`: the only writer of the dictionary. */
    method LearnFromMistake(original: string, corrected: string)
      requires Valid()
      modifies this
      ensures Valid()
      ensures (keys, db) == Learned(old(keys), old(db), original, corrected)
      ensures original == corrected ==> keys == old(keys) && db == old(db)
      ensures original != corrected ==> db == old(db)[original := corrected]
    {
      if original != corrected {
        var r := Put(keys, db, original, corrected);
        keys, db := r.0, r.1;
      }
    }

    /** `add_correction`: the confirmation flag has no effect. */
    method AddCorrection(original: string, corrected: string, confirm: bool)
      requires Valid()
      modifies this
      ensures Valid()
      ensures (keys, db) == Learned(old(keys), old(db), original, corrected)
    {
      LearnFromMistake(original, corrected);
    }

    /** `find_similar_correction`: the loop over the dictionary's items. */
    method FindSimilarCorrection(text: string, ratio: (string, string) -> real) returns (best: Option<SimilarMatch>)
      requires Valid()
      ensures best == BestSimilar(keys, db, text, ratio, |keys|)
      ensures best.None? <==> forall k :: k in db ==> ratio(text, k) < SimilarityThreshold
      ensures best.Some? ==> best.value.key in db && best.value.correction == db[best.value.key]
                             && best.value.similarity == ratio(text, best.value.key) >= SimilarityThreshold
    {
      best := None;
      var bestSimilarity := 0.0;
      for i := 0 to |keys|
        invariant best == BestSimilar(keys, db, text, ratio, i)
        invariant bestSimilarity == if best.Some? then best.value.similarity else 0.0
      {
        var similarity := ratio(text, keys[i]);
        if similarity > bestSimilarity && similarity >= SimilarityThreshold {
          bestSimilarity := similarity;
          best := Some(SimilarMatch(keys[i], db[keys[i]], similarity));
        }
      }
      BestSimilarIsFirstMaximal(keys, db, text, ratio, |keys|);
    }

    /** `correct_text`: phase 1 over the words the word pattern matched (`pieces`, whose concatenation is
        the text), then phase 2 over the tokens of the phase-1 text. */
    method CorrectText(pieces: seq<Piece>, tokenize: string -> seq<string>, ratio: (string, string) -> real)
      returns (text: string, applied: seq<AppliedCorrection>)
      requires Valid()
      ensures (text, applied) == CorrectTextSpec(keys, db, ratio, pieces, tokenize)
    {
      text, applied := [], [];
      for i := 0 to |pieces|
        invariant (text, applied) == Phase1(pieces[..i])
      {
        assert pieces[..i + 1][..i] == pieces[..i];
        match pieces[i]
        case Gap(g) =>
          text := text + g;
        case Word(w) =>
          var (nw, rec) := RestoreWord(w);
          text := text + nw;
          if rec.Some? {
            applied := applied + [rec.value];
          }
      }
      assert pieces[..|pieces|] == pieces;
      var phase1 := (text, applied);
      var tokens := tokenize(text);
      for i := 0 to |tokens|
        invariant (text, applied) == Phase2(keys, db, ratio, tokens[..i], phase1)
      {
        assert tokens[..i + 1][..i] == tokens[..i];
        var word := tokens[i];
        if IsBlank(word) || !AllAlnum(word) {
          continue;
        }
        var suggestion := SuggestCorrection(keys, db, word, ratio);
        if suggestion.Some? {
          var s := suggestion.value;
          if Contains(text, s.original) {
            text := ReplaceFirst(text, s.original, s.corrected);
            applied := applied + [AppliedCorrection(s.original, s.corrected, s.confidence, s.how, None)];
          }
        }
      }
      assert tokens[..|tokens|] == tokens;
    }
  }
}
