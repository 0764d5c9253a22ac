/** Spelling correction (models/spell_corrector.py): the accept/reject guards around the transformer's
    output, batch correction, and the rule-based corrector that turns letters inside number-like tokens
    into the digits OCR mistook them for. The transformer itself is an input. */
module SpellCorrector {
  import opened Text

  const MaxModelLength: nat := 200
  const MinSpaces: nat := 5
  const BatchSize: nat := 8
  const ServiceToken: string := "<extra_id"

  // ---------------------------------------------------------------- transformer guards

  /** `len(corrected) < len(text) * 0.5 or len(corrected) > len(text) * 2`, in integers. */
  predicate LengthRejected(corrected: string, text: string) {
    2 * |corrected| < |text| || |corrected| > 2 * |text|
  }

  /** The prompt prefix removal: everything after the first ':' with whitespace stripped, or the output as
      it is when it has no ':'. */
  function DropPrompt(corrected: string): (r: string)
    ensures |r| <= |corrected|
    ensures r != corrected ==> ':' in corrected
    ensures r == corrected || r == [] || !IsSpace(r[0])
  {
    match FirstIndex(corrected, ":")
    case None => corrected
    case Some(i) =>
      assert OccursAt(corrected, ":", i);
      assert corrected[i] == corrected[i..i + 1][0];
      Strip(corrected[i + 1..])
  }

  /** `SpellCorrector.correct_text` with the decoded model output given: `None` when there is no loaded model
      or when generation raised. */
  function CorrectText(hasModel: bool, text: string, output: Option<string>): (r: string)
    ensures !hasModel ==> r == text
    ensures |text| > MaxModelLength || CountChar(text, ' ') < MinSpaces ==> r == text
    ensures output.None? ==> r == text
    ensures output.Some? && (Contains(output.value, ServiceToken) || IsBlank(output.value)) ==> r == text
    ensures r != text ==>
      && hasModel && output.Some? && r == DropPrompt(output.value)
      && !Contains(output.value, ServiceToken) && !IsBlank(output.value)
      && !LengthRejected(r, text) && !IsBlank(r)
  {
    if !hasModel then text
    else if |text| > MaxModelLength || CountChar(text, ' ') < MinSpaces then text
    else if output.None? then text
    else if Contains(output.value, ServiceToken) || IsBlank(output.value) then text
    else
      var corrected := DropPrompt(output.value);
      if LengthRejected(corrected, text) then text
      else
        SpacesNeedLength(text);
        assert corrected != [];
        assert corrected == output.value || !IsSpace(corrected[0]);
        corrected
  }

  lemma SpacesNeedLength(text: string)
    requires CountChar(text, ' ') >= MinSpaces
    ensures |text| >= MinSpaces
  {
  }

  /** A model answer that passes every guard is taken, after the prompt prefix is removed. */
  lemma AcceptedOutputTaken(text: string, o: string)
    requires |text| <= MaxModelLength && CountChar(text, ' ') >= MinSpaces
    requires !Contains(o, ServiceToken) && !IsBlank(o)
    requires !LengthRejected(DropPrompt(o), text)
    ensures CorrectText(true, text, Some(o)) == DropPrompt(o)
  {
  }

  /** `correct_batch`: the texts in slices of eight, each corrected on its own. */
  method CorrectBatch(hasModel: bool, texts: seq<string>, generate: string -> Option<string>) returns (r: seq<string>)
    ensures !hasModel ==> r == texts
    ensures |r| == |texts|
    ensures forall k :: 0 <= k < |texts| ==> r[k] == CorrectText(hasModel, texts[k], generate(texts[k]))
  {
    if !hasModel {
      return texts;
    }
    r := [];
    var i := 0;
    while i < |texts|
      invariant i <= |texts| && |r| == i
      invariant forall k :: 0 <= k < i ==> r[k] == CorrectText(hasModel, texts[k], generate(texts[k]))
    {
      var end := if i + BatchSize <= |texts| then i + BatchSize else |texts|;
      var batch := texts[i..end];
      var corrected := seq(|batch|, j requires 0 <= j < |batch| => CorrectText(hasModel, batch[j], generate(batch[j])));
      r := r + corrected;
      i := end;
    }
  }

  // ---------------------------------------------------------------- rule-based corrector

  /** `common_errors`, in dictionary order. */
  const CommonErrors: seq<(char, char)> :=
    [('О', '0'), ('I', '1'), ('З', '3'), ('Б', '6'), ('В', '8'), ('S', '5'), ('G', '6'), ('Z', '2'), ('l', '1'), ('o', '0')]

  /** The character class of the number pattern `[ОIЗБВSGl0-9]`. */
  predicate NumberChar(c: char) {
    c == 'О' || c == 'I' || c == 'З' || c == 'Б' || c == 'В' || c == 'S' || c == 'G' || c == 'l' || IsDigit(c)
  }

  /** The text cut at the number pattern's matches: `Numeric` spans are the matched tokens. */
  datatype Span = Numeric(s: string) | Plain(s: string)

  predicate WellFormed(spans: seq<Span>) {
    forall i :: 0 <= i < |spans| && spans[i].Numeric? ==>
      spans[i].s != [] && forall j :: 0 <= j < |spans[i].s| ==> NumberChar(spans[i].s[j])
  }

  function Joined(spans: seq<Span>): string {
    if spans == [] then [] else Joined(spans[..|spans| - 1]) + spans[|spans| - 1].s
  }

  /** The replacements applied one after another, as the loop of `replace_in_numbers` does. */
  function ApplyErrors(s: string, es: seq<(char, char)>): string {
    if es == [] then s else ReplaceChar(ApplyErrors(s, es[..|es| - 1]), es[|es| - 1].0, es[|es| - 1].1)
  }

  /** What the replacements do to one character. */
  function FixChar(c: char, es: seq<(char, char)>): char {
    if es == [] then c
    else
      var d := FixChar(c, es[..|es| - 1]);
      if d == es[|es| - 1].0 then es[|es| - 1].1 else d
  }

  /** Replacing character by character: the result has the same length and each character is fixed alone. */
  lemma {:induction false} ApplyErrorsPointwise(s: string, es: seq<(char, char)>)
    ensures |ApplyErrors(s, es)| == |s|
    ensures forall k :: 0 <= k < |s| ==> ApplyErrors(s, es)[k] == FixChar(s[k], es)
  {
    if es != [] {
      ApplyErrorsPointwise(s, es[..|es| - 1]);
    }
  }

  /** A character no replacement starts from is left alone. */
  lemma {:induction false} FixCharUntouched(c: char, es: seq<(char, char)>)
    requires forall i :: 0 <= i < |es| ==> es[i].0 != c
    ensures FixChar(c, es) == c
  {
    if es != [] {
      FixCharUntouched(c, es[..|es| - 1]);
    }
  }

  /** When every replacement turns a non-digit into a digit, a digit or the source of some replacement comes
      out as a digit. */
  lemma {:induction false} FixCharDigit(c: char, es: seq<(char, char)>)
    requires forall i :: 0 <= i < |es| ==> IsDigit(es[i].1) && !IsDigit(es[i].0)
    requires IsDigit(c) || exists i :: 0 <= i < |es| && es[i].0 == c
    ensures IsDigit(FixChar(c, es))
  {
    if es != [] {
      var init := es[..|es| - 1];
      if IsDigit(c) || exists i :: 0 <= i < |init| && init[i].0 == c {
        FixCharDigit(c, init);
      } else {
        FixCharUntouched(c, init);
      }
    }
  }

  /** Every character the number pattern matches comes out as an ASCII digit. */
  lemma NumberCharBecomesDigit(c: char)
    requires NumberChar(c)
    ensures IsDigit(FixChar(c, CommonErrors))
  {
    var es := CommonErrors;
    if !IsDigit(c) {
      var i := if c == 'О' then 0 else if c == 'I' then 1 else if c == 'З' then 2 else if c == 'Б' then 3
        else if c == 'В' then 4 else if c == 'S' then 5 else if c == 'G' then 6 else 8;
      assert es[i].0 == c;
    }
    FixCharDigit(c, es);
  }

  /** `replace_in_numbers` for one matched token. */
  method ReplaceInNumbers(token: string) returns (num: string)
    ensures num == ApplyErrors(token, CommonErrors)
    ensures |num| == |token|
    ensures (forall j :: 0 <= j < |token| ==> NumberChar(token[j])) ==> forall j :: 0 <= j < |num| ==> IsDigit(num[j])
  {
    num := token;
    for i := 0 to |CommonErrors|
      invariant num == ApplyErrors(token, CommonErrors[..i])
    {
      assert CommonErrors[..i + 1][..i] == CommonErrors[..i];
      num := ReplaceChar(num, CommonErrors[i].0, CommonErrors[i].1);
    }
    assert CommonErrors[..|CommonErrors|] == CommonErrors;
    ApplyErrorsPointwise(token, CommonErrors);
    if forall j :: 0 <= j < |token| ==> NumberChar(token[j]) {
      forall j | 0 <= j < |num| ensures IsDigit(num[j]) {
        NumberCharBecomesDigit(token[j]);
      }
    }
  }

  /** `SimpleSpellCorrector.correct_text`: every matched token rewritten, everything else kept. */
  function SimpleCorrect(spans: seq<Span>): string {
    if spans == [] then []
    else
      var last := spans[|spans| - 1];
      SimpleCorrect(spans[..|spans| - 1]) + (if last.Numeric? then ApplyErrors(last.s, CommonErrors) else last.s)
  }

  /** Which positions of the text lie inside a matched token. */
  function NumericMask(spans: seq<Span>): (m: seq<bool>)
    ensures |m| == |Joined(spans)|
  {
    if spans == [] then []
    else
      var last := spans[|spans| - 1];
      NumericMask(spans[..|spans| - 1]) + seq(|last.s|, _ => last.Numeric?)
  }

  /** The corrected text has the same length; inside matched tokens every character becomes an ASCII digit,
      outside them every character is unchanged. */
  lemma {:induction false} SimpleCorrectSpec(spans: seq<Span>)
    requires WellFormed(spans)
    ensures |SimpleCorrect(spans)| == |Joined(spans)|
    ensures forall k :: 0 <= k < |Joined(spans)| ==>
      if NumericMask(spans)[k] then IsDigit(SimpleCorrect(spans)[k]) else SimpleCorrect(spans)[k] == Joined(spans)[k]
  {
    if spans != [] {
      var init := spans[..|spans| - 1];
      var last := spans[|spans| - 1];
      assert WellFormed(init) by {
        forall i | 0 <= i < |init| ensures init[i] == spans[i] { }
      }
      SimpleCorrectSpec(init);
      var n := |Joined(init)|;
      if last.Numeric? {
        ApplyErrorsPointwise(last.s, CommonErrors);
        forall j | 0 <= j < |last.s| ensures IsDigit(ApplyErrors(last.s, CommonErrors)[j]) {
          NumberCharBecomesDigit(last.s[j]);
        }
      }
      var out := SimpleCorrect(spans);
      forall k | 0 <= k < |Joined(spans)|
        ensures if NumericMask(spans)[k] then IsDigit(out[k]) else out[k] == Joined(spans)[k]
      {
        if k >= n {
          assert NumericMask(spans)[k] == last.Numeric?;
          assert Joined(spans)[k] == last.s[k - n];
        } else {
          assert NumericMask(spans)[k] == NumericMask(init)[k];
          assert Joined(spans)[k] == Joined(init)[k];
          assert out[k] == SimpleCorrect(init)[k];
        }
      }
    }
  }
}
