/** The registry of critical document fields and their validation (core/validators.py).
    Each field's regular expression is abstracted as `findall`: the matches it finds in a text, in order;
    `pattern.search(v)` succeeds exactly when that sequence is non-empty, since no pattern matches the
    empty string. */
module Validators {
  import opened Text

  datatype FieldKind = Ogrn | Inn | Kpp | Date | Snils | CertificateNumber | Phone | Email

  /** The registry in its declaration order. */
  const Registry: seq<FieldKind> := [Ogrn, Inn, Kpp, Date, Snils, CertificateNumber, Phone, Email]

  function Name(k: FieldKind): string {
    match k
    case Ogrn => "ogrn"
    case Inn => "inn"
    case Kpp => "kpp"
    case Date => "date"
    case Snils => "snils"
    case CertificateNumber => "certificate_number"
    case Phone => "phone"
    case Email => "email"
  }

  /** The registry key for a field name, if it is registered. */
  function Lookup(name: string): (r: Option<FieldKind>)
    ensures r.Some? ==> Name(r.value) == name
    ensures r.None? ==> forall k: FieldKind :: Name(k) != name
  {
    if name == "ogrn" then Some(Ogrn)
    else if name == "inn" then Some(Inn)
    else if name == "kpp" then Some(Kpp)
    else if name == "date" then Some(Date)
    else if name == "snils" then Some(Snils)
    else if name == "certificate_number" then Some(CertificateNumber)
    else if name == "phone" then Some(Phone)
    else if name == "email" then Some(Email)
    else None
  }

  // ---------------------------------------------------------------- the field predicates

  /** `len(re.sub(r'\D', '', x))`. */
  function CountDigits(s: string): (n: nat)
    ensures n <= |s|
  {
    if s == [] then 0 else (if IsDigit(s[0]) then 1 else 0) + CountDigits(s[1..])
  }

  predicate IsDateSep(c: char) { c == '.' || c == '/' || c == '-' }

  predicate DigitsAt(s: string, i: nat, n: nat) {
    i + n <= |s| && forall k | i <= k < i + n :: IsDigit(s[k])
  }

  /** `re.match(r'\d{1,2}[./-]\d{1,2}[./-]\d{2,4}', x)`: the string starts with such a date. */
  predicate DatePrefix(x: string) {
    exists a, b, c | 1 <= a <= 2 && 1 <= b <= 2 && 2 <= c <= 4 :: DateAt(x, a, b, c)
  }

  /** `x` starts with `a` digits, a separator, `b` digits, a separator and `c` digits. */
  predicate DateAt(x: string, a: nat, b: nat, c: nat) {
    && a + b + c + 2 <= |x|
    && DigitsAt(x, 0, a) && IsDateSep(x[a])
    && DigitsAt(x, a + 1, b) && IsDateSep(x[a + 1 + b])
    && DigitsAt(x, a + b + 2, c)
  }

  /** The letters Е, А, Э, С in either case. */
  predicate IsCertificateLetter(c: char) {
    c in {'\U{0415}', '\U{0410}', '\U{042D}', '\U{0421}', '\U{0435}', '\U{0430}', '\U{044D}', '\U{0441}'}
  }

  /** The text before the first `c`, or all of it. */
  function TakeUntil(s: string, c: char): (r: string)
    ensures c !in r
  {
    if s == [] || s[0] == c then [] else [s[0]] + TakeUntil(s[1..], c)
  }

  /** The text after the first `c`, if there is one. */
  function DropThrough(s: string, c: char): Option<string> {
    if s == [] then None else if s[0] == c then Some(s[1..]) else DropThrough(s[1..], c)
  }

  /** `'@' in x and '.' in x.split('@')[1]`. */
  predicate EmailShape(x: string) {
    match DropThrough(x, '@')
    case None => false
    case Some(rest) => '.' in TakeUntil(rest, '@')
  }

  /** The `validation` lambda of each registered field. */
  predicate Holds(k: FieldKind, x: string) {
    match k
    case Ogrn => CountDigits(x) == 13 || CountDigits(x) == 15
    case Inn => CountDigits(x) == 10 || CountDigits(x) == 12
    case Kpp => CountDigits(x) == 9
    case Date => DatePrefix(x)
    case Snils => CountDigits(x) == 11
    case CertificateNumber => exists i | 0 <= i < |x| :: IsCertificateLetter(x[i])
    case Phone => CountDigits(x) >= 10
    case Email => EmailShape(x)
  }

  predicate CountsDigits(k: FieldKind) {
    k == Ogrn || k == Inn || k == Kpp || k == Snils || k == Phone
  }

  lemma {:induction false} CountDigitsAppend(a: string, b: string)
    ensures CountDigits(a + b) == CountDigits(a) + CountDigits(b)
  {
    if a == [] {
      assert a + b == b;
    } else {
      assert (a + b)[1..] == a[1..] + b;
      CountDigitsAppend(a[1..], b);
    }
  }

  lemma {:induction false} NoDigitsCountZero(s: string)
    requires forall i :: 0 <= i < |s| ==> !IsDigit(s[i])
    ensures CountDigits(s) == 0
  {
    if s != [] {
      NoDigitsCountZero(s[1..]);
    }
  }

  /** The digit-count fields (ОГРН, ИНН, КПП, СНИЛС, phone) judge only the digits: inserting separators
      never changes the verdict, so "123-456-789 01" is a СНИЛС exactly when "12345678901" is. */
  lemma SeparatorsIgnored(k: FieldKind, a: string, sep: string, b: string)
    requires CountsDigits(k)
    requires forall i :: 0 <= i < |sep| ==> !IsDigit(sep[i])
    ensures Holds(k, a + sep + b) == Holds(k, a + b)
  {
    CountDigitsAppend(a + sep, b);
    CountDigitsAppend(a, sep);
    CountDigitsAppend(a, b);
    NoDigitsCountZero(sep);
  }

  // ---------------------------------------------------------------- occurrences

  /** What `find_field` reports for a registered field: each match cleaned, with confidence 0.9 when the
      field's predicate holds of the cleaned value and 0.5 otherwise. */
  function Candidates(k: FieldKind, text: string, findall: (FieldKind, string) -> seq<string>): (r: seq<(string, real)>)
    ensures |r| == |findall(k, text)|
    ensures forall i :: 0 <= i < |r| ==> r[i].0 == CleanMatch(findall(k, text)[i])
    ensures forall i :: 0 <= i < |r| ==> (r[i].1 == 0.9 <==> Holds(k, r[i].0)) && (r[i].1 == 0.9 || r[i].1 == 0.5)
  {
    var ms := findall(k, text);
    seq(|ms|, i requires 0 <= i < |ms| => Score(k, ms[i]))
  }

  /** One match of `find_field`: cleaned, and scored by the field's predicate. */
  function Score(k: FieldKind, m: string): (string, real) {
    var c := CleanMatch(m);
    (c, if Holds(k, c) then 0.9 else 0.5)
  }

  /** The occurrences of a field given by name; an unregistered name has none. */
  function Occurrences(name: string, text: string, findall: (FieldKind, string) -> seq<string>): seq<(string, real)> {
    match Lookup(name)
    case None => []
    case Some(k) => Candidates(k, text, findall)
  }

  /** `find_field`: the loop that cleans and scores each match. */
  method FindField(name: string, text: string, findall: (FieldKind, string) -> seq<string>) returns (results: seq<(string, real)>)
    ensures results == Occurrences(name, text, findall)
    ensures Lookup(name).None? ==> results == []
    ensures forall i :: 0 <= i < |results| ==>
      && results[i].0 == CleanMatch(findall(Lookup(name).value, text)[i])
      && (results[i].1 == 0.9 <==> Holds(Lookup(name).value, results[i].0))
      && (results[i].1 == 0.9 || results[i].1 == 0.5)
  {
    var kind := Lookup(name);
    if kind.None? {
      return [];
    }
    var k := kind.value;
    var matches := findall(k, text);
    ghost var cs := Candidates(k, text, findall);
    results := [];
    for i := 0 to |matches|
      invariant results == cs[..i]
    {
      assert cs[..i + 1] == cs[..i] + [Score(k, matches[i])];
      results := results + [Score(k, matches[i])];
    }
    assert results == cs;
  }

  /** Python's `max(xs, key=confidence)`: the first occurrence of maximal confidence. */
  function BestIndex(xs: seq<(string, real)>): (i: nat)
    requires |xs| > 0
    ensures i < |xs|
    ensures forall j :: 0 <= j < |xs| ==> xs[j].1 <= xs[i].1
    ensures forall j :: 0 <= j < i ==> xs[j].1 < xs[i].1
  {
    if |xs| == 1 then 0
    else
      var b := BestIndex(xs[..|xs| - 1]);
      if xs[|xs| - 1].1 > xs[b].1 then |xs| - 1 else b
  }

  /** Among scored occurrences the best is the first one satisfying the field's predicate, or the very
      first occurrence when none does. */
  lemma BestPrefersValid(k: FieldKind, text: string, findall: (FieldKind, string) -> seq<string>)
    requires |Candidates(k, text, findall)| > 0
    ensures var cs := Candidates(k, text, findall); var b := BestIndex(cs);
      && (Holds(k, cs[b].0) <==> exists j :: 0 <= j < |cs| && Holds(k, cs[j].0))
      && (forall j :: 0 <= j < b ==> !Holds(k, cs[j].0))
      && (!Holds(k, cs[b].0) ==> b == 0)
  {
    var cs := Candidates(k, text, findall);
    var b := BestIndex(cs);
    if Holds(k, cs[b].0) {
      assert cs[b].1 == 0.9;
      forall j | 0 <= j < b ensures !Holds(k, cs[j].0) {
        assert cs[j].1 < 0.9;
      }
    } else {
      assert cs[b].1 == 0.5;
      assert cs[0].1 >= 0.5;
      forall j | 0 <= j < |cs| ensures !Holds(k, cs[j].0) {
        assert cs[j].1 <= 0.5;
      }
    }
  }

  // ---------------------------------------------------------------- results

  datatype Message = UnknownField(name: string) | Checked(kind: FieldKind, valid: bool) | NotFound(name: string)

  datatype ValidationResult = ValidationResult(
    fieldName: string, value: string, valid: bool, confidence: real,
    message: Option<Message>, suggestedCorrection: Option<string>)

  /** `validate_field`. */
  function ValidateField(name: string, value: string, text: string, findall: (FieldKind, string) -> seq<string>): (r: ValidationResult)
    ensures r.fieldName == name && r.value == value
    ensures Lookup(name).None? ==> !r.valid && r.confidence == 0.0 && r.suggestedCorrection.None?
    ensures Lookup(name).Some? ==>
      var k := Lookup(name).value;
      && (r.valid <==> Holds(k, value) && |findall(k, value)| > 0)
      && r.confidence == (if r.valid then 0.9 else 0.5)
      && (r.suggestedCorrection.Some? <==> !r.valid && text != [] && |findall(k, text)| > 0)
      && (r.suggestedCorrection.Some? ==>
            exists j :: 0 <= j < |findall(k, text)| && r.suggestedCorrection.value == CleanMatch(findall(k, text)[j]))
      && (r.suggestedCorrection.Some? ==>
            var cs := Candidates(k, text, findall);
            && |cs| > 0
            && r.suggestedCorrection.value == cs[BestIndex(cs)].0
            && (Holds(k, r.suggestedCorrection.value) <==> exists j :: 0 <= j < |cs| && Holds(k, cs[j].0))
            && (forall j :: 0 <= j < BestIndex(cs) ==> !Holds(k, cs[j].0))
            && (!Holds(k, r.suggestedCorrection.value) ==> BestIndex(cs) == 0))
  {
    match Lookup(name)
    case None => ValidationResult(name, value, false, 0.0, Some(UnknownField(name)), None)
    case Some(k) =>
      var valid := Holds(k, value) && |findall(k, value)| > 0;
      var alternatives := if !valid && text != [] then Candidates(k, text, findall) else [];
      var suggested :=
        if alternatives != [] then BestPrefersValid(k, text, findall); Some(alternatives[BestIndex(alternatives)].0)
        else None;
      ValidationResult(name, value, valid, if valid then 0.9 else 0.5, Some(Checked(k, valid)), suggested)
  }

  /** One iteration of `validate_critical_fields`. */
  function CheckField(name: string, text: string, findall: (FieldKind, string) -> seq<string>): (r: ValidationResult)
    ensures r.fieldName == name
  {
    var found := Occurrences(name, text, findall);
    if found == [] then ValidationResult(name, "", false, 0.0, Some(NotFound(name)), None)
    else
      var best := found[BestIndex(found)];
      ValidateField(name, best.0, text, findall).(confidence := best.1)
  }

  /** An absent field is reported empty, invalid and with confidence 0.0; a present one carries the
      highest confidence among its occurrences, which is 0.9 exactly when one of them satisfies the
      field's predicate. */
  lemma CheckFieldSpec(name: string, text: string, findall: (FieldKind, string) -> seq<string>)
    ensures var r := CheckField(name, text, findall); var found := Occurrences(name, text, findall);
      && r.fieldName == name
      && (found == [] ==> r.value == [] && !r.valid && r.confidence == 0.0)
      && (found != [] ==>
            && (exists j :: 0 <= j < |found| && r.value == found[j].0 && r.confidence == found[j].1)
            && (forall j :: 0 <= j < |found| ==> found[j].1 <= r.confidence)
            && (r.confidence == 0.9 <==> exists j :: 0 <= j < |found| && Holds(Lookup(name).value, found[j].0)))
  {
    var found := Occurrences(name, text, findall);
    if found != [] {
      BestPrefersValid(Lookup(name).value, text, findall);
    }
  }

  /** The requested names, or every registered name when none are requested. */
  function FieldsToCheck(required: seq<string>): (r: seq<string>)
    ensures |r| > 0
    ensures required != [] ==> r == required
  {
    if required != [] then required else seq(|Registry|, i requires 0 <= i < |Registry| => Name(Registry[i]))
  }

  /** The keys of a Python dict filled in this order: first occurrences only. */
  function Distinct(xs: seq<string>): (r: seq<string>)
    ensures forall i, j :: 0 <= i < j < |r| ==> r[i] != r[j]
    ensures forall x :: x in r <==> x in xs
  {
    if xs == [] then []
    else
      var init := Distinct(xs[..|xs| - 1]);
      assert forall x :: x in xs <==> x in xs[..|xs| - 1] || x == xs[|xs| - 1];
      if xs[|xs| - 1] in init then init else init + [xs[|xs| - 1]]
  }

  /** Without a request list the fields checked are exactly the registered ones. */
  lemma AllRegisteredChecked(n: string)
    ensures n in FieldsToCheck([]) <==> Lookup(n).Some?
  {
    var f := FieldsToCheck([]);
    if Lookup(n).Some? {
      var k := Lookup(n).value;
      assert Registry[0] == Ogrn && Registry[1] == Inn && Registry[2] == Kpp && Registry[3] == Date;
      assert Registry[4] == Snils && Registry[5] == CertificateNumber && Registry[6] == Phone && Registry[7] == Email;
      var i: nat := match k
        case Ogrn => 0 case Inn => 1 case Kpp => 2 case Date => 3
        case Snils => 4 case CertificateNumber => 5 case Phone => 6 case Email => 7;
      assert f[i] == n;
    }
  }

  /** The body of the loop in `validate_critical_fields` for one field name. */
  method CheckOne(name: string, text: string, findall: (FieldKind, string) -> seq<string>) returns (r: ValidationResult)
    ensures r == CheckField(name, text, findall)
  {
    var found := FindField(name, text, findall);
    if found != [] {
      var best := found[BestIndex(found)];
      r := ValidateField(name, best.0, text, findall).(confidence := best.1);
    } else {
      r := ValidationResult(name, "", false, 0.0, Some(NotFound(name)), None);
    }
  }

  /** The dict `validate_critical_fields` fills from the names in order, with `check` giving each name's
      result: a later duplicate overwrites an earlier entry with the same value. */
  function ResultsOf(fields: seq<string>, check: string -> ValidationResult): map<string, ValidationResult> {
    if fields == [] then map[]
    else ResultsOf(fields[..|fields| - 1], check)[fields[|fields| - 1] := check(fields[|fields| - 1])]
  }

  /** The dict has an entry for exactly the names given. */
  lemma {:induction false} ResultsOfKeys(fields: seq<string>, check: string -> ValidationResult)
    ensures forall n :: n in ResultsOf(fields, check) <==> n in fields
  {
    if fields != [] {
      var init := fields[..|fields| - 1];
      ResultsOfKeys(init, check);
      assert fields == init + [fields[|fields| - 1]];
    }
  }

  /** Each entry is the result of checking its name. */
  lemma {:induction false} ResultsOfSpec(fields: seq<string>, check: string -> ValidationResult)
    ensures forall n :: n in ResultsOf(fields, check) <==> n in fields
    ensures forall n :: n in ResultsOf(fields, check) ==> ResultsOf(fields, check)[n] == check(n)
  {
    ResultsOfKeys(fields, check);
    if fields != [] {
      ResultsOfSpec(fields[..|fields| - 1], check);
    }
  }

  /** The loop of `validate_critical_fields` over the names to check. */
  method CheckAll(fields: seq<string>, text: string, findall: (FieldKind, string) -> seq<string>)
    returns (names: seq<string>, results: map<string, ValidationResult>)
    ensures names == Distinct(fields)
    ensures results == ResultsOf(fields, n => CheckField(n, text, findall))
  {
    ghost var check := n => CheckField(n, text, findall);
    names, results := [], map[];
    for i := 0 to |fields|
      invariant names == Distinct(fields[..i])
      invariant results == ResultsOf(fields[..i], check)
    {
      assert fields[..i + 1][..i] == fields[..i];
      var name := fields[i];
      var r := CheckOne(name, text, findall);
      ResultsOfKeys(fields[..i], check);
      if name !in results {
        names := names + [name];
      }
      results := results[name := r];
    }
    assert fields[..|fields|] == fields;
  }

  /** `validate_critical_fields`: one entry per distinct requested field, in first-request order. */
  method ValidateCriticalFields(text: string, required: seq<string>, findall: (FieldKind, string) -> seq<string>)
    returns (names: seq<string>, results: map<string, ValidationResult>)
    ensures names == Distinct(FieldsToCheck(required))
    ensures forall n :: n in results <==> n in FieldsToCheck(required)
    ensures forall n :: n in results ==> results[n] == CheckField(n, text, findall) && results[n].fieldName == n
  {
    names, results := CheckAll(FieldsToCheck(required), text, findall);
    ResultsOfSpec(FieldsToCheck(required), n => CheckField(n, text, findall));
  }

}
