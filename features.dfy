/** Building the model's input row in app.py: the encoded answers gathered
    under 17 fixed names (`data_dict`), then one value per name of the
    externally loaded schema `feature_order`, in the schema's order
    (`input_row`). Both steps subscript a dict, so a missing key raises a
    KeyError naming it; the model returns that error as a Failure. */
module Features {
  import opened Wrappers
  import opened Duration
  import opened Tables

  /** Python's KeyError, carrying the key that was looked up. */
  datatype KeyError = KeyError(key: string)

  /** The raw form answers. Weight and height are the numbers the form's inputs
      return; exercise is the slider's day count. */
  datatype Answers = Answers(
    ageGroup: string,
    pregnancy: string,
    bloodPressure: string,
    cholesterol: string,
    diabetes: string,
    homePesticides: string,
    weedPesticides: string,
    hadAsthma: string,
    stillAsthma: string,
    erVisit: string,
    smoking: string,
    cigs: string,
    durationInsulin: string,
    weight: real,
    height: real,
    exercise: int)

  /** The keys of `data_dict`, in the order the literal writes them. */
  const FieldNames: seq<string> := [
    "Age_Group", "Pregnancy_status", "Blood_pressure", "Cholesterol", "Diabetes",
    "Home_pesticides", "Weed_pesticides", "Had_asthma", "Still_asthma",
    "ER_visit_past_year", "Smoking_frequency", "Cigarettes_per_day",
    "Duration_insulin", "Weight_kg", "Height_cm", "BMI", "Exercise_per_month"]

  // ---------------------------------------------------------------------------
  // Dict subscription, left to right
  // ---------------------------------------------------------------------------

  /** Subscripts each table with its key, left to right, as Python evaluates a
      dict display or a list comprehension; the first missing key raises. */
  function LookupAll<V>(lookups: seq<(string, map<string, V>)>): (r: Result<seq<V>, KeyError>)
    ensures r.Success? <==> forall i :: 0 <= i < |lookups| ==> lookups[i].0 in lookups[i].1
    ensures r.Success? ==> |r.value| == |lookups|
    ensures r.Success? ==> forall i :: 0 <= i < |lookups| ==> r.value[i] == lookups[i].1[lookups[i].0]
    ensures r.Failure? ==>
      exists i :: 0 <= i < |lookups| && lookups[i].0 !in lookups[i].1 && r.error == KeyError(lookups[i].0)
        && forall j :: 0 <= j < i ==> lookups[j].0 in lookups[j].1
  {
    if lookups == [] then Success([])
    else
      var (key, table) := lookups[0];
      if key !in table then Failure(KeyError(key))
      else
        var rest :- LookupAll(lookups[1..]);
        Success([table[key]] + rest)
  }

  // ---------------------------------------------------------------------------
  // data_dict
  // ---------------------------------------------------------------------------

  /** Each categorical answer is a key of the table it is looked up in. */
  predicate InTables(a: Answers) {
    && a.ageGroup in AgeMap
    && a.pregnancy in BinaryMap && a.bloodPressure in BinaryMap
    && a.cholesterol in BinaryMap && a.diabetes in BinaryMap
    && a.homePesticides in BinaryMap && a.weedPesticides in BinaryMap
    && a.hadAsthma in BinaryMap && a.stillAsthma in BinaryMap
    && a.erVisit in BinaryMap
    && a.smoking in SmokingMap && a.cigs in CigsMap
  }

  /** Each categorical answer is one the form's select box offers. */
  predicate FromForm(a: Answers)
    ensures FromForm(a) ==> InTables(a)
  {
    AgeCodes(); BinaryCodes(); SmokingCodes(); CigsCodes();
    && a.ageGroup in AgeOptions
    && a.pregnancy in YesNoOptions && a.bloodPressure in YesNoOptions
    && a.cholesterol in YesNoOptions && a.diabetes in YesNoOptions
    && a.homePesticides in YesNoOptions && a.weedPesticides in YesNoOptions
    && a.hadAsthma in YesNoOptions && a.stillAsthma in YesNoOptions
    && a.erVisit in YesNoOptions
    && a.smoking in SmokingOptions && a.cigs in CigsOptions
  }

  /** The table subscriptions of the `data_dict` literal, in its order. */
  function CategoricalLookups(a: Answers): (lookups: seq<(string, map<string, int>)>)
    ensures |lookups| == 12
    ensures lookups[0].1 == AgeMap && lookups[10].1 == SmokingMap && lookups[11].1 == CigsMap
    ensures forall i :: 1 <= i < 10 ==> lookups[i].1 == BinaryMap
  {
    [ (a.ageGroup, AgeMap),
      (a.pregnancy, BinaryMap), (a.bloodPressure, BinaryMap),
      (a.cholesterol, BinaryMap), (a.diabetes, BinaryMap),
      (a.homePesticides, BinaryMap), (a.weedPesticides, BinaryMap),
      (a.hadAsthma, BinaryMap), (a.stillAsthma, BinaryMap),
      (a.erVisit, BinaryMap),
      (a.smoking, SmokingMap), (a.cigs, CigsMap) ]
  }

  /** The value the `data_dict` literal writes under each of `FieldNames`:
      each categorical answer through its table, then `duration` (the code
      `EncodeDuration` gives the duration answer) and the numbers unchanged. */
  function FieldValues(a: Answers, duration: int, bmi: real): (values: seq<real>)
    requires InTables(a)
    ensures |values| == |FieldNames|
  {
    [ AgeMap[a.ageGroup] as real,
      BinaryMap[a.pregnancy] as real, BinaryMap[a.bloodPressure] as real,
      BinaryMap[a.cholesterol] as real, BinaryMap[a.diabetes] as real,
      BinaryMap[a.homePesticides] as real, BinaryMap[a.weedPesticides] as real,
      BinaryMap[a.hadAsthma] as real, BinaryMap[a.stillAsthma] as real,
      BinaryMap[a.erVisit] as real,
      SmokingMap[a.smoking] as real, CigsMap[a.cigs] as real,
      duration as real,
      a.weight, a.height, bmi, a.exercise as real ]
  }

  /** `data_dict`: the 17 encoded answers by name. `bmi` is the body-mass index
      the script computes beforehand. A categorical answer missing from its
      table raises the KeyError of the first such answer, in the literal's order. */
  function EncodeAnswers(a: Answers, bmi: real): (r: Result<map<string, real>, KeyError>)
    ensures r.Success? <==> InTables(a)
    ensures r.Success? ==> forall name :: name in r.value <==> name in FieldNames
    ensures r.Success? ==> forall i :: 0 <= i < |FieldNames| ==> r.value[FieldNames[i]] == FieldValues(a, EncodeDuration(a.durationInsulin), bmi)[i]
    ensures r.Failure? ==>
      var lookups := CategoricalLookups(a);
      exists i :: 0 <= i < |lookups| && lookups[i].0 !in lookups[i].1 && r.error == KeyError(lookups[i].0)
        && forall j :: 0 <= j < i ==> lookups[j].0 in lookups[j].1
  {
    LookupsInTables(a);
    var codes :- LookupAll(CategoricalLookups(a));
    var duration := EncodeDuration(a.durationInsulin);
    var values := [
      codes[0] as real, codes[1] as real, codes[2] as real, codes[3] as real,
      codes[4] as real, codes[5] as real, codes[6] as real, codes[7] as real,
      codes[8] as real, codes[9] as real, codes[10] as real, codes[11] as real,
      duration as real,
      a.weight, a.height, bmi, a.exercise as real];
    CodesAreFieldValues(a, duration, bmi, codes, values);
    Success(ByName(values))
  }

  /** The dict a literal with keys `FieldNames` and the given values builds. */
  function ByName(values: seq<real>): (d: map<string, real>)
    requires |values| == |FieldNames|
    ensures forall name :: name in d <==> name in FieldNames
    ensures forall i :: 0 <= i < |FieldNames| ==> d[FieldNames[i]] == values[i]
  {
    FieldNamesDistinct();
    map i | 0 <= i < |FieldNames| :: FieldNames[i] := values[i]
  }

  /** All twelve subscriptions succeed exactly when every answer is in its table. */
  lemma LookupsInTables(a: Answers)
    ensures InTables(a) <==> forall i :: 0 <= i < |CategoricalLookups(a)| ==>
      CategoricalLookups(a)[i].0 in CategoricalLookups(a)[i].1
  {
    var l := CategoricalLookups(a);
    if forall i :: 0 <= i < |l| ==> l[i].0 in l[i].1 {
      assert l[0].0 in l[0].1 && l[1].0 in l[1].1 && l[2].0 in l[2].1;
      assert l[3].0 in l[3].1 && l[4].0 in l[4].1 && l[5].0 in l[5].1;
      assert l[6].0 in l[6].1 && l[7].0 in l[7].1 && l[8].0 in l[8].1;
      assert l[9].0 in l[9].1 && l[10].0 in l[10].1 && l[11].0 in l[11].1;
    }
  }

  /** The codes the subscriptions return, followed by the duration code and the
      numbers, are the values the literal writes. */
  lemma CodesAreFieldValues(a: Answers, duration: int, bmi: real, codes: seq<int>, values: seq<real>)
    requires InTables(a)
    requires |codes| == 12
    requires forall i :: 0 <= i < 12 ==> codes[i] == CategoricalLookups(a)[i].1[CategoricalLookups(a)[i].0]
    requires values == [
      codes[0] as real, codes[1] as real, codes[2] as real, codes[3] as real,
      codes[4] as real, codes[5] as real, codes[6] as real, codes[7] as real,
      codes[8] as real, codes[9] as real, codes[10] as real, codes[11] as real,
      duration as real,
      a.weight, a.height, bmi, a.exercise as real]
    ensures values == FieldValues(a, duration, bmi)
  {
  }

  // ---------------------------------------------------------------------------
  // input_row
  // ---------------------------------------------------------------------------

  /** `[data_dict[feat] for feat in feature_order]`: position i holds the value
      named `order[i]`; the first name that is not a key raises its KeyError. */
  function BuildRow(d: map<string, real>, order: seq<string>): (r: Result<seq<real>, KeyError>)
    ensures r.Success? <==> forall i :: 0 <= i < |order| ==> order[i] in d
    ensures r.Success? ==> |r.value| == |order| && forall i :: 0 <= i < |order| ==> r.value[i] == d[order[i]]
    ensures r.Failure? ==>
      exists i :: 0 <= i < |order| && order[i] !in d && r.error == KeyError(order[i])
        && forall j :: 0 <= j < i ==> order[j] in d
  {
    var lookups := seq(|order|, i requires 0 <= i < |order| => (order[i], d));
    assert forall i :: 0 <= i < |order| ==> lookups[i] == (order[i], d);
    LookupAll(lookups)
  }

  /** The whole encoder: `data_dict`, then the row in the schema's order. */
  function Assemble(a: Answers, bmi: real, order: seq<string>): (r: Result<seq<real>, KeyError>)
    ensures r.Success? <==> InTables(a) && forall i :: 0 <= i < |order| ==> order[i] in FieldNames
    ensures r.Success? ==> |r.value| == |order|
    ensures r.Success? ==> forall i :: 0 <= i < |order| ==> r.value[i] == EncodeAnswers(a, bmi).value[order[i]]
  {
    var d :- EncodeAnswers(a, bmi);
    BuildRow(d, order)
  }

  // ---------------------------------------------------------------------------
  // Properties
  // ---------------------------------------------------------------------------

  /** The duration is encoded by `EncodeDuration`; weight, height, BMI and
      exercise pass through unchanged. */
  lemma PassThrough(a: Answers, bmi: real)
    requires InTables(a)
    ensures EncodeAnswers(a, bmi).Success?
    ensures FieldNames[12] == "Duration_insulin" && FieldNames[13] == "Weight_kg"
      && FieldNames[14] == "Height_cm" && FieldNames[15] == "BMI" && FieldNames[16] == "Exercise_per_month"
    ensures var d := EncodeAnswers(a, bmi).value;
      && d["Duration_insulin"] == EncodeDuration(a.durationInsulin) as real
      && d["Weight_kg"] == a.weight && d["Height_cm"] == a.height
      && d["BMI"] == bmi && d["Exercise_per_month"] == a.exercise as real
  {
    var d := EncodeAnswers(a, bmi).value;
    var v := FieldValues(a, EncodeDuration(a.durationInsulin), bmi);
    assert d[FieldNames[12]] == v[12] && d[FieldNames[13]] == v[13] && d[FieldNames[14]] == v[14];
    assert d[FieldNames[15]] == v[15] && d[FieldNames[16]] == v[16];
  }

  /** The 17 names are distinct. */
  lemma FieldNamesDistinct()
    ensures |FieldNames| == 17
    ensures forall i, j :: 0 <= i < j < |FieldNames| ==> FieldNames[i] != FieldNames[j]
  {
  }

  /** An answer the form offers is a key of its table. */
  lemma FromFormInTables(a: Answers)
    requires FromForm(a)
    ensures InTables(a)
  {
    AgeCodes();
    BinaryCodes();
    SmokingCodes();
    CigsCodes();
  }

  predicate IsBit(x: real) {
    x == 0.0 || x == 1.0
  }

  /** Answers the form can produce always encode. */
  lemma FormAnswersEncode(a: Answers, bmi: real)
    requires FromForm(a)
    ensures EncodeAnswers(a, bmi).Success?
  {
    FromFormInTables(a);
  }

  /** The age code is 0..4. */
  lemma AgeCodeInRange(a: Answers, duration: int, bmi: real)
    requires InTables(a)
    ensures 0.0 <= FieldValues(a, duration, bmi)[0] <= 4.0
  {
    AgeRange();
  }

  /** The nine yes/no codes are 0 or 1. */
  lemma FlagsAreBits(a: Answers, duration: int, bmi: real)
    requires InTables(a)
    ensures forall i :: 1 <= i < 10 ==> IsBit(FieldValues(a, duration, bmi)[i])
  {
    var v := FieldValues(a, duration, bmi);
    BitOf(a.pregnancy); BitOf(a.bloodPressure); BitOf(a.cholesterol);
    BitOf(a.diabetes); BitOf(a.homePesticides); BitOf(a.weedPesticides);
    BitOf(a.hadAsthma); BitOf(a.stillAsthma); BitOf(a.erVisit);
    assert IsBit(v[1]) && IsBit(v[2]) && IsBit(v[3]) && IsBit(v[4]) && IsBit(v[5]);
    assert IsBit(v[6]) && IsBit(v[7]) && IsBit(v[8]) && IsBit(v[9]);
  }

  /** The smoking code is -1..2 and the cigarettes code -1..1. */
  lemma SmokingCodesInRange(a: Answers, duration: int, bmi: real)
    requires InTables(a)
    ensures -1.0 <= FieldValues(a, duration, bmi)[10] <= 2.0
    ensures -1.0 <= FieldValues(a, duration, bmi)[11] <= 1.0
  {
    SmokingRange();
    CigsRange();
  }

  lemma BitOf(k: string)
    requires k in BinaryMap
    ensures IsBit(BinaryMap[k] as real)
  {
    BinaryRange();
  }

  /** For answers from the form, the row is built exactly when every schema
      name is one of the 17 fields. */
  lemma FormRowSucceedsIff(a: Answers, bmi: real, order: seq<string>)
    requires FromForm(a)
    ensures Assemble(a, bmi, order).Success? <==> forall i :: 0 <= i < |order| ==> order[i] in FieldNames
  {
    FormAnswersEncode(a, bmi);
  }

  /** A schema name that is not one of the 17 fields makes row assembly fail
      with a KeyError; it does not default to 0. The error names the first such
      schema entry. */
  lemma UnknownFeatureFails(a: Answers, bmi: real, order: seq<string>, k: nat)
    requires InTables(a)
    requires k < |order| && order[k] !in FieldNames
    ensures Assemble(a, bmi, order).Failure?
    ensures exists i :: (0 <= i <= k && Assemble(a, bmi, order).error == KeyError(order[i]) && order[i] !in FieldNames
      && forall j :: 0 <= j < i ==> order[j] in FieldNames)
  {
    var d := EncodeAnswers(a, bmi).value;
    var r := BuildRow(d, order);
    assert Assemble(a, bmi, order) == r;
    var i :| 0 <= i < |order| && order[i] !in d && r.error == KeyError(order[i])
        && forall j :: 0 <= j < i ==> order[j] in d;
    assert i <= k;
  }

  /** The row depends only on the values under the schema's names, however
      the dict holds them. */
  lemma BuildRowDependsOnlyOnNamed(d1: map<string, real>, d2: map<string, real>, order: seq<string>)
    requires forall i :: 0 <= i < |order| ==> (order[i] in d1 <==> order[i] in d2)
    requires forall i :: 0 <= i < |order| && order[i] in d1 ==> d1[order[i]] == d2[order[i]]
    ensures BuildRow(d1, order) == BuildRow(d2, order)
  {
    var r1, r2 := BuildRow(d1, order), BuildRow(d2, order);
    if r1.Success? {
      assert r1.value == r2.value;
    } else {
      var i1 :| 0 <= i1 < |order| && order[i1] !in d1 && r1.error == KeyError(order[i1])
          && forall j :: 0 <= j < i1 ==> order[j] in d1;
      var i2 :| 0 <= i2 < |order| && order[i2] !in d2 && r2.error == KeyError(order[i2])
          && forall j :: 0 <= j < i2 ==> order[j] in d2;
      assert i1 == i2;
    }
  }

  /** Splitting the schema splits the row: the row of `o1 + o2` is the row of
      `o1` followed by the row of `o2`. */
  lemma BuildRowAppend(d: map<string, real>, o1: seq<string>, o2: seq<string>)
    requires BuildRow(d, o1).Success? && BuildRow(d, o2).Success?
    ensures BuildRow(d, o1 + o2) == Success(BuildRow(d, o1).value + BuildRow(d, o2).value)
  {
    var o := o1 + o2;
    assert forall i :: 0 <= i < |o| ==> o[i] in d by {
      forall i | 0 <= i < |o| ensures o[i] in d {
        if i < |o1| { assert o[i] == o1[i]; } else { assert o[i] == o2[i - |o1|]; }
      }
    }
    var r, r1, r2 := BuildRow(d, o).value, BuildRow(d, o1).value, BuildRow(d, o2).value;
    assert r == r1 + r2 by {
      forall i | 0 <= i < |r| ensures r[i] == (r1 + r2)[i] {
        if i < |o1| { assert o[i] == o1[i]; } else { assert o[i] == o2[i - |o1|]; }
      }
    }
  }

  /** The sample submission: age "15-30", every yes/no "No", smoking "No",
      cigarettes "<1", duration "Invalid", 70 kg, 170 cm, 8 exercise days. */
  function SampleAnswers(): Answers {
    Answers("15-30", "No", "No", "No", "No", "No", "No", "No", "No", "No",
            "No", "<1", "Invalid", 70.0, 170.0, 8)
  }

  /** Against the schema that lists the 17 fields in the literal's order, the
      row is exactly the literal's values. */
  lemma RowInFieldOrder(a: Answers, bmi: real)
    requires InTables(a)
    ensures Assemble(a, bmi, FieldNames) == Success(FieldValues(a, EncodeDuration(a.durationInsulin), bmi))
  {
    FieldNamesDistinct();
    var r := Assemble(a, bmi, FieldNames);
    assert r.Success?;
    assert r.value == FieldValues(a, EncodeDuration(a.durationInsulin), bmi);
  }

  /** The sample's values: age 1, zeros for the flags, -1 for the duration and
      the inputs passed through. */
  lemma SampleValues(bmi: real)
    ensures InTables(SampleAnswers())
    ensures FieldValues(SampleAnswers(), EncodeDuration(SampleAnswers().durationInsulin), bmi)
         == [1.0, 0.0, 0.0, 0.0, 0.0, 0.0, 0.0, 0.0, 0.0, 0.0, 0.0, 0.0, -1.0, 70.0, 170.0, bmi, 8.0]
  {
    EncodeDurationSentinel();
  }

  /** The sample encodes without error against a schema of the 17 fields. */
  lemma SampleEncodes(bmi: real)
    ensures Assemble(SampleAnswers(), bmi, FieldNames)
         == Success([1.0, 0.0, 0.0, 0.0, 0.0, 0.0, 0.0, 0.0, 0.0, 0.0, 0.0, 0.0, -1.0, 70.0, 170.0, bmi, 8.0])
  {
    SampleValues(bmi);
    RowInFieldOrder(SampleAnswers(), bmi);
  }

  /** A schema that also lists "Gender", which the form does not collect, makes
      the sample fail with KeyError("Gender") rather than encode a 0. */
  lemma SampleWithGenderFails(bmi: real)
    ensures Assemble(SampleAnswers(), bmi, FieldNames + ["Gender"]) == Failure(KeyError("Gender"))
  {
    var order := FieldNames + ["Gender"];
    assert "Gender" !in FieldNames;
    assert forall i :: 0 <= i < 17 ==> order[i] in FieldNames;
    assert InTables(SampleAnswers());
    UnknownFeatureFails(SampleAnswers(), bmi, order, 17);
  }
}
