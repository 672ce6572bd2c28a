/** The fixed answer-encoding tables of app.py: closed option sets mapped to
    ordinal codes, with -1 as the code of the "Invalid" answer where a table
    offers one. The option lists are what the form's select boxes show: the
    keys of a table in their written order, or the literal ["Yes", "No"]. */
module Tables {

  /** `age_map`: age bracket to ordinal 0..4. */
  const AgeMap: map<string, int> :=
    map["Under 15" := 0, "15-30" := 1, "30-45" := 2, "45-60" := 3, "60+" := 4]
  const AgeOptions: seq<string> := ["Under 15", "15-30", "30-45", "45-60", "60+"]

  /** `binary_map`: yes/no to 1/0. */
  const BinaryMap: map<string, int> := map["Yes" := 1, "No" := 0]
  const YesNoOptions: seq<string> := ["Yes", "No"]

  /** `smoking_map`: smoking frequency to 0..2, "Invalid" to -1. */
  const SmokingMap: map<string, int> :=
    map["No" := 0, "Some days" := 1, "Every day" := 2, "Invalid" := -1]
  const SmokingOptions: seq<string> := ["No", "Some days", "Every day", "Invalid"]

  /** `cigs_map`: cigarettes per day to 0..1, "Invalid" to -1. */
  const CigsMap: map<string, int> := map["<1" := 0, ">5" := 1, "Invalid" := -1]
  const CigsOptions: seq<string> := ["<1", ">5", "Invalid"]

  /** Distinct answers get distinct codes. */
  ghost predicate Injective(m: map<string, int>) {
    forall a, b :: a in m && b in m && a != b ==> m[a] != m[b]
  }

  /** The options a select box offers are exactly the keys of its table. */
  ghost predicate OptionsAreKeys(options: seq<string>, m: map<string, int>) {
    (forall i :: 0 <= i < |options| ==> options[i] in m)
    && (forall k :: k in m ==> k in options)
  }

  /** Age brackets encode to their position in the list: 0..4, one per bracket. */
  lemma AgeCodes()
    ensures OptionsAreKeys(AgeOptions, AgeMap)
    ensures forall i :: 0 <= i < |AgeOptions| ==> AgeMap[AgeOptions[i]] == i
    ensures Injective(AgeMap)
  {
  }

  lemma AgeRange()
    ensures forall k :: k in AgeMap ==> 0 <= AgeMap[k] <= 4
  {
  }

  /** "Yes" is 1 and "No" is 0, and these are the only answers. */
  lemma BinaryCodes()
    ensures OptionsAreKeys(YesNoOptions, BinaryMap)
    ensures BinaryMap["Yes"] == 1 && BinaryMap["No"] == 0
    ensures Injective(BinaryMap)
  {
  }

  lemma BinaryRange()
    ensures forall k :: k in BinaryMap ==> BinaryMap[k] == 0 || BinaryMap[k] == 1
  {
  }

  /** The smoking options encode to distinct codes; "Invalid" is -1. */
  lemma SmokingCodes()
    ensures OptionsAreKeys(SmokingOptions, SmokingMap)
    ensures SmokingMap["Invalid"] == -1
    ensures Injective(SmokingMap)
  {
  }

  /** Smoking frequency codes lie in {-1, 0, 1, 2}. */
  lemma SmokingRange()
    ensures forall k :: k in SmokingMap ==> -1 <= SmokingMap[k] <= 2
  {
  }

  /** The cigarette options encode to distinct codes; "Invalid" is -1. */
  lemma CigsCodes()
    ensures OptionsAreKeys(CigsOptions, CigsMap)
    ensures CigsMap["Invalid"] == -1
    ensures Injective(CigsMap)
  {
  }

  /** Cigarette bucket codes lie in {-1, 0, 1}. */
  lemma CigsRange()
    ensures forall k :: k in CigsMap ==> -1 <= CigsMap[k] <= 1
  {
  }
}
