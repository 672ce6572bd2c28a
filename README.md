# Bronchial Asthma Risk Tool: the encoder and the risk banding

This project models the computational core of `app.py`, the one-page web form
of the Bronchial Asthma Risk Tool, and proves properties of it. The core has
three parts.

- **Answer encoding.** The form's categorical answers go through four fixed
  tables (`age_map`, `binary_map`, `smoking_map`, `cigs_map`). The free-text
  insulin duration goes through `encode_duration`: the sentinel "Invalid"
  gives -1, otherwise the first whitespace-separated token is read as a number
  and truncated toward zero, and any failure gives -1.
- **Feature row.** The 17 encoded values are collected under fixed names
  (`data_dict`). Then one value is taken per name of the externally loaded
  schema `feature_order`, in the schema's order (`input_row`). Both steps
  subscript a dict. A missing key raises `KeyError`, which the model returns
  as `Failure(KeyError(key))`. The key is the first missing one in Python's
  left-to-right evaluation order.
- **Risk banding.** The model's probability is mapped to no risk (below 0.20),
  low risk (from 0.20 up to 0.50) or high risk (0.50 and above). Each level
  comes with its CSS class and its label.

Modules:

- `Wrappers` (`wrappers.dfy`): `Option` and `Result`.
- `Tables` (`tables.dfy`): the encoding tables and the options the form offers.
- `Duration` (`duration.dfy`): whitespace splitting as Python's `str.split()`
  does it, decimal literals read exactly (`float()`'s rounding to a double is not modelled), truncation as `int()`
  does it, and `EncodeDuration`.
- `Features` (`features.dfy`): the answers record, `data_dict` as
  `EncodeAnswers`, `input_row` as `BuildRow`, and the two composed as
  `Assemble`.
- `Risk` (`risk.dfy`): the threshold chain as `Categorize`.

The code is pure: every operation is a function, and properties are lemmas.

A lenient encoder could substitute 0 for a schema name with no encoded
field. `app.py:128` subscripts the dict instead, so such a name raises
`KeyError`. `Features.UnknownFeatureFails` and
`Features.SampleWithGenderFails` state this behaviour.

## Model

| member | source | states |
|---|---|---|
| Tables.AgeCodes | app.py:62 | the age options are exactly the keys of `age_map`; the i-th option encodes to i; distinct brackets get distinct codes |
| Tables.AgeRange | app.py:62 | every age code lies in 0..4 |
| Tables.BinaryCodes | app.py:63 | "Yes" and "No" are exactly the keys of `binary_map`; "Yes" is 1 and "No" is 0; the two codes differ |
| Tables.BinaryRange | app.py:63 | every yes/no code is 0 or 1 |
| Tables.SmokingCodes | app.py:64 | the smoking options are exactly the table's keys; "Invalid" is -1; the codes are distinct |
| Tables.SmokingRange | app.py:64 | every smoking code lies in -1..2 |
| Tables.CigsCodes | app.py:65 | the cigarette options are exactly the table's keys; "Invalid" is -1; the codes are distinct |
| Tables.CigsRange | app.py:65 | every cigarette code lies in -1..1 |
| Duration.TokenEnd | app.py:70 | the length of the leading non-whitespace run: that prefix has no whitespace, and it ends at the text's end or at a whitespace character |
| Duration.Split | app.py:70 | `str.split()`: every token is non-empty and whitespace-free; there are no tokens exactly when the text is all whitespace |
| Duration.SplitSkipsLeadingSpace | app.py:70 | leading whitespace does not change the tokens |
| Duration.SplitFirstToken | app.py:70 | a whitespace-free run followed by the end or by whitespace is the first token |
| Duration.FirstTokenOf | app.py:70 | in whitespace + token + (nothing or whitespace-led rest), the first token is that token |
| Duration.DigitsValue | app.py:70 | the value of n decimal digits is below 10^n |
| Duration.DotIndex | app.py:70 | the first '.' of a text, or its length when there is none |
| Duration.ParseUnsigned | app.py:70 | an accepted literal is non-empty, non-negative, and its fraction is below 10^places |
| Duration.ParseDecimal | app.py:70 | an accepted literal is non-empty, is negative exactly when it starts with '-', and its fraction is below 10^places |
| Duration.ParseDecimalOfParts | app.py:70 | a literal built from a sign, integer digits, an optional point and fraction digits parses to exactly those parts' values |
| Duration.ParseDecimalShape | app.py:70 | a token that parses holds only digits, at most one '.', and at most one sign, which comes first; it holds at least one digit |
| Duration.ParseUnsignedShape | app.py:70 | an unsigned literal that parses is digits apart from its first '.', and holds a digit |
| Duration.TruncateTowardZero | app.py:70 | `int()` of a float: the integer toward zero within distance 1, for both signs |
| Duration.TruncateDecimal | app.py:70 | truncating a decimal literal's value keeps its signed integer digits and drops the fraction |
| Duration.TokenCode | app.py:70 | `int(float(token))` inside the `try`: a token that does not parse gives -1; a parsed literal gives its integer digits, negated when it is negative |
| Duration.EncodeDuration | app.py:67-72 | `encode_duration`: "Invalid" and empty or all-whitespace text give -1; any other text gives the code of its first token (described further by the `EncodeDuration*` lemmas below) |
| Duration.EncodeDurationSentinel | app.py:68 | "Invalid" encodes to -1 |
| Duration.SentinelIsNotANumber | app.py:68-72 | "Invalid" does not parse as a number, so the sentinel test agrees with the parse-failure path |
| Duration.EncodeDurationBlank | app.py:69-72 | empty or all-whitespace text has no first token and encodes to -1 |
| Duration.EncodeDurationFirstToken | app.py:67-72 | the code of a text is the code of its first token, whatever surrounds it |
| Duration.EncodeDurationDecimal | app.py:67-72 | a first token that is a decimal literal encodes to its integer digits, negated for '-'; the fraction, the leading whitespace and the tail are ignored |
| Duration.LiteralIsToken | app.py:70 | a decimal literal is non-empty and whitespace-free, so it is a whole token |
| Duration.TokenCodeOfLiteral | app.py:70 | `int(float(t))` of a decimal literal is its signed integer digits |
| Duration.EncodeDurationNotNumber | app.py:69-72 | a first token holding a character other than a digit, a point or a leading sign encodes to -1; the source reads some such tokens as numbers (exponents, underscores, non-ASCII digits), see "Left out" |
| Duration.EncodeDurationIgnoresTail | app.py:70 | text after the first token does not change the code |
| Duration.EncodeDurationSixMonths | app.py:67-72 | "6 months" encodes to 6 |
| Duration.EncodeDurationTruncates | app.py:67-72 | "2.9 yrs" encodes to 2 |
| Duration.EncodeDurationNegative | app.py:67-72 | "-1.5" encodes to -1: truncation is toward zero |
| Duration.EncodeDurationRejects | app.py:67-72 | "abc" and "" encode to -1 |
| Features.LookupAll | app.py:107-128 | left-to-right dict subscription: it succeeds exactly when every key is present, and then position i holds the value of key i; otherwise it fails with the first missing key |
| Features.CategoricalLookups | app.py:108-119 | the twelve (answer, table) subscriptions in the literal's order: age through `age_map`, the nine yes/no answers through `binary_map`, then smoking and cigarettes through their tables |
| Features.FromForm | app.py:80-97 | an answer the select boxes can produce; every such answer is a key of its table |
| Features.FieldValues | app.py:107-125 | the literal writes one value per field name |
| Features.PassThrough | app.py:120-124 | in `data_dict`, Duration_insulin is `EncodeDuration` of the text, and Weight_kg, Height_cm, BMI and Exercise_per_month are the inputs unchanged |
| Features.ByName | app.py:107-125 | the dict holds exactly the 17 field names, each bound to its value |
| Features.EncodeAnswers | app.py:107-125 | `data_dict` succeeds exactly when every categorical answer is a key of its table; it then holds exactly the 17 names, each bound to the literal's value; otherwise it fails with the first unknown answer in the literal's order |
| Features.LookupsInTables | app.py:108-119 | the twelve table subscriptions all succeed exactly when every categorical answer is a key of its table |
| Features.BuildRow | app.py:128 | the comprehension succeeds exactly when every schema name is a key; position i then holds the value under the i-th name; otherwise it fails with the first missing name |
| Features.Assemble | app.py:107-128 | the row is built exactly when the answers are in their tables and every schema name is a field name; it has the schema's length and position i holds the value of field `order[i]` |
| Features.FieldNamesDistinct | app.py:107-125 | the literal has 17 distinct keys |
| Features.FromFormInTables | app.py:80-97 | every answer a select box offers is a key of its table |
| Features.FormAnswersEncode | app.py:107-125 | answers the form can produce always encode |
| Features.AgeCodeInRange | app.py:108 | the age code in `data_dict` is in 0..4 (it reaches the row through `BuildRow`) |
| Features.FlagsAreBits | app.py:109-117 | the nine yes/no codes in `data_dict` are 0 or 1 (they reach the row through `BuildRow`) |
| Features.SmokingCodesInRange | app.py:118-119 | in `data_dict` the smoking code is in -1..2 and the cigarette code in -1..1 |
| Features.FormRowSucceedsIff | app.py:128 | for form answers, the row is built exactly when every schema name is a field name |
| Features.UnknownFeatureFails | app.py:128 | a schema name that is not a field raises `KeyError`, naming the first unknown entry, which is that one or an earlier one; it does not default to 0 |
| Features.BuildRowDependsOnlyOnNamed | app.py:128 | the row depends only on the dict's entries under the schema's names |
| Features.BuildRowAppend | app.py:128 | the row for a concatenated schema is the concatenation of the rows |
| Features.RowInFieldOrder | app.py:107-128 | against a schema listing the 17 fields in the literal's order, the row is exactly the literal's values |
| Features.SampleValues | app.py:107-125 | the sample submission's values: age 1, zeros for the flags, -1 for the duration, then weight, height, BMI and exercise |
| Features.SampleEncodes | app.py:107-128 | the sample submission's row against the 17-field schema |
| Features.SampleWithGenderFails | app.py:128 | a schema that adds "Gender" makes the sample fail with `KeyError("Gender")` |
| Risk.RiskClass | app.py:137-145 | the class of each level is one the stylesheet defines |
| Risk.Label | app.py:137-145 | every label ends in " RISK" |
| Risk.Outcome | app.py:137-145 | the `(risk_class, label)` pair: the class is a styled one, "green" exactly below 0.20 and "red" exactly from 0.50 up |
| Risk.Severity | app.py:137-145 | the ordinal of a level: 0 exactly for no risk, 2 exactly for high risk |
| Risk.Categorize | app.py:137-145 | no risk exactly below 0.20, low risk exactly from 0.20 up to 0.50, high risk exactly from 0.50 up |
| Risk.CategorizeMonotone | app.py:137-145 | a higher probability never gives a lower level |
| Risk.HigherLevelHigherProb | app.py:137-145 | a strictly higher level only comes from a strictly higher probability |
| Risk.OutcomeBands | app.py:137-145 | the (class, label) pair is ("green","NO RISK"), ("yellow","LOW RISK") or ("red","HIGH RISK") exactly on the three bands |
| Risk.CutsAreInclusiveBelow | app.py:137-145 | 0.20 is low risk and 0.50 is high risk; everything below a cut stays in the lower band |
| Risk.LevelTexts | app.py:137-145 | class and label each identify the level; every class is one of the stylesheet's green/yellow/red |
| Risk.CategorizeExamples | app.py:137-145 | 0.15, 0.35 and 0.80 give the three outcomes; 0.19999 is no risk and 0.49999 is low risk |

## Left out

- The Streamlit page is not modelled: configuration, stylesheet, sidebar, widgets, button and markdown output, including the `:.2f` formatting of the probability. The widgets' results are the fields of `Features.Answers`.
- The bounds of the number inputs and of the exercise slider (app.py:90-92) are not imposed, because no encoding step depends on them.
- `Features.Answers` allows any string in the categorical fields, not only the options, so that the `KeyError` paths can be stated.
- Loading the ONNX model and reading `feature_order.json` (app.py:15-25) are file I/O. The schema is the parameter `order`.
- ONNX inference (app.py:131-132) is a foreign call. The probability is the parameter of `Risk.Categorize`.
- The BMI formula (app.py:100) is floating-point arithmetic. BMI is the parameter `bmi`.
- `Features.Assemble`: the float32 cast of `np.array` is not modelled. Row values are exact reals. The row is returned as one sequence, not as a 1-by-n array.
- `Duration.ParseDecimal`, `Duration.EncodeDurationNotNumber`, `Duration.TokenCode`, `Duration.EncodeDuration`: only decimal literals are read (a sign, digits, an optional fraction). For some other tokens the source returns a number but the model returns -1: an exponent ("1e3" gives 1000 in the source), underscores between digits, and non-ASCII digits. Spellings of infinity and NaN give -1 in both, since `int()` rejects them.
- `Duration.TokenCodeOfLiteral`, `Duration.EncodeDurationDecimal`, `Duration.TokenCode`, `Duration.EncodeDuration`: the value is truncated exactly, without rounding to a double first. A literal with more digits than a double holds ("2.99999999999999999" rounds to 3.0, so the source gives 3) and a literal beyond the double range (which becomes infinity, so the source gives -1) differ from the source.
- `Risk.Categorize`: the probability and the cut points are exact reals. In the source the probability is whatever binary floating-point value the model's first output holds (app.py:131-132), and 0.20 and 0.50 are binary floating-point constants, so the rounding of those values is not modelled. Exact reals also have no NaN: a NaN probability fails both `<` tests in the source and is reported as high risk.
- When a `KeyError` escapes, the script aborts. The model returns the error as a value and does not model what the page then shows.
