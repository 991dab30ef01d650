# Heavy-metal pollution index engine: a Dafny model

This project models the calculation engine of the groundwater-quality analyser
(`src/lib/calculations.ts`). The engine takes rows of loosely typed cells, one
row per water sample and one column per measured heavy metal. It detects the
metal columns from the first row and looks up each metal's WHO permissible
concentration, with 1 as the fallback for a metal the table does not list. For
every sample it computes three indices:

- the Heavy Metal Pollution Index (HPI), a weighted mean of the sub-indices
  `c/s·100`, where each weight is `1/s`;
- the Heavy Metal Evaluation Index (HEI), the sum of `c/s`;
- the Contamination Degree (Cd), the same sum.

It rounds the indices to two decimals, classifies the unrounded HPI as Safe,
Slightly Polluted or Hazardous, and assembles one record per row.

Modules, one per component of the engine:

- `rows.dfy` (`Rows`): cell values (`Num | Str | Bool | Absent`) and rows,
  which are the `(key, value)` entries in `Object.keys` order. It also holds
  JavaScript truthiness and `||`, `parseFloat` on strings, the coercion
  `parseFloat(v) || 0`, and the decimal rendering used in `Sample ${n}`.
- `standards.dfy` (`Standards`): the ten-entry guideline table, kept as its
  entries in written order, and the lookup `WHO_STANDARDS[metal] || 1`.
- `indices.dfy` (`Indices`): `calculateHPI`, `calculateHEI` and
  `calculateCd`. Each is a loop method proved equal to a formula over the
  per-metal readings (concentration, standard). The file also proves the
  properties of those formulas.
- `quality.dfy` (`Quality`): `categorizeWaterQuality` and its monotonicity.
- `batch.dfy` (`Batch`): the metal-column filter, rounding, record assembly
  (id, coordinates, metals map) and `processWaterSamples`.

Numbers are exact reals. `Math.round(x*100)/100` is modelled as
`Floor(100·x + 1/2)/100`, because JavaScript rounds halves towards +∞.

Where the code and its declared types differ, the model follows the code.
`WaterSample` and `CalculationResult` (`src/lib/calculations.ts:3-19`) declare
`id: string` and `latitude?`/`longitude?: number`, and the About page asks for
a "sample ID" column (`src/pages/About.tsx:34`), but:

- Coordinates are not converted to numbers. `sample.latitude || sample.lat`
  yields the raw cell value, so a record's `latitude` and `longitude` are cell
  values, possibly strings or absent. A falsy earlier value (0, "") falls
  through to the next spelling just like a missing one. So a latitude of
  exactly 0 with no `lat` column gives an absent latitude.
- The identifier is the raw `id` cell when that is truthy. With dynamically
  typed CSV input it can be a number, so the record's `id` is a cell value.
- The reserved-column filter lower-cases the key, but the identifier and
  coordinates are read under their exact lower-case names. A column `ID` is
  therefore neither a metal nor the identifier.

## Model

| member | source | states |
|---|---|---|
| `Rows.Truthy` | src/lib/calculations.ts:118-120 | the falsy cells, which `\|\|` skips, are exactly 0, the empty string, `false` and an absent value |
| `Rows.Or` | src/lib/calculations.ts:118-120 | `a \|\| b` is `a` when `a` is truthy and `b` otherwise, so it is truthy iff either operand is |
| `Rows.Get` | src/lib/calculations.ts:41 | `sample[key]` yields a value only from an entry stored under that key |
| `Rows.GetFirst` | src/lib/calculations.ts:41 | reading a key returns the value of the first entry with that key |
| `Rows.GetMissing` | src/lib/calculations.ts:41 | a key the row does not have reads as absent (`undefined`) |
| `Rows.TrimStart` | src/lib/calculations.ts:41 | `parseFloat` skips exactly the maximal leading run of white space |
| `Rows.LeadingDigits` | src/lib/calculations.ts:41 | the digit run `parseFloat` reads is the longest prefix made of decimal digits |
| `Rows.FractionValue` | src/lib/calculations.ts:41 | the digits after a decimal point denote a value in [0, 1) |
| `Rows.ParseUnsigned` | src/lib/calculations.ts:41 | an unsigned literal parses iff digits stand before the point or right after it, and its value is non-negative |
| `Rows.ParseFloat` | src/lib/calculations.ts:41 | a negative result comes only from a string whose first non-blank character is `-` |
| `Rows.Coerce` | src/lib/calculations.ts:41 | `parseFloat(v) \|\| 0` keeps a number cell, is 0 for a boolean or absent cell, turns a string `parseFloat` reads as y into y, and gives a non-zero value from a string only when `parseFloat` read it |
| `Rows.CoerceNonNumeric` | src/lib/calculations.ts:41 | `parseFloat(v) \|\| 0` turns a blank or non-numeric string into 0 |
| `Rows.CoerceNumericPrefix` | src/lib/calculations.ts:41 | leading white space is skipped, a decimal prefix is read and trailing text is ignored |
| `Rows.CoerceSignedFraction` | src/lib/calculations.ts:41 | a sign and a fraction without integer digits are accepted |
| `Rows.NatToString` | src/lib/calculations.ts:118 | the label number is a non-empty string of decimal digits with no leading zero |
| `Rows.DigitsValueOfNatToString` | src/lib/calculations.ts:118 | the rendered digits denote the number rendered |
| `Rows.ParseFloatDigits` | src/lib/calculations.ts:41 | a non-empty string of digits parses to the number it denotes |
| `Rows.ParseFloatNatToString` | src/lib/calculations.ts:118 | `parseFloat` reads back exactly the number the template literal printed |
| `Standards.Lookup` | src/lib/calculations.ts:42 | `WHO_STANDARDS[symbol]`: the value of the first entry with the symbol, or none; its contract is stated by `LookupPositive`, `LookupFirst` and `LookupMissing` |
| `Standards.LookupFirst` | src/lib/calculations.ts:42 | reading the table under a symbol yields the value of its (first) entry |
| `Standards.LookupMissing` | src/lib/calculations.ts:42 | a symbol the table does not list reads as absent |
| `Standards.Standard` | src/lib/calculations.ts:42 | `WHO_STANDARDS[metal] \|\| 1` is always strictly positive, so no index divides by zero |
| `Standards.DistinctSymbols` | src/lib/calculations.ts:22-33 | the ten symbols of the table are pairwise distinct |
| `Standards.StandardListed` | src/lib/calculations.ts:22-33 | a listed symbol's standard is exactly the value listed with it |
| `Standards.StandardUnlisted` | src/lib/calculations.ts:42 | any symbol the table does not list gets the fallback standard 1 |
| `Standards.StandardTable` | src/lib/calculations.ts:22-33 | the table `WhoStandards` has ten entries with the guideline values As 0.01, Cd 0.003, Cr 0.05, Cu 2, Fe 0.3, Pb 0.01, Mn 0.4, Ni 0.07, Zn 3, Hg 0.006 |
| `Standards.StandardCaseSensitive` | src/lib/calculations.ts:42 | lookup is case-sensitive: "as" and "PB" fall back to 1 like an unknown symbol |
| `Indices.Concentration` | src/lib/calculations.ts:41 | `parseFloat(sample[metal]) \|\| 0`; its contract is stated by `ConcentrationDefaults` |
| `Indices.ConcentrationDefaults` | src/lib/calculations.ts:41 | a missing, unparseable or boolean concentration counts as 0, and a number is taken as it is |
| `Indices.Readings` | src/lib/calculations.ts:40-53 | one reading per metal, in list order, each with a strictly positive standard |
| `Indices.Hpi` | src/lib/calculations.ts:36-56 | the HPI formula Σ(w·q)/Σw over the readings, 0 for an empty metal list |
| `Indices.Hei` | src/lib/calculations.ts:59-71 | the HEI formula Σ c/s over the readings, 0 for an empty metal list |
| `Indices.CalculateHpi` | src/lib/calculations.ts:36-56 | the loop returns Σ(w·q)/Σw with w = 1/s and q = c/s·100, and 0 for an empty metal list |
| `Indices.CalculateHei` | src/lib/calculations.ts:59-71 | the loop returns Σ c/s over the metals, 0 for an empty list |
| `Indices.CalculateCd` | src/lib/calculations.ts:74-87 | the loop returns the same sum Σ c/s as HEI, for every sample and metal list |
| `Indices.SumWeightsPositive` | src/lib/calculations.ts:55 | the weight sum is 0 exactly for an empty list and positive otherwise, so the zero fallback is taken only then |
| `Indices.WeightedMeanBetween` | src/lib/calculations.ts:36-56 | the weighted mean lies within any bounds of the sub-indices it averages |
| `Indices.HpiBetweenSubIndices` | src/lib/calculations.ts:36-56 | HPI lies in [lo, hi] whenever every metal's sub-index does |
| `Indices.MinSubIndex` | src/lib/calculations.ts:49 | the smallest sub-index of the metal list, attained at a returned position |
| `Indices.MaxSubIndex` | src/lib/calculations.ts:49 | the largest sub-index of the metal list, attained at a returned position |
| `Indices.HpiBetweenMinMax` | src/lib/calculations.ts:36-56 | HPI lies between the smallest and the largest sub-index |
| `Indices.IndicesNonNegative` | src/lib/calculations.ts:36-87 | with no negative concentration, HPI and HEI/Cd are non-negative |
| `Indices.MissingMetalAddsNothing` | src/lib/calculations.ts:40-53 | a metal absent from the sample adds nothing to HEI/Cd or to Σ(w·q), but still adds its weight 1/s to Σw |
| `Indices.WeightedMeanUniform` | src/lib/calculations.ts:36-56 | readings sharing one standard have weighted mean 100 · Σ(c/s) / n |
| `Indices.HpiUniformStandard` | src/lib/calculations.ts:36-87 | when all metals share one standard (e.g. all unknown, standard 1), HPI = 100·HEI/n |
| `Indices.WorkedReadings` | src/lib/calculations.ts:40-42 | the example row's readings are (0.02, 0.01) and (0.01, 0.01) |
| `Indices.WorkedSums` | src/lib/calculations.ts:43-53 | for those readings Σw = 200, Σ(w·q) = 30000 and Σ(c/s) = 3 |
| `Indices.WorkedExample` | src/lib/calculations.ts:36-87 | As = 0.02 and Pb = 0.01 give HPI 150 and HEI = Cd = 3 |
| `Quality.CategorizeWaterQuality` | src/lib/calculations.ts:90-94 | Safe iff hpi < 100, Slightly Polluted iff 100 ≤ hpi < 200, Hazardous iff hpi ≥ 200 |
| `Quality.CategoryMonotone` | src/lib/calculations.ts:90-94 | a larger HPI never yields a less severe category |
| `Quality.CategoryBoundaries` | src/lib/calculations.ts:90-94 | 99.999 is Safe, 100 and 199.999 are Slightly Polluted, 200 is Hazardous |
| `Batch.Keys` | src/lib/calculations.ts:102 | `Object.keys(row)`: one column name per entry, in entry order |
| `Batch.ToLower` | src/lib/calculations.ts:103 | ASCII lower-casing of a key, length-preserving; it decides membership in the reserved names exactly as `key.toLowerCase()` does |
| `Batch.IsReservedColumn` | src/lib/calculations.ts:103 | the lower-cased key is one of id, latitude, longitude, lat, lon, lng; its contract is stated by `ReservedColumnsCaseInsensitive` |
| `Batch.MetalColumns` | src/lib/calculations.ts:101-104 | a key is a metal column iff it is a key of the first row and its lower-case form is not id, latitude, longitude, lat, lon or lng |
| `Batch.MetalColumnsAppend` | src/lib/calculations.ts:102-104 | the filter keeps key order: filtering a concatenation concatenates the filtered parts |
| `Batch.ReservedColumnsCaseInsensitive` | src/lib/calculations.ts:103 | reserved names match in any case, and other names are kept even when they start like a reserved one |
| `Batch.Round2` | src/lib/calculations.ts:121-123 | the stored value is a whole number of hundredths within (x − 0.005, x + 0.005] |
| `Batch.Round2Monotone` | src/lib/calculations.ts:121-123 | rounding preserves order |
| `Batch.Round2Fixed` | src/lib/calculations.ts:121-123 | a value already on two decimals is left unchanged |
| `Batch.Round2Idempotent` | src/lib/calculations.ts:121-123 | rounding twice is rounding once |
| `Batch.SampleLabel` | src/lib/calculations.ts:118 | `Sample ${index + 1}` is "Sample " followed by a decimal number with no leading zero |
| `Batch.SampleLabelNumber` | src/lib/calculations.ts:118 | the number in the label reads back as the row's 1-based position |
| `Batch.SampleId` | src/lib/calculations.ts:118 | `sample.id \|\| label` is the row's id when that is truthy and the label otherwise, so it is always truthy |
| `Batch.Latitude` | src/lib/calculations.ts:119 | `sample.latitude \|\| sample.lat` is the raw `latitude` cell when truthy, else the raw `lat` cell |
| `Batch.Longitude` | src/lib/calculations.ts:120 | `longitude`, then `lon`, then `lng`: the first truthy of the first two, else the raw `lng` cell |
| `Batch.SampleRecord` | src/lib/calculations.ts:106-127 | the `SampleResult` (the record type declared at lines 10-19) built for one row: a truthy id, one metals entry per metal column, and Cd equal to HEI |
| `Batch.CollectMetals` | src/lib/calculations.ts:112-115 | the metals map has exactly the metal columns as keys, each holding the coerced concentration |
| `Batch.ProcessSample` | src/lib/calculations.ts:106-127 | one row's record: id fallback, coordinates, rounded indices, category of the unrounded HPI, metals map |
| `Batch.ProcessWaterSamples` | src/lib/calculations.ts:97-128 | empty input gives empty output; otherwise the same length, and record i is computed from row i, position i and the first row's columns alone |
| `Batch.RecordMetals` | src/lib/calculations.ts:107-115 | each record's metals map has exactly the batch's columns, a column missing from the row holds 0, and HEI equals Cd |
| `Batch.RecordId` | src/lib/calculations.ts:118 | the id is the row's id when truthy, else `Sample {index+1}`, and is always truthy |
| `Batch.SyntheticIds` | src/lib/calculations.ts:118 | a row at position 3 without id is "Sample 3"; an upper-case `ID` column is not read as the identifier |
| `Batch.UpperCaseIdReserved` | src/lib/calculations.ts:103 | an upper-case `ID` column is not a metal column |
| `Batch.CoordinateFallbacks` | src/lib/calculations.ts:119-120 | `lat`/`lon` populate the coordinates, `lng` is the last fallback, and a falsy latitude 0 falls through to absent |
| `Batch.RecordCategoryAgreesWithRounding` | src/lib/calculations.ts:110-123 | a Safe record stores hpi ≤ 100, a Slightly Polluted one 100 ≤ hpi ≤ 200, a Hazardous one hpi ≥ 200 |
| `Batch.RoundedHpiAtThresholdYetSafe` | src/lib/calculations.ts:110-121 | the stored hpi can be 100.00 while the category is Safe, since the category uses the unrounded HPI |

## Left out

- IEEE-754 arithmetic is not modelled: NaN, infinities, overflow and binary rounding of `x * 100` are absent. Numbers are exact reals.
- `Rows.ParseFloat` covers the decimal part of the `parseFloat` grammar: leading white space (space, tab, LF, CR, VT, FF), a sign, digits and a fraction. It leaves out exponents, `Infinity` and the other Unicode white-space characters.
- Number cells are taken as their value. `parseFloat(String(x))` returning `x` for a finite number is assumed, not derived.
- `Batch.ToLower` maps only A-Z to a-z. JavaScript's `toLowerCase` also maps non-ASCII letters (`Ä` to `ä`, and `İ` to two code units, so it need not keep the length). This cannot change which columns are reserved. The reserved names are ASCII, and the only non-ASCII characters whose lower case contains an ASCII letter are the Kelvin sign, which becomes `k` (no reserved name contains `k`), and `İ`, which becomes `i` followed by a combining dot, a character no reserved name contains.
- Keys inherited through the JavaScript prototype are not modelled. For example, `WHO_STANDARDS["constructor"]` is a function, so a metal column named `constructor` would make its weight NaN in the source. The weight sum is then NaN, `NaN > 0` is false (`src/lib/calculations.ts:55`), so HPI falls back to 0 and every row is categorised Safe, while HEI and Cd are NaN. Assigning to `metals["__proto__"]` is left out for the same reason.
- Iteration order of `Object.keys` is taken as given by the row sequence. JavaScript lists integer-like keys first; the model does not reorder them.
- The `!samples` guard for a null or undefined batch has no counterpart, because a Dafny sequence is never null.
- `Rows.Get` takes the first entry when a key repeats. JavaScript objects cannot repeat keys, so this case does not arise in the source.
- Idempotence of the batch (same input, same output) follows because Dafny functions are deterministic. No separate member states it.
- Date cells are not modelled. CSV parsing with dynamic typing (`src/pages/Upload.tsx:42`) also turns ISO-date cells into `Date` objects, which `Value` has no case for. Such a cell coerces to 0 as a metal and, as an id or coordinate, is a truthy non-string value.
- The UI collaborators are outside the engine and not part of this model: file upload, CSV/XLSX parsing, session storage, charts, maps and CSV export.
