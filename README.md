# Industrial Copper Modeling: the inference front-end

`cop_mod.py` is a Streamlit page with two forms. The selling-price form reads
quantity, thickness, width and customer ID as text, plus a status, item type,
country, application and product reference from dropdowns. The lead-status
form reads quantity, thickness, width, customer ID and selling price as text,
plus an item type, country, application and product reference from dropdowns.
On every run each form checks its text fields, in a fixed order, against the
pattern `^(?:\d+|\d*\.\d+)$`. It stops at the first field that fails and
leaves the loop variable naming it. When the form was submitted, a failure
shows one of two messages. Otherwise the form builds a nine-column sample,
selects its numeric columns and appends the encoder outputs. It then scales
the row and asks the fitted model: the price form shows `exp` of the
regression output, and the status form shows Won for a classifier output of 1
and Lost for anything else.

This project models that front-end in Dafny:

- `numeral.dfy` (module `Numeral`): a recogniser for the pattern, read with
  Python's `re.match`. It is proved equal to a declarative definition of the
  pattern's language, including Python's `$` tolerating one trailing newline.
  The module also holds `float(...)` of an accepted field, as an exact decimal,
  and `int(...)`.
- `validation.dfy` (module `Validation`): the fail-fast scan as a method with
  a `while` loop and `break`, specified by the first rejected position. It also
  holds the choice between the two messages.
- `options.dfy` (module `Options`): the five closed dropdown lists.
- `pipeline.dfy` (module `Pipeline`): the sample rows, column selection and
  concatenation of both forms, and the Won/Lost mapping. It has one function
  for what a submitted form yields and one method for a run of each form. The
  fitted encoders, scaler and model and the floating-point `log`/`exp` are
  parameters. Encoders have a fixed output width; the scaler has a fixed input
  width.

The code is followed where it differs from a stricter design. Both forms only
guarantee that each numeric field is non-negative: "0" is accepted, and
`log(0)` is then computed. The page raises no zero-value or domain error of its
own. The status
form takes its product reference from the price form's selection and ignores
its own. It converts the customer ID with `int(...)`, which fails on a decimal
that the validator accepted.

## Model

| member | source | states |
|---|---|---|
| `Numeral.Matches` | cop_mod.py:95-97 | an accepted field is non-empty and the part the pattern matched ends in a digit |
| `Numeral.BodyEnd` | cop_mod.py:95 | where the pattern body's match from the start ends: after a digit that no further digit follows, with only digits and '.' before it; `NumeralBodyEnd` states that a numeral followed by nothing or a newline is exactly what it finds |
| `Numeral.MatchesIff` | cop_mod.py:95-97 | a field is accepted iff it is one or more digits, or optional digits, '.', and one or more digits, optionally followed by a single trailing newline (both directions) |
| `Numeral.NumeralBodyEnd` | cop_mod.py:95 | a numeral at the start of a field, followed by nothing or a newline, is exactly where the pattern body's match ends |
| `Numeral.AcceptedShape` | cop_mod.py:151-153 | every character of an accepted field is a digit or '.', except one final newline; there is at most one '.', and the field does not end in '.' |
| `Numeral.ForeignCharRejected` | cop_mod.py:97-100 | a field containing a sign, letter, space or any other character outside digits, '.' and a final newline is rejected |
| `Numeral.AcceptedExamples` | cop_mod.py:95 | "123", "0.5", ".5", "0" and "7\n" are accepted; "0" passes, so the validator guarantees a non-negative value, not a positive one |
| `Numeral.RejectedExamples` | cop_mod.py:95 | "", " ", "5.", "1.2.3", "-1", "+1", "1e5", " 5" and "5\n\n" are rejected |
| `Numeral.DecimalValue` | cop_mod.py:123 | `float(...)` of an accepted field always succeeds and is never negative; for a digit string it is the string's integer value, and for a field with a '.' its value is stated by `DecimalValueOfFraction` |
| `Numeral.DigitsAppend` | cop_mod.py:123 | the value of two digit strings written one after the other is the first's value shifted by the second's length plus the second's value |
| `Numeral.DecimalValueOfFraction` | cop_mod.py:123 | for any digits `w` and non-empty digits `f`, with or without a final newline, `w.f` is accepted and `float(...)` of it is `w` plus `f` over ten to the number of digits of `f` |
| `Numeral.ScaledDecimalValue` | cop_mod.py:123 | `float(...)` of `w.f` is the integer spelled by `w` and `f` without the '.', over ten to the number of digits of `f` |
| `Numeral.DecimalValueOfInteger` | cop_mod.py:123 | for any non-empty digits `w`, with or without a final newline, `float(...)` is the value of `w` |
| `Numeral.DecimalValueExamples` | cop_mod.py:123 | `float("0.5")` is 0.5 and `float("12.5")` is 12.5 |
| `Numeral.IntegralValueExamples` | cop_mod.py:123 | `float("7\n")` is 7 and `float("30")` is 30 |
| `Numeral.DigitsConvert` | cop_mod.py:123 | `int(...)` of a non-empty digit string is its decimal value when it has at most 4300 digits, and fails otherwise |
| `Numeral.IntOfAccepted` | cop_mod.py:178 | on an accepted field, `int(...)` fails iff the field contains '.' or has more than 4300 digits, and when it succeeds it equals `float(...)` of the field |
| `Numeral.ToInt` | cop_mod.py:178 | `int(...)` succeeds iff the text without its final newline is a non-empty run of at most 4300 digits; its value is given by `DigitsConvert` and related to `float(...)` by `IntOfAccepted` |
| `Numeral.TooLongForInt` | cop_mod.py:150-178 | a field of more than 4300 digits passes the pattern, yet `int(...)` of it fails |
| `Numeral.DecimalPassesButIsNoInt` | cop_mod.py:178 | "12.5" passes the pattern but `int("12.5")` fails |
| `Validation.FirstInvalid` | cop_mod.py:150-157 | the position returned is a rejected field with every earlier field accepted; there is none iff every field is accepted |
| `Validation.FailFast` | cop_mod.py:96-101 | fields after the first rejected one do not affect which field is reported |
| `Validation.ScanFields` | cop_mod.py:94-101 | `flag` ends 0 or 1; it is 1 iff some field is rejected; the loop variable then names the first rejected field, and otherwise the last field |
| `Validation.MessageFor` | cop_mod.py:103-107 | the "space not allowed" message is chosen iff the offending field is empty; otherwise the "invalid value" message carries the field itself |
| `Validation.WriteArgs` | cop_mod.py:159-163 | the "space not allowed" message is written as the single text "please enter a valid number space not allowed"; the "invalid value" message as "You have entered an invalid value: " followed by the offending field |
| `Validation.MessageDeterminesField` | cop_mod.py:104-107 | two offending fields give the same message, and the same written text, iff they are equal |
| `Validation.SpacesGetInvalidValue` | cop_mod.py:160-163 | a field made only of spaces is rejected and gets the "invalid value" message, not the "space not allowed" one |
| `Options.StatusOptionsClosed` | cop_mod.py:57 | the status list has 9 entries, none repeated |
| `Options.ItemTypeOptionsClosed` | cop_mod.py:58 | the item-type list has 7 entries, none repeated |
| `Options.CountryOptionsClosed` | cop_mod.py:59 | the country list has 17 entries, none repeated |
| `Options.ApplicationOptionsClosed` | cop_mod.py:60 | the application list has 30 entries, none repeated |
| `Options.ProductOptionsClosed` | cop_mod.py:61-65 | the product-reference list has 33 entries, none repeated |
| `Options.ProductRefsAreDigits` | cop_mod.py:61-65 | every product reference is a non-empty string of at most ten digits |
| `Options.ProductRefConverts` | cop_mod.py:123 | `int(product_ref)` cannot fail on a product reference from the dropdown, and gives the reference's decimal value |
| `Pipeline.Columns` | cop_mod.py:126 | `sample[:, cols]` has one cell per listed column, namely that column's cell, in the listed order |
| `Pipeline.Numbers` | cop_mod.py:126 | the selected numeric cells keep their count, order and values |
| `Pipeline.LeadOf` | cop_mod.py:183-186 | the verdict is Won iff the classifier output is 1 |
| `Pipeline.LeadOfIff` | cop_mod.py:183-186 | the verdict is Won iff the classifier output is 1, and Lost for every other value |
| `Pipeline.PriceFields` | cop_mod.py:96 | the price form checks quantity, thickness, width and customer, in that order |
| `Pipeline.PriceSample` | cop_mod.py:123 | the sample row has nine cells: seven numbers, with application, country and product reference at columns 1, 4 and 6, then the item type and the status as labels |
| `Pipeline.PriceVector` | cop_mod.py:124-126 | the feature vector is seven numbers, then the item-type encoding, then the status encoding; `PriceVectorLayout` gives the seven numbers |
| `Pipeline.PriceVectorLayout` | cop_mod.py:123-126 | the price vector is [log quantity, application, log thickness, width, country, customer, product ref] followed by the item-type encoding and then the status encoding; its length is 7 plus both encoder widths |
| `Pipeline.PriceResponse` | cop_mod.py:103-129 | a submitted price form never ends idle; it is rejected iff a field fails the pattern, and fails converting iff the fields pass but `int(product_ref)` fails, naming the product reference; a shape error reports a width other than the scaler's |
| `Pipeline.SubmitPrice` | cop_mod.py:94-129 | an unsubmitted run shows nothing; a submitted run yields the rejection message, the conversion or shape error, or `exp` of the model's output, as `PriceResponse` defines |
| `Pipeline.PriceRejection` | cop_mod.py:103-107 | a price submission is rejected iff one of its four fields fails the pattern, with the message for the first such field |
| `Pipeline.PricePrediction` | cop_mod.py:109-129 | with valid fields, a listed product reference and artifacts fitted on this layout, the price form predicts `exp(model(scale(vector)))`, the scaler being total here (see "## Left out") |
| `Pipeline.StatusFields` | cop_mod.py:152 | the status form checks quantity, thickness, width, customer and selling price, in that order |
| `Pipeline.StatusSample` | cop_mod.py:178 | the sample row has nine cells: eight numbers, with application, country, customer ID and product reference at columns 2, 5, 6 and 7, then the item type as a label |
| `Pipeline.StatusVector` | cop_mod.py:179-180 | the feature vector is eight numbers followed by the item-type encoding; `StatusVectorLayout` gives the eight numbers |
| `Pipeline.StatusVectorLayout` | cop_mod.py:178-180 | the status vector is [log quantity, log selling price, application, log thickness, width, country, customer, product ref] followed by the item-type encoding; its length is 8 plus the encoder width |
| `Pipeline.StatusResponse` | cop_mod.py:159-186 | a submitted status form never ends idle; it is rejected iff a field fails the pattern, and fails converting iff the fields pass but `int(ccustomer)` or `int(product_ref)` fails, naming the customer ID when that conversion fails and the product reference otherwise; a shape error reports a width other than the scaler's |
| `Pipeline.SubmitStatus` | cop_mod.py:150-186 | an unsubmitted run shows nothing; a submitted run yields the rejection message, a conversion or shape error, or the Won/Lost verdict, as `StatusResponse` defines |
| `Pipeline.StatusRejection` | cop_mod.py:159-163 | a status submission is rejected iff one of its five fields fails the pattern, with the message for the first such field |
| `Pipeline.StatusIgnoresOwnProductRef` | cop_mod.py:147-178 | the status form's outcome does not depend on its own product-reference selection |
| `Pipeline.StatusCustomerConversion` | cop_mod.py:178 | with valid fields, the status form fails converting the customer ID iff the customer field contains '.' or has more than 4300 digits |
| `Pipeline.DecimalCustomer` | cop_mod.py:150-178 | a customer ID of "12.5" passes validation and then fails at `int(...)` on the status form |
| `Pipeline.StatusPrediction` | cop_mod.py:165-186 | with valid fields, an integral customer ID, a listed product reference and artifacts fitted on this layout, the status form fails at `int(...)` iff the customer ID has more than 4300 digits and predicts otherwise, the scaler being total here (see "## Left out"); the verdict is Won iff the classifier outputs 1 |

## Left out

- Page layout, tabs, headings, CSS, HTML strings and the static text (cop_mod.py lines 12-50 and 189-204) are not modelled. They are presentation only.
- Rendering is not modelled. A message is modelled as the arguments passed to `st.write`; how Streamlit joins and renders them is left out.
- Loading `model.pkl`, `scaler.pkl`, `t.pkl`, `s.pkl`, `cmodel.pkl`, `cscaler.pkl` and `ct.pkl` is file I/O and is not modelled. The loaded objects are parameters.
- The internals of `OneHotEncoder`, `LabelBinarizer`, `StandardScaler` and the models' `predict` are opaque library code. An encoder is any function with a fixed output width, so the one-hot block having exactly one 1 is not stated. An unseen item type is not modelled, because the dropdown offers only the listed item types.
- `np.log`, `np.exp` and floating point are not modelled. `log` and `exp` are parameters, so `log(0) = -inf` for a "0" field is not modelled. `float(...)` gives the exact decimal value, without rounding to a double.
- NumPy turns the mixed-type sample row into a string array. That coercion is not modelled: the cells keep their numbers and labels.
- The training imports (cop_mod.py lines 3-7) are not modelled because they are never used.
- Python's `\d` on `str` also matches non-ASCII decimal digits. The recogniser accepts only '0'-'9'.
- `int(...)` is modelled only on the strings that can reach it: fields that passed the pattern and listed product references. Python also accepts signs, surrounding whitespace and underscores, which never occur in those strings. The 4300-digit limit is CPython's default from 3.11, 3.10.7, 3.9.14, 3.8.14 and 3.7.14; interpreters released before these versions convert a digit string of any length, and the model does not cover them.
- Sorting the country and application lists for display (`sorted(...)` at lines 74-75 and 145-146) only changes the order of the dropdown, not the set offered. It is not modelled.
- Pipeline.PricePrediction, Pipeline.StatusPrediction, Pipeline.PriceResponse, Pipeline.StatusResponse: the scaler's `transform` is a total function, so these predict where the program crashes. A "0" quantity, thickness or (on the status form) selling price makes `np.log` give -inf, and a field beyond the range of a double becomes inf at `float(...)`. The fitted scikit-learn scaler then raises ValueError on the non-finite input. This comes from scikit-learn's own input checks, which are not modelled.
