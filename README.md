# Broca ideal-weight calculator: classification and history

This project models the core of a small ideal-body-weight calculator. The user
gives a height (cm), an actual weight (kg), a sex (Pria or Wanita) and a date.
The calculator computes the Broca ideal weight: the base, height minus 100,
less 10% for Pria or less 15% for Wanita. It then classifies the actual weight
as Kurus (thin), Gemuk (overweight) or Ideal. The status is tested in order:
Kurus below 90% of the unrounded ideal, otherwise Gemuk above 110% of it,
otherwise Ideal. The result becomes a history row with the ideal weight rounded
to one decimal. The row is appended to the CSV history file, and the session's
copy of the history is replaced with the file's new contents.

- `broca.dfy`, module `Broca`: the formula, the classification and the
  rounding, with exact real arithmetic.
- `history.dfy`, module `History`: the row type, `load_data`, the button
  handler's effect on the file as a pure function (`Press`, and `PressAll` for a
  series of presses), and a class `App`. `App` holds the file and the session
  history as fields that its methods `SaveData` and `PressButton` update.

The enumerations are named by the strings the application stores: `Pria` and
`Wanita` for sex, `Kurus`, `Gemuk` and `Ideal` for the status. The CSV file is
the sequence of rows it holds, or `None` while it does not exist yet.

## Model

| member | source | states |
|---|---|---|
| Broca.IdealWeight | app.py:60-61 | the ideal weight is 0.9·(h−100) for Pria and 0.85·(h−100) for Wanita; it is non-negative exactly when h ≥ 100 and zero exactly at h = 100 |
| Broca.ClassifyAgainst | app.py:64-69 | the if/elif chain: Kurus iff w < 0.9·ideal, Ideal iff 0.9·ideal ≤ w ≤ 1.1·ideal, and for a non-negative ideal Gemuk iff w > 1.1·ideal |
| Broca.Classify | app.py:60-69 | the status of a weight against the unrounded ideal weight of the height and sex; Ideal only at heights of at least 100 cm (its bands are those of ClassifyAgainst, ClassifyBands and ClassifyBelowBaseHeight) |
| Broca.RoundTenth | app.py:77 | the stored ideal weight is a multiple of 0.1, the nearest one to the exact value with halves rounded up (−0.05 < stored − exact ≤ 0.05), and equals the exact value when that already has one decimal |
| Broca.StoredIdealInRange | app.py:49-77 | for heights the widget accepts (100–250 cm), the stored one-decimal ideal weight lies between 0 and 135 kg |
| Broca.ClassifyBands | app.py:64-69 | for h ≥ 100 the status is Kurus iff w < 0.9·ideal, Gemuk iff w > 1.1·ideal, Ideal iff 0.9·ideal ≤ w ≤ 1.1·ideal (both bounds inclusive) |
| Broca.ClassifyThresholds | app.py:60-69 | for h ≥ 100: Pria is Kurus iff w < 0.81·(h−100) and Gemuk iff w > 0.99·(h−100); Wanita uses 0.765 and 0.935 |
| Broca.ClassifyBelowBaseHeight | app.py:59-69 | below 100 cm (the guard only asks h > 0) the status is never Ideal; it is Kurus iff w < 0.9·ideal, otherwise Gemuk |
| Broca.ClassifyAtBaseHeight | app.py:60-67 | at h = 100 the ideal weight is 0, and the status is Gemuk iff w > 0 and Kurus iff w < 0 |
| Broca.IdealWeightInRange | app.py:49-61 | for heights the widget accepts, 0 ≤ Wanita ideal ≤ Pria ideal ≤ 135 kg, the two equal only at 100 cm |
| Broca.ClassifyMonotone | app.py:64-69 | a heavier weight never gets a lighter status (Kurus, then Ideal, then Gemuk), at every height and sex |
| Broca.HeavierStaysGemuk | app.py:64-69 | every weight above a Gemuk weight is Gemuk |
| Broca.LighterStaysKurus | app.py:64-69 | every weight below a Kurus weight is Kurus |
| Broca.StoredIdealExact | app.py:60-77 | for Pria, and for Wanita with an even base, the stored rounded ideal weight equals the exact one |
| Broca.StoredIdealCanDisagree | app.py:61-77 | the status is decided on the unrounded ideal: at 141 cm, Wanita, either neighbouring tenth of 34.85 kg classifies 31.4 kg or 38.3 kg differently from the stored status |
| Broca.WorkedExamples | app.py:60-69 | 170 cm Pria: ideal 63.0, 70 kg Gemuk, 60 kg Ideal; 160 cm Wanita: ideal 51.0, 50 kg Ideal; 100 cm Pria, 5 kg: Gemuk |
| History.Derived | app.py:60-77 | a derived row's stored ideal weight is within 0.05 of the exact ideal weight of its height and sex, and its status is Ideal iff its actual weight is within 90%–110% of that exact ideal |
| History.MakeRecord | app.py:59-79 | a row is built iff h > 0; it carries the given date, height, sex and weight, its status is the classification, and its ideal weight is within 0.05 of the exact one |
| History.LoadData | app.py:13-17 | with no file the history is empty; otherwise it is the stored rows |
| History.Press | app.py:58-81 | one press leaves the file unchanged when the height check fails; otherwise the file holds the old rows, unchanged and in order, followed by exactly the new row |
| History.PressAll | app.py:58-81 | a series of presses keeps the rows already stored as a prefix and adds at most one row per press |
| History.Created | app.py:59-79 | a series of presses creates exactly one row per press whose height is above 0 (so at most one per press), each derived from its own inputs and with a height above 0 |
| History.PressAllAppends | app.py:19-23 | after any series of presses the file holds the earlier rows followed by the rows created, in press order |
| History.InvalidPressesKeepFile | app.py:58-93 | presses whose height fails the check create no row and leave the file as it was |
| History.PressAllKeepsDerived | app.py:72-79 | every row a press stores has its ideal weight and status derived from its own height, sex and weight, so a file of derived rows stays one |
| History.App.constructor | app.py:30-32 | a new session's history is the file's rows (empty when there is no file) |
| History.App.SaveData | app.py:19-23 | the returned history and the written file are the loaded rows followed by the new row |
| History.App.PressButton | app.py:58-93 | the file changes as `Press` says; a failed height check leaves the history alone; otherwise the session history becomes the file's contents, that is the old history plus the new row when the two agreed before |

## Left out

- Streamlit page layout, widgets, messages and HTML output: user interface, no logic to state. The widget ranges appear only as the height bounds of `Broca.IdealWeightInRange` and `Broca.StoredIdealInRange`. The weight range plays no part in any property.
- The history table's and the chart's sort by date and the Plotly chart: display done by external libraries.
- CSV text, the column header, date parsing with `parse_dates` and `pd.to_datetime`: file I/O through pandas. The file is a sequence of rows, and a date is a year, month and day with no validation.
- Failures to read or write the file: the source does not handle them, and the model has none.
- Broca.RoundTenth: the source applies Python's `round` to an IEEE-754 double. The model rounds exact halves up, and its contract fixes that choice. Halves arise only for Wanita with an odd base. There the double may lie just below the half, and the source can then store the lower tenth. At 101 cm the exact ideal is 0.85 kg and the source can store 0.8 kg where the model stores 0.9 kg. History.Derived, and through it History.MakeRecord and History.PressAllKeepsDerived, fix the model's half-up value. A row the source can store at 101 cm for Wanita (0.8 kg) is therefore not Derived. Only the separate bound in Derived's contract, within 0.05 of the exact value inclusive on both sides, holds under either rule.
- Broca.IdealWeight, Broca.Classify: exact reals stand in for IEEE-754 doubles. Floating-point artefacts at the 0.9 and 1.1 band bounds are not modelled.
- Concurrent sessions writing the same file: the last writer wins in the source, with no locking. The model has one writer. When another writer changed the file, `PressButton` still takes the file's contents as the new history, as the source does.
- Streamlit reruns: a session object models one browser session, created once and then updated by each button press.
