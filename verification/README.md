# Network-flow dashboard: classification, filter and captions

A Dafny model of the logic inside `main.py`, a Dash dashboard over a table
of network-flow records. Three pieces are modelled:

- **Classification.** Five overlapping `df.loc` assignments derive each row's
  `labels` value from `bytes`, and five more derive `description` from the
  label. Later assignments overwrite earlier ones, so the effective band edges
  are 990 / 4950 / 29950 / 79950, not the 1000 / 5000 / 30000 / 80000 written
  in the comparisons (`Records`).
- **The filter** that each of the six chart callbacks runs before plotting
  (`Filter`, built on `Frames`, which models pandas' `df[mask]` row
  selection). It has three steps:
  - Date step. With one bound set, a row is kept when its date equals that
    bound. With both set, the range is inclusive. With neither set, the
    callback fails, so the model returns `Failure(NoDateBound)`.
  - Label step. A lone string is promoted to a one-element list, and a row is
    kept when its label is in the list.
  - Working-hour step. A lone string is promoted to a list, and `'all'` in the
    list switches the step off. The heatmap callback has no working-hour step.
- **Captions** (`Titles`, built on `Text`, which models Python's
  `str.split` and `str.join`):
  - Box, sunburst and scatter join `field.split('_')` with spaces, so every
    underscore becomes a space.
  - Polar and histogram join `field.split()` with spaces, so underscores
    survive.

`Views` ties these together as the six callbacks. Each returns the rows it
hands to plotly and the captions it sets.

Design choices:
- The record table is any `seq<Record>`.
- Dates are strings compared with Python's string order (`StrOrder.LexLe`),
  which the code relies on for zero-padded `YYYY-MM-DD` dates.
- Labels are the strings `"0"`..`"4"`, as the code uses them.
- A date bound is an `Option<string>`. It counts as set under Python
  truthiness: present and non-empty.
- A selector value is `One(string)` or `Many(seq<string>)`, the two shapes
  Dash delivers.

Documented behaviour of the system differs from `main.py` in three places.
The model follows the code each time:
1. Band edges are 990/4950/29950/79950, not 1000/5000/30000/80000. So
   `bytes = 5000` gets label `"2"`, not `"1"`.
2. With no date bound the callback fails. It does not apply "no date
   restriction".
3. An empty label selection gives an empty subset. It is not reported as an
   invalid selection.

## Model

| member | source | states |
|---|---|---|
| `StrOrder.LexLeTransitive` | main.py:187 | the string order used for the date range is transitive |
| `StrOrder.LexLeAntisymmetric` | main.py:187 | two dates each `<=` the other are equal |
| `StrOrder.LexLeTotal` | main.py:187 | any two date strings are comparable |
| `StrOrder.LexLeReflexive` | main.py:187 | a date lies in the range that starts and ends at it |
| `StrOrder.InsertSorted` | main.py:80 | inserting into a strictly ascending list keeps it strictly ascending and adds exactly the new value |
| `StrOrder.SortedDistinct` | main.py:80 | `sorted(unique(xs))` is strictly ascending and holds exactly the values of `xs` |
| `Records.Relabel` | main.py:56-60 | whatever the initial random label, the five overwrites give the effective band: <=990 is "0", <=4950 is "1", <=29950 is "2", <=79950 is "3", otherwise "4"; always one of the five labels |
| `Records.RelabelMonotone` | main.py:56-60 | more bytes never give a lower label |
| `Records.RelabelAtWrittenThresholds` | main.py:56-60 | 990 gives "0", 1000 gives "1", 5000 gives "2", 30000 gives "3", 80000 gives "4" |
| `Records.Describe` | main.py:62-67 | the placeholder "0" survives exactly for labels outside "0".."4" |
| `Records.DescribeInjective` | main.py:62-67 | the five labels have five distinct descriptions |
| `Records.Classify` | main.py:54-67 | a row's label is the band of its bytes and its description that label's; no other column changes |
| `Records.SameBytesSameClassification` | main.py:56-67 | rows with equal bytes get equal labels and descriptions |
| `Records.ClassifyTable` | main.py:56-67 | every row of the classified table is well classified and otherwise equal to the input row at the same position |
| `Records.UniqueLabels` | main.py:80 | the label checklist's options and default are strictly ascending and hold exactly the labels present in the table |
| `Records.UniqueLabelsOfClassified` | main.py:80 | on a classified table every default label is one of "0".."4" |
| `Frames.Where` | main.py:192 | `df[mask]` keeps a row iff it satisfies the condition, as an order-preserving subsequence |
| `Frames.WhereCounts` | main.py:192 | `df[mask]` keeps every passing row as many times as the table holds it and drops every failing row |
| `Frames.SubsequenceTransitive` | main.py:198 | a selection from a selection is a subsequence of the table |
| `Frames.WhereConcat` | main.py:192 | rows are judged independently: selecting from `a + b` is selecting from `a` then from `b` |
| `Frames.WhereKeepsAll` | main.py:198 | a selection leaves the rows unchanged iff every row passes |
| `Frames.WhereNone` | main.py:192 | a condition no row meets selects nothing |
| `Frames.WhereIdempotent` | main.py:192 | selecting twice with one condition is selecting once |
| `Frames.WhereAnd` | main.py:192-198 | two selections in a row equal one selection on the conjunction |
| `Frames.WhereCongruent` | main.py:192 | conditions that agree on every row select the same rows |
| `Frames.WhereCommutes` | main.py:192-198 | the order of the label and working-hour selections does not matter |
| `Filter.DateStep` | main.py:180-187 | no bound set gives an error; with only a start the date equals it, with only an end the date equals it, with both it lies between them inclusive; order kept |
| `Filter.DateStepCounts` | main.py:180-187 | with a bound set, each row the date test accepts keeps its multiplicity and every other row is dropped |
| `Filter.ApplyFilter` | main.py:180-198 | fails iff no date bound is set; otherwise a row is kept iff it passes the date, label and (when applied) working-hour steps |
| `Filter.FilterCounts` | main.py:180-198 | with a bound set, each admitted row keeps its multiplicity and every other row is dropped |
| `Filter.Promote` | main.py:189-195 | a lone string becomes a one-element list and a list stays as it is: a value is listed iff the selector selects it |
| `Filter.FilterIsOnePass` | main.py:180-198 | the three steps equal one selection with their conjunction |
| `Filter.FilterIsSubsequence` | main.py:180-198 | the filtered rows are an order-preserving subsequence of the table |
| `Filter.FilterIdempotent` | main.py:180-198 | filtering the filtered rows again returns them unchanged |
| `Filter.FilterConcat` | main.py:180-198 | filtering a concatenated table concatenates the filtered parts |
| `Filter.InvertedRangeIsEmpty` | main.py:186-187 | a start after the end gives an empty subset, not an error |
| `Filter.EmptyLabelSelectionIsEmpty` | main.py:189-192 | an empty label selection gives an empty subset, not an error |
| `Filter.EveryLabelIsListed` | main.py:80 | every row's label is among the checklist's default values |
| `Filter.DefaultLabelsKeepAll` | main.py:141 | with the default label selection the label step removes nothing |
| `Filter.AllGroupsOverrides` | main.py:194-198 | `'all'` anywhere in the working-hour selection switches the step off |
| `Filter.HeatmapIgnoresHourGroups` | main.py:322-336 | without the working-hour step the result does not depend on the working-hour selection |
| `Filter.HourStepNarrowsHeatmap` | main.py:194-198 | the five other charts get the heatmap's rows narrowed by the working-hour step, a subsequence of them |
| `Text.SplitOn` | main.py:203 | `s.split(sep)` returns at least one piece and no piece holds the separator |
| `Text.Join` | main.py:203 | `glue.join(parts)` starts with the first part, and its length is the parts' total length plus one glue per pair of neighbours |
| `Text.SplitJoinReplaces` | main.py:203-204 | joining `s.split(a)` with `b` replaces every `a` in `s` by `b` |
| `Text.SplitJoinRoundTrip` | main.py:203 | joining `s.split(sep)` with `sep` gives `s` back |
| `Text.Words` | main.py:385 | `s.split()` returns non-empty, whitespace-free pieces; a string that starts with a non-whitespace character has its first word first |
| `Text.WordsAfterWord` | main.py:385 | a word followed by whitespace splits off as one piece |
| `Text.WordsOfWord` | main.py:385 | a whitespace-free string splits into itself alone |
| `Text.WordsOfJoin` | main.py:385 | `' '.join(words).split()` gives the words back |
| `Text.SpaceRuns` | main.py:385 | the whitespace runs `s.split()` drops: with the words between them they spell `s`, and every run between two words is non-empty |
| `Text.WordsOfInterleave` | main.py:385 | words set between whitespace runs, non-empty between neighbours, split back into exactly those words |
| `Text.WordsCharacterised` | main.py:385 | `s.split()` is the list of words that, set between whitespace runs, spell `s`; both directions |
| `Text.JoinTidy` | main.py:385 | words joined with single spaces have no whitespace at either end and only single spaces between words |
| `Text.TidyIsJoinedWords` | main.py:385 | a string with that tidy shape is its own words joined with single spaces |
| `Titles.SpaceUnderscores` | main.py:203-204 | the box, sunburst and scatter format of a column name is the name with every `_` replaced by a space |
| `Titles.CollapseKeepsWords` | main.py:385 | joining a name's words with spaces keeps its words, and a whitespace-free name unchanged |
| `Titles.CollapseSpaces` | main.py:385 | the polar and histogram format keeps a whitespace-free name unchanged; for any name it has the same words and no whitespace except single spaces between words |
| `Titles.CollapseSpacesUnique` | main.py:385 | that format is the one string of that tidy shape with the name's words; both directions |
| `Titles.BoxCaptions` | main.py:203-212 | title "X vs. Y" and axis titles X and Y, with underscores replaced; no `_` in the title |
| `Titles.SunburstCaptions` | main.py:253-262 | title and colour-bar title are the metric with underscores replaced |
| `Titles.ScatterCaptions` | main.py:305-313 | title "X vs. Y" and axis titles X and Y, with underscores replaced; no `_` in the title |
| `Titles.ReplaceUnderscoresInColumns` | main.py:345-348 | "working_hour_group" and "day_group" format as "working hour group" and "day group" |
| `Titles.HeatmapCaptions` | main.py:345-348 | the fixed heatmap title is "working_hour_group vs. day_group" with underscores replaced, and the axes are those two names formatted the same way |
| `Titles.PolarCaptions` | main.py:385-389 | the title is "Y vs. time" with Y the metric's words joined by single spaces, so a whitespace-free metric appears verbatim, underscores kept; no axis or colour-bar titles |
| `Titles.HistogramCaptions` | main.py:426-433 | the title is "X vs. count" and the x axis is X, with X the column's words joined by single spaces (verbatim for a whitespace-free column); the y axis is always "count" |
| `Views.UpdateBoxPlot` | main.py:176-215 | fails iff no date bound; plots the filtered rows, in order and with multiplicity; title "X vs. Y" and axis titles X and Y with underscores replaced; no colour-bar title |
| `Views.UpdateSunburstPlot` | main.py:224-264 | fails iff no date bound; plots the filtered rows, in order and with multiplicity; title and colour-bar title are the metric with underscores replaced; no axis titles |
| `Views.UpdateScatterPlot` | main.py:274-315 | fails iff no date bound; plots the filtered rows, in order and with multiplicity; title "X vs. Y" and axis titles X and Y with underscores replaced; no colour-bar title |
| `Views.UpdateHeatmapPlot` | main.py:322-351 | fails iff no date bound; plots the rows the date and label steps keep, in order and with multiplicity; title "working hour group vs. day group" with those two axis titles |
| `Views.UpdatePolarPlot` | main.py:360-394 | fails iff no date bound; plots the filtered rows, in order and with multiplicity; title "Y vs. time" with Y the metric's words joined by single spaces; no axis titles |
| `Views.UpdateHistPlot` | main.py:403-435 | fails iff no date bound; plots the filtered rows, in order and with multiplicity; title "X vs. count" and x axis X, with X the column's words joined by single spaces; y axis "count" |
| `Views.ChartsShareRows` | main.py:180-198 | one selector state gives box, sunburst, scatter, polar and histogram the same rows, a subsequence of the heatmap's |
| `Views.UnderscoresByChart` | main.py:385 | for a whitespace-free name holding `_`, the box, scatter and sunburst titles lose it and the polar and histogram titles keep it |
| `Views.FeatureTitlesVerbatim` | main.py:72 | every metric the dropdowns offer appears verbatim in the polar and histogram titles |

## Left out

- Synthetic data generation (main.py:12-54) uses `random` and `numpy` draws. The model takes the table as any sequence of records.
- The weekday/weekend derivation (main.py:34-39) is a library calendar computation. `dayGroup` is a given field.
- The Dash app, layout and callback wiring (main.py:84-175) and `app.run_server()` (main.py:437-438) are UI and server plumbing.
- The plotly calls compute quartiles, sunburst sizes, heatmap cell sums, polar traces and histogram bins inside the library. The model stops at the rows handed to plotly and the captions set through `update_layout`. Colours and background styling are left out too.
- Recomputation order and overlapping requests are left out: the code has no such mechanism.
- A selector value of `None` (a cleared dropdown) is not modelled. The code would raise on it in the working-hour step and in the caption formatting.
- Column names that the frame does not hold would make plotly raise. The dropdowns offer only existing columns, so this path is not modelled.
