# GreenCross result section: scoring and result selection

A Dafny model of the scoring core of the GreenCross survey front end's
`ResultSectionComponent`. After a user answers the categorized questionnaire,
the component:

- scores every answer category: each answer that has a question at its index
  and whose `Bool` flag is exactly 1 adds 5 to a running score, and the
  category score is that running score times 50;
- sums the category scores into the aggregate `score`;
- writes a normaliser `total` of 500 points per question into a public field,
  which the component's own code never reads and which normalises nothing,
  and computes per-category `Agree` totals as a local constant that is
  discarded;
- picks the descriptive result record of the first category with the lowest
  score (`indexOf(Math.min(...))`);
- builds a radar chart with one axis per category: the category title as the
  label, `score / 10` as the value, and a colour from a five-band step function.

The model keeps the observed behaviour, quirks included. Category scores are
unnormalised multiples of 250, not values in [0, 100], so a plotted value of
`25 × count` can lie past the chart's radial maximum of 100. `total` is never
read by the component's own code and normalises nothing; `categoriesTotals` is
a local constant that is discarded.

Modules, one per concern:

- `Types` (types.dfy): `Question`, `Category`, `Answer` (with its numeric
  `Bool` flag), `TestAnswers`, and `Option` standing for JavaScript's
  `undefined`.
- `Colors` (colors.dfy): `getScoreColor`, with a reference definition as a
  palette indexed by the number of thresholds (20, 40, 60, 100) a score reaches.
- `Scoring` (scoring.dfy): the running category score as written (a left fold
  over the answers). Its reference is a count of the flag-1 answers among those
  that have a question. Also the reduce-style `Sum`, `total` and
  `categoriesTotals`.
- `Selection` (selection.dfy): `Math.min` (with +Infinity for no arguments),
  `indexOf` (with -1 when absent), their composition, and the lookup into the
  results catalogue.
- `ResultSection` (result_section.dfy): `calculateResult` as a function from
  the component's fields to an outcome, and the chart's three mapped arrays.

Two edge cases of the code shape the model:

- Answer lists are matched to categories by index. `calculateResult` reads
  `categories[ci].questions` only inside the `forEach` callback, so only a
  non-empty answer list needs a category. An empty answer list past the end
  of the categories scores 0. A non-empty one throws a `TypeError`. The model
  represents the throw as the outcome `Threw`, not as a precondition. In that
  outcome `total` has already been written and `score` and `categoriesScores`
  keep their old values.
- The chart maps over the categories, not the scores. A category with no
  score at its index gets `undefined`, which plots as NaN and is coloured
  `#FF4740`, because every comparison with `undefined` is false.

## Model

| member | source | states |
|---|---|---|
| `Colors.GetScoreColor` | src/app/test/result/result-section/result-section.component.ts:29-43 | each of the five colours is returned exactly on its band: ≥100, [60,100), [40,60), [20,40), below 20 |
| `Colors.ScoreColorIsBandOfPalette` | src/app/test/result/result-section/result-section.component.ts:29-43 | the colour is the palette entry indexed by how many of the thresholds 20, 40, 60, 100 the score reaches |
| `Colors.ReachedMonotone` | src/app/test/result/result-section/result-section.component.ts:29-43 | a higher score reaches at least as many thresholds |
| `Colors.ScoreColorMonotone` | src/app/test/result/result-section/result-section.component.ts:29-43 | raising a score never moves it to a lower colour band |
| `Colors.ScoreColorExamples` | src/app/test/result/result-section/result-section.component.ts:29-43 | 100 is green, 60 is yellow-green, 59 is yellow, 0 is red |
| `Scoring.CategoryScoreCountsTrue` | src/app/test/result/result-section/result-section.component.ts:80-90 | a category score is 250 × the number of answers with flag 1 among those at an index below the question count |
| `Scoring.CategoryScoreBounds` | src/app/test/result/result-section/result-section.component.ts:80-90 | a category score is a multiple of 250 between 0 and 250 × min(answers, questions) |
| `Scoring.UnmatchedAnswersIgnored` | src/app/test/result/result-section/result-section.component.ts:82-88 | answers at an index with no question are skipped: removing them leaves the score unchanged |
| `Scoring.AnswerContribution` | src/app/test/result/result-section/result-section.component.ts:83-86 | replacing one answer changes the score by exactly that answer's own contribution: 250 when it has a question and flag 1, otherwise 0 |
| `Scoring.AllTrueScoresFull` | src/app/test/result/result-section/result-section.component.ts:80-90 | a category whose every question is answered with flag 1 scores questionCount × 5 × 50, whatever extra answers past the questions hold |
| `Scoring.NoCreditedAnswersScoresZero` | src/app/test/result/result-section/result-section.component.ts:81-89 | a category scores 0 exactly when no answer has both a question and flag 1, so an empty or all-0 answer list scores 0 |
| `Scoring.SumAppend` | src/app/test/result/result-section/result-section.component.ts:94 | the reduce-style sum splits over concatenation |
| `Scoring.SumNonNegative` | src/app/test/result/result-section/result-section.component.ts:94 | a sum of non-negative scores is non-negative |
| `Scoring.TotalIsFiveHundredPerQuestion` | src/app/test/result/result-section/result-section.component.ts:78 | `total` is 500 × the number of questions over all categories |
| `Scoring.CategoriesTotals` | src/app/test/result/result-section/result-section.component.ts:75-77 | one entry per category, between 0 and 5 × its question count; it is 5 × the question count exactly when every question is `Agree`, and 0 exactly when none is |
| `Scoring.AgreeCountSnoc` | src/app/test/result/result-section/result-section.component.ts:76 | appending a question raises the `Agree` count by one exactly when that question is `Agree` |
| `Scoring.CategoriesTotalsQuestionContribution` | src/app/test/result/result-section/result-section.component.ts:75-77 | changing one question's type moves its category's entry by 5 per `Agree` gained or lost and leaves every other entry unchanged |
| `Selection.MathMin` | src/app/test/result/result-section/result-section.component.ts:161 | +Infinity exactly for no scores; otherwise one of the scores and no greater than any |
| `Selection.IndexOf` | src/app/test/result/result-section/result-section.component.ts:161 | -1 exactly when no element equals the value; otherwise the first position holding it |
| `Selection.MinIndex` | src/app/test/result/result-section/result-section.component.ts:161 | -1 exactly for no scores; otherwise a position of the lowest score with every earlier score strictly higher |
| `Selection.FirstMinimumUnique` | src/app/test/result/result-section/result-section.component.ts:161 | at most one index is the first position of a minimum, so the selection is determined |
| `Selection.SelectResult` | src/app/test/result/result-section/result-section.component.ts:161-162 | a record is selected exactly when there is a score and the selected index lies inside the catalogue, and it is the record at a first-minimum index |
| `Selection.MinIndexExample` | src/app/test/result/result-section/result-section.component.ts:161 | [30, 10, 50] selects 1, [20, 10, 10] selects the first 10, no scores give -1 |
| `ResultSection.FirstMissing` | src/app/test/result/result-section/result-section.component.ts:80-83 | finds the first answer category that is non-empty and has no category, or reports that none exists |
| `ResultSection.CategoriesScores` | src/app/test/result/result-section/result-section.component.ts:80-90 | one score per answer category |
| `ResultSection.BuildChart` | src/app/test/result/result-section/result-section.component.ts:106-115 | labels, values and point colours each have one entry per category (their contents are stated by `ChartFollowsScores`) |
| `ResultSection.CalculateResult` | src/app/test/result/result-section/result-section.component.ts:73-98 | `total` always becomes the normaliser; the call throws exactly when some non-empty answer list has no category, at the first such index, leaving `score` and `categoriesScores` as they were; otherwise it yields one score per answer category, an aggregate equal to their sum, and the chart of those scores |
| `ResultSection.CalculatedScores` | src/app/test/result/result-section/result-section.component.ts:80-94 | after a normal return each score is 250 × that category's matched flag-1 answers, bounded by 250 × min(answers, questions), and the aggregate is non-negative |
| `ResultSection.ChartFollowsScores` | src/app/test/result/result-section/result-section.component.ts:106-115 | axis i carries category i's title, the value 25 × its matched flag-1 answers and that score's band colour; axes without a score plot NaN in red |
| `ResultSection.SelectedCategoryHasFewestTrueAnswers` | src/app/test/result/result-section/result-section.component.ts:159-163 | the record shown is that of the first category with the fewest matched flag-1 answers, and none is shown when there are no answer categories |
| `ResultSection.SingleCategoryExample` | src/app/test/result/result-section/result-section.component.ts:73-98 | one category of two questions answered [1, 0] gives scores [250], aggregate 250, total 1000 and one green point at 25 |

## Left out

- src/app/shared/services/greencross.service.ts is not part of this model. It holds HTTP GET/POST wrappers, headers, client construction and blob error parsing: network I/O with no rules to state.
- src/app/login/login.module.ts is not part of this model: it is module wiring only.
- `ngOnInit`'s `forkJoin`/`take(1)` coordination is left out as asynchronous orchestration. The model takes the categories, the answers and the results catalogue as parameters.
- `getResultObject`'s subscription to the results request is left out: it is asynchronous I/O. `SelectResult` models what happens once the catalogue arrives.
- Chart.js construction, the DOM lookup of `myChart`, the styling options and `console.log` are left out as foreign library calls and UI. Only the labels, data and point-colour arrays are modelled.
- The commented-out earlier formula is dead code and is left out.
- The question-type enumeration file is not part of this model. `Disagree` stands for every question type other than `Agree`; the code only tests for `Agree`.
- Plotted values are exact rationals, not IEEE doubles. Every score is a multiple of 250, so `score / 10` is exact in both.
- Integers are unbounded. Scores past 2^53, where JavaScript numbers lose precision, are not modelled.
- A question entry that is itself `undefined` or `null` (a sparse questions array) is not modelled. Every present question is truthy, so `if (question)` is modelled as "an index below the question count".
- `Math.min` with more arguments than the engine's argument limit, which throws a `RangeError`, is not modelled.
