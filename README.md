# ai-jewelry, modelled in Dafny

The ai-jewelry web application recommends jewellery from a birthday, a life direction and a
short personality quiz. This project models its core in Dafny and proves properties of the
model:

- **The sexagenary-year calendar.** The stem, branch, zodiac animal and element of a year, and
  the formatted label.
- **The language-model service.** The answer summary, the prompt, the canned fallback
  recommendation and the outcomes of one generation.
- **The recommendation endpoint.** It turns either a structured answer or a free-text answer
  into one canonical record. The free-text path parses five `【…】` sections, labelled lines,
  element lines and numbered recommendation blocks.
- **The two verification-code stores.** One is SQL with an in-memory fallback and a five-day
  lifetime. The other is Prisma, with expiry timestamps.
- **The result page.** How every field falls back to a default, and how texts are cut into
  paragraphs.
- **The quiz page.** Its state machine.
- **The five-element energy route.**

One module stands for each source file. Supporting modules:
- `Text`: JavaScript string behaviour (white space, `trim`, `split`, `filter`, `join`, decimal
  rendering).
- `ModelAnswer`: the shapes the model can answer with.
- `Codes`: what both code stores share (the lifetime and four-digit codes).

JavaScript semantics that matter are written out:
- a missing value is `None`, and `x || ''` is `Or`;
- `%` truncates toward zero (`Calendar.JsRem`);
- an out-of-range array index is `undefined`;
- `answers[i] > 10` is false when the index is out of range.

Randomness comes in as integer draws. Clock readings come in as integer milliseconds. Each
backend call either succeeds or fails according to a `fails` flag.

The stateful parts are imperative Dafny:
- the two code stores are classes over their record lists, and their methods state the whole
  new state;
- the quiz page is a class;
- the advice loop and `analyzeAnswers` are methods with loops, proved equal to the pure
  functions about which the lemmas speak.

## Model

| member | source | states |
|---|---|---|
| Text.TrimSpec | src/app/api/recommend/route.ts:84 | `trim` gives an infix of its input whose ends are not white space; it is the identity on such strings and idempotent |
| Text.BlankIffTrimEmpty | src/app/api/recommend/route.ts:102 | a string trims to `''` exactly when it is all white space |
| Text.Split | src/app/api/recommend/route.ts:83 | `split` gives at least one piece, and no piece holds a separator |
| Text.SplitJoin | src/app/api/recommend/route.ts:83 | joining the pieces of a split with the separator gives the input back |
| Text.JoinSplit | src/app/api/recommend/route.ts:83 | splitting pieces free of the separator after joining them gives the pieces back |
| Text.NatToString | src/utils/DatabaseService.ts:91 | `toString` of a natural number is a non-empty string of digits with no leading zero |
| Text.NatToStringRoundTrip | src/utils/DatabaseService.ts:91 | the digits read back as the number |
| Text.FourDigits | src/utils/DatabaseService.ts:91 | 1000..9999 render as four digits, the first non-zero |
| Calendar.JsRem | src/utils/ChineseCalendar.ts:18-19 | JavaScript `%`: the Euclidean remainder for a non-negative dividend, a remainder in `(-b, 0]` for a negative one |
| Calendar.CalculateChineseCalendar | src/utils/ChineseCalendar.ts:16-38 | year, month and day come back unchanged; from year 4 on the stem is `HeavenlyStems[(year-4)%10]`, the branch and zodiac are read at `(year-4)%12`, the element at the stem index mod 5 |
| Calendar.UndefinedBeforeYearFour | src/utils/ChineseCalendar.ts:18-27 | before year 4 each label is `undefined` exactly when its remainder is non-zero, and the zodiac is undefined exactly when the branch is |
| Calendar.ZodiacFollowsBranch | src/utils/ChineseCalendar.ts:19-23 | the zodiac animal is the `i`-th animal exactly when the branch is the `i`-th branch |
| Calendar.SixtyYearCycle | src/utils/ChineseCalendar.ts:18-27 | years sixty apart get identical stem, branch, zodiac and element |
| Calendar.Year1984 | src/utils/ChineseCalendar.ts:16-38 | 1984 is 甲, 子, 鼠, 木 |
| Calendar.FormatShape | src/utils/ChineseCalendar.ts:40-42 | the label is stem, branch, `年 `, animal, `年 `, element, `命`, nine characters |
| Calendar.FormatDeterminesCycle | src/utils/ChineseCalendar.ts:40-42 | from year 4 on two years format alike if and only if they are a multiple of sixty apart |
| Calendar.TableIndex | src/utils/ChineseCalendar.ts:1-2 | the stem and branch tables hold no entry twice |
| OpenAi.Counts | src/utils/OpenAIService.ts:96-101 | four counters, counter `k` being how often option `k` was chosen |
| OpenAi.AnalyzeAnswers | src/utils/OpenAIService.ts:95-118 | the counting and concatenating loops compute the summary `Analysis` |
| OpenAi.CountZeroIff | src/utils/OpenAIService.ts:97-101 | an option's count is zero exactly when no answer names it |
| OpenAi.AnalysisEmptyIff | src/utils/OpenAIService.ts:110-117 | the summary is empty exactly when no answer is one of the options 0..3 (all `-1`, or no answers) |
| OpenAi.AccumulatedEmptyIff | src/utils/OpenAIService.ts:111-115 | the concatenated entries are empty exactly when every option counted so far is zero |
| OpenAi.AccumulatedShort | src/utils/OpenAIService.ts:113 | a non-empty concatenation ends in `，` |
| OpenAi.DropLast | src/utils/OpenAIService.ts:117 | `slice(0, -1)`: the result followed by the last character is the input |
| OpenAi.AnalysisDropsComma | src/utils/OpenAIService.ts:117 | a non-empty summary followed by `，` is exactly the entries of the chosen options in option order |
| OpenAi.OthersIgnored | src/utils/OpenAIService.ts:97-101 | an answer outside 0..3 does not change the summary |
| OpenAi.PromptLines | src/utils/OpenAIService.ts:10-45 | the prompt has 36 lines, with birthday, calendar label, direction and summary on lines 4 to 7 |
| OpenAi.PromptRoundTrip | src/utils/OpenAIService.ts:10-16 | when the user's values hold no line break, splitting the prompt into lines gives the template lines with the four values in place |
| OpenAi.AnalysisOneLine | src/utils/OpenAIService.ts:103-117 | the summary never holds a line break |
| OpenAi.TableShape | src/utils/OpenAIService.ts:121-164 | the table has an entry exactly for the six directions by five elements, each entry three non-empty items |
| OpenAi.EntryLines | src/utils/OpenAIService.ts:123-162 | an entry splits on `\n` into its three items |
| OpenAi.BaseRecommendationTiers | src/utils/OpenAIService.ts:166-167 | the (direction, element) entry, else the (direction, 金) entry, else the platitude |
| OpenAi.BaseRecommendationLines | src/utils/OpenAIService.ts:167 | a known direction gives the three lines of the chosen entry, an unknown one the platitude alone |
| OpenAi.DefaultRecommendationLines | src/utils/OpenAIService.ts:169 | the canned text is the opening, a blank line, the base recommendation's lines, a blank line, the wearing advice, a blank line and the farewell |
| OpenAi.DefaultRecommendationBare | src/utils/OpenAIService.ts:120-170 | the canned text holds no `【`, so no section header |
| OpenAi.GenerateOutcomes | src/utils/OpenAIService.ts:82-91 | a failed or non-ok call gives the canned recommendation; an ok call with empty content gives `生成推荐失败，请重试`; otherwise the content verbatim |
| OpenAi.GenerateNeverEmpty | src/utils/OpenAIService.ts:87 | the service never resolves to empty text |
| OpenAi.GenerateRejects | src/utils/OpenAIService.ts:3-16 | the promise rejects exactly when the calendar or the answers are missing, because the prompt is built outside the `try` |
| OpenAi.GenerateFallbackBare | src/utils/OpenAIService.ts:87-91 | whenever the model's content is not used, the text resolved to holds no `【` |
| Recommend.Psychology | src/app/api/recommend/route.ts:49-56 | `currentState = surface`, `logicConnection = innerCore` and `personalityDuality = truth` |
| Recommend.Displays | src/app/api/recommend/route.ts:29-31 | one display line per item, in order |
| Recommend.Truthy | src/app/api/recommend/route.ts:36 | `filter(Boolean)` keeps only present, non-empty strings, each from the input |
| Recommend.TruthyAppend | src/app/api/recommend/route.ts:36 | the filter works entry by entry, so benefits and scene are filtered apart and concatenated |
| Recommend.TransformResult | src/app/api/recommend/route.ts:18-61 | `None` (a throw) exactly when an element or recommendation entry is `null` or one of `personality[0..2]` is a truthy non-string; otherwise tags are `coreStone.tags` or `[]`, insight, stone and decision are their fields or `''`, personality and advice are `''`, one element item and one recommendation per entry in order, and the aliased psychology slots read `personality[0..2]` trimmed |
| Recommend.PersonalityAt | src/app/api/recommend/route.ts:50-55 | a missing or falsy slot gives `''`, a string slot its trimmed text, and only a truthy non-string slot throws |
| Recommend.ThrowsOnlyOnEntries | src/app/api/recommend/route.ts:18-61 | the core stone and the material explanation never decide whether the mapping throws |
| Recommend.NullElementThrows | src/app/api/recommend/route.ts:23 | one `null` among the five-element entries makes the whole mapping throw |
| Recommend.ElementItemSpec | src/app/api/recommend/route.ts:19-26 | the glyph is the map's entry for 金 木 水 火 土 and `''` for any other element; the title is the element as rendered and `元素` (`null元素` for `null`); the description is the analysis or `''` |
| Recommend.AdviceOfSpec | src/app/api/recommend/route.ts:33-38 | the title is the name or `''`; the bullets are the present non-empty benefits in order, then the scene if it is present and non-empty |
| Recommend.CaptureAt | src/app/api/recommend/route.ts:74-76 | the group of `\s*(.+)` is non-empty and free of line terminators |
| Recommend.LabelValue | src/app/api/recommend/route.ts:78-80 | a missing label gives `''` |
| Recommend.LabelRoundTrip | src/app/api/recommend/route.ts:74-80 | a key, a colon and a trimmed single-line value read back that value |
| Recommend.TagsOf | src/app/api/recommend/route.ts:75-79 | every tag is non-empty and free of `，` `,` `、` and white space; no `标签` line gives `[]` |
| Recommend.TagsRoundTrip | src/app/api/recommend/route.ts:79 | a `标签` line of clean tags joined by one separator reads back exactly those tags |
| Recommend.FateLines | src/app/api/recommend/route.ts:82-85 | only trimmed lines starting with 🔥 💧 🌳 🪨 土 火 水 木 are kept |
| Recommend.ReadArrow | src/app/api/recommend/route.ts:89-91 | title and description are trimmed |
| Recommend.ParseFateLine | src/app/api/recommend/route.ts:87-92 | the glyph is one of the four or `''`; title and description are trimmed |
| Recommend.FirstItems | src/app/api/recommend/route.ts:87 | at most three items, the `k`-th read from the `k`-th element line |
| Recommend.DisplayRoundTrip | src/app/api/recommend/route.ts:88-95 | reading a well-formed item's display line back as an element line gives the item |
| Recommend.FateItemsShape | src/app/api/recommend/route.ts:82-93 | every element item of the fate section is well formed, with a trimmed and arrow-free title and description |
| Recommend.AdviceLines | src/app/api/recommend/route.ts:102 | the trimmed lines of the advice section, none empty |
| Recommend.MarkerRoundTrip | src/app/api/recommend/route.ts:105-107 | a line of bullet characters, `推荐`, a number, a colon and a title is a marker whose title is the title |
| Recommend.ParseAdvice | src/app/api/recommend/route.ts:101-112 | the loop over the advice lines computes `AdviceBlocks` |
| Recommend.BlocksSnoc | src/app/api/recommend/route.ts:104-111 | one more line changes the blocks as one loop step does |
| Recommend.BlocksTitles | src/app/api/recommend/route.ts:104-112 | there are exactly as many recommendations as marker lines, titled after them in order |
| Recommend.BlocksBullets | src/app/api/recommend/route.ts:108-110 | the bullets of all recommendations, in order, are exactly the non-marker lines from the first marker on |
| Recommend.BlocksPreamble | src/app/api/recommend/route.ts:108 | lines before the first marker are dropped |
| Recommend.BlocksCons | src/app/api/recommend/route.ts:104-112 | a marker followed by plain lines up to the next marker or the end is one recommendation, the last one included |
| Recommend.FindFrom | src/app/api/recommend/route.ts:65 | the first occurrence of the header at or after a position |
| Recommend.SectionEndFrom | src/app/api/recommend/route.ts:65 | the first position where `(?=\n\s*【\|$)` holds |
| Recommend.SectionOf | src/app/api/recommend/route.ts:64-67 | a missing header gives `''` |
| Recommend.SectionRoundTrip | src/app/api/recommend/route.ts:64-67 | a header followed by a body with no `【` and then the end of the text or a line break before the next header gives the trimmed body (with the pattern as intended) |
| FreeText.TextRecord | src/app/api/recommend/route.ts:74-130 | personality and advice are `''`, the decision is the material section, at most three element items with their display lines, aliased psychology, clean tags |
| FreeText.ParseFromText | src/app/api/recommend/route.ts:63-131 | the text path's record is `FromTextAsWritten`: sections cut by the pattern as compiled, the advice blocks built by the loop |
| FreeText.FromTextShape | src/app/api/recommend/route.ts:82-95 | every element item of the text path is well formed |
| FreeText.FromTextUnsectioned | src/app/api/recommend/route.ts:64-72 | a text without `【` gives the empty record |
| FreeText.EmptySections | src/app/api/recommend/route.ts:74-130 | five empty sections give the empty record |
| FreeText.GetSectionAsWritten | src/app/api/recommend/route.ts:65 | with the pattern as compiled, a section is only ever made of the letters `s` and `S` |
| FreeText.AsWrittenLosesEverything | src/app/api/recommend/route.ts:63-131 | with the pattern as compiled, every field of the text path is empty except a decision made of `s`/`S` letters |
| FreeText.SectionLost | src/app/api/recommend/route.ts:65 | a section whose body starts with a character other than `s`/`S` is lost as written, and found with the intended pattern |
| FreeText.FateSectionLost | src/app/api/recommend/route.ts:65-93 | a fate section after its header gives no element items as written, and the items of its element lines as intended |
| FreeText.AsWrittenUnsectioned | src/app/api/recommend/route.ts:64-72 | as written too, a text without `【` gives the empty record |
| Route.Normalize | src/app/api/recommend/route.ts:8 | text goes through the section parser as compiled, an object through the mapping, which is `None` exactly when it throws; either path gives empty personality and advice, aliased psychology, and one display line per element item |
| Route.NormalizeIntended | src/app/api/recommend/route.ts:8-9 | the corrected dispatch: the same guarantees with the intended section pattern |
| Route.IntendedReadsFate | src/app/api/recommend/route.ts:65-93 | on a fate section the endpoint as written answers no element items and the corrected one answers the section's items |
| Route.Post | src/app/api/recommend/route.ts:4-16 | the endpoint answers `Respond` |
| Route.TextAnswerLost | src/app/api/recommend/route.ts:8-9 | a free-text model answer reaches the page as a record whose every field is empty, except a decision made of `s`/`S` letters |
| Route.RespondResolved | src/app/api/recommend/route.ts:6-9 | a resolved model result is answered with its normalised record |
| Route.RespondErrors | src/app/api/recommend/route.ts:6-15 | the error body, always with the fixed message, is sent exactly when the body is not JSON, the service rejects, or the structured answer makes the mapping throw |
| Route.FallbackIsEmpty | src/app/api/recommend/route.ts:7-9 | when the model call fails, is not ok or is empty, the endpoint answers the empty record |
| Route.UnsectionedAnswer | src/app/api/recommend/route.ts:8 | model text without `【` is answered with the empty record |
| Codes.CodeOf | src/utils/DatabaseService.ts:91 | a draw in 1000..9999 renders as four digits, the first non-zero, whose value is the draw |
| CodeStore.Sweep | src/utils/DatabaseService.ts:177-181 | only records created within five days are kept |
| CodeStore.SweepMembers | src/utils/DatabaseService.ts:180 | the sweep keeps exactly the live records |
| CodeStore.SweepAppend | src/utils/DatabaseService.ts:180 | the sweep keeps the original order |
| CodeStore.SweepIdempotent | src/utils/DatabaseService.ts:177-181 | sweeping twice at the same time is sweeping once |
| CodeStore.FindIndex | src/utils/DatabaseService.ts:164-166 | `-1` exactly when no record matches, otherwise the first match |
| CodeStore.FirstMatch | src/utils/DatabaseService.ts:164-166 | the scanning loop finds `FindIndex` |
| Text.Remove | src/utils/DatabaseService.ts:170 | `splice(k, 1)` shifts the later records down by one |
| Text.RemoveMultiset | src/utils/DatabaseService.ts:168-171 | exactly one record is taken out |
| CodeStore.DuplicateStaysValid | src/utils/DatabaseService.ts:164-171 | a second live copy of the same code still validates after the first is consumed |
| CodeStore.DeleteIdRemoves | src/utils/DatabaseService.ts:145 | with ids increasing along the table, deleting by the id of row `k` is removing row `k` |
| CodeStore.Issued | src/utils/DatabaseService.ts:97-102 | a freshly issued record is live at its own time |
| CodeStore.SeedRows | src/utils/DatabaseService.ts:73-85 | one row per seeded code, numbered on from the counter |
| CodeStore.Purge | src/utils/DatabaseService.ts:189 | the durable sweep keeps exactly the rows created at or after five days ago |
| CodeStore.PurgeBoundary | src/utils/DatabaseService.ts:189 | a row created exactly five days ago survives the durable sweep but no longer validates |
| CodeStore.PlaceholderRoundTrip | src/utils/DatabaseService.ts:82 | the tuple for `k` names placeholder `$k` |
| CodeStore.ValuesPlaceholders | src/utils/DatabaseService.ts:80-83 | the VALUES clause holds one tuple per code, the `i`-th naming `$i+1` |
| CodeStore.DatabaseService.constructor | src/utils/DatabaseService.ts:16-27 | a pool that cannot be created switches to memory storage; the memory list starts empty with id 1 |
| CodeStore.DatabaseService.InitDatabase | src/utils/DatabaseService.ts:29-43 | without a pool nothing changes; a failure switches to memory for good and leaves the table and its counter; otherwise the table is seeded with ten rows and the counter moves on by ten exactly when it is empty |
| CodeStore.DatabaseService.InitializeVerificationCodes | src/utils/DatabaseService.ts:65-88 | ten fresh rows exactly when the table is empty, nothing otherwise |
| CodeStore.DatabaseService.GenerateAndStoreCode | src/utils/DatabaseService.ts:90-126 | on the memory path one live record with the returned code is appended after the sweep; a durable failure switches to memory and issues there; memory storage is never switched off |
| CodeStore.DatabaseService.IssueToMemory | src/utils/DatabaseService.ts:95-106 | push then sweep: the new record survives the sweep and the id counter moves on by one |
| CodeStore.DatabaseService.VerifyCode | src/utils/DatabaseService.ts:128-158 | true exactly when a live record with the code exists, which is then removed; a durable failure switches to memory and answers from there; the id counters never change |
| CodeStore.DatabaseService.VerifyCodeFromMemory | src/utils/DatabaseService.ts:160-175 | sweep, then true exactly when a live record with the code remains, and exactly the first one is removed |
| CodeStore.DatabaseService.CleanupExpiredMemoryCodes | src/utils/DatabaseService.ts:177-181 | the memory list becomes its sweep |
| CodeStore.DatabaseService.CleanupExpiredCodes | src/utils/DatabaseService.ts:183-196 | sweeps memory on the memory path, purges the table otherwise, and a failure changes nothing |
| PrismaStore.FindFirst | src/utils/PrismaDatabaseService.ts:64-71 | `-1` exactly when no row has the code and an expiry after now, otherwise the first such row |
| PrismaStore.DeleteExpired | src/utils/PrismaDatabaseService.ts:93-99 | never adds rows |
| PrismaStore.DeleteExpiredSpec | src/utils/PrismaDatabaseService.ts:92-99 | the sweep removes exactly the rows whose expiry is not after now |
| PrismaStore.NewRows | src/utils/PrismaDatabaseService.ts:15-30 | each new row expires five days after now, with ids counted on |
| PrismaStore.PrismaDatabaseService.constructor | src/utils/PrismaDatabaseService.ts:4-6 | the service starts on the given table |
| PrismaStore.PrismaDatabaseService.InitDatabase | src/utils/PrismaDatabaseService.ts:8-37 | ten rows are added exactly when the table is empty and the call succeeds; an error is swallowed |
| PrismaStore.PrismaDatabaseService.GenerateAndStoreCode | src/utils/PrismaDatabaseService.ts:39-59 | the old rows are kept, followed by the ten seeded rows when the table was empty and seeding succeeded, then the new row unless the store fails; a store error is rethrown, otherwise the returned code is the last row |
| PrismaStore.PrismaDatabaseService.VerifyCode | src/utils/PrismaDatabaseService.ts:61-88 | true exactly when no error occurs and an unexpired row has the code, which is then deleted; an error yields false |
| PrismaStore.PrismaDatabaseService.Delete | src/utils/PrismaDatabaseService.ts:75-79 | the row at the index is gone, the id order is kept |
| PrismaStore.PrismaDatabaseService.CleanupExpiredCodes | src/utils/PrismaDatabaseService.ts:90-103 | the expired rows are deleted; an error changes nothing |
| PrismaStore.VerifyIff | src/utils/PrismaDatabaseService.ts:63-80 | verification finds a row exactly when one has the code and is unexpired, and removes one row |
| PrismaStore.SweptRowsCheck | src/utils/PrismaDatabaseService.ts:92-99 | after the sweep every row passes the time test of `verifyCode` at the same time, and the same codes still validate |
| ResultView.DirectionIndex | src/components/ResultPage.tsx:82-89 | the position of a known direction, `-1` for any other string |
| ResultView.GenerateTags | src/components/ResultPage.tsx:81-91 | three tags: the direction's, or `开运吉祥 心想事成 万事如意` |
| ResultView.GenerateInsight | src/components/ResultPage.tsx:94-104 | a non-empty line: the direction's, or `天行健，君子以自强不息。` |
| ResultView.FallbackExactlyForUnknown | src/components/ResultPage.tsx:81-104 | the general tags and line are given exactly for unknown directions |
| ResultView.TablesDistinct | src/components/ResultPage.tsx:82-102 | two directions never share tags or a line |
| ResultView.Paragraphs | src/components/ResultPage.tsx:240 | every paragraph is non-blank and a single line |
| ResultView.ParagraphsRoundTrip | src/components/ResultPage.tsx:113 | non-blank single lines joined by line breaks come back as themselves, untrimmed |
| ResultView.BlankHasNoParagraphs | src/components/ResultPage.tsx:113 | a blank text has no paragraphs |
| ResultView.AdviceTernaryRedundant | src/components/ResultPage.tsx:113 | the empty-text guard changes nothing: an empty text already has no paragraphs |
| ResultView.DualityDefault | src/components/ResultPage.tsx:111 | the default says `外向活泼` exactly when `answers[0] > 10` and `传统保守` exactly when `answers[2] > 10` |
| ResultView.QuizAnswersDuality | src/components/ResultPage.tsx:111 | answers from the quiz (never above 10) always give the `内向沉稳` / `创新独特` text |
| ResultView.Show | src/components/ResultPage.tsx:106-114 | tags are the record's when it has some, else `GenerateTags(direction)`; the insight is its own when non-empty, else `GenerateInsight(direction)`; personality, fate pattern, current state, duality and logic connection are their own when non-empty, else the fixed text, the direction's template, `DualityDefault(answers)` or the direction's template; advice paragraphs are the text's paragraphs; an empty decision shows the default text as one paragraph |
| ResultView.DefaultJewelryParagraph | src/components/ResultPage.tsx:114 | the default decision text is one paragraph |
| ResultView.EmptyRecordShown | src/components/ResultPage.tsx:106-114 | an empty record shows the direction's tables and every default, with no advice paragraphs |
| Quiz.QuestionSet | src/components/TestPage.tsx:12 | the direction's questions, else those of 事业, only a missing key falling back |
| Quiz.UnknownLikeCareer | src/components/TestPage.tsx:12 | an unknown direction gets exactly the questions of 事业 |
| Quiz.Start | src/components/TestPage.tsx:13-14 | the cursor is on the first question and all n answers are `-1` |
| Quiz.Select | src/components/TestPage.tsx:16-26 | the option is written at the current slot only; below the last question the cursor advances, on the last the quiz completes with the new answers and the cursor stays; the state stays in range |
| Quiz.Prev | src/components/TestPage.tsx:30-32 | back one question only when not on the first; answers unchanged |
| Quiz.RunFrom | src/components/TestPage.tsx:16-26 | answering from question `c` on completes with the earlier answers followed by the picks |
| Quiz.AnswersInOrder | src/components/TestPage.tsx:13-26 | from the start, n selections complete the quiz with exactly the options chosen, in order |
| Quiz.PrevThenSelect | src/components/TestPage.tsx:16-32 | going back and answering again overwrites only the previous question's slot |
| Quiz.TestPage.constructor | src/components/TestPage.tsx:13-14 | the component starts in `Start(n)` |
| Quiz.TestPage.HandleOptionSelect | src/components/TestPage.tsx:16-26 | the new state and the completion are those of `Select` on the old state |
| Quiz.TestPage.HandlePrev | src/components/TestPage.tsx:30-32 | the new state is `Prev` of the old one |
| FiveElements.ElementValue | src/app/api/five-elements/route.ts:11-13 | the value lies in 0..100 |
| FiveElements.ClampIsIdle | src/app/api/five-elements/route.ts:12-13 | for a draw in 0..39 the clamp changes nothing and the value is `30 + k`, in 30..69 |
| FiveElements.GenerateFiveElementsData | src/app/api/five-elements/route.ts:4-20 | five entries in the order 金 木 水 火 土, each the clamped value of its own draw, in 0..100 |
| FiveElements.ValuesInRange | src/app/api/five-elements/route.ts:12-13 | with draws in 0..39 every value lies in 30..69 |
| FiveElements.CalendarIgnored | src/app/api/five-elements/route.ts:4-19 | the output does not depend on the calendar argument |
| FiveElements.ElementsDistinct | src/app/api/five-elements/route.ts:7 | each element appears once |

## Left out

- HTTP and the provider:
  - the `fetch` call, its headers, its `AbortController` and the 30-second timeout are not modelled;
  - `src/utils/AIRecommendation.ts` is not modelled, being a fetch wrapper;
  - the provider is a function from the prompt to a reply: a response with a status and content, or a failure;
  - a malformed response body counts as a failure.
- Backends:
  - the `pg` pool, the SQL text execution and the Prisma client are foreign code;
  - each store is an abstract list of rows with an id counter, and each backend call succeeds or fails according to a flag.
- The un-awaited `initDatabase()` started by the `DatabaseService` constructor is not modelled. It is an asynchronous race; the model runs it as its own method.
- Concurrency. No atomicity of lookup-then-delete under interleaving is claimed.
- Randomness comes in as integer draws (`floor(1000 + r*9000)`, `floor(r*40)`). Each operation reads the clock once, as an integer `now` in milliseconds.
- PrismaStore.NewRows: `setDate(getDate() + 5)` is calendar-day arithmetic. The model adds five days of milliseconds, which differs across a daylight-saving change.
- PrismaStore.FindFirst: `findFirst` without `orderBy` has no defined order. The model takes the first matching row in table order, which is id order.
- Recommend.TransformResult: a truthy field of a type other than string (a number in `summary`, `name`, `analysis`, `scene`, `materialExplanation`, or among the tags or benefits) is passed on unchanged in the source. The model holds these fields as strings.
- CodeStore.DatabaseService.VerifyCode: an SQL `SELECT` without `ORDER BY` has no defined order. The model takes the first matching row in table order, and the database clock is the same `now`.
- CodeStore.DatabaseService.GenerateAndStoreCode: the retry after a durable failure reads the same `now` as the first attempt.
- CodeStore.VerificationCode keeps `expiresAt`, which no operation reads. PrismaStore.Row has no `createdAt`, which no Prisma operation reads.
- ElementItemSpec: a key inherited by every JavaScript object (`constructor`, `toString`, …) is not modelled. There `emojiMap[element]` is a function, so the glyph is the function's source text, not `''`. The same holds for Recommend.ItemOf.
- BaseRecommendationTiers: inherited object keys are not modelled. With direction `constructor` or element `constructor`, the source's lookup finds a function or its property and renders that, not the 金 entry or the platitude.
- ResultView.GenerateTags: a lookup key that names a property inherited by every JavaScript object is not modelled. With `constructor`, for example, the real map returns a function, not the fallback.
- ResultView.GenerateInsight: a lookup key inherited by every JavaScript object is not modelled. With `constructor` the real map returns a function, not `天行健，君子以自强不息。`.
- Quiz.TestPage.constructor: requires at least one question. With an empty question set the page fails when it reads `current.question`, before any selection.
- Quiz.QuestionSet: the question bank is a parameter. The `data/questions20` file is not part of this model.
- OpenAi.AnalyzeAnswers: answers are integers. An array entry that is not an integer is not modelled. An `answers` value that is not an array makes the service reject (OpenAi.GenerateRejects).
- Not modelled, being rendering:
  - `Math.round` of the progress percentage;
  - all JSX, the radar chart and the five-element fetch effect of the result page;
  - the direction, birthday and verification-code forms;
  - the page wizard.
- The verify routes are not modelled, being thin wrappers over the stores. The 400 and 500 branches of the five-element route and the styling configuration are also left out.
- Regular expressions in general are not modelled. Each pattern of the endpoint is written out as its own matcher, glyphs are single characters, and there is no Unicode normalisation.

## Findings

| source | as written | input that shows it | evidently intended | confidence | as-written member | corrected member |
|---|---|---|---|---|---|---|
| src/app/api/recommend/route.ts:65 | The pattern is built from a template literal, where `\s` and `\S` lose their backslash. The compiled pattern is `【name】([sS]*?)(?=\ns*【\|$)`: a section can only be a run of the letters `s`/`S`, so every real section comes back empty and every field of the text path is empty. | `"【命理格局】\n🔥 火 → 旺"`: `getSection('命理格局')` gives `''` | `[\s\S]*?` up to a line break before the next `【` or the end of the text: the section `🔥 火 → 旺` | not executed | FreeText.GetSectionAsWritten, FreeText.AsWrittenLosesEverything | Recommend.SectionOf, Recommend.SectionRoundTrip, FreeText.SectionLost, Route.NormalizeIntended |

The endpoint (`Route.Normalize`, `Route.Post`, `FreeText.ParseFromText`) runs the pattern as
compiled. `Route.NormalizeIntended` is the same dispatch with the corrected pattern
(`FreeText.FromText`). `Route.IntendedReadsFate` shows where the two differ.

Two related facts:
- `Route.FallbackIsEmpty` and `Route.UnsectionedAnswer` show that the canned recommendation and
  the retry message, being free text without a section header, reach the client as an empty
  record.
- `CodeStore.PurgeBoundary` records one boundary case. The durable sweep deletes `created_at <`
  five days ago while validation demands `created_at >` five days ago, so a row created exactly
  five days ago is kept but cannot be used.
