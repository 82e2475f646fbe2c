# Economics study tool: the AI tutor's responder, as a Dafny model

The study tool is a single-page web app whose "AI tutor" answers free-text questions about
introductory microeconomics. It has no language model behind it. `get_ai_response` does the
following:

- lower-cases the question;
- looks for keywords in a fixed order;
- renders the matching entry of a fixed knowledge base (`ECONOMICS_KNOWLEDGE_BASE`) as Markdown.

Text is built step by step with `+=`, and `for` loops walk the lists and the ordered dicts. A
second function, `simulate_dialogue`, returns a fixed 13-turn teacher–student script.

This project models those three pieces and proves what the responder promises:

- which topic wins when several keywords occur;
- that case does not matter;
- that every list and dict entry is rendered, in order, and can be read back;
- which questions get the fallback;
- that the only empty answer is the one from the "difference" branch.

Modules:

- `Text` (text.dfy): substring search as Python's `in`, ASCII `str.lower`, `str.title`,
  `str.replace` of one character, and the "concatenate one piece per item" pattern that an
  accumulating `for` loop computes.
- `KnowledgeBase` (knowledge_base.dfy): one record type per topic and the app's knowledge
  base `Economics`. A dict that the code iterates with `.items()` is a sequence of
  (key, value) pairs in declaration order.
- `Render` (render.dfy): each topic's Markdown block as a function of its record, plus the
  fixed texts (greeting, exam tips, comparison, fallback). `ParseBullets` reads a bulleted
  list back, as the inverse of rendering it.
- `Tutor` (tutor.dfy):
  - `Rules` is the ordered keyword table.
  - `Classify` applies the first rule that fires.
  - `Respond` is the specification of the responder.
  - `GetAiResponse` is the responder written as the source writes it: an if/elif chain whose
    branches accumulate text with loops. It is proved to compute `Respond`.
- `TutorFacts` (tutor_facts.dfy): precedence, case, fallback and empty-answer properties of
  `Respond`.
- `Dialogue` (dialogue.dfy): the scripted dialogue.
- `IntendedTutor` (intended.dfy): the comparison answer the "difference" branch was evidently
  meant to give (see Findings).

The responder takes the knowledge base as a parameter `kb`, and the app calls it with
`Economics`. Every property below therefore holds for any knowledge base of the same shape,
and in particular for the app's own.

## Model

| member | source | states |
|---|---|---|
| Text.ContainsIff | app.py:166 | `k in s` holds exactly when `k` occurs at some position of `s` |
| Text.OccursAtContains | app.py:166 | a keyword found at a given position makes the `in` test true |
| Text.ContainsTransitive | app.py:192 | a text containing "elasticity" contains everything "elasticity" contains (substring containment is transitive) |
| Text.LowerIsLower | app.py:156 | lower-casing keeps the length and leaves no upper-case letter |
| Text.LowerFixesNoUpper | app.py:156 | lower-casing changes nothing in a text without upper-case letters |
| Text.LowerIdempotent | app.py:156 | lower-casing twice is lower-casing once |
| Text.LowerSlice | app.py:156 | lower-casing commutes with taking a slice |
| Text.ContainsLower | app.py:156-166 | if a question contains a word, its lower-cased form contains the lower-cased word |
| Text.TitleFromAt | app.py:202 | `title()` keeps the length and upper-cases exactly the letters not preceded by a letter, lower-casing the other letters |
| Text.TitleFromAppend | app.py:238 | title-casing a concatenation title-cases each part, the second part continuing after the first part's last character |
| Text.TitleSpec | app.py:202 | character by character, `title()` is the independent per-position definition `TitleChar` |
| Text.TitleWord | app.py:202 | a lower-case word is title-cased by upper-casing its first letter |
| Text.TitleTwoWords | app.py:238 | any two texts joined by a space are title-cased part by part |
| Text.ReplaceFixes | app.py:238 | `replace` changes nothing in a text that lacks the replaced character |
| Text.ReplaceAppend | app.py:238 | `replace` on a concatenation is the concatenation of the replaced parts |
| Text.ConcatMapAppend | app.py:172-173 | accumulating over two lists one after the other is accumulating over their concatenation |
| Text.ConcatMapSnoc | app.py:172-173 | one more loop iteration appends exactly the piece of the next item |
| Text.ConcatMapAt | app.py:172-173 | the piece of item `i` sits between the pieces of the items before and after it |
| Render.TakeLine | app.py:173 | reading one line off a text consumes at least one character of a non-empty text |
| Render.TakeLineOfLine | app.py:173 | a single-line item followed by a newline reads back as that item and the rest |
| Render.BulletsRoundTrip | app.py:172-173 | a bulleted list of single-line items, followed by text that is not a bullet, reads back as exactly the items, in order |
| Render.BulletsInjective | app.py:172-173 | two lists of single-line items render to the same bullets only if they are equal |
| Render.CategoriesAreBullets | app.py:201-202 | the category lines form a bulleted list of the labelled items, in dict order |
| Render.DemandFactorsRoundTrip | app.py:166-174 | the demand block starts with its heading, definition and law, and the factors read back from the rest in order |
| Render.SupplyFactorsRoundTrip | app.py:176-183 | the supply block starts with its heading, definition and law, and its factors read back in order |
| Render.ElasticityTypesRoundTrip | app.py:192-199 | the elasticity block starts with its heading, definition and formula, and its types read back in order |
| Render.ProductionListsRoundTrip | app.py:212-223 | both production lists, the factors and the key concepts, read back in order from their places in the block |
| Render.ConcatMapStep | app.py:237-240 | after `i + 1` iterations the accumulated text is the text after `i` plus item `i`'s piece |
| Render.BulletsStep | app.py:172-173 | after `i + 1` iterations of a bullet loop the text has gained exactly the bullet of item `i` |
| Render.StructuresStep | app.py:237-240 | one iteration of the market-structure loop appends the heading, characteristics and pricing lines of that entry |
| Render.ElasticityCategoriesInOrder | app.py:104-108 | the categories render as Elastic, Inelastic, Unitary, in that order, each with its description |
| Render.CategoryTitles | app.py:202 | the category keys title-case to "Elastic", "Inelastic", "Unitary" |
| Render.MarketStructureHeadings | app.py:134-151 | the four market structures are headed "Perfect Competition", "Monopoly", "Monopolistic Competition", "Oligopoly", in that order |
| Render.PerfectCompetitionHeading | app.py:238 | replacing `_` by a space and title-casing turns "perfect_competition" into "Perfect Competition" |
| Render.MonopolisticCompetitionHeading | app.py:238 | the same for "monopolistic_competition" |
| Render.SingleWordHeadings | app.py:238 | "monopoly" and "oligopoly" are headed "Monopoly" and "Oligopoly" |
| Render.TwoWordHeading | app.py:238 | a key of two underscore-free words joined by `_` is headed by the two words, each title-cased, separated by a space |
| Render.HeadingWordTitles | app.py:238 | "perfect", "competition" and "monopolistic" title-case to "Perfect", "Competition" and "Monopolistic" |
| Tutor.AnyContains | app.py:162 | `any(word in q for word in words)` holds exactly when some word of the list occurs in `q` |
| Tutor.FirstMatch | app.py:162-269 | the index of the first rule that fires: that rule fires and no earlier one does, or no rule fires |
| Tutor.AnyContainsOne | app.py:166 | a one-keyword rule fires exactly when its keyword occurs |
| Tutor.AnyContainsTwo | app.py:185 | a two-keyword rule fires exactly when one of its keywords occurs |
| Tutor.AnyContainsThree | app.py:204 | a three-keyword rule fires exactly when one of its keywords occurs |
| Tutor.AnyContainsFour | app.py:234 | a four-keyword rule fires exactly when one of its keywords occurs |
| Tutor.RulesFire | app.py:162-253 | the rule table holds the eleven tests of the if/elif chain, in the chain's order, each firing exactly under the chain's condition |
| Tutor.FirstMatchIs | app.py:162-269 | the first rule that fires is rule `i` when rule `i` fires and no earlier one does |
| Tutor.ClassifyChain | app.py:162-269 | classifying by the rule table gives the topic of the first branch of the if/elif chain whose condition holds, and the fallback when none holds |
| Tutor.GetAiResponse | app.py:154-282 | the responder's answer to any question is `Respond`: the rendered block of the first topic whose keyword occurs in the lower-cased question |
| Tutor.ExplainDemand | app.py:166-174 | the demand branch's loop builds the demand block: heading, definition, law in bold, one bullet per factor in order, then the types |
| Tutor.ExplainSupply | app.py:176-183 | the supply branch's loop builds the supply block, one bullet per factor in order |
| Tutor.ExplainEquilibrium | app.py:185-190 | the equilibrium branch's appends build the equilibrium block |
| Tutor.ExplainElasticity | app.py:192-202 | the elasticity branch's two loops build the block: the types as bullets, then one labelled line per category in dict order |
| Tutor.ExplainConsumerBehavior | app.py:204-210 | the consumer-behaviour branch's appends build its block |
| Tutor.ExplainProduction | app.py:212-223 | the production branch's two loops build the block: factors, short and long run, then key concepts |
| Tutor.ExplainCosts | app.py:225-232 | the cost branch's appends build the cost block, five labelled concepts in order |
| Tutor.ExplainMarketStructures | app.py:234-240 | the market branch's loop builds one heading-and-two-lines entry per structure, in dict order |
| TutorFacts.MissingChar | app.py:166 | a text lacking one letter of a keyword does not contain the keyword |
| TutorFacts.RespondByFirstRule | app.py:162-280 | when rule `i` fires and no earlier one does, the answer is rule `i`'s topic's text |
| TutorFacts.GreetingWins | app.py:162-163 | any question containing "hello", "hi" or "hey" gets the greeting, whatever else it asks |
| TutorFacts.GreetingInsideWord | app.py:162-163 | "why is this price elastic?" gets the greeting, because "this" contains "hi" |
| TutorFacts.UpperCaseGreeting | app.py:156-163 | a question containing "hello" written in any mix of upper and lower case gets the greeting |
| TutorFacts.DemandWins | app.py:166-174 | with no greeting, a question mentioning "demand" gets the demand block, even if it also mentions supply or difference |
| TutorFacts.ComparisonQuestionFacts | app.py:166 | "difference between demand and supply" is lower case, has no greeting and contains "demand" |
| TutorFacts.ComparisonQuestionGetsDemand | app.py:166-174 | that question gets the demand block, not the comparison |
| TutorFacts.CostBeatsMarket | app.py:225-240 | a question mentioning both "cost" and "market", and nothing earlier, gets the cost block |
| TutorFacts.ElasticSuffices | app.py:192 | "elastic" alone classifies a question as elasticity, and the "elasticity" test is subsumed by it |
| TutorFacts.ElasticAnswer | app.py:192-202 | such a question gets the elasticity block |
| TutorFacts.ElasticityHoldsElastic | app.py:192 | "elasticity" contains "elastic" |
| TutorFacts.DifferenceYieldsEmpty | app.py:253-254 | a question reaching the "difference" branch never contains "demand", so its inner test fails and the answer is empty |
| TutorFacts.EmptyOnlyForDifference | app.py:159-282 | the answer is empty if and only if the question is classified as "difference" |
| TutorFacts.AnswerNonEmpty | app.py:162-280 | every topic other than "difference" yields a non-empty text, whatever the knowledge base holds |
| TutorFacts.DifferenceQuestionClassified | app.py:253 | the question "difference" reaches the "difference" branch |
| TutorFacts.DifferenceQuestionIsEmpty | app.py:253-254 | the question "difference" gets the empty answer |
| TutorFacts.NoKeywordFallback | app.py:269-280 | a question in which no rule fires gets the fallback text |
| TutorFacts.NoKeywordWithout | app.py:162-253 | a question with none of the keywords' first letters fires no rule |
| TutorFacts.FallbackExamples | app.py:269-280 | the empty question and "xyz123" get the fallback text |
| TutorFacts.RespondIgnoresCase | app.py:156 | two questions equal up to case get the same answer |
| TutorFacts.RespondOfLowered | app.py:156 | lower-casing a question first does not change its answer |
| Dialogue.SimulateDialogue | app.py:284-340 | the script has 13 turns alternating Teacher and Student, starting and ending with the Teacher |
| Dialogue.SpeakersAlternate | app.py:286-339 | the speaker list has 13 entries, with the Teacher on even turns and the Student on odd turns |
| IntendedTutor.ComparisonTextStart | app.py:255 | the comparison opens with "**D" |
| IntendedTutor.ExamTipsTextStart | app.py:243 | the exam tips open with "**E" |
| IntendedTutor.FixedTextsEnd | app.py:267-280 | the comparison ends with "s" and the fallback with "!" |
| IntendedTutor.FixedTextsNotComparison | app.py:163-280 | the greeting, the exam tips and the fallback all differ from the comparison |
| IntendedTutor.TopicTextsStart | app.py:168-236 | each topic block opens with "**" and the initial of its heading, whatever the knowledge base holds |
| IntendedTutor.AnswerNotComparison | app.py:162-280 | no topic other than "difference" yields the comparison |
| IntendedTutor.ComparisonNeverAnswered | app.py:253-267 | as written, no question whatever is answered with the comparison |
| IntendedTutor.IntendedAnswersComparison | app.py:253-267 | the corrected responder answers "difference between demand and supply" with the comparison, where the responder as written gives the demand block |
| IntendedTutor.ComparisonQuestionAsks | app.py:253-254 | "difference between demand and supply" contains "difference", "demand" and "supply" |
| IntendedTutor.IntendedChangesOnlyComparison | app.py:253-267 | the corrected responder gives the comparison exactly for greeting-free questions asking for it, and otherwise agrees with the responder as written |
| IntendedTutor.IntendedEmptyOnlyWithoutComparison | app.py:253-267 | under the corrected order, a question asking for the comparison never gets the empty answer |

## Left out

- The web page is not modelled: the Streamlit layout, CSS, tabs, chat history, session state,
  study notes, the resources tab, timestamps and the simulated typing delay. The responder is
  modelled as the function from a question to its answer.
- Lower-casing and title-casing are ASCII only. Python's `str.lower` and `str.title` also
  change non-ASCII letters. Every keyword and every key in the knowledge base is ASCII, but a
  question with, say, an upper-case non-ASCII letter is lower-cased differently here.
- The responder reads the knowledge base from a module-level constant. Here it is the
  parameter `kb`, and `Economics` holds the app's value. Aliasing and mutation of that dict
  are not modelled, and the app never mutates it.
- Render.DemandFactorsRoundTrip, Render.SupplyFactorsRoundTrip,
  Render.ElasticityTypesRoundTrip and Render.ProductionListsRoundTrip assume that every list
  item is a single line. The app's items are, but this is not proved for the concrete
  knowledge base.
- Dialogue.SimulateDialogue states the number of turns and who speaks each one. The texts are
  carried verbatim, and nothing further is proved about them.
- The dialogue's turns are a datatype with a speaker and a text, not a Python dict with
  "speaker" and "text" keys.

## Findings

| source | as written | input that shows it | evidently intended | confidence | as-written member | corrected member |
|---|---|---|---|---|---|---|
| app.py:253-267 | The "difference" test comes after the "demand" and "supply" tests, so a question that passes its inner test for both words has already taken the demand branch. The comparison block is never returned, and a question that does reach the branch gets "" | "difference between demand and supply" gets the demand block; "difference" gets "" | the comparison block for a question asking for the difference between demand and supply | high (proved over all questions; not executed) | IntendedTutor.ComparisonNeverAnswered | IntendedTutor.IntendedAnswersComparison |

The correction covers only the unreachable comparison. A question that reaches the
"difference" branch without mentioning both "demand" and "supply", such as "difference"
alone, still gets "" from `RespondIntended`, as
`IntendedTutor.IntendedEmptyOnlyWithoutComparison` allows. The code gives no evidence of what
that question was meant to get.

`Respond` and `GetAiResponse` model the code as written. `RespondIntended` tries the
comparison right after the greeting and is otherwise identical. Besides
`IntendedTutor.IntendedAnswersComparison`, `IntendedTutor.IntendedChangesOnlyComparison`
states exactly which answers the correction changes.
