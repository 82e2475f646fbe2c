/** The demand/supply comparison as the responder evidently meant it. As written, the
    "difference" test sits after the "demand" and "supply" tests, so any question that could
    satisfy its inner test for both words has already been answered with the demand block:
    the comparison is never returned. `RespondIntended` tries the comparison first and
    otherwise answers as `Respond` does. */
module IntendedTutor {
  import opened Text
  import opened KnowledgeBase
  import opened Render
  import opened Tutor
  import opened TutorFacts

  // ---------------------------------------------------------------------------
  // As written: the comparison is unreachable
  // ---------------------------------------------------------------------------

  /** The comparison opens with "**D". */
  lemma ComparisonTextStart()
    ensures |ComparisonText| > 2 && ComparisonText[..3] == "**D"
  {
    var h := "**Difference Between Demand and Supply:**\n\n";
    assert h[2] == 'D';
    assert h[1] == '*';
    assert h[0] == '*';
  }

  /** The exam tips open with "**E". */
  lemma ExamTipsTextStart()
    ensures |ExamTipsText| > 2 && ExamTipsText[..3] == "**E"
  {
  }

  /** The comparison ends with "sellers", the fallback with an exclamation mark. */
  lemma FixedTextsEnd()
    ensures ComparisonText[|ComparisonText| - 1] == 's'
    ensures FallbackText[|FallbackText| - 1] == '!'
  {
  }

  /** None of the fixed texts other than the comparison is the comparison. */
  lemma FixedTextsNotComparison()
    ensures GreetingText != ComparisonText
    ensures ExamTipsText != ComparisonText
    ensures FallbackText != ComparisonText
  {
    assert |GreetingText| < 200 < |ComparisonText|;
    ComparisonTextStart();
    ExamTipsTextStart();
    FixedTextsEnd();
  }

  /** Each topic block opens with "**" and its heading's initial, for any knowledge base. */
  lemma TopicTextsStart(kb: Base)
    ensures |DemandText(kb.demand)| > 2 && DemandText(kb.demand)[..3] == "**U"
    ensures |SupplyText(kb.supply)| > 2 && SupplyText(kb.supply)[..3] == "**U"
    ensures |EquilibriumText(kb.equilibrium)| > 2 && EquilibriumText(kb.equilibrium)[..3] == "**M"
    ensures |ElasticityText(kb.elasticity)| > 2 && ElasticityText(kb.elasticity)[..3] == "**E"
    ensures |ConsumerBehaviorText(kb.consumerBehavior)| > 2
    ensures ConsumerBehaviorText(kb.consumerBehavior)[..3] == "**C"
    ensures |ProductionText(kb.production)| > 2 && ProductionText(kb.production)[..3] == "**P"
    ensures |CostsText(kb.costs)| > 2 && CostsText(kb.costs)[..3] == "**C"
    ensures |MarketStructuresText(kb.marketStructures)| > 2
    ensures MarketStructuresText(kb.marketStructures)[..3] == "**M"
  {
  }

  /** No answer other than the "difference" one is the comparison. */
  lemma AnswerNotComparison(kb: Base, t: Topic, q: string)
    requires t != Difference
    ensures Answer(kb, t, q) != ComparisonText
  {
    ComparisonTextStart();
    TopicTextsStart(kb);
    FixedTextsNotComparison();
  }

  /** As written, no question whatever is answered with the comparison. */
  lemma ComparisonNeverAnswered(kb: Base, question: string)
    ensures Respond(kb, question) != ComparisonText
  {
    var q := Lower(question);
    if Classify(q) == Difference {
      DifferenceYieldsEmpty(kb, question);
      ComparisonTextStart();
    } else {
      AnswerNotComparison(kb, Classify(q), q);
    }
  }

  // ---------------------------------------------------------------------------
  // As intended
  // ---------------------------------------------------------------------------

  /** A question asking for the difference between demand and supply. */
  predicate AsksComparison(q: string) {
    Contains(q, "difference") && Contains(q, "demand") && Contains(q, "supply")
  }

  /** The responder with the comparison tried right after the greeting. */
  function RespondIntended(kb: Base, question: string): string {
    var q := Lower(question);
    if !AnyContains(q, Greetings) && AsksComparison(q) then ComparisonText
    else Respond(kb, question)
  }

  /** The intended responder answers the comparison question with the comparison, where the
      responder as written gives the demand block. */
  lemma IntendedAnswersComparison(kb: Base)
    ensures RespondIntended(kb, ComparisonQuestion) == ComparisonText
    ensures Respond(kb, ComparisonQuestion) == DemandText(kb.demand)
  {
    ComparisonQuestionFacts();
    ComparisonQuestionAsks();
    ComparisonQuestionGetsDemand(kb);
  }

  lemma ComparisonQuestionAsks()
    ensures AsksComparison(ComparisonQuestion)
  {
    assert ComparisonQuestion[0..10] == "difference";
    OccursAtContains(ComparisonQuestion, "difference", 0);
    assert ComparisonQuestion[19..25] == "demand";
    OccursAtContains(ComparisonQuestion, "demand", 19);
    assert ComparisonQuestion[30..36] == "supply";
    OccursAtContains(ComparisonQuestion, "supply", 30);
  }

  /** The intended responder returns the comparison exactly for greeting-free questions that
      ask for it, and agrees with the responder as written on every other question. */
  lemma IntendedChangesOnlyComparison(kb: Base, question: string)
    ensures var q := Lower(question);
      RespondIntended(kb, question) == ComparisonText <==> !AnyContains(q, Greetings) && AsksComparison(q)
    ensures var q := Lower(question);
      !(!AnyContains(q, Greetings) && AsksComparison(q)) ==> RespondIntended(kb, question) == Respond(kb, question)
  {
    ComparisonNeverAnswered(kb, question);
  }

  /** Under the intended order the "difference" rule yields the empty answer only for a
      question that mentions "difference" but not both "demand" and "supply"; a question
      that asks for the comparison is never answered with nothing. */
  lemma IntendedEmptyOnlyWithoutComparison(kb: Base, question: string)
    ensures RespondIntended(kb, question) == "" ==> !AsksComparison(Lower(question))
  {
    EmptyOnlyForDifference(kb, question);
    if RespondIntended(kb, question) == "" && AsksComparison(Lower(question)) {
      DifferenceYieldsEmpty(kb, question);
    }
  }
}
