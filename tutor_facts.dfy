/** What the tutor promises, stated over `Tutor.Respond`: the greeting takes precedence over
    every topic, the first rule that fires decides, lower-casing makes the answer
    case-blind, every answer is non-empty except the one the "difference" rule produces,
    and a question with no keyword gets the fallback. */
module TutorFacts {
  import opened Text
  import opened KnowledgeBase
  import opened Render
  import opened Tutor

  // ---------------------------------------------------------------------------
  // Deciding containment for concrete strings
  // ---------------------------------------------------------------------------

  /** A keyword whose `j`-th character the text lacks does not occur in the text. */
  lemma MissingChar(s: string, k: string, j: nat)
    requires j < |k| && forall i :: 0 <= i < |s| ==> s[i] != k[j]
    ensures !Contains(s, k)
  {
    forall i: nat | i + |k| <= |s|
      ensures !OccursAt(s, k, i)
    {
      assert s[i..i + |k|][j] == s[i + j];
    }
    ContainsIff(s, k);
  }

  /** None of the first `n` rules fires on a question. */
  predicate NoneOfFirstFires(n: nat, q: string) {
    forall j :: 0 <= j < n && j < |Rules| ==> !Fires(Rules[j], q)
  }

  // ---------------------------------------------------------------------------
  // First match wins
  // ---------------------------------------------------------------------------

  /** The answer is the one of the first rule that fires, whatever later rules would say. */
  lemma RespondByFirstRule(kb: Base, question: string, i: nat)
    requires i < |Rules| && Fires(Rules[i], Lower(question))
    requires forall j :: 0 <= j < i ==> !Fires(Rules[j], Lower(question))
    ensures Respond(kb, question) == Answer(kb, Rules[i].topic, Lower(question))
  {
    FirstMatchIs(Rules, Lower(question), i);
  }

  /** Any of "hello", "hi", "hey" anywhere in the lower-cased question, even inside
      another word, yields the greeting, whatever topic words the question also holds. */
  lemma GreetingWins(kb: Base, question: string)
    requires
      var q := Lower(question);
      Contains(q, "hello") || Contains(q, "hi") || Contains(q, "hey")
    ensures Respond(kb, question) == GreetingText
  {
    var q := Lower(question);
    AnyContainsThree(q, "hello", "hi", "hey");
    ClassifyChain(q);
  }

  /** "this" contains "hi": a question about elasticity is answered with the greeting. */
  lemma GreetingInsideWord(kb: Base)
    ensures Respond(kb, "why is this price elastic?") == GreetingText
  {
    var question := "why is this price elastic?";
    LowerFixesNoUpper(question);
    assert question[8..10] == "hi";
    OccursAtContains(question, "hi", 8);
    GreetingWins(kb, question);
  }

  /** The greeting test sees the lower-cased question, so "hello" in any mix of cases greets. */
  lemma UpperCaseGreeting(kb: Base, question: string, w: string)
    requires Contains(question, w) && Lower(w) == "hello"
    ensures Respond(kb, question) == GreetingText
  {
    ContainsLower(question, w);
    GreetingWins(kb, question);
  }

  /** Without a greeting, "demand" anywhere yields the demand block, even when "supply" or
      "difference" also occur. */
  lemma DemandWins(kb: Base, question: string)
    requires !AnyContains(Lower(question), Greetings)
    requires Contains(Lower(question), "demand")
    ensures Respond(kb, question) == DemandText(kb.demand)
  {
    ClassifyChain(Lower(question));
  }

  /** The question the comparison text was written for. */
  const ComparisonQuestion := "difference between demand and supply"

  lemma ComparisonQuestionFacts()
    ensures Lower(ComparisonQuestion) == ComparisonQuestion
    ensures !AnyContains(ComparisonQuestion, Greetings)
    ensures Contains(ComparisonQuestion, "demand")
  {
    LowerFixesNoUpper(ComparisonQuestion);
    assert ComparisonQuestion[19..25] == "demand";
    OccursAtContains(ComparisonQuestion, "demand", 19);
    MissingChar(ComparisonQuestion, "hello", 0);
    MissingChar(ComparisonQuestion, "hi", 0);
    MissingChar(ComparisonQuestion, "hey", 0);
    AnyContainsThree(ComparisonQuestion, "hello", "hi", "hey");
  }

  /** The comparison question is answered with the demand block, not the comparison. */
  lemma ComparisonQuestionGetsDemand(kb: Base)
    ensures Respond(kb, ComparisonQuestion) == DemandText(kb.demand)
  {
    ComparisonQuestionFacts();
    DemandWins(kb, ComparisonQuestion);
  }

  /** "cost" is tried before the market-structure keywords, so a question about both gets
      the cost block. */
  lemma CostBeatsMarket(kb: Base, question: string)
    requires forall j :: 0 <= j < 7 ==> !Fires(Rules[j], Lower(question))
    requires Contains(Lower(question), "cost") && Contains(Lower(question), "market")
    ensures Respond(kb, question) == CostsText(kb.costs)
  {
    var q := Lower(question);
    RulesFire(q);
    RespondByFirstRule(kb, question, 7);
  }

  /** When no earlier rule fires, "elastic" alone selects the elasticity rule; "elasticity"
      adds nothing, since it contains "elastic". */
  lemma ElasticSuffices(question: string)
    requires forall j :: 0 <= j < 4 ==> !Fires(Rules[j], Lower(question))
    requires Contains(Lower(question), "elastic")
    ensures Classify(Lower(question)) == AboutElasticity
    ensures Contains(Lower(question), "elasticity") ==> Contains(Lower(question), "elastic")
  {
    var q := Lower(question);
    RulesFire(q);
    FirstMatchIs(Rules, q, 4);
    if Contains(q, "elasticity") {
      ElasticityHoldsElastic();
      ContainsTransitive(q, "elasticity", "elastic");
    }
  }

  /** ... and such a question is answered with the elasticity block. */
  lemma ElasticAnswer(kb: Base, question: string)
    requires forall j :: 0 <= j < 4 ==> !Fires(Rules[j], Lower(question))
    requires Contains(Lower(question), "elastic")
    ensures Respond(kb, question) == ElasticityText(kb.elasticity)
  {
    ElasticSuffices(question);
  }

  lemma ElasticityHoldsElastic()
    ensures Contains("elasticity", "elastic")
  {
    assert "elasticity"[0..7] == "elastic";
    OccursAtContains("elasticity", "elastic", 0);
  }

  // ---------------------------------------------------------------------------
  // The "difference" rule and the empty answer
  // ---------------------------------------------------------------------------

  /** Reaching the "difference" rule means "demand" did not occur, so its inner test for
      "demand" and "supply" never holds and the answer is the initial empty string. */
  lemma DifferenceYieldsEmpty(kb: Base, question: string)
    requires Classify(Lower(question)) == Difference
    ensures !Contains(Lower(question), "demand")
    ensures Respond(kb, question) == ""
  {
    ClassifyChain(Lower(question));
  }

  /** The answer is empty exactly when the "difference" rule is the first to fire. */
  lemma EmptyOnlyForDifference(kb: Base, question: string)
    ensures Respond(kb, question) == "" <==> Classify(Lower(question)) == Difference
  {
    var q := Lower(question);
    ClassifyChain(q);
    if Classify(q) == Difference {
      DifferenceYieldsEmpty(kb, question);
    } else {
      AnswerNonEmpty(kb, Classify(q), q);
    }
  }

  /** Every topic but "difference" has a non-empty answer: each starts with a heading. */
  lemma AnswerNonEmpty(kb: Base, t: Topic, q: string)
    requires t != Difference
    ensures |Answer(kb, t, q)| > 0
  {
    match t
    case Fallback =>
      assert FallbackText == FallbackHeading + (Bullets(FallbackTopics)
        + "\nPlease ask a specific question about any of these topics!");
    case _ =>
  }

  /** The one-word question "difference". */
  const DifferenceQuestion := "difference"

  /** The letters of "difference". */
  predicate DifferenceLetter(c: char) {
    c == 'd' || c == 'i' || c == 'f' || c == 'e' || c == 'r' || c == 'n' || c == 'c'
  }

  /** `q` is spelt only with the letters of "difference". */
  predicate DifferenceSpelt(q: string) {
    q == [] || (DifferenceLetter(q[0]) && DifferenceSpelt(q[1..]))
  }

  lemma {:induction false} DifferenceSpeltLacks(q: string, c: char)
    requires DifferenceSpelt(q) && !DifferenceLetter(c)
    ensures forall i :: 0 <= i < |q| ==> q[i] != c
  {
    if q != [] {
      DifferenceSpeltLacks(q[1..], c);
      assert forall i :: 1 <= i < |q| ==> q[i] == q[1..][i - 1];
    }
  }

  /** A keyword with a letter outside "difference" does not occur in a question spelt
      with the letters of "difference". */
  lemma MissesDifferenceLetters(q: string, k: string, j: nat)
    requires DifferenceSpelt(q) && j < |k| && !DifferenceLetter(k[j])
    ensures !Contains(q, k)
  {
    DifferenceSpeltLacks(q, k[j]);
    MissingChar(q, k, j);
  }

  /** A question spelt only with the letters of "difference" holds no keyword of the
      rules before the "difference" rule: each of those keywords has a letter it lacks. */
  lemma EarlyRulesMissDifferenceLetters(q: string)
    requires DifferenceSpelt(q)
    ensures NoneOfFirstFires(10, q)
  {
    RulesFire(q);
    FirstRulesMissDifferenceLetters(q);
    LaterRulesMissDifferenceLetters(q);
  }

  lemma FirstRulesMissDifferenceLetters(q: string)
    requires DifferenceSpelt(q)
    ensures !AnyContains(q, Greetings)
    ensures !Contains(q, "demand") && !Contains(q, "supply")
    ensures !Contains(q, "equilibrium") && !Contains(q, "market clearing")
    ensures !Contains(q, "elasticity") && !Contains(q, "elastic")
  {
    GreetingsMissDifferenceLetters(q);
    MissesDifferenceLetters(q, "demand", 2);
    MissesDifferenceLetters(q, "supply", 0);
    MissesDifferenceLetters(q, "equilibrium", 1);
    MissesDifferenceLetters(q, "market clearing", 0);
    MissesDifferenceLetters(q, "elasticity", 1);
    MissesDifferenceLetters(q, "elastic", 1);
  }

  lemma LaterRulesMissDifferenceLetters(q: string)
    requires DifferenceSpelt(q)
    ensures !AnyContains(q, ["utility", "consumer", "satisfaction"])
    ensures !Contains(q, "production") && !Contains(q, "cost")
    ensures !AnyContains(q, ["market", "competition", "monopoly", "oligopoly"])
    ensures !Contains(q, "exam") && !Contains(q, "tip") && !Contains(q, "prepare")
  {
    ConsumerKeywordsMissDifferenceLetters(q);
    MissesDifferenceLetters(q, "production", 0);
    MissesDifferenceLetters(q, "cost", 1);
    MarketKeywordsMissDifferenceLetters(q);
    MissesDifferenceLetters(q, "exam", 1);
    MissesDifferenceLetters(q, "tip", 0);
    MissesDifferenceLetters(q, "prepare", 0);
  }

  lemma GreetingsMissDifferenceLetters(q: string)
    requires DifferenceSpelt(q)
    ensures !AnyContains(q, Greetings)
  {
    MissesDifferenceLetters(q, "hello", 0);
    MissesDifferenceLetters(q, "hi", 0);
    MissesDifferenceLetters(q, "hey", 0);
    AnyContainsThree(q, "hello", "hi", "hey");
  }

  lemma ConsumerKeywordsMissDifferenceLetters(q: string)
    requires DifferenceSpelt(q)
    ensures !AnyContains(q, ["utility", "consumer", "satisfaction"])
  {
    MissesDifferenceLetters(q, "utility", 0);
    MissesDifferenceLetters(q, "consumer", 1);
    MissesDifferenceLetters(q, "satisfaction", 0);
    AnyContainsThree(q, "utility", "consumer", "satisfaction");
  }

  lemma MarketKeywordsMissDifferenceLetters(q: string)
    requires DifferenceSpelt(q)
    ensures !AnyContains(q, ["market", "competition", "monopoly", "oligopoly"])
  {
    MissesDifferenceLetters(q, "market", 0);
    MissesDifferenceLetters(q, "competition", 1);
    MissesDifferenceLetters(q, "monopoly", 0);
    MissesDifferenceLetters(q, "oligopoly", 0);
    AnyContainsFour(q, "market", "competition", "monopoly", "oligopoly");
  }

  /** A question spelt with the letters of "difference" that contains "difference" reaches
      the "difference" rule. */
  lemma DifferenceSpeltClassified(q: string)
    requires DifferenceSpelt(q) && Contains(q, "difference")
    ensures Classify(q) == Difference
  {
    EarlyRulesMissDifferenceLetters(q);
    AnyContainsOne(q, "difference");
    FirstMatchIs(Rules, q, 10);
  }

  lemma DifferenceQuestionFacts()
    ensures Lower(DifferenceQuestion) == DifferenceQuestion
    ensures DifferenceSpelt(DifferenceQuestion)
    ensures Contains(DifferenceQuestion, "difference")
  {
    LowerFixesNoUpper(DifferenceQuestion);
    assert DifferenceQuestion[0..10] == "difference";
    OccursAtContains(DifferenceQuestion, "difference", 0);
  }

  /** "difference" on its own reaches the "difference" rule. */
  lemma DifferenceQuestionClassified()
    ensures Lower(DifferenceQuestion) == DifferenceQuestion
    ensures Classify(DifferenceQuestion) == Difference
  {
    DifferenceQuestionFacts();
    DifferenceSpeltClassified(DifferenceQuestion);
  }

  /** ... and gets the empty answer. */
  lemma DifferenceQuestionIsEmpty(kb: Base)
    ensures Respond(kb, DifferenceQuestion) == ""
  {
    DifferenceQuestionClassified();
    DifferenceYieldsEmpty(kb, DifferenceQuestion);
  }

  // ---------------------------------------------------------------------------
  // Fallback and case
  // ---------------------------------------------------------------------------

  /** A question in which no rule fires gets the fallback text. */
  lemma NoKeywordFallback(kb: Base, question: string)
    requires NoneOfFirstFires(|Rules|, Lower(question))
    ensures Respond(kb, question) == FallbackText
  {
    assert FirstMatch(Rules, Lower(question)) == |Rules|;
  }

  /** The first letters of the keywords. */
  const KeywordInitials: set<char> := {'h', 'd', 's', 'e', 'm', 'u', 'c', 'p', 'o', 't'}

  /** A question none of whose characters begins a keyword holds no keyword. */
  lemma NoKeywordWithout(q: string)
    requires forall i :: 0 <= i < |q| ==> q[i] !in KeywordInitials
    ensures NoneOfFirstFires(|Rules|, q)
  {
    forall j, i | 0 <= j < |Rules| && 0 <= i < |Rules[j].keywords|
      ensures !Contains(q, Rules[j].keywords[i])
    {
      var w := Rules[j].keywords[i];
      assert w[0] in KeywordInitials;
      MissingChar(q, w, 0);
    }
  }

  /** The empty question and "xyz123" hold no keyword and get the fallback. */
  lemma FallbackExamples(kb: Base)
    ensures Respond(kb, "") == FallbackText
    ensures Respond(kb, "xyz123") == FallbackText
  {
    LowerFixesNoUpper("");
    NoKeywordWithout("");
    NoKeywordFallback(kb, "");
    LowerFixesNoUpper("xyz123");
    NoKeywordWithout("xyz123");
    NoKeywordFallback(kb, "xyz123");
  }

  /** The answer depends on the question only through its lower-cased form. */
  lemma RespondIgnoresCase(kb: Base, a: string, b: string)
    requires Lower(a) == Lower(b)
    ensures Respond(kb, a) == Respond(kb, b)
  {
  }

  /** Lower-casing a question first does not change its answer. */
  lemma RespondOfLowered(kb: Base, question: string)
    ensures Respond(kb, Lower(question)) == Respond(kb, question)
  {
    LowerIdempotent(question);
  }
}
