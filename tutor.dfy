/** The keyword-dispatch tutor: a question is lower-cased, matched against an ordered list
    of keyword rules (the first rule with a keyword occurring in it wins), and the chosen
    topic's knowledge-base record is rendered. `Respond` is the specification, stated over
    the rule table; `GetAiResponse` is the responder as the source writes it, an if/elif
    chain that accumulates the answer with `+=` and `for` loops, and is proved to compute
    `Respond`. */
module Tutor {
  import opened Text
  import opened KnowledgeBase
  import opened Render

  /** What a question can be classified as. */
  datatype Topic =
    | Greeting
    | AboutDemand
    | AboutSupply
    | AboutEquilibrium
    | AboutElasticity
    | AboutConsumerBehavior
    | AboutProduction
    | AboutCosts
    | AboutMarketStructures
    | ExamTips
    | Difference
    | Fallback

  /** A rule fires when any of its keywords occurs in the lower-cased question. */
  datatype Rule = Rule(keywords: seq<string>, topic: Topic)

  const Greetings: seq<string> := ["hello", "hi", "hey"]

  /** The rules in the order the responder tries them. */
  const Rules: seq<Rule> := [
    Rule(Greetings, Greeting),
    Rule(["demand"], AboutDemand),
    Rule(["supply"], AboutSupply),
    Rule(["equilibrium", "market clearing"], AboutEquilibrium),
    Rule(["elasticity", "elastic"], AboutElasticity),
    Rule(["utility", "consumer", "satisfaction"], AboutConsumerBehavior),
    Rule(["production"], AboutProduction),
    Rule(["cost"], AboutCosts),
    Rule(["market", "competition", "monopoly", "oligopoly"], AboutMarketStructures),
    Rule(["exam", "tip", "prepare"], ExamTips),
    Rule(["difference"], Difference)
  ]

  /** Python's `any(word in s for word in words)`. */
  function AnyContains(s: string, words: seq<string>): (r: bool)
    ensures r <==> exists i :: 0 <= i < |words| && Contains(s, words[i])
  {
    if words == [] then false
    else Contains(s, words[0]) || AnyContains(s, words[1..])
  }

  predicate Fires(rule: Rule, q: string) {
    AnyContains(q, rule.keywords)
  }

  /** The index of the first rule that fires, or `|rules|` when none does. */
  function FirstMatch(rules: seq<Rule>, q: string): (k: nat)
    ensures k <= |rules|
    ensures k < |rules| ==> Fires(rules[k], q)
    ensures forall j :: 0 <= j < k ==> !Fires(rules[j], q)
  {
    if rules == [] then 0
    else if Fires(rules[0], q) then 0
    else 1 + FirstMatch(rules[1..], q)
  }

  /** The topic of a lower-cased question. */
  function Classify(q: string): Topic {
    var k := FirstMatch(Rules, q);
    if k < |Rules| then Rules[k].topic else Fallback
  }

  /** The text the responder returns for a topic. The "difference" topic repeats the
      source's inner test for both "demand" and "supply", and yields the empty string set
      at the start of the responder when that test fails. */
  function Answer(kb: Base, t: Topic, q: string): string {
    match t
    case Greeting => GreetingText
    case AboutDemand => DemandText(kb.demand)
    case AboutSupply => SupplyText(kb.supply)
    case AboutEquilibrium => EquilibriumText(kb.equilibrium)
    case AboutElasticity => ElasticityText(kb.elasticity)
    case AboutConsumerBehavior => ConsumerBehaviorText(kb.consumerBehavior)
    case AboutProduction => ProductionText(kb.production)
    case AboutCosts => CostsText(kb.costs)
    case AboutMarketStructures => MarketStructuresText(kb.marketStructures)
    case ExamTips => ExamTipsText
    case Difference => if Contains(q, "demand") && Contains(q, "supply") then ComparisonText else ""
    case Fallback => FallbackText
  }

  /** The tutor's answer to a question, as a function of the question alone. */
  function Respond(kb: Base, question: string): string {
    var q := Lower(question);
    Answer(kb, Classify(q), q)
  }

  // ---------------------------------------------------------------------------
  // The rule table and the source's if/elif chain agree
  // ---------------------------------------------------------------------------

  lemma AnyContainsOne(s: string, a: string)
    ensures AnyContains(s, [a]) == Contains(s, a)
  {
  }

  lemma AnyContainsTwo(s: string, a: string, b: string)
    ensures AnyContains(s, [a, b]) == (Contains(s, a) || Contains(s, b))
  {
    assert [a, b][1..] == [b];
  }

  lemma AnyContainsThree(s: string, a: string, b: string, c: string)
    ensures AnyContains(s, [a, b, c]) == (Contains(s, a) || Contains(s, b) || Contains(s, c))
  {
    assert [a, b, c][1..] == [b, c];
    AnyContainsTwo(s, b, c);
  }

  lemma AnyContainsFour(s: string, a: string, b: string, c: string, d: string)
    ensures AnyContains(s, [a, b, c, d]) ==
      (Contains(s, a) || Contains(s, b) || Contains(s, c) || Contains(s, d))
  {
    assert [a, b, c, d][1..] == [b, c, d];
    AnyContainsThree(s, b, c, d);
  }

  /** What it takes for each rule to fire, written as the source's conditions. */
  lemma RulesFire(q: string)
    ensures |Rules| == 11
    ensures Fires(Rules[0], q) == AnyContains(q, Greetings)
    ensures Fires(Rules[1], q) == Contains(q, "demand")
    ensures Fires(Rules[2], q) == Contains(q, "supply")
    ensures Fires(Rules[3], q) == (Contains(q, "equilibrium") || Contains(q, "market clearing"))
    ensures Fires(Rules[4], q) == (Contains(q, "elasticity") || Contains(q, "elastic"))
    ensures Fires(Rules[5], q) == AnyContains(q, ["utility", "consumer", "satisfaction"])
    ensures Fires(Rules[6], q) == Contains(q, "production")
    ensures Fires(Rules[7], q) == Contains(q, "cost")
    ensures Fires(Rules[8], q) == AnyContains(q, ["market", "competition", "monopoly", "oligopoly"])
    ensures Fires(Rules[9], q) == (Contains(q, "exam") || Contains(q, "tip") || Contains(q, "prepare"))
    ensures Fires(Rules[10], q) == Contains(q, "difference")
  {
    AnyContainsOne(q, "demand");
    AnyContainsOne(q, "supply");
    AnyContainsTwo(q, "equilibrium", "market clearing");
    AnyContainsTwo(q, "elasticity", "elastic");
    AnyContainsOne(q, "production");
    AnyContainsOne(q, "cost");
    AnyContainsThree(q, "exam", "tip", "prepare");
    AnyContainsOne(q, "difference");
  }

  /** The first rule that fires is rule `i` exactly when rule `i` fires and no earlier one does. */
  lemma FirstMatchIs(rules: seq<Rule>, q: string, i: nat)
    requires i < |rules| && Fires(rules[i], q)
    requires forall j :: 0 <= j < i ==> !Fires(rules[j], q)
    ensures FirstMatch(rules, q) == i
  {
  }

  /** The rule table classifies a question exactly as the source's if/elif chain does. */
  lemma ClassifyChain(q: string)
    ensures Classify(q) ==
      if AnyContains(q, Greetings) then Greeting
      else if Contains(q, "demand") then AboutDemand
      else if Contains(q, "supply") then AboutSupply
      else if Contains(q, "equilibrium") || Contains(q, "market clearing") then AboutEquilibrium
      else if Contains(q, "elasticity") || Contains(q, "elastic") then AboutElasticity
      else if AnyContains(q, ["utility", "consumer", "satisfaction"]) then AboutConsumerBehavior
      else if Contains(q, "production") then AboutProduction
      else if Contains(q, "cost") then AboutCosts
      else if AnyContains(q, ["market", "competition", "monopoly", "oligopoly"]) then AboutMarketStructures
      else if Contains(q, "exam") || Contains(q, "tip") || Contains(q, "prepare") then ExamTips
      else if Contains(q, "difference") then Difference
      else Fallback
  {
    RulesFire(q);
    var k := FirstMatch(Rules, q);
    if k < |Rules| {
      assert Fires(Rules[k], q);
    }
  }

  // ---------------------------------------------------------------------------
  // The responder as the source writes it
  // ---------------------------------------------------------------------------

  /** `get_ai_response`: lower-case, try the topics in order, accumulate the answer. The
      branches that loop over a list or a dict are the methods below. */
  method GetAiResponse(kb: Base, question: string) returns (response: string)
    ensures response == Respond(kb, question)
  {
    var q := Lower(question);
    response := "";
    ClassifyChain(q);
    ghost var t := Classify(q);  // each branch below is the rule the table picks

    if AnyContains(q, Greetings) {
      assert t == Greeting;
      response := GreetingText;
      return;
    }

    if Contains(q, "demand") {
      assert t == AboutDemand;
      response := ExplainDemand(kb.demand);
    } else if Contains(q, "supply") {
      assert t == AboutSupply;
      response := ExplainSupply(kb.supply);
    } else if Contains(q, "equilibrium") || Contains(q, "market clearing") {
      assert t == AboutEquilibrium;
      response := ExplainEquilibrium(kb.equilibrium);
    } else if Contains(q, "elasticity") || Contains(q, "elastic") {
      assert t == AboutElasticity;
      response := ExplainElasticity(kb.elasticity);
    } else if AnyContains(q, ["utility", "consumer", "satisfaction"]) {
      assert t == AboutConsumerBehavior;
      response := ExplainConsumerBehavior(kb.consumerBehavior);
    } else if Contains(q, "production") {
      assert t == AboutProduction;
      response := ExplainProduction(kb.production);
    } else if Contains(q, "cost") {
      assert t == AboutCosts;
      response := ExplainCosts(kb.costs);
    } else if AnyContains(q, ["market", "competition", "monopoly", "oligopoly"]) {
      assert t == AboutMarketStructures;
      response := ExplainMarketStructures(kb.marketStructures);
    } else if Contains(q, "exam") || Contains(q, "tip") || Contains(q, "prepare") {
      assert t == ExamTips;
      response := ExamTipsText;
    } else if Contains(q, "difference") {
      assert t == Difference;
      if Contains(q, "demand") && Contains(q, "supply") {
        response := ComparisonText;
      }
    } else {
      assert t == Fallback;
      response := FallbackText;
    }
  }

  /** The equilibrium branch: heading, definition, concept, then how shifts change it. */
  method ExplainEquilibrium(topic: EquilibriumRecord) returns (response: string)
    ensures response == EquilibriumText(topic)
  {
    response := "**Market Equilibrium:**\n\n";
    response := response + (topic.definition + "\n\n");
    response := response + (topic.concept + "\n\n");
    response := response + ("**Important:** " + topic.changes);
  }

  /** The consumer-behaviour branch: the four entries, each under its own label. */
  method ExplainConsumerBehavior(topic: ConsumerBehaviorRecord) returns (response: string)
    ensures response == ConsumerBehaviorText(topic)
  {
    response := "**Consumer Behavior:**\n\n";
    response := response + ("**Utility:** " + topic.utility + "\n\n");
    response := response + ("**Marginal Utility:** " + topic.marginalUtility + "\n\n");
    response := response + ("**" + topic.lawDiminishing + "**\n\n");
    response := response + ("**Consumer Equilibrium:** " + topic.consumerEquilibrium);
  }

  /** The cost branch: the five cost concepts, each under its own label. */
  method ExplainCosts(topic: CostsRecord) returns (response: string)
    ensures response == CostsText(topic)
  {
    response := "**Cost Concepts:**\n\n";
    response := response + ("**Fixed Costs:** " + topic.fixedCosts + "\n\n");
    response := response + ("**Variable Costs:** " + topic.variableCosts + "\n\n");
    response := response + ("**Total Cost:** " + topic.totalCost + "\n\n");
    response := response + ("**Marginal Cost:** " + topic.marginalCost + "\n\n");
    response := response + ("**Average Cost:** " + topic.averageCost);
  }

  /** The demand branch: heading, definition, law, then one bullet per factor, then the types. */
  method ExplainDemand(topic: DemandRecord) returns (response: string)
    ensures response == DemandText(topic)
  {
    response := "**Understanding Demand:**\n\n";
    response := response + (topic.definition + "\n\n");
    response := response + ("**" + topic.law + "**\n\n");
    response := response + "**Factors affecting demand:**\n";
    for i := 0 to |topic.factors|
      invariant response == DemandIntro(topic) + Bullets(topic.factors[..i])
    {
      var factor := topic.factors[i];
      BulletsStep(DemandIntro(topic), topic.factors, i);
      response := response + ("- " + factor + "\n");
    }
    assert topic.factors[..|topic.factors|] == topic.factors;
    response := response + ("\n**Types:** " + topic.types);
  }

  /** The supply branch: heading, definition, law, then one bullet per factor. */
  method ExplainSupply(topic: SupplyRecord) returns (response: string)
    ensures response == SupplyText(topic)
  {
    response := "**Understanding Supply:**\n\n";
    response := response + (topic.definition + "\n\n");
    response := response + ("**" + topic.law + "**\n\n");
    response := response + "**Factors affecting supply:**\n";
    for i := 0 to |topic.factors|
      invariant response == SupplyIntro(topic) + Bullets(topic.factors[..i])
    {
      var factor := topic.factors[i];
      BulletsStep(SupplyIntro(topic), topic.factors, i);
      response := response + ("- " + factor + "\n");
    }
    assert topic.factors[..|topic.factors|] == topic.factors;
  }

  /** The elasticity branch: one bullet per type, then one labelled bullet per category in
      the dict's order. */
  method ExplainElasticity(topic: ElasticityRecord) returns (response: string)
    ensures response == ElasticityText(topic)
  {
    response := "**Elasticity:**\n\n";
    response := response + (topic.definition + "\n\n");
    response := response + ("**Formula:** " + topic.formula + "\n\n");
    response := response + "**Types of Elasticity:**\n";
    for i := 0 to |topic.types|
      invariant response == ElasticityIntro(topic) + Bullets(topic.types[..i])
    {
      var elasType := topic.types[i];
      BulletsStep(ElasticityIntro(topic), topic.types, i);
      response := response + ("- " + elasType + "\n");
    }
    assert topic.types[..|topic.types|] == topic.types;
    response := response + "\n**Categories:**\n";
    ghost var beforeCategories := response;
    for i := 0 to |topic.categories|
      invariant response == beforeCategories + ConcatMap(topic.categories[..i], CategoryLine)
    {
      var (category, description) := topic.categories[i];
      ConcatMapStep(beforeCategories, topic.categories, i, CategoryLine);
      response := response + ("- **" + Title(category) + ":** " + description + "\n");
    }
    assert topic.categories[..|topic.categories|] == topic.categories;
  }

  /** The production branch: the factors, the short and long run, then the key concepts. */
  method ExplainProduction(topic: ProductionRecord) returns (response: string)
    ensures response == ProductionText(topic)
  {
    response := "**Production:**\n\n";
    response := response + (topic.definition + "\n\n");
    response := response + "**Factors of Production:**\n";
    for i := 0 to |topic.factors|
      invariant response == ProductionIntro(topic) + Bullets(topic.factors[..i])
    {
      var factor := topic.factors[i];
      BulletsStep(ProductionIntro(topic), topic.factors, i);
      response := response + ("- " + factor + "\n");
    }
    assert topic.factors[..|topic.factors|] == topic.factors;
    response := response + ("\n**Short Run:** " + topic.shortRun + "\n");
    response := response + ("**Long Run:** " + topic.longRun + "\n\n");
    response := response + "**Key Concepts:**\n";
    ghost var beforeConcepts := response;
    for i := 0 to |topic.concepts|
      invariant response == beforeConcepts + Bullets(topic.concepts[..i])
    {
      var concept := topic.concepts[i];
      BulletsStep(beforeConcepts, topic.concepts, i);
      response := response + ("- " + concept + "\n");
    }
    assert topic.concepts[..|topic.concepts|] == topic.concepts;
  }

  /** The market-structures branch: for each structure in the dict's order, its heading
      (underscores as spaces, title-cased), its characteristics and its pricing. */
  method ExplainMarketStructures(topic: seq<(string, MarketStructure)>) returns (response: string)
    ensures response == MarketStructuresText(topic)
  {
    response := "**Market Structures:**\n\n";
    for i := 0 to |topic|
      invariant response == MarketStructuresHeading + ConcatMap(topic[..i], StructureBlock)
    {
      var (marketType, details) := topic[i];
      StructuresStep(MarketStructuresHeading, topic, i);
      response := response + ("**" + Title(Replace(marketType, '_', ' ')) + ":**\n");
      response := response + ("- Characteristics: " + details.characteristics + "\n");
      response := response + ("- Pricing: " + details.pricing + "\n\n");
    }
    assert topic[..|topic|] == topic;
  }
}
