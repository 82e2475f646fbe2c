/** How the tutor turns a knowledge-base record into its marked-up answer: list fields
    become one "- item" line per element in list order, ordered-dict fields become one
    labelled line (or block) per entry in declaration order, and every topic has a fixed
    field order. `ParseBullets` reads a bulleted list back, and is the inverse that shows
    the rendering keeps every item, in order, and adds none. */
module Render {
  import opened Text
  import opened KnowledgeBase

  // ---------------------------------------------------------------------------
  // Bulleted lists
  // ---------------------------------------------------------------------------

  /** One list element as the loops `response += "- " + item + "\n"` append it. */
  function Bullet(item: string): string {
    "- " + item + "\n"
  }

  function Bullets(items: seq<string>): string {
    ConcatMap(items, Bullet)
  }

  predicate StartsWithBullet(s: string) {
    |s| >= 2 && s[..2] == "- "
  }

  /** Splits off the first line: the text before the first newline, and what follows it. */
  function TakeLine(s: string): (r: (string, string))
    ensures |r.1| <= |s|
    ensures s != [] ==> |r.1| < |s|
  {
    if s == [] then ("", "")
    else if s[0] == '\n' then ("", s[1..])
    else
      var (line, rest) := TakeLine(s[1..]);
      ([s[0]] + line, rest)
  }

  /** Reads the items of a bulleted list at the start of `s`, stopping at the first line
      that is not a bullet. */
  function ParseBullets(s: string): seq<string>
    decreases |s|
  {
    if StartsWithBullet(s) then
      var (item, rest) := TakeLine(s[2..]);
      [item] + ParseBullets(rest)
    else []
  }

  lemma {:induction false} TakeLineOfLine(line: string, rest: string)
    requires SingleLine(line)
    ensures TakeLine(line + "\n" + rest) == (line, rest)
  {
    var s := line + "\n" + rest;
    if line == [] {
      assert s == "\n" + rest;
    } else {
      assert s[0] == line[0] != '\n';
      assert s[1..] == line[1..] + "\n" + rest;
      assert SingleLine(line[1..]) by {
        forall c | c in line[1..] ensures c in line { }
      }
      TakeLineOfLine(line[1..], rest);
      assert [line[0]] + line[1..] == line;
    }
  }

  /** Reading back a rendered list, followed by anything that is not itself a bullet,
      gives exactly the original items in their original order. */
  lemma {:induction false} BulletsRoundTrip(items: seq<string>, tail: string)
    requires AllSingleLine(items)
    requires !StartsWithBullet(tail)
    ensures ParseBullets(Bullets(items) + tail) == items
  {
    if items != [] {
      var s := Bullets(items) + tail;
      var rest := Bullets(items[1..]) + tail;
      assert s == "- " + (items[0] + "\n" + rest);
      assert s[2..] == items[0] + "\n" + rest;
      TakeLineOfLine(items[0], rest);
      assert AllSingleLine(items[1..]);
      BulletsRoundTrip(items[1..], tail);
    }
  }

  /** A rendered list is never mistaken for one with a different number of items. */
  lemma BulletsInjective(a: seq<string>, b: seq<string>)
    requires AllSingleLine(a) && AllSingleLine(b)
    requires Bullets(a) == Bullets(b)
    ensures a == b
  {
    BulletsRoundTrip(a, "");
    BulletsRoundTrip(b, "");
  }

  // ---------------------------------------------------------------------------
  // Ordered-dict fields
  // ---------------------------------------------------------------------------

  /** A bullet whose text starts with a bold label. */
  function LabelledBullet(name: string, text: string): string {
    "- **" + name + ":** " + text + "\n"
  }

  /** An elasticity category as `"- **" + key.title() + ":** " + description + "\n"`. */
  function CategoryLine(entry: (string, string)): string {
    LabelledBullet(Title(entry.0), entry.1)
  }

  /** The text of a category's bullet: its title-cased name in bold, then its description. */
  function CategoryItem(entry: (string, string)): string {
    "**" + Title(entry.0) + ":** " + entry.1
  }

  function CategoryItems(entries: seq<(string, string)>): (r: seq<string>)
    ensures |r| == |entries|
    ensures forall i :: 0 <= i < |entries| ==> r[i] == CategoryItem(entries[i])
  {
    seq(|entries|, i requires 0 <= i < |entries| => CategoryItem(entries[i]))
  }

  /** The category lines are a bulleted list of the labelled categories, in declaration order. */
  lemma {:induction false} CategoriesAreBullets(entries: seq<(string, string)>)
    ensures ConcatMap(entries, CategoryLine) == Bullets(CategoryItems(entries))
  {
    if entries != [] {
      CategoriesAreBullets(entries[1..]);
      assert CategoryItems(entries) == [CategoryItem(entries[0])] + CategoryItems(entries[1..]);
      assert CategoryLine(entries[0]) == Bullet(CategoryItem(entries[0]));
    }
  }

  /** A market structure's heading: the key with underscores as spaces, title-cased. */
  function StructureHeading(key: string): string {
    Title(Replace(key, '_', ' '))
  }

  /** One market structure as the three appends of the loop over `topic.items()`. */
  function StructureBlock(entry: (string, MarketStructure)): string {
    ("**" + StructureHeading(entry.0) + ":**\n")
      + ("- Characteristics: " + entry.1.characteristics + "\n")
      + ("- Pricing: " + entry.1.pricing + "\n\n")
  }

  // ---------------------------------------------------------------------------
  // The topic answers. Each `+ (...)` is one `response += ...` of the source, and each
  // `...Intro` is what has been accumulated when the first list loop starts.
  // ---------------------------------------------------------------------------

  const GreetingText: string :=
    "Hello! I'm your AI Economics tutor. I'm here to help you understand economics concepts. "
    + "Ask me anything about demand, supply, elasticity, consumer behavior, production, costs, "
    + "or market structures!"

  function DemandIntro(t: DemandRecord): string {
    "**Understanding Demand:**\n\n"
      + (t.definition + "\n\n")
      + ("**" + t.law + "**\n\n")
      + "**Factors affecting demand:**\n"
  }

  function DemandText(t: DemandRecord): string {
    DemandIntro(t) + Bullets(t.factors) + ("\n**Types:** " + t.types)
  }

  function SupplyIntro(t: SupplyRecord): string {
    "**Understanding Supply:**\n\n"
      + (t.definition + "\n\n")
      + ("**" + t.law + "**\n\n")
      + "**Factors affecting supply:**\n"
  }

  function SupplyText(t: SupplyRecord): string {
    SupplyIntro(t) + Bullets(t.factors)
  }

  function EquilibriumText(t: EquilibriumRecord): string {
    "**Market Equilibrium:**\n\n"
      + (t.definition + "\n\n")
      + (t.concept + "\n\n")
      + ("**Important:** " + t.changes)
  }

  function ElasticityIntro(t: ElasticityRecord): string {
    "**Elasticity:**\n\n"
      + (t.definition + "\n\n")
      + ("**Formula:** " + t.formula + "\n\n")
      + "**Types of Elasticity:**\n"
  }

  function ElasticityText(t: ElasticityRecord): string {
    ElasticityIntro(t) + Bullets(t.types)
      + "\n**Categories:**\n"
      + ConcatMap(t.categories, CategoryLine)
  }

  function ConsumerBehaviorText(t: ConsumerBehaviorRecord): string {
    "**Consumer Behavior:**\n\n"
      + ("**Utility:** " + t.utility + "\n\n")
      + ("**Marginal Utility:** " + t.marginalUtility + "\n\n")
      + ("**" + t.lawDiminishing + "**\n\n")
      + ("**Consumer Equilibrium:** " + t.consumerEquilibrium)
  }

  function ProductionIntro(t: ProductionRecord): string {
    "**Production:**\n\n"
      + (t.definition + "\n\n")
      + "**Factors of Production:**\n"
  }

  /** What is appended between the production factors and the key concepts. */
  function ProductionMiddle(t: ProductionRecord): string {
    ("\n**Short Run:** " + t.shortRun + "\n")
      + ("**Long Run:** " + t.longRun + "\n\n")
      + "**Key Concepts:**\n"
  }

  function ProductionText(t: ProductionRecord): string {
    ProductionIntro(t) + Bullets(t.factors) + ProductionMiddle(t) + Bullets(t.concepts)
  }

  function CostsText(t: CostsRecord): string {
    "**Cost Concepts:**\n\n"
      + ("**Fixed Costs:** " + t.fixedCosts + "\n\n")
      + ("**Variable Costs:** " + t.variableCosts + "\n\n")
      + ("**Total Cost:** " + t.totalCost + "\n\n")
      + ("**Marginal Cost:** " + t.marginalCost + "\n\n")
      + ("**Average Cost:** " + t.averageCost)
  }

  const MarketStructuresHeading: string := "**Market Structures:**\n\n"

  function MarketStructuresText(structures: seq<(string, MarketStructure)>): string {
    MarketStructuresHeading + ConcatMap(structures, StructureBlock)
  }

  const ExamTipsText: string :=
    "**Exam Preparation Tips:**\n\n"
    + "1. **Understand Core Concepts:** Focus on laws of demand and supply, elasticity, and market equilibrium\n"
    + "2. **Practice Diagrams:** Be able to draw and explain supply-demand curves, shifts, and equilibrium changes\n"
    + "3. **Learn Formulas:** Memorize elasticity formulas and understand how to apply them\n"
    + "4. **Real-World Examples:** Connect concepts to current economic events\n"
    + "5. **Solve Numerical Problems:** Practice calculating elasticity, costs, and equilibrium prices\n"
    + "6. **Key Terms:** Create flashcards for important definitions\n"
    + "7. **Past Papers:** Review previous exam questions to understand patterns"

  /** The demand/supply comparison. The trailing two spaces after "Producer perspective"
      are part of the text. */
  const ComparisonText: string :=
    "**Difference Between Demand and Supply:**\n\n"
    + "**Demand:**\n"
    + "- Consumer perspective\n"
    + "- Inverse relationship with price (Law of Demand)\n"
    + "- Shows buyer's willingness to purchase\n"
    + "- Affected by income, preferences, prices of related goods\n\n"
    + "**Supply:**\n"
    + "- Producer perspective  \n"
    + "- Direct relationship with price (Law of Supply)\n"
    + "- Shows seller's willingness to sell\n"
    + "- Affected by production costs, technology, number of sellers"

  const FallbackTopics: seq<string> := [
    "**Demand and Supply:** Laws, factors, curves",
    "**Market Equilibrium:** Price determination",
    "**Elasticity:** Price, income, and cross elasticity",
    "**Consumer Behavior:** Utility theory",
    "**Production:** Factors, short run vs long run",
    "**Costs:** Fixed, variable, marginal costs",
    "**Market Structures:** Perfect competition, monopoly, oligopoly, monopolistic competition"
  ]

  const FallbackHeading: string :=
    "I'd be happy to help you with economics! I can explain concepts about:\n\n"

  /** The fallback: an invitation, the seven topic lines as a bulleted list, and a request
      for a more specific question. */
  const FallbackText: string :=
    FallbackHeading
    + Bullets(FallbackTopics)
    + "\nPlease ask a specific question about any of these topics!"

  // ---------------------------------------------------------------------------
  // Every listed item is rendered, in order, and nothing else is
  // ---------------------------------------------------------------------------

  /** The demand block's factor list reads back as exactly the record's factors. */
  lemma DemandFactorsRoundTrip(t: DemandRecord)
    requires AllSingleLine(t.factors)
    ensures DemandText(t)[..|DemandIntro(t)|] == DemandIntro(t)
    ensures ParseBullets(DemandText(t)[|DemandIntro(t)|..]) == t.factors
  {
    var tail := "\n**Types:** " + t.types;
    assert DemandText(t)[|DemandIntro(t)|..] == Bullets(t.factors) + tail;
    assert tail[0] == '\n';
    BulletsRoundTrip(t.factors, tail);
  }

  /** The supply block ends with exactly the record's factors, in order. */
  lemma SupplyFactorsRoundTrip(t: SupplyRecord)
    requires AllSingleLine(t.factors)
    ensures SupplyText(t)[..|SupplyIntro(t)|] == SupplyIntro(t)
    ensures ParseBullets(SupplyText(t)[|SupplyIntro(t)|..]) == t.factors
  {
    assert SupplyText(t)[|SupplyIntro(t)|..] == Bullets(t.factors) + "";
    BulletsRoundTrip(t.factors, "");
  }

  /** The elasticity block's list of types reads back as exactly the record's types. */
  lemma ElasticityTypesRoundTrip(t: ElasticityRecord)
    requires AllSingleLine(t.types)
    ensures ElasticityText(t)[..|ElasticityIntro(t)|] == ElasticityIntro(t)
    ensures ParseBullets(ElasticityText(t)[|ElasticityIntro(t)|..]) == t.types
  {
    var tail := "\n**Categories:**\n" + ConcatMap(t.categories, CategoryLine);
    assert ElasticityText(t)[|ElasticityIntro(t)|..] == Bullets(t.types) + tail;
    assert tail[0] == '\n';
    BulletsRoundTrip(t.types, tail);
  }

  /** The production block holds two lists, the factors and then the key concepts; each
      reads back as exactly the record's list. */
  lemma ProductionListsRoundTrip(t: ProductionRecord)
    requires AllSingleLine(t.factors) && AllSingleLine(t.concepts)
    ensures ParseBullets(ProductionText(t)[|ProductionIntro(t)|..]) == t.factors
    ensures
      var conceptsAt := |ProductionIntro(t)| + |Bullets(t.factors)| + |ProductionMiddle(t)|;
      conceptsAt <= |ProductionText(t)| &&
      ParseBullets(ProductionText(t)[conceptsAt..]) == t.concepts
  {
    var text := ProductionText(t);
    var tail := ProductionMiddle(t) + Bullets(t.concepts);
    assert text[|ProductionIntro(t)|..] == Bullets(t.factors) + tail;
    assert tail[0] == ProductionMiddle(t)[0] == '\n';
    BulletsRoundTrip(t.factors, tail);
    var conceptsAt := |ProductionIntro(t)| + |Bullets(t.factors)| + |ProductionMiddle(t)|;
    assert text[conceptsAt..] == Bullets(t.concepts) + "";
    BulletsRoundTrip(t.concepts, "");
  }

  /** One more iteration of a loop `for x in xs: response += f(x)` appends `f(xs[i])` to
      what the loop had accumulated after whatever came before it. */
  lemma ConcatMapStep<T>(before: string, xs: seq<T>, i: nat, f: T -> string)
    requires i < |xs|
    ensures before + ConcatMap(xs[..i + 1], f) == before + ConcatMap(xs[..i], f) + f(xs[i])
  {
    assert xs[..i + 1] == xs[..i] + [xs[i]];
    ConcatMapSnoc(xs[..i], xs[i], f);
  }

  /** One more iteration of a `response += "- " + item + "\n"` loop. */
  lemma BulletsStep(before: string, items: seq<string>, i: nat)
    requires i < |items|
    ensures before + Bullets(items[..i + 1]) == before + Bullets(items[..i]) + ("- " + items[i] + "\n")
  {
    ConcatMapStep(before, items, i, Bullet);
  }

  /** One more iteration of the market-structure loop, whose body appends three parts. */
  lemma StructuresStep(before: string, entries: seq<(string, MarketStructure)>, i: nat)
    requires i < |entries|
    ensures before + ConcatMap(entries[..i + 1], StructureBlock) ==
      before + ConcatMap(entries[..i], StructureBlock)
        + ("**" + Title(Replace(entries[i].0, '_', ' ')) + ":**\n")
        + ("- Characteristics: " + entries[i].1.characteristics + "\n")
        + ("- Pricing: " + entries[i].1.pricing + "\n\n")
  {
    ConcatMapStep(before, entries, i, StructureBlock);
  }

  // ---------------------------------------------------------------------------
  // Facts about the rendering of the fixed knowledge base
  // ---------------------------------------------------------------------------

  /** The elasticity categories render as elastic, inelastic, unitary (their declaration
      order), each as a bullet holding its key title-cased in bold and its description. */
  lemma ElasticityCategoriesInOrder()
    ensures ConcatMap(ElasticityCategories, CategoryLine) ==
      LabelledBullet("Elastic", "When elasticity > 1 (highly responsive)")
      + LabelledBullet("Inelastic", "When elasticity < 1 (less responsive)")
      + LabelledBullet("Unitary", "When elasticity = 1 (proportionate change)")
  {
    var cats := ElasticityCategories;
    CategoryTitles();
    assert cats == [cats[0]] + [cats[1]] + [cats[2]];
    ConcatMapSnoc([cats[0]], cats[1], CategoryLine);
    ConcatMapSnoc([cats[0]] + [cats[1]], cats[2], CategoryLine);
    assert ConcatMap([cats[0]], CategoryLine) == CategoryLine(cats[0]);
  }

  lemma CategoryTitles()
    ensures Title("elastic") == "Elastic"
    ensures Title("inelastic") == "Inelastic"
    ensures Title("unitary") == "Unitary"
  {
    TitleWord("elastic");
    TitleWord("inelastic");
    TitleWord("unitary");
  }

  /** The headings of the four market structures, in declaration order. */
  lemma MarketStructureHeadings()
    ensures |MarketStructures| == 4
    ensures StructureHeading(MarketStructures[0].0) == "Perfect Competition"
    ensures StructureHeading(MarketStructures[1].0) == "Monopoly"
    ensures StructureHeading(MarketStructures[2].0) == "Monopolistic Competition"
    ensures StructureHeading(MarketStructures[3].0) == "Oligopoly"
  {
    PerfectCompetitionHeading();
    MonopolisticCompetitionHeading();
    SingleWordHeadings();
  }

  lemma PerfectCompetitionHeading()
    ensures StructureHeading("perfect_competition") == "Perfect Competition"
  {
    assert StructureHeading("perfect_competition") == "Perfect" + " " + "Competition" by {
      TwoWordHeading("perfect_competition", "perfect", "competition");
      HeadingWordTitles();
    }
    assert "Perfect" + " " + "Competition" == "Perfect Competition";
  }

  lemma MonopolisticCompetitionHeading()
    ensures StructureHeading("monopolistic_competition") == "Monopolistic Competition"
  {
    assert StructureHeading("monopolistic_competition") == "Monopolistic" + " " + "Competition" by {
      TwoWordHeading("monopolistic_competition", "monopolistic", "competition");
      HeadingWordTitles();
    }
    assert "Monopolistic" + " " + "Competition" == "Monopolistic Competition";
  }

  lemma SingleWordHeadings()
    ensures StructureHeading("monopoly") == "Monopoly"
    ensures StructureHeading("oligopoly") == "Oligopoly"
  {
    ReplaceFixes("monopoly", '_', ' ');
    ReplaceFixes("oligopoly", '_', ' ');
    TitleWord("monopoly");
    TitleWord("oligopoly");
  }

  /** A key made of two words joined by an underscore is headed by the two words, each
      title-cased, separated by a space. */
  lemma TwoWordHeading(key: string, a: string, b: string)
    requires key == a + "_" + b && '_' !in a && '_' !in b
    ensures StructureHeading(key) == Title(a) + " " + Title(b)
  {
    ReplaceFixes(a, '_', ' ');
    ReplaceFixes(b, '_', ' ');
    ReplaceAppend(a, "_", '_', ' ');
    ReplaceAppend(a + "_", b, '_', ' ');
    assert Replace("_", '_', ' ') == " ";
    TitleTwoWords(a, b);
  }

  /** The words of the two-word market-structure keys, title-cased. */
  lemma HeadingWordTitles()
    ensures Title("perfect") == "Perfect"
    ensures Title("competition") == "Competition"
    ensures Title("monopolistic") == "Monopolistic"
  {
    TitleWord("perfect");
    TitleWord("competition");
    TitleWord("monopolistic");
  }
}
