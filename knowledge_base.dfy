/** The tutor's fixed knowledge base: one record per economics topic, built once and
    never changed. A Python dict iterated with `.items()` is kept as a sequence of
    (key, value) pairs, because its declaration order is what gets rendered. */
module KnowledgeBase {

  datatype DemandRecord = DemandRecord(
    definition: string, law: string, factors: seq<string>, types: string)

  datatype SupplyRecord = SupplyRecord(
    definition: string, law: string, factors: seq<string>)

  datatype EquilibriumRecord = EquilibriumRecord(
    definition: string, concept: string, changes: string)

  datatype ElasticityRecord = ElasticityRecord(
    definition: string, types: seq<string>, formula: string, categories: seq<(string, string)>)

  datatype ConsumerBehaviorRecord = ConsumerBehaviorRecord(
    utility: string, marginalUtility: string, lawDiminishing: string, consumerEquilibrium: string)

  datatype ProductionRecord = ProductionRecord(
    definition: string, factors: seq<string>, shortRun: string, longRun: string,
    concepts: seq<string>)

  datatype CostsRecord = CostsRecord(
    fixedCosts: string, variableCosts: string, totalCost: string, marginalCost: string,
    averageCost: string)

  datatype MarketStructure = MarketStructure(characteristics: string, pricing: string)

  /** The shape of the whole knowledge base. */
  datatype Base = Base(
    demand: DemandRecord,
    supply: SupplyRecord,
    equilibrium: EquilibriumRecord,
    elasticity: ElasticityRecord,
    consumerBehavior: ConsumerBehaviorRecord,
    production: ProductionRecord,
    costs: CostsRecord,
    marketStructures: seq<(string, MarketStructure)>)

  const Demand: DemandRecord := DemandRecord(
    "Demand refers to the quantity of a good or service that consumers are willing and able to purchase at various prices during a given period of time.",
    "The Law of Demand states that, other things being equal (ceteris paribus), as the price of a good increases, the quantity demanded decreases, and vice versa.",
    [ "Price of the commodity",
      "Income of the consumer",
      "Prices of related goods (substitutes and complements)",
      "Consumer preferences and tastes",
      "Consumer expectations about future prices",
      "Number of consumers in the market" ],
    "Individual demand (single consumer) and Market demand (all consumers)")

  const Supply: SupplyRecord := SupplyRecord(
    "Supply refers to the quantity of a good or service that producers are willing and able to offer for sale at various prices during a given period of time.",
    "The Law of Supply states that, other things being equal, as the price of a good increases, the quantity supplied increases, and vice versa.",
    [ "Price of the commodity",
      "Prices of inputs/factors of production",
      "Technology",
      "Number of sellers",
      "Government policies (taxes and subsidies)",
      "Expectations about future prices" ])

  const Equilibrium: EquilibriumRecord := EquilibriumRecord(
    "Market equilibrium occurs when the quantity demanded equals the quantity supplied at a particular price, called the equilibrium price.",
    "At equilibrium, there is no tendency for the price to change as the market clears with no excess demand or supply.",
    "Shifts in demand or supply curves will create new equilibrium points with different prices and quantities.")

  /** The elasticity categories in declaration order. */
  const ElasticityCategories: seq<(string, string)> := [
    ("elastic", "When elasticity > 1 (highly responsive)"),
    ("inelastic", "When elasticity < 1 (less responsive)"),
    ("unitary", "When elasticity = 1 (proportionate change)") ]

  const Elasticity: ElasticityRecord := ElasticityRecord(
    "Elasticity measures the responsiveness of quantity demanded or supplied to changes in price or other factors.",
    [ "Price Elasticity of Demand (PED): Responsiveness of quantity demanded to price changes",
      "Income Elasticity of Demand: Responsiveness to income changes",
      "Cross Elasticity of Demand: Responsiveness to changes in prices of related goods",
      "Price Elasticity of Supply: Responsiveness of quantity supplied to price changes" ],
    "Elasticity = (% Change in Quantity) / (% Change in Price)",
    ElasticityCategories)

  const ConsumerBehavior: ConsumerBehaviorRecord := ConsumerBehaviorRecord(
    "Utility is the satisfaction or pleasure derived from consuming a good or service.",
    "The additional satisfaction from consuming one more unit of a good.",
    "Law of Diminishing Marginal Utility: As consumption increases, the additional satisfaction from each additional unit decreases.",
    "A consumer is in equilibrium when they maximize total utility given their budget constraint.")

  const Production: ProductionRecord := ProductionRecord(
    "Production is the process of transforming inputs (factors of production) into outputs (goods and services).",
    ["Land", "Labor", "Capital", "Entrepreneurship"],
    "Period where at least one factor of production is fixed.",
    "Period where all factors of production are variable.",
    [ "Total Product (TP): Total output produced",
      "Marginal Product (MP): Additional output from one more unit of input",
      "Average Product (AP): Output per unit of input" ])

  const Costs: CostsRecord := CostsRecord(
    "Costs that do not vary with output level (e.g., rent, salaries)",
    "Costs that vary directly with output level (e.g., raw materials)",
    "TC = Fixed Cost + Variable Cost",
    "The additional cost of producing one more unit of output",
    "Total cost divided by quantity of output")

  /** The market structures in declaration order. */
  const MarketStructures: seq<(string, MarketStructure)> := [
    ("perfect_competition", MarketStructure(
       "Many buyers and sellers, homogeneous products, free entry/exit, perfect information",
       "Price takers - firms accept market price")),
    ("monopoly", MarketStructure(
       "Single seller, unique product, barriers to entry, price maker",
       "Firm has market power to set prices")),
    ("monopolistic_competition", MarketStructure(
       "Many sellers, differentiated products, relatively free entry/exit",
       "Some control over price due to product differentiation")),
    ("oligopoly", MarketStructure(
       "Few large firms, interdependent decision-making, barriers to entry",
       "Strategic pricing decisions considering rivals' reactions")) ]

  /** The knowledge base, one field per top-level key of the source's dict. */
  const Economics: Base :=
    Base(Demand, Supply, Equilibrium, Elasticity, ConsumerBehavior, Production, Costs, MarketStructures)

  /** A list item fits on one rendered line. */
  predicate SingleLine(s: string) {
    '\n' !in s
  }

  predicate AllSingleLine(items: seq<string>) {
    forall i :: 0 <= i < |items| ==> SingleLine(items[i])
  }
}
