/** The pre-recorded lesson: a fixed exchange between a teacher and a student about demand,
    supply and equilibrium, shown line by line in the dialogue view. */
module Dialogue {

  datatype Speaker = Teacher | Student

  /** One line of the lesson: who says it and what they say. */
  datatype DialogueLine = DialogueLine(speaker: Speaker, text: string)

  /** Who speaks each line of the script, in order. */
  const Speakers: seq<Speaker> := [Teacher, Student, Teacher, Student, Teacher, Student, Teacher, Student, Teacher, Student, Teacher, Student, Teacher]

  /** What is said on line `i` of the script (0-based). */
  function LineText(i: nat): string
    requires i < |Speakers|
  {
    if i == 0 then
      "Welcome to today's lesson on Microeconomics! We'll be covering the fundamentals of demand and supply. Are you ready to begin?"
    else if i == 1 then
      "Yes, I'm ready! Can you explain what demand means in economics?"
    else if i == 2 then
      "Great question! Demand refers to the quantity of a good or service that consumers are willing and able to purchase at various prices during a given time period. The key words here are 'willing' and 'able' - both conditions must be met."
    else if i == 3 then
      "So if I want to buy something but can't afford it, that's not demand?"
    else if i == 4 then
      "Exactly! That would just be a desire, not economic demand. Now, there's an important principle called the Law of Demand. It states that as price increases, quantity demanded decreases, and vice versa, assuming all other factors remain constant."
    else if i == 5 then
      "That makes sense - when things get more expensive, people buy less. What about supply?"
    else if i == 6 then
      "Supply is the opposite side of the market. It's the quantity of a good that producers are willing and able to offer for sale at various prices. The Law of Supply states that as price increases, quantity supplied increases."
    else if i == 7 then
      "So sellers want to sell more when prices are higher because they can make more profit?"
    else if i == 8 then
      "Precisely! Higher prices incentivize producers to supply more. Now, when we bring demand and supply together, we get market equilibrium - the point where quantity demanded equals quantity supplied."
    else if i == 9 then
      "What happens if the market isn't at equilibrium?"
    else if i == 10 then
      "Excellent question! If price is above equilibrium, we get excess supply (surplus). If price is below equilibrium, we get excess demand (shortage). Market forces will push the price toward equilibrium."
    else if i == 11 then
      "This is really helpful! Can we talk about elasticity next time?"
    else
      "Absolutely! Elasticity is crucial for understanding how responsive consumers and producers are to price changes. Keep studying, and you'll do great on your exam!"
  }

  /** The lesson script: thirteen lines, the teacher and the student taking turns, opened
      and closed by the teacher. */
  function SimulateDialogue(): (r: seq<DialogueLine>)
    ensures |r| == 13
    ensures forall i :: 0 <= i < |r| ==> r[i].speaker == if i % 2 == 0 then Teacher else Student
    ensures r[0].speaker == Teacher && r[|r| - 1].speaker == Teacher
  {
    SpeakersAlternate();
    seq(|Speakers|, i requires 0 <= i < |Speakers| => DialogueLine(Speakers[i], LineText(i)))
  }

  /** The teacher speaks the even lines and the student the odd ones. */
  lemma SpeakersAlternate()
    ensures |Speakers| == 13
    ensures forall i :: 0 <= i < |Speakers| ==> Speakers[i] == if i % 2 == 0 then Teacher else Student
  {
  }
}
