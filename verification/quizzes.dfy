/** The `quizzes` collection shared by the quiz creation and listing routes. */
module Quizzes {
  import opened Wrappers

  /** The string form of a quiz document's `_id`. */
  type QuizId = string

  const TrafficSigns: string := "traffic_signs"
  const RulesOfRoad: string := "rules_of_road"

  /** The two categories both routes accept. */
  predicate KnownCategory(c: string) {
    c == TrafficSigns || c == RulesOfRoad
  }

  /** A stored quiz. `imageUrl` is absent on documents written by other means;
      the creation route always stores a string. */
  datatype QuizDoc = QuizDoc(
    id: QuizId,
    question: string,
    options: seq<string>,
    correctAnswerIndex: real,
    explanation: string,
    category: string,
    imageUrl: Option<string>,
    createdAt: int,
    updatedAt: int,
    isActive: bool)
}
