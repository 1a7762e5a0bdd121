/** A request to Redis or to the database, over a connection that may break. */
module Exchanges {

  /** Carried out and answered, carried out while the answer was lost, or not carried out. */
  datatype Exchange = Completed | AnswerLost | NotDone {
    predicate Done() { !NotDone? }
  }
}
