/**
  The answer card (gemini-quiz-master/components/QuizCard.tsx): the player
  selects an option, submits it to reveal the answer, and moves on with
  "next", which reports whether the selection was the correct one.
 */
module QuizCard {
  import opened QuizTypes

  /** The card's two state cells, `selectedOption` and `isSubmitted`. */
  class Card {
    var selectedOption: Option<int>
    var isSubmitted: bool

    /** Only a selected option can have been submitted. */
    ghost predicate Valid()
      reads this
    {
      isSubmitted ==> selectedOption.Some?
    }

    /** A fresh card: nothing selected, nothing submitted. */
    constructor ()
      ensures selectedOption == None && !isSubmitted
      ensures Valid()
    {
      selectedOption := None;
      isSubmitted := false;
    }

    /** `handleSelect`: choose an option, unless the answer is already submitted. */
    method Select(index: int)
      modifies this`selectedOption
      ensures selectedOption == if old(isSubmitted) then old(selectedOption) else Some(index)
      ensures old(Valid()) ==> Valid()
    {
      if isSubmitted {
        return;
      }
      selectedOption := Some(index);
    }

    /** `handleSubmit`: lock in the current selection; nothing happens without one. */
    method Submit()
      modifies this`isSubmitted
      ensures isSubmitted == (old(isSubmitted) || selectedOption.Some?)
      ensures old(Valid()) ==> Valid()
    {
      if selectedOption == None {
        return;
      }
      isSubmitted := true;
    }

    /** `handleNext`: when an option is selected, report whether it is the
        question's correct one (the card's `onAnswer` call) and reset the card;
        otherwise report nothing and change nothing. */
    method Next(question: Question) returns (answer: Option<bool>)
      modifies this
      ensures old(selectedOption).Some? ==>
        && answer == Some(old(selectedOption).value == question.correctIndex)
        && selectedOption == None && !isSubmitted
      ensures old(selectedOption).None? ==>
        && answer == None
        && selectedOption == old(selectedOption) && isSubmitted == old(isSubmitted)
      ensures old(Valid()) ==> Valid()
    {
      if selectedOption != None {
        answer := Some(selectedOption.value == question.correctIndex);
        selectedOption := None;
        isSubmitted := false;
      } else {
        answer := None;
      }
    }
  }
}
