/**
  The services page FAQ accordion: at most one answer open, held as an
  optional index.
 */
module ServicesFaq {
  import opened Wrappers

  /** The index open after `toggleFAQ(index)` from `open`. */
  function Toggled(open: Option<int>, index: int): Option<int> {
    if open == Some(index) then None else Some(index)
  }

  predicate IsOpen(open: Option<int>, index: int) {
    open == Some(index)
  }

  /** A toggle opens the index if it was closed and closes it if it was
      open, and every other index ends closed; so at most one answer is ever
      open, and opening one closes the previous one. */
  lemma ToggleProperties(open: Option<int>, index: int, other: int)
    ensures IsOpen(Toggled(open, index), index) <==> !IsOpen(open, index)
    ensures other != index ==> !IsOpen(Toggled(open, index), other)
    ensures IsOpen(open, other) && IsOpen(open, index) ==> other == index
  {
  }

  /** Toggling the same index twice restores the state exactly when no
      other answer was open before; otherwise it closes everything. */
  lemma ToggleTwice(open: Option<int>, index: int)
    ensures Toggled(Toggled(open, index), index) == open <==> open == None || open == Some(index)
    ensures open.Some? && open.value != index ==> Toggled(Toggled(open, index), index) == None
  {
  }

  class Accordion {
    var openIndex: Option<int>

    constructor()
      ensures openIndex == None
    {
      openIndex := None;
    }

    /** `toggleFAQ`. */
    method ToggleFaq(index: int)
      modifies this
      ensures openIndex == Toggled(old(openIndex), index)
    {
      if openIndex == Some(index) {
        openIndex := None;
      } else {
        openIndex := Some(index);
      }
    }
  }
}
