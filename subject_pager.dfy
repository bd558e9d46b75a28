/** The index rule shared by the three per-subject screens (skill level,
    interests, struggles): Next moves to the following subject or, on the last
    one, leaves the stage forwards; Back moves to the previous subject or, on
    the first one, leaves the stage backwards. */
module SubjectPager {

  datatype Move = MoveTo(index: nat) | Leave

  /** The move made by Next (interests and struggles) or by a skill-level pick
      on the subject at `index` of `count` subjects. */
  function NextMove(index: nat, count: nat): (m: Move)
    requires index < count
    ensures m.MoveTo? <==> index < count - 1
    ensures m.MoveTo? ==> m.index == index + 1 && m.index < count
  {
    if index < count - 1 then MoveTo(index + 1) else Leave
  }

  /** The move made by Back. */
  function BackMove(index: nat): (m: Move)
    ensures m.MoveTo? <==> index > 0
    ensures m.MoveTo? ==> m.index + 1 == index
  {
    if index > 0 then MoveTo(index - 1) else Leave
  }

  /** The number of Next presses that finish the stage from `index`, each
      press taking the move NextMove gives. */
  function PressesToFinish(index: nat, count: nat): nat
    requires index < count
    decreases count - index
  {
    match NextMove(index, count)
    case MoveTo(i) => 1 + PressesToFinish(i, count)
    case Leave => 1
  }

  /** A stage over N subjects, entered at the first one, is finished by
      exactly N presses; from index i by exactly N - i. */
  lemma {:induction false} PressesToFinishIsRemainder(index: nat, count: nat)
    requires index < count
    ensures PressesToFinish(index, count) == count - index
    decreases count - index
  {
    if index < count - 1 {
      PressesToFinishIsRemainder(index + 1, count);
    }
  }
}
