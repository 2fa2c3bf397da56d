/**
 * The motivational message of the streak card: one message per two days
 * of streak, capped at the last message of the list.
 */
module StreakCard {

  /** `Math.max(0, Math.min(Math.floor(streak / 2), count - 1))`; `/` on int with a positive divisor floors. */
  function MessageIndex(streak: int, count: nat): (k: int)
    ensures k >= 0
    ensures count > 0 ==> k < count
    ensures k == 0 <==> streak < 2 || count <= 1
  {
    var capped := if streak / 2 < count - 1 then streak / 2 else count - 1;
    if capped < 0 then 0 else capped
  }

  /** The message shown; the list must not be empty, or the lookup falls outside it. */
  function Message<M>(streak: int, messages: seq<M>): (m: M)
    requires |messages| > 0
    ensures m == messages[MessageIndex(streak, |messages|)]
  {
    messages[MessageIndex(streak, |messages|)]
  }

  /** Each two days of streak move one message on, from the first message up to the last. */
  lemma MessageIndexSteps(streak: nat, count: nat)
    requires count > 0
    ensures streak < 2 * (count - 1) ==> MessageIndex(streak, count) == streak / 2
    ensures streak >= 2 * (count - 1) ==> MessageIndex(streak, count) == count - 1
  {
  }

  /** A streak of 0 shows the first message; 10 days with six messages shows the last. */
  lemma MessageExamples<M>(messages: seq<M>)
    requires |messages| == 6
    ensures Message(0, messages) == messages[0]
    ensures Message(1, messages) == messages[0]
    ensures Message(2, messages) == messages[1]
    ensures Message(10, messages) == messages[5]
    ensures Message(100, messages) == messages[5]
  {
  }

  /** A longer streak never shows an earlier message. */
  lemma MessageIndexMonotone(a: int, b: int, count: nat)
    requires a <= b
    ensures MessageIndex(a, count) <= MessageIndex(b, count)
  {
    assert a / 2 <= b / 2;
  }
}
