/**
 * The fortune cookie widget: a modal that opens, a cookie that breaks once
 * to reveal one of six fortunes, and a close button that resets everything.
 * `Math.random()` is an input: a real number in [0, 1).
 */
module FortuneCookie {

  const Fortunes: seq<string> := [
    "It's okay if you don't find beauty. It's okay to give up.",
    "You will find luck in unexpected places.",
    "A thrilling time is in your immediate future.",
    "Be gentle with yourself. You're doing your best.",
    "Great things are coming your way.",
    "Someone will appreciate your quiet effort."
  ]

  /** `Math.floor(random * fortunes.length)`. */
  function FortuneIndex(random: real): (i: nat)
    requires 0.0 <= random < 1.0
    ensures i < |Fortunes|
    ensures i as real <= random * |Fortunes| as real < (i + 1) as real
  {
    (random * |Fortunes| as real).Floor as nat
  }

  /** Every fortune is drawn for some random number: the one at `i` for
      `random = i / 6`. */
  lemma EveryFortuneReachable(i: nat)
    requires i < |Fortunes|
    ensures exists random: real :: 0.0 <= random < 1.0 && FortuneIndex(random) == i
  {
    var random := i as real / 6.0;
    assert random * 6.0 == i as real;
    assert FortuneIndex(random) == i;
  }

  /** The widget's state. */
  class FortuneCookie {
    var visible: bool
    var broken: bool
    var fortune: string

    /** A whole cookie shows no fortune; a broken one shows one of the six. */
    ghost predicate Valid()
      reads this
    {
      (broken ==> fortune in Fortunes) && (!broken ==> fortune == "")
    }

    constructor ()
      ensures Valid()
      ensures !visible && !broken && fortune == ""
    {
      visible := false;
      broken := false;
      fortune := "";
    }

    /** The "Open Fortune Cookie" button. */
    method Open()
      requires Valid()
      modifies this
      ensures Valid()
      ensures visible && broken == old(broken) && fortune == old(fortune)
    {
      visible := true;
    }

    /** `handleClick`: the first click breaks the cookie and draws a fortune;
        later clicks do nothing. */
    method HandleClick(random: real)
      requires Valid()
      requires 0.0 <= random < 1.0
      modifies this
      ensures Valid()
      ensures old(broken) ==> broken && fortune == old(fortune) && visible == old(visible)
      ensures !old(broken) ==> broken && fortune == Fortunes[FortuneIndex(random)] && visible == old(visible)
    {
      if !broken {
        broken := true;
        var randomFortune := Fortunes[FortuneIndex(random)];
        fortune := randomFortune;
      }
    }

    /** `reset`, the close button: back to the initial state. */
    method Reset()
      modifies this
      ensures Valid()
      ensures !visible && !broken && fortune == ""
    {
      visible := false;
      broken := false;
      fortune := "";
    }
  }
}
