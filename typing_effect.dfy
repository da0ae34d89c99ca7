/**
 * The typing animation: a timer reveals the text one character per tick. The clock is
 * left out; each timer firing is a call to `Tick`.
 */
module TypingEffect {

  const DefaultSpeed := 60

  class Typer {
    var text: string
    /** Milliseconds between ticks. */
    var speed: int
    var displayed: string
    var index: nat

    /** What is shown is the first `index` characters of the text. */
    ghost predicate InSync()
      reads this
    {
      index <= |text| && displayed == text[..index]
    }

    /** The timer is armed: characters remain to be revealed. */
    predicate Pending()
      reads this
    {
      index < |text|
    }

    constructor(text: string, speed: int)
      ensures InSync()
      ensures this.text == text && this.speed == speed && displayed == "" && index == 0
    {
      this.text := text;
      this.speed := speed;
      displayed := "";
      index := 0;
    }

    /**
     * One timer firing: while characters remain, the next one is appended and the index
     * moves on by one; afterwards no timer is armed and nothing changes.
     */
    method Tick()
      modifies this`displayed, this`index
      ensures old(Pending()) ==> displayed == old(displayed) + [text[old(index)]] && index == old(index) + 1
      ensures !old(Pending()) ==> displayed == old(displayed) && index == old(index)
      ensures old(InSync()) ==> InSync()
    {
      if index < |text| {
        displayed := displayed + [text[index]];
        index := index + 1;
      }
    }

    /** A new `text` prop: neither the index nor the shown text is reset. */
    method SetText(t: string)
      modifies this`text
      ensures text == t && displayed == old(displayed) && index == old(index)
    {
      text := t;
    }

    /**
     * The chain of timer firings while the text stays fixed: it stops exactly when the
     * whole text is shown.
     */
    method RunToEnd()
      requires InSync()
      modifies this`displayed, this`index
      ensures InSync() && !Pending()
      ensures index == |text| && displayed == text
    {
      while index < |text|
        invariant InSync()
        decreases |text| - index
      {
        Tick();
      }
    }
  }

  /**
   * Changing the text half-way mixes the two: after one character of "ab", the text
   * becomes "xy" and the next tick shows "ay", a prefix of neither.
   */
  method TextChangeMixesOutput()
  {
    var t := new Typer("ab", DefaultSpeed);
    t.Tick();
    assert t.displayed == "a";
    t.SetText("xy");
    t.Tick();
    assert t.displayed == "ay" && t.index == 2;
    assert t.text[..t.index] == "xy" != t.displayed;
    assert !t.InSync();
    t.Tick();
    assert t.displayed == "ay";
  }
}
