/**
 * 2displaysOK.py: two processes joined by one duplex pipe. The HDMI
 * process owns the figures: it draws a pair at start-up and sends it, and
 * draws and sends a new pair for every `"refresh"`. The DSI process blocks
 * on the pipe for each pair it needs and shows the answer for it.
 */
module TwoDisplays {
  import opened Wrappers
  import opened Catalog
  import opened Generator
  import opened Resolver
  import opened Channel

  /**
   * Both processes and the two directions of their pipe. Each method is
   * one step of one process; `waiting` holds while the DSI is blocked in
   * `pipe.recv()`.
   */
  class Kiosk {
    var figures: seq<Figure>
    var shown: seq<Figure>
    var correct: Figure
    var waiting: bool
    var toHdmi: seq<Msg>
    var toDsi: seq<seq<Figure>>

    /**
     * The HDMI holds a valid decoy pair and the DSI's answer is the one for
     * the pair it holds. When the DSI is not blocked, the pipe is empty and
     * both show the same pair; when it is blocked, exactly one request or
     * one reply, for the HDMI's current pair, is in flight.
     */
    predicate Valid()
      reads this
    {
      && ValidDecoys(figures)
      && correct == ComputeCorrect(shown)
      && (!waiting ==> toHdmi == [] && toDsi == [] && shown == figures)
      && (waiting ==> (toHdmi == [Refresh] && toDsi == []) || (toHdmi == [] && toDsi == [figures]))
    }

    /**
     * Start-up: the HDMI draws a pair and sends it; the DSI, holding no
     * figures yet, is blocked on its first `recv`.
     */
    constructor(d: Draws)
      ensures Valid()
      ensures TwoWrong(d) == Some(figures)
      ensures waiting && shown == [] && toHdmi == [] && toDsi == [figures]
    {
      var figs := GenerateTwoWrong(d);
      figures := figs;
      shown := [];
      correct := ComputeCorrect([]);
      waiting := true;
      toHdmi := [];
      toDsi := [figs];
    }

    /**
     * One poll of the HDMI: a waiting `"refresh"` makes it draw a new pair
     * and send exactly that pair back; any other command is taken and
     * ignored; an empty pipe changes nothing.
     */
    method HdmiPoll(d: Draws)
      requires Valid()
      modifies this
      ensures Valid()
      ensures shown == old(shown) && correct == old(correct) && waiting == old(waiting)
      ensures old(toHdmi) == [] ==> figures == old(figures) && toHdmi == [] && toDsi == old(toDsi)
      ensures old(toHdmi) != [] && old(toHdmi)[0] == Refresh ==>
        && toHdmi == old(toHdmi)[1..]
        && TwoWrong(d) == Some(figures)
        && toDsi == old(toDsi) + [figures]
      ensures old(toHdmi) != [] && old(toHdmi)[0] != Refresh ==>
        toHdmi == old(toHdmi)[1..] && figures == old(figures) && toDsi == old(toDsi)
    {
      if toHdmi != [] {
        var cmd := toHdmi[0];
        toHdmi := toHdmi[1..];
        if cmd == Refresh {
          var figs := GenerateTwoWrong(d);
          figures := figs;
          toDsi := toDsi + [figs];
        }
      }
    }

    /**
     * A click on the DSI. In the button it sends `"refresh"` and blocks for
     * the reply; a blocked DSI handles no clicks; a click elsewhere does
     * nothing.
     */
    method DsiClick(inButton: bool)
      requires Valid()
      modifies this
      ensures Valid()
      ensures figures == old(figures) && shown == old(shown) && correct == old(correct) && toDsi == old(toDsi)
      ensures !old(waiting) && inButton ==> waiting && toHdmi == old(toHdmi) + [Refresh]
      ensures old(waiting) || !inButton ==> waiting == old(waiting) && toHdmi == old(toHdmi)
    {
      if !waiting && inButton {
        toHdmi := toHdmi + [Refresh];
        waiting := true;
      }
    }

    /**
     * The blocked DSI's `recv` returning: the pair received replaces the
     * DSI's figures and its answer, and the DSI runs again. Without a reply
     * in the pipe it stays blocked.
     */
    method DsiReceive()
      requires Valid()
      modifies this
      ensures Valid()
      ensures figures == old(figures) && toHdmi == old(toHdmi)
      ensures old(waiting) && old(toDsi) != [] ==>
        && !waiting
        && shown == old(toDsi)[0]
        && shown == figures
        && correct == ComputeCorrect(shown)
        && toDsi == old(toDsi)[1..]
      ensures !old(waiting) || old(toDsi) == [] ==>
        waiting == old(waiting) && shown == old(shown) && correct == old(correct) && toDsi == old(toDsi)
    {
      if waiting && toDsi != [] {
        shown := toDsi[0];
        correct := ComputeCorrect(shown);
        toDsi := toDsi[1..];
        waiting := false;
      }
    }
  }

  /**
   * Whenever the DSI is not blocked, it shows a natural figure whose shape
   * and colour differ from those of both figures on the HDMI.
   */
  lemma IdleAnswerAvoidsShown(k: Kiosk)
    requires k.Valid() && !k.waiting
    ensures k.correct.color == NaturalColor(k.correct.shape)
    ensures forall i :: 0 <= i < |k.figures| ==>
      k.correct.shape != k.figures[i].shape && k.correct.color != k.figures[i].color
  {
    AnswerAvoidsShown(k.figures);
  }
}
