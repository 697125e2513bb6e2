/**
 * The messages that travel over the pipes between the coordinator and the
 * display processes. A pipe direction is a sequence of messages, oldest
 * first; a timed-out poll is an empty sequence.
 */
module Channel {
  import opened Wrappers
  import opened Catalog

  /** The two screen modes, `"splash"` and `"game"`. */
  datatype Mode = Splash | Game

  /**
   * Everything a display or the coordinator may receive: the bare command
   * strings, the tagged tuples `("mode", m)` and `("figures", f)`, a bare
   * list of figures, and any other object.
   */
  datatype Msg =
    | Quit
    | Start
    | Refresh
    | ModeMsg(mode: Mode)
    | FiguresMsg(figures: seq<Figure>)
    | ListMsg(figures: seq<Figure>)
    | Other

  /** A message from which a display of 6LAST takes new figures: tagged or bare. */
  predicate CarriesFigures(m: Msg) {
    m.FiguresMsg? || m.ListMsg?
  }

  /** The mode announced by the latest mode message, if any. */
  function LastMode(msgs: seq<Msg>): Option<Mode> {
    if msgs == [] then None
    else if msgs[|msgs| - 1].ModeMsg? then Some(msgs[|msgs| - 1].mode)
    else LastMode(msgs[..|msgs| - 1])
  }

  /**
   * There is no mode when no message is a mode message; otherwise the mode
   * is that of a mode message with no mode message after it.
   */
  lemma {:induction false} LastModeSpec(msgs: seq<Msg>)
    ensures LastMode(msgs).None? <==> forall i :: 0 <= i < |msgs| ==> !msgs[i].ModeMsg?
    ensures LastMode(msgs).Some? ==>
      exists i :: 0 <= i < |msgs| && msgs[i].ModeMsg? && msgs[i].mode == LastMode(msgs).value
        && forall j :: i < j < |msgs| ==> !msgs[j].ModeMsg?
  {
    if msgs != [] && !msgs[|msgs| - 1].ModeMsg? {
      var init := msgs[..|msgs| - 1];
      LastModeSpec(init);
      assert forall i :: 0 <= i < |init| ==> init[i] == msgs[i];
    }
  }

  /** The figures carried by the latest figures message (tagged or bare), if any. */
  function LastFigures(msgs: seq<Msg>): Option<seq<Figure>> {
    if msgs == [] then None
    else if CarriesFigures(msgs[|msgs| - 1]) then Some(msgs[|msgs| - 1].figures)
    else LastFigures(msgs[..|msgs| - 1])
  }

  /**
   * There are no figures when no message carries figures; otherwise they
   * are those of a figures message with no figures message after it.
   */
  lemma {:induction false} LastFiguresSpec(msgs: seq<Msg>)
    ensures LastFigures(msgs).None? <==> forall i :: 0 <= i < |msgs| ==> !CarriesFigures(msgs[i])
    ensures LastFigures(msgs).Some? ==>
      exists i :: 0 <= i < |msgs| && CarriesFigures(msgs[i]) && msgs[i].figures == LastFigures(msgs).value
        && forall j :: i < j < |msgs| ==> !CarriesFigures(msgs[j])
  {
    if msgs != [] && !CarriesFigures(msgs[|msgs| - 1]) {
      var init := msgs[..|msgs| - 1];
      LastFiguresSpec(init);
      assert forall i :: 0 <= i < |init| ==> init[i] == msgs[i];
    }
  }

  /** The figures of the latest bare list, if any. */
  function LastList(msgs: seq<Msg>): Option<seq<Figure>> {
    if msgs == [] then None
    else if msgs[|msgs| - 1].ListMsg? then Some(msgs[|msgs| - 1].figures)
    else LastList(msgs[..|msgs| - 1])
  }

  /**
   * There is no list when no message is a bare list; otherwise it is a
   * list with no list after it.
   */
  lemma {:induction false} LastListSpec(msgs: seq<Msg>)
    ensures LastList(msgs).None? <==> forall i :: 0 <= i < |msgs| ==> !msgs[i].ListMsg?
    ensures LastList(msgs).Some? ==>
      exists i :: 0 <= i < |msgs| && msgs[i].ListMsg? && msgs[i].figures == LastList(msgs).value
        && forall j :: i < j < |msgs| ==> !msgs[j].ListMsg?
  {
    if msgs != [] && !msgs[|msgs| - 1].ListMsg? {
      var init := msgs[..|msgs| - 1];
      LastListSpec(init);
      assert forall i :: 0 <= i < |init| ==> init[i] == msgs[i];
    }
  }
}
