/**
 * 6_5lastbest.py: the coordinator sends bare figure lists only, at start-up
 * and on every `"refresh"`; an HDMI mirror takes at most one message per
 * frame; the DSI reads its first list at start-up and afterwards only as
 * the reply to its own refresh request.
 */
module BestGame {
  import opened Wrappers
  import opened Catalog
  import opened Generator
  import opened Resolver
  import opened Channel

  /** The last list of `[x] + s` is that of `s`, or `x` itself when `s` holds none. */
  lemma {:induction false} LastListCons(x: Msg, s: seq<Msg>)
    ensures LastList([x] + s) ==
      if LastList(s).Some? then LastList(s)
      else if x.ListMsg? then Some(x.figures)
      else None
  {
    var m := [x] + s;
    if s == [] {
      assert m[..|m| - 1] == [];
    } else {
      var init := s[..|s| - 1];
      assert m[..|m| - 1] == [x] + init;
      assert m[|m| - 1] == s[|s| - 1];
      LastListCons(x, init);
    }
  }

  /** The coordinator: the current figures and the three pipes it writes to. */
  class Coordinator {
    var figures: seq<Figure>
    var toHdmi1: seq<Msg>
    var toHdmi2: seq<Msg>
    var toDsi: seq<Msg>

    /**
     * The figures are a valid decoy pair; the three pipes carry the same
     * messages, every one a list of valid decoys, the last one the figures.
     */
    predicate Valid()
      reads this
    {
      && ValidDecoys(figures)
      && toHdmi1 == toDsi
      && toHdmi2 == toDsi
      && |toDsi| > 0
      && toDsi[|toDsi| - 1] == ListMsg(figures)
      && forall i :: 0 <= i < |toDsi| ==> toDsi[i].ListMsg? && ValidDecoys(toDsi[i].figures)
    }

    /** Start-up: a first decoy pair, sent unchanged to all three pipes. */
    constructor(d: Draws)
      ensures Valid()
      ensures TwoWrong(d) == Some(figures)
      ensures toDsi == [ListMsg(figures)]
    {
      var figs := GenerateTwoWrong(d);
      figures := figs;
      toHdmi1 := [ListMsg(figs)];
      toHdmi2 := [ListMsg(figs)];
      toDsi := [ListMsg(figs)];
    }

    /**
     * One request from the DSI: `"refresh"` draws a new pair and sends it
     * identically to the three pipes; any other message is ignored.
     */
    method Handle(msg: Msg, d: Draws)
      requires Valid()
      modifies this
      ensures Valid()
      ensures msg == Refresh ==> TwoWrong(d) == Some(figures) && toDsi == old(toDsi) + [ListMsg(figures)]
      ensures msg != Refresh ==> figures == old(figures) && toDsi == old(toDsi)
    {
      if msg == Refresh {
        var figs := GenerateTwoWrong(d);
        figures := figs;
        toHdmi1 := toHdmi1 + [ListMsg(figs)];
        toHdmi2 := toHdmi2 + [ListMsg(figs)];
        toDsi := toDsi + [ListMsg(figs)];
      }
    }
  }

  /** The state an HDMI mirror keeps between frames. */
  datatype Mirror = Mirror(running: bool, figures: seq<Figure>)

  /**
   * Mirror start-up, a blocking `recv` of the first message: a closed,
   * empty pipe (EOF) makes the mirror draw its own pair; a list becomes the
   * figures; any other object is not a figure list and the drawing loop
   * fails on it, which is `None`. Returns the state and what is still
   * waiting.
   */
  function MirrorStart(d: Draws, inbox: seq<Msg>): (r: Option<(Mirror, seq<Msg>)>)
    ensures TwoWrong(d).Some?
    ensures inbox == [] ==> r == Some((Mirror(true, TwoWrong(d).value), []))
    ensures inbox != [] ==> (r.Some? <==> inbox[0].ListMsg?)
    ensures inbox != [] && r.Some? ==> r.value == (Mirror(true, inbox[0].figures), inbox[1..])
  {
    TwoWrongValid(d);
    if inbox == [] then Some((Mirror(true, TwoWrong(d).value), []))
    else
      match inbox[0]
      case ListMsg(f) => Some((Mirror(true, f), inbox[1..]))
      case _ => None
  }

  /**
   * One frame of a mirror: at most one waiting message is taken; a list
   * replaces the figures, `"quit"` stops the loop, anything else is dropped.
   */
  function MirrorFrame(v: Mirror, inbox: seq<Msg>): (r: (Mirror, seq<Msg>))
    ensures inbox == [] ==> r == (v, [])
    ensures inbox != [] ==> r.1 == inbox[1..]
    ensures r.0.figures == if inbox != [] && inbox[0].ListMsg? then inbox[0].figures else v.figures
    ensures r.0.running == (v.running && (inbox == [] || inbox[0] != Quit))
  {
    if inbox == [] then (v, [])
    else
      match inbox[0]
      case ListMsg(f) => (v.(figures := f), inbox[1..])
      case Quit => (v.(running := false), inbox[1..])
      case _ => (v, inbox[1..])
  }

  /** Frames run while the mirror runs and messages wait. */
  function MirrorRun(v: Mirror, inbox: seq<Msg>): (Mirror, seq<Msg>)
    decreases |inbox|
  {
    if !v.running || inbox == [] then (v, inbox)
    else
      var next := MirrorFrame(v, inbox);
      MirrorRun(next.0, next.1)
  }

  /**
   * A running mirror with no quit among its waiting messages catches up
   * with all of them and shows the last list it was sent.
   */
  lemma {:induction false} MirrorsCatchUp(v: Mirror, inbox: seq<Msg>)
    requires v.running && Quit !in inbox
    ensures MirrorRun(v, inbox) == (v.(figures := LastList(inbox).GetOr(v.figures)), [])
    decreases |inbox|
  {
    if inbox != [] {
      var next := MirrorFrame(v, inbox);
      assert inbox == [inbox[0]] + inbox[1..];
      assert Quit !in inbox[1..];
      MirrorsCatchUp(next.0, inbox[1..]);
      LastListCons(inbox[0], inbox[1..]);
    }
  }

  /**
   * A running mirror stops at the first `"quit"`, showing the last list
   * before it, and leaves the rest unread.
   */
  lemma {:induction false} MirrorStopsAtQuit(v: Mirror, pre: seq<Msg>, post: seq<Msg>)
    requires v.running && Quit !in pre
    ensures MirrorRun(v, pre + [Quit] + post) == (Mirror(false, LastList(pre).GetOr(v.figures)), post)
    decreases |pre|
  {
    var inbox := pre + [Quit] + post;
    if pre == [] {
      assert inbox == [Quit] + post;
    } else {
      var next := MirrorFrame(v, inbox);
      assert inbox[1..] == pre[1..] + [Quit] + post;
      assert pre == [pre[0]] + pre[1..];
      assert Quit !in pre[1..];
      MirrorStopsAtQuit(next.0, pre[1..], post);
      LastListCons(pre[0], pre[1..]);
    }
  }

  /** The mirror loop, frame by frame, until it stops or has read everything. */
  method CatchUp(v: Mirror, inbox: seq<Msg>) returns (r: Mirror, rest: seq<Msg>)
    ensures (r, rest) == MirrorRun(v, inbox)
    ensures v.running && Quit !in inbox ==> r == v.(figures := LastList(inbox).GetOr(v.figures)) && rest == []
  {
    r, rest := v, inbox;
    while r.running && rest != []
      invariant MirrorRun(r, rest) == MirrorRun(v, inbox)
      decreases |rest|
    {
      var next := MirrorFrame(r, rest);
      r, rest := next.0, next.1;
    }
    if v.running && Quit !in inbox {
      MirrorsCatchUp(v, inbox);
    }
  }

  /**
   * A running mirror that catches up with a prefix of a coordinator's HDMI
   * pipe shows a valid decoy pair, the last one in that prefix.
   */
  lemma MirrorShowsDecoys(c: Coordinator, v: Mirror, k: nat)
    requires c.Valid() && v.running && 0 < k <= |c.toHdmi1|
    ensures MirrorRun(v, c.toHdmi1[..k]) == (v.(figures := c.toHdmi1[k - 1].figures), [])
    ensures ValidDecoys(MirrorRun(v, c.toHdmi1[..k]).0.figures)
  {
    var pre := c.toHdmi1[..k];
    assert pre[k - 1] == c.toHdmi1[k - 1];
    assert Quit !in pre by {
      forall i | 0 <= i < |pre|
        ensures pre[i] != Quit
      {
        assert pre[i] == c.toDsi[i];
      }
    }
    MirrorsCatchUp(v, pre);
  }

  /**
   * A mirror started on a coordinator's HDMI pipe takes its first list, a
   * valid decoy pair, and once it has caught up with the rest it shows the
   * coordinator's current figures.
   */
  lemma MirrorStartFromCoordinator(c: Coordinator, d: Draws)
    requires c.Valid()
    ensures MirrorStart(d, c.toHdmi1).Some?
    ensures MirrorStart(d, c.toHdmi1).value == (Mirror(true, c.toHdmi1[0].figures), c.toHdmi1[1..])
    ensures ValidDecoys(c.toHdmi1[0].figures)
    ensures var start := MirrorStart(d, c.toHdmi1).value;
      MirrorRun(start.0, start.1) == (Mirror(true, c.figures), [])
  {
    var n := |c.toHdmi1|;
    var v := Mirror(true, c.toHdmi1[0].figures);
    assert c.toHdmi1[..n] == c.toHdmi1;
    MirrorShowsDecoys(c, v, n);
  }

  /**
   * A mirror whose first `recv` hits end-of-file shows the pair it draws for
   * itself, which is a valid decoy pair.
   */
  lemma MirrorStartOnEof(d: Draws)
    ensures MirrorStart(d, []).Some?
    ensures MirrorStart(d, []).value.0.running && MirrorStart(d, []).value.1 == []
    ensures ValidDecoys(MirrorStart(d, []).value.0.figures)
  {
    TwoWrongValid(d);
  }

  /** The DSI: the figures it knows and the answer it draws. */
  datatype Primary = Primary(figures: seq<Figure>, correct: Figure)

  /** The answer is the one `compute_correct` gives for the figures held. */
  predicate Consistent(p: Primary) {
    p.correct == ComputeCorrect(p.figures)
  }

  /**
   * DSI start-up: the first message as for a mirror (a list, or the DSI's
   * own pair on EOF, or `None` for an object that is not a list), then the
   * answer for those figures.
   */
  function PrimaryStart(d: Draws, inbox: seq<Msg>): (r: Option<(Primary, seq<Msg>)>)
    ensures TwoWrong(d).Some?
    ensures r.Some? <==> MirrorStart(d, inbox).Some?
    ensures r.Some? ==>
      && Consistent(r.value.0)
      && r.value.0.figures == MirrorStart(d, inbox).value.0.figures
      && r.value.1 == MirrorStart(d, inbox).value.1
  {
    match MirrorStart(d, inbox)
    case None => None
    case Some((v, rest)) => Some((Primary(v.figures, ComputeCorrect(v.figures)), rest))
  }

  /** The DSI after a click, what it sent, and what is still waiting in its pipe. */
  datatype ClickResult = ClickResult(state: Primary, sent: seq<Msg>, inbox: seq<Msg>)

  /**
   * A click on the DSI. In the refresh zone it sends `"refresh"` and takes
   * at most one reply: a list replaces the figures and the answer; any
   * other reply is consumed and changes nothing; an empty pipe (the
   * time-out) changes nothing. Other clicks do nothing.
   */
  function Click(p: Primary, inRefreshZone: bool, inbox: seq<Msg>): (r: ClickResult)
    ensures !inRefreshZone ==> r == ClickResult(p, [], inbox)
    ensures inRefreshZone ==>
      && r.sent == [Refresh]
      && r.inbox == (if inbox == [] then [] else inbox[1..])
      && r.state == if inbox != [] && inbox[0].ListMsg? then Primary(inbox[0].figures, ComputeCorrect(inbox[0].figures)) else p
    ensures Consistent(p) ==> Consistent(r.state)
  {
    if !inRefreshZone then ClickResult(p, [], inbox)
    else if inbox == [] then ClickResult(p, [Refresh], [])
    else
      match inbox[0]
      case ListMsg(f) => ClickResult(Primary(f, ComputeCorrect(f)), [Refresh], inbox[1..])
      case _ => ClickResult(p, [Refresh], inbox[1..])
  }

  /**
   * A refresh answered by the coordinator: the DSI takes the new pair, and
   * its answer is a natural figure whose shape and colour differ from those
   * of both figures the mirrors show.
   */
  lemma RefreshAnswered(c: Coordinator, p: Primary)
    requires c.Valid()
    ensures var r := Click(p, true, [c.toDsi[|c.toDsi| - 1]]);
      && r.state.figures == c.figures
      && Consistent(r.state)
      && r.inbox == []
      && r.state.correct.color == NaturalColor(r.state.correct.shape)
      && forall i :: 0 <= i < |c.figures| ==>
           r.state.correct.shape != c.figures[i].shape && r.state.correct.color != c.figures[i].color
  {
    AnswerAvoidsShown(c.figures);
  }
}
