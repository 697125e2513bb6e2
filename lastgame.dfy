/**
 * 6LAST.py: a coordinator process (the `__main__` loop) that owns `mode`
 * and `figures` and broadcasts them to three pipes; two HDMI mirrors that
 * drain their pipe every frame; and the DSI primary display, which drains
 * its pipe the same way, keeps the answer `correct`, and turns clicks into
 * `"start"` and `"refresh"` requests.
 */
module LastGame {
  import opened Wrappers
  import opened Catalog
  import opened Generator
  import opened Resolver
  import opened Channel

  /**
   * A display that drains `out` ends up in `mode` showing `figures`, and is
   * not told to quit.
   */
  predicate Tracks(out: seq<Msg>, mode: Mode, figures: seq<Figure>) {
    LastMode(out) == Some(mode) && LastFigures(out) == Some(figures) && Quit !in out
  }

  /** Sending new figures keeps the mode announced and makes them the latest figures. */
  lemma TracksFigures(out: seq<Msg>, mode: Mode, f: seq<Figure>, g: seq<Figure>)
    requires Tracks(out, mode, f)
    ensures Tracks(out + [FiguresMsg(g)], mode, g)
  {
    assert (out + [FiguresMsg(g)])[..|out|] == out;
  }

  /** Sending `("mode", "game")` then the current figures announces game mode. */
  lemma TracksStart(out: seq<Msg>, mode: Mode, f: seq<Figure>)
    requires Tracks(out, mode, f)
    ensures Tracks(out + [ModeMsg(Game), FiguresMsg(f)], Game, f)
  {
    var out' := out + [ModeMsg(Game), FiguresMsg(f)];
    assert out'[..|out'| - 1] == out + [ModeMsg(Game)];
    assert (out + [ModeMsg(Game)])[..|out|] == out;
  }

  /**
   * The coordinator: `mode`, `figures` and the three pipes it writes to, as
   * the sequences of everything it has sent.
   */
  class Coordinator {
    var mode: Mode
    var figures: seq<Figure>
    var toHdmi1: seq<Msg>
    var toHdmi2: seq<Msg>
    var toDsi: seq<Msg>

    /** The figures are a valid decoy pair, the three pipes carry the same messages, and they track the state. */
    predicate Valid()
      reads this
    {
      && ValidDecoys(figures)
      && toHdmi1 == toDsi
      && toHdmi2 == toDsi
      && Tracks(toDsi, mode, figures)
    }

    /** Start-up: splash mode, a first decoy pair, and both announced to all three displays. */
    constructor(d: Draws)
      ensures Valid()
      ensures mode == Splash && TwoWrong(d) == Some(figures)
      ensures toDsi == [ModeMsg(Splash), FiguresMsg(figures)]
    {
      var figs := GenerateTwoWrong(d);
      mode := Splash;
      figures := figs;
      toHdmi1 := [ModeMsg(Splash), FiguresMsg(figs)];
      toHdmi2 := [ModeMsg(Splash), FiguresMsg(figs)];
      toDsi := [ModeMsg(Splash), FiguresMsg(figs)];
      assert [ModeMsg(Splash), FiguresMsg(figs)][..1] == [ModeMsg(Splash)];
    }

    /** Sends each of `msgs` to the three pipes. */
    method Broadcast(msgs: seq<Msg>)
      modifies this
      ensures mode == old(mode) && figures == old(figures)
      ensures toHdmi1 == old(toHdmi1) + msgs
      ensures toHdmi2 == old(toHdmi2) + msgs
      ensures toDsi == old(toDsi) + msgs
    {
      toHdmi1 := toHdmi1 + msgs;
      toHdmi2 := toHdmi2 + msgs;
      toDsi := toDsi + msgs;
    }

    /**
     * One request from the DSI. `"refresh"` draws a new pair and broadcasts
     * it, whatever the mode; `"start"` switches to game mode and broadcasts
     * the mode and the unchanged figures; anything else is ignored. The mode
     * never returns to splash.
     */
    method Handle(msg: Msg, d: Draws)
      requires Valid()
      modifies this
      ensures Valid()
      ensures msg == Refresh ==>
        && mode == old(mode)
        && TwoWrong(d) == Some(figures)
        && toDsi == old(toDsi) + [FiguresMsg(figures)]
      ensures msg == Start ==>
        && mode == Game
        && figures == old(figures)
        && toDsi == old(toDsi) + [ModeMsg(Game), FiguresMsg(figures)]
      ensures msg != Refresh && msg != Start ==>
        mode == old(mode) && figures == old(figures) && toDsi == old(toDsi)
      ensures old(mode) == Game ==> mode == Game
      ensures old(toDsi) <= toDsi
    {
      if msg == Refresh {
        TracksFigures(toDsi, mode, figures, TwoWrong(d).GetOr([]));
        var figs := GenerateTwoWrong(d);
        figures := figs;
        Broadcast([FiguresMsg(figs)]);
      } else if msg == Start {
        TracksStart(toDsi, mode, figures);
        mode := Game;
        Broadcast([ModeMsg(Game), FiguresMsg(figures)]);
      }
    }

    /**
     * The coordinator loop over the requests that arrive, in order; `draws`
     * holds the random outcomes used by each. The mode is game exactly when
     * it was already or a `"start"` arrived; without a `"refresh"` the
     * figures stay; the pipes only grow.
     */
    method Serve(inbox: seq<Msg>, draws: seq<Draws>)
      requires Valid() && |draws| == |inbox|
      modifies this
      ensures Valid()
      ensures mode == Game <==> old(mode) == Game || Start in inbox
      ensures Refresh !in inbox ==> figures == old(figures)
      ensures old(toDsi) <= toDsi
    {
      var i := 0;
      while i < |inbox|
        invariant 0 <= i <= |inbox|
        invariant Valid()
        invariant mode == Game <==> old(mode) == Game || Start in inbox[..i]
        invariant Refresh !in inbox[..i] ==> figures == old(figures)
        invariant old(toDsi) <= toDsi
      {
        Handle(inbox[i], draws[i]);
        assert inbox[..i + 1] == inbox[..i] + [inbox[i]];
        assert Start in inbox[..i + 1] <==> Start in inbox[..i] || inbox[i] == Start;
        assert Refresh in inbox[..i + 1] <==> Refresh in inbox[..i] || inbox[i] == Refresh;
        i := i + 1;
      }
      assert inbox[..i] == inbox;
    }
  }

  /** The state an HDMI mirror keeps between frames. */
  datatype Mirror = Mirror(running: bool, mode: Mode, figures: seq<Figure>)

  /** One message drained by a mirror. */
  function MirrorReceive(v: Mirror, msg: Msg): Mirror {
    match msg
    case Quit => v.(running := false)
    case ModeMsg(m) => v.(mode := m)
    case FiguresMsg(f) => v.(figures := f)
    case ListMsg(f) => v.(figures := f)
    case _ => v
  }

  /** The mirror after receiving `msgs` in order. */
  function MirrorReceived(v: Mirror, msgs: seq<Msg>): Mirror {
    if msgs == [] then v
    else MirrorReceive(MirrorReceived(v, msgs[..|msgs| - 1]), msgs[|msgs| - 1])
  }

  /**
   * Whatever the interleaving of messages, a drained mirror holds the last
   * mode and the last figures it was sent, and stops once it was sent quit.
   */
  lemma {:induction false} MirrorLastWins(v: Mirror, msgs: seq<Msg>)
    ensures var r := MirrorReceived(v, msgs);
      && r.running == (v.running && Quit !in msgs)
      && r.mode == LastMode(msgs).GetOr(v.mode)
      && r.figures == LastFigures(msgs).GetOr(v.figures)
  {
    if msgs != [] {
      var init := msgs[..|msgs| - 1];
      MirrorLastWins(v, init);
      assert msgs == init + [msgs[|msgs| - 1]];
    }
  }

  /** `while conn.poll(): msg = conn.recv() ...` in a mirror. */
  method DrainMirror(v: Mirror, inbox: seq<Msg>) returns (r: Mirror)
    ensures r == MirrorReceived(v, inbox)
    ensures r.running == (v.running && Quit !in inbox)
    ensures r.mode == LastMode(inbox).GetOr(v.mode)
    ensures r.figures == LastFigures(inbox).GetOr(v.figures)
  {
    r := v;
    var i := 0;
    while i < |inbox|
      invariant 0 <= i <= |inbox|
      invariant r == MirrorReceived(v, inbox[..i])
    {
      r := MirrorReceive(r, inbox[i]);
      assert inbox[..i + 1][..i] == inbox[..i];
      i := i + 1;
    }
    assert inbox[..i] == inbox;
    MirrorLastWins(v, inbox);
  }

  /** The DSI display: what it would mirror, and the answer it draws. */
  datatype Primary = Primary(view: Mirror, correct: Figure)

  /** The answer is the one `compute_correct` gives for the figures held. */
  predicate Consistent(p: Primary) {
    p.correct == ComputeCorrect(p.view.figures)
  }

  /** One message drained by the DSI: a mirror's reaction, and new figures bring a new answer. */
  function PrimaryReceive(p: Primary, msg: Msg): Primary {
    Primary(MirrorReceive(p.view, msg), if CarriesFigures(msg) then ComputeCorrect(msg.figures) else p.correct)
  }

  /** The DSI after receiving `msgs` in order. */
  function PrimaryReceived(p: Primary, msgs: seq<Msg>): Primary {
    if msgs == [] then p
    else PrimaryReceive(PrimaryReceived(p, msgs[..|msgs| - 1]), msgs[|msgs| - 1])
  }

  /**
   * The DSI drains like a mirror, its answer is computed from the last
   * figures received, and it stays consistent.
   */
  lemma {:induction false} PrimaryLastWins(p: Primary, msgs: seq<Msg>)
    ensures PrimaryReceived(p, msgs).view == MirrorReceived(p.view, msgs)
    ensures PrimaryReceived(p, msgs).correct ==
      if LastFigures(msgs).Some? then ComputeCorrect(LastFigures(msgs).value) else p.correct
    ensures Consistent(p) ==> Consistent(PrimaryReceived(p, msgs))
  {
    if msgs != [] {
      var init := msgs[..|msgs| - 1];
      PrimaryLastWins(p, init);
      MirrorLastWins(p.view, msgs);
      MirrorLastWins(p.view, init);
    } else {
      MirrorLastWins(p.view, msgs);
    }
  }

  /** `while conn.poll(): msg = conn.recv() ...` in the DSI. */
  method DrainPrimary(p: Primary, inbox: seq<Msg>) returns (r: Primary)
    ensures r == PrimaryReceived(p, inbox)
    ensures r.view == MirrorReceived(p.view, inbox)
    ensures Consistent(p) ==> Consistent(r)
  {
    r := p;
    var i := 0;
    while i < |inbox|
      invariant 0 <= i <= |inbox|
      invariant r == PrimaryReceived(p, inbox[..i])
    {
      r := PrimaryReceive(r, inbox[i]);
      assert inbox[..i + 1][..i] == inbox[..i];
      i := i + 1;
    }
    assert inbox[..i] == inbox;
    PrimaryLastWins(p, inbox);
  }

  /**
   * Draining in pieces, frame after frame, ends where draining everything
   * at once does.
   */
  lemma {:induction false} MirrorReceivedAppend(v: Mirror, a: seq<Msg>, b: seq<Msg>)
    ensures MirrorReceived(v, a + b) == MirrorReceived(MirrorReceived(v, a), b)
  {
    if b == [] {
      assert a + b == a;
    } else {
      var init := b[..|b| - 1];
      MirrorReceivedAppend(v, a, init);
      assert (a + b)[..|a + b| - 1] == a + init;
    }
  }

  /** The DSI, too, ends where it would have had it drained everything at once. */
  lemma {:induction false} PrimaryReceivedAppend(p: Primary, a: seq<Msg>, b: seq<Msg>)
    ensures PrimaryReceived(p, a + b) == PrimaryReceived(PrimaryReceived(p, a), b)
  {
    if b == [] {
      assert a + b == a;
    } else {
      var init := b[..|b| - 1];
      PrimaryReceivedAppend(p, a, init);
      assert (a + b)[..|a + b| - 1] == a + init;
    }
  }

  /**
   * DSI start-up: splash mode and a locally drawn pair, then at most one
   * waiting message, handled as the drain would except that quit is
   * ignored; the answer is computed last. Returns the state and the
   * messages still waiting.
   */
  function PrimaryStart(d: Draws, inbox: seq<Msg>): (r: (Primary, seq<Msg>))
    ensures TwoWrong(d).Some?
    ensures Consistent(r.0) && r.0.view.running
    ensures var figs := TwoWrong(d).value;
      var init := Primary(Mirror(true, Splash, figs), ComputeCorrect(figs));
      if inbox == [] then r == (init, [])
      else r == (if inbox[0] == Quit then init else PrimaryReceive(init, inbox[0]), inbox[1..])
  {
    TwoWrongValid(d);
    var figs := TwoWrong(d).value;
    var v := Mirror(true, Splash, figs);
    if inbox == [] then (Primary(v, ComputeCorrect(v.figures)), [])
    else
      var msg := inbox[0];
      var v' :=
        if CarriesFigures(msg) then v.(figures := msg.figures)
        else if msg.ModeMsg? then v.(mode := msg.mode)
        else v;
      (Primary(v', ComputeCorrect(v'.figures)), inbox[1..])
  }

  /** The DSI after a click, what it sent to the coordinator, and what is still waiting in its pipe. */
  datatype ClickResult = ClickResult(state: Primary, sent: seq<Msg>, inbox: seq<Msg>)

  /**
   * A click on the DSI. In splash mode it sends `"start"` and switches to
   * game mode at once. In game mode a click in the refresh zone sends
   * `"refresh"` and takes at most one reply: a figures reply replaces the
   * figures and the answer, any other reply is consumed and dropped, and an
   * empty pipe (the time-out) changes nothing. Other clicks do nothing.
   */
  function Click(p: Primary, inRefreshZone: bool, inbox: seq<Msg>): (r: ClickResult)
    ensures p.view.mode == Splash ==>
      r == ClickResult(p.(view := p.view.(mode := Game)), [Start], inbox)
    ensures p.view.mode == Game && !inRefreshZone ==> r == ClickResult(p, [], inbox)
    ensures p.view.mode == Game && inRefreshZone ==>
      && r.sent == [Refresh]
      && r.inbox == (if inbox == [] then [] else inbox[1..])
      && r.state.view.running == p.view.running
      && r.state.view.mode == Game
      && r.state ==
           if inbox != [] && CarriesFigures(inbox[0])
           then Primary(p.view.(figures := inbox[0].figures), ComputeCorrect(inbox[0].figures))
           else p
    ensures Consistent(p) ==> Consistent(r.state)
  {
    if p.view.mode == Splash then
      ClickResult(p.(view := p.view.(mode := Game)), [Start], inbox)
    else if !inRefreshZone then
      ClickResult(p, [], inbox)
    else if inbox == [] then
      ClickResult(p, [Refresh], [])
    else
      var msg := inbox[0];
      var q := if CarriesFigures(msg) then Primary(p.view.(figures := msg.figures), ComputeCorrect(msg.figures)) else p;
      ClickResult(q, [Refresh], inbox[1..])
  }

  /** A mode set locally is overwritten by any later mode message. */
  lemma LocalModeOverwritten(p: Primary, m: Mode, msgs: seq<Msg>)
    requires LastMode(msgs).Some?
    ensures PrimaryReceived(p.(view := p.view.(mode := m)), msgs) == PrimaryReceived(p, msgs)
  {
    PrimaryLastWins(p, msgs);
    PrimaryLastWins(p.(view := p.view.(mode := m)), msgs);
    MirrorLastWins(p.view, msgs);
    MirrorLastWins(p.view.(mode := m), msgs);
  }

  /**
   * The optimistic switch to game mode on a splash click makes no
   * difference once the coordinator's answer to `"start"` is drained, and
   * the DSI then is in game mode.
   */
  lemma StartReconciles(p: Primary, inRefreshZone: bool, pending: seq<Msg>, f: seq<Figure>)
    requires p.view.mode == Splash
    ensures var c := Click(p, inRefreshZone, pending);
      var reply := [ModeMsg(Game), FiguresMsg(f)];
      && c.sent == [Start]
      && PrimaryReceived(c.state, c.inbox + reply) == PrimaryReceived(p, pending + reply)
      && PrimaryReceived(p, pending + reply).view.mode == Game
  {
    var msgs := pending + [ModeMsg(Game), FiguresMsg(f)];
    assert msgs[..|msgs| - 1] == pending + [ModeMsg(Game)];
    assert LastMode(msgs) == Some(Game);
    LocalModeOverwritten(p, Game, msgs);
    PrimaryLastWins(p, msgs);
    MirrorLastWins(p.view, msgs);
  }

  /** Receiving the same messages a second time leaves the DSI, and so what it draws, unchanged. */
  lemma RedeliveryIdempotent(p: Primary, msgs: seq<Msg>)
    ensures PrimaryReceived(PrimaryReceived(p, msgs), msgs) == PrimaryReceived(p, msgs)
  {
    var q := PrimaryReceived(p, msgs);
    PrimaryLastWins(p, msgs);
    PrimaryLastWins(q, msgs);
    MirrorLastWins(p.view, msgs);
    MirrorLastWins(q.view, msgs);
  }

  /** Draining an outbox that tracks a mode and figures leaves every display showing exactly those. */
  lemma DisplaysConverge(out: seq<Msg>, mode: Mode, figures: seq<Figure>, v: Mirror, p: Primary)
    requires Tracks(out, mode, figures)
    ensures MirrorReceived(v, out) == Mirror(v.running, mode, figures)
    ensures PrimaryReceived(p, out) == Primary(Mirror(p.view.running, mode, figures), ComputeCorrect(figures))
  {
    MirrorLastWins(v, out);
    MirrorLastWins(p.view, out);
    PrimaryLastWins(p, out);
  }

  /**
   * Whatever part of its pipe each display drained in earlier frames, once
   * it drains the rest the mirrors show the coordinator's figures in its
   * mode, and the DSI shows in that mode a natural figure whose shape and
   * colour differ from those of both figures.
   */
  lemma ScreensAgree(c: Coordinator, v1: Mirror, v2: Mirror, p: Primary, k1: nat, k2: nat, k3: nat)
    requires c.Valid() && k1 <= |c.toHdmi1| && k2 <= |c.toHdmi2| && k3 <= |c.toDsi|
    ensures MirrorReceived(MirrorReceived(v1, c.toHdmi1[..k1]), c.toHdmi1[k1..]) == Mirror(v1.running, c.mode, c.figures)
    ensures MirrorReceived(MirrorReceived(v2, c.toHdmi2[..k2]), c.toHdmi2[k2..]) == Mirror(v2.running, c.mode, c.figures)
    ensures var q := PrimaryReceived(PrimaryReceived(p, c.toDsi[..k3]), c.toDsi[k3..]);
      && q == Primary(Mirror(p.view.running, c.mode, c.figures), ComputeCorrect(c.figures))
      && q.correct.color == NaturalColor(q.correct.shape)
      && forall i :: 0 <= i < |c.figures| ==>
           q.correct.shape != c.figures[i].shape && q.correct.color != c.figures[i].color
  {
    assert c.toHdmi1[..k1] + c.toHdmi1[k1..] == c.toHdmi1;
    assert c.toHdmi2[..k2] + c.toHdmi2[k2..] == c.toHdmi2;
    assert c.toDsi[..k3] + c.toDsi[k3..] == c.toDsi;
    MirrorReceivedAppend(v1, c.toHdmi1[..k1], c.toHdmi1[k1..]);
    MirrorReceivedAppend(v2, c.toHdmi2[..k2], c.toHdmi2[k2..]);
    PrimaryReceivedAppend(p, c.toDsi[..k3], c.toDsi[k3..]);
    DisplaysConverge(c.toDsi, c.mode, c.figures, v1, p);
    DisplaysConverge(c.toDsi, c.mode, c.figures, v2, p);
    AnswerAvoidsShown(c.figures);
  }
}
