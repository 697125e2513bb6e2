# Figure game: a verified model of the round logic

The program is a three-screen kiosk game. Two "wrong" figures appear on the
HDMI screens. Each is a shape painted in a colour that belongs to another
shape. The DSI touch screen shows the "correct" figure: a shape that is on
neither HDMI screen, painted in its own natural colour. Touching the DSI
screen starts the game or asks for a new round. Three revisions of the
program share the same round logic but wire the processes differently:

- `6LAST.py`: a coordinator process owns the screen mode (splash or game)
  and the figures. It broadcasts tagged messages to two HDMI mirrors and to
  the DSI.
- `6_5lastbest.py`: the coordinator sends bare figure lists only. The
  mirrors take one message per frame. The DSI reads its first list at
  start-up, and afterwards only as the reply to its own refresh request.
- `2displaysOK.py`: one HDMI process owns the figures and answers the DSI's
  refresh requests over a single pipe.

The project has these modules:

- `Catalog`: the five shapes in `FIGURE_ORDER` and their natural colours.
- `Generator`: `generate_two_wrong`, with its random choices supplied as
  raw draws.
- `Resolver`: `compute_correct`, the three-tier search for the answer.
- `Channel`: pipe messages, and "the latest message of a kind".
- `LastGame`, `BestGame`, `TwoDisplays`: the process logic of the three
  revisions.

A pipe direction is a sequence of messages, oldest first. A poll that times
out is an empty sequence. Random choices are supplied by the caller, so the
model says which outcomes are possible, not how likely they are:

- `random.sample(FIGURE_ORDER, 2)` becomes a first index and an offset of
  1 to 4.
- `random.choice(available)` becomes an index taken modulo the length of
  `available`.

Each revision defines `generate_two_wrong`, `compute_correct` and the
catalogue identically, colour normalisation aside. Each has one model, and
the table cites the revision whose property a member states.

## Model

| member | source | states |
|---|---|---|
| Catalog.CatalogueWellFormed | 6LAST.py:16-24 | there are five pairwise distinct shapes in the order circle, hexagon, triangle, cross, square; every shape is listed; the five natural colours are pairwise distinct and listed in the same order |
| Catalog.Rank | 6LAST.py:23 | every shape has a position in FIGURE_ORDER, and the entry at that position is the shape |
| Generator.SampleTwo | 6LAST.py:62 | the sample is two distinct shapes |
| Generator.SampleReaches | 6LAST.py:62 | every ordered pair of distinct shapes is a possible sample |
| Generator.WrongColors | 6LAST.py:67 | `wrong_colors`: the given colours other than the shape's natural one, in the given order (its members: `Generator.WrongColorsMembers`) |
| Generator.Untaken | 6LAST.py:68 | `available`: the given colours not among those already used, in order (its members: `Generator.UntakenMembers`) |
| Generator.WrongColorsMembers | 6LAST.py:67 | `wrong_colors` holds exactly the given colours other than the natural one |
| Generator.UntakenMembers | 6LAST.py:68 | `available` holds exactly the given colours not yet used |
| Generator.AvailableMembers | 6LAST.py:66-68 | the candidates for a shape are exactly the catalogue colours that are neither its natural colour nor already used |
| Generator.AvailableCount | 2displaysOK.py:78-81 | at least 4 - (colours used) candidates remain: 4 for the first figure, 3 for the second |
| Generator.Assign | 6LAST.py:65-71 | the `for sh in shapes` loop: each shape in turn gets the candidate its draw selects modulo the number of candidates, that colour joins the used set, and an empty candidate list fails as `random.choice` does (soundness: `Generator.AssignSound`) |
| Generator.AssignSucceeds | 6LAST.py:67-69 | while at most four colours are used or still to be handed out, random.choice is never given an empty list |
| Generator.AssignSound | 6LAST.py:65-71 | the loop yields one figure per sampled shape, in order; each has a catalogue colour that is not its natural colour and was not used before; no two share a colour |
| Generator.GenerateTwoWrong | 6LAST.py:61-72 | the loop returns the outcome of the draws, which is a valid decoy pair |
| Generator.TwoWrong | 6LAST.py:61-72 | `generate_two_wrong` as a value: sample two shapes, then colour them with `Assign` from an empty used set (soundness `Generator.TwoWrongValid`, completeness `Generator.TwoWrongComplete`) |
| Generator.TwoWrongValid | 6_5lastbest.py:73-87 | every draw gives two figures with distinct shapes, non-natural catalogue colours, and distinct colours |
| Generator.ChoiceReaches | 6LAST.py:69 | every candidate colour can be chosen |
| Generator.AssignReaches | 6LAST.py:65-71 | every admissible colouring of the sampled shapes is produced by some draws |
| Generator.TwoWrongComplete | 2displaysOK.py:64-86 | every valid decoy pair is a possible outcome, so validity fully describes what the function can return |
| Resolver.Search | 6LAST.py:188-194 | a loop over FIGURE_ORDER from position k returns the first shape passing its test, or nothing if no shape from k on passes |
| Resolver.UsedShapes | 6LAST.py:186 | `used_shapes`: the set of the shown figures' shapes (used by the tier lemmas) |
| Resolver.UsedColors | 6LAST.py:187 | `used_colors`: the set of the shown figures' colours (used by the tier lemmas) |
| Resolver.SearchFindsFirst | 6LAST.py:188-194 | from the start, the search returns the eligible shape of least rank, and returns nothing exactly when no shape is eligible |
| Resolver.ComputeCorrect | 6_5lastbest.py:173-186 | the answer always wears its own shape's natural colour |
| Resolver.ComputeCorrectTiers | 6LAST.py:185-195 | the answer's shape is the first in FIGURE_ORDER that is neither shown nor naturally coloured like a shown figure; failing that, the first not shown; failing that, circle |
| Resolver.FirstTierSucceeds | 2displaysOK.py:155-161 | for at most two shown figures the first loop always succeeds, so the fallbacks marked unlikely are unreachable |
| Resolver.AnswerAvoidsShown | 6LAST.py:185-191 | for at most two shown figures the answer's shape and colour differ from those of every shown figure |
| Resolver.AnswerAvoidsDecoys | 6LAST.py:185-191 | for every outcome of generate_two_wrong the answer is a natural figure whose shape and colour differ from both decoys' |
| Resolver.RedCircleOrangeSquare | 6LAST.py:188-191 | a red circle and an orange square give the purple hexagon |
| Channel.LastMode | 6LAST.py:107-108 | the mode of the latest mode message, read from the end (characterised by `Channel.LastModeSpec`) |
| Channel.LastModeSpec | 6LAST.py:107-108 | result is the mode of a mode message with no mode message after it, or none exactly when no message is a mode message |
| Channel.LastFigures | 6LAST.py:109-113 | the figures of the latest tagged or bare figures message, read from the end (characterised by `Channel.LastFiguresSpec`) |
| Channel.LastFiguresSpec | 6LAST.py:109-113 | result is the figures of a tagged or bare figures message with none after it, or none exactly when no message carries figures |
| Channel.LastList | 6_5lastbest.py:120-121 | the figures of the latest bare list, read from the end (characterised by `Channel.LastListSpec`) |
| Channel.LastListSpec | 6_5lastbest.py:120-121 | result is the figures of a bare list with no list after it, or none exactly when no message is a list |
| LastGame.TracksFigures | 6LAST.py:341-346 | broadcasting new figures keeps the announced mode and makes them the figures a drained display shows |
| LastGame.TracksStart | 6LAST.py:351-359 | broadcasting the game mode and the current figures makes game mode and those figures what a drained display shows |
| LastGame.Coordinator.Broadcast | 6LAST.py:343-359 | the same messages are appended to all three pipes, and mode and figures are untouched |
| LastGame.Coordinator.constructor | 6LAST.py:315-333 | start-up is in splash mode with a generated decoy pair; each of the three pipes gets the splash mode, then the figures |
| LastGame.Coordinator.Handle | 6LAST.py:338-362 | refresh regenerates and broadcasts the figures in either mode; start sets game mode and broadcasts the mode, then the unchanged figures; other messages change nothing; game mode is never left; the three pipes stay equal and tracking |
| LastGame.Coordinator.Serve | 6LAST.py:336-363 | after a run of requests, the mode is game exactly when it already was or a start arrived; without a refresh the figures are unchanged; the pipes only grow |
| LastGame.MirrorReceive | 6LAST.py:105-113 | one drained message: quit stops the mirror, a mode message sets the mode, a tagged or bare figures message sets the figures, anything else is ignored (closed form: `LastGame.MirrorLastWins`) |
| LastGame.MirrorReceived | 6LAST.py:101-113 | the mirror after the drain loop has received the messages in order (closed form: `LastGame.MirrorLastWins`) |
| LastGame.MirrorLastWins | 6LAST.py:101-113 | after a drain a mirror holds the last mode and the last figures it was sent, and it runs exactly when it was running and was not sent quit |
| LastGame.DrainMirror | 6LAST.py:101-113 | the drain loop ends in the last mode and figures received, stopping only on quit |
| LastGame.MirrorReceivedAppend | 6LAST.py:93-113 | draining a pipe in pieces, one piece per frame, ends in the same mirror state as draining it all at once |
| LastGame.PrimaryReceive | 6LAST.py:247-256 | one message drained by the DSI: the mirror's reaction, and a figures message also recomputes the answer (closed form: `LastGame.PrimaryLastWins`) |
| LastGame.PrimaryReceived | 6LAST.py:245-256 | the DSI after the drain loop has received the messages in order (closed form: `LastGame.PrimaryLastWins`) |
| LastGame.PrimaryLastWins | 6LAST.py:245-256 | the DSI drains like a mirror; its answer is recomputed from the last figures received; correct == compute_correct(figures) is preserved |
| LastGame.DrainPrimary | 6LAST.py:245-256 | the DSI drain loop ends as a mirror's would, with the answer still consistent with its figures |
| LastGame.PrimaryReceivedAppend | 6LAST.py:245-256 | draining the DSI pipe in pieces, one per frame, ends in the same DSI state as draining it all at once |
| LastGame.PrimaryStart | 6LAST.py:168-197 | DSI start-up handles at most one waiting message, as the drain would, except that quit is ignored; the answer is consistent and the DSI runs |
| LastGame.Click | 6LAST.py:209-236 | a splash click sends start and switches to game, figures untouched; a game click in the zone sends refresh and consumes at most one reply: a figures reply gives the DSI those figures and the answer computed for them, anything else leaves it unchanged; answer consistency is kept |
| LastGame.LocalModeOverwritten | 6LAST.py:217-218 | a mode set locally is overwritten by any later mode message |
| LastGame.StartReconciles | 6LAST.py:211-218 | after a splash click, draining the coordinator's answer to start gives the same DSI state with or without the optimistic switch, and that state is in game mode |
| LastGame.RedeliveryIdempotent | 6LAST.py:245-256 | receiving the same messages again leaves the DSI unchanged |
| LastGame.DisplaysConverge | 6LAST.py:101-113 | draining a tracking pipe leaves each display in the coordinator's mode with its figures, and leaves the DSI with the matching answer |
| LastGame.ScreensAgree | 6LAST.py:315-361 | whatever prefix of its pipe each display drained earlier, once it drains the rest both mirrors show the coordinator's mode and figures, and the DSI shows those figures in that mode with the answer for them, a natural figure whose shape and colour differ from both figures' |
| BestGame.LastListCons | 6_5lastbest.py:120-121 | the last list of a message followed by more messages is either the last list among the later messages or the first message itself |
| BestGame.Coordinator.constructor | 6_5lastbest.py:280-284 | the initial generated pair is sent unchanged to all three pipes |
| BestGame.Coordinator.Handle | 6_5lastbest.py:288-297 | refresh regenerates and sends the same new list to all three pipes; anything else changes nothing; every message sent is a valid decoy list, and the last is the current figures |
| BestGame.MirrorStart | 6_5lastbest.py:101-105 | start-up takes the first message: an empty, closed pipe makes the mirror draw its own pair; a list becomes the figures and the rest stays waiting; anything else is not a figure list and fails |
| BestGame.MirrorFrame | 6_5lastbest.py:116-124 | a frame takes at most one message: a list replaces the figures, quit stops the loop, anything else is dropped |
| BestGame.MirrorsCatchUp | 6_5lastbest.py:107-124 | a running mirror with no quit waiting reads all waiting messages and shows the last list |
| BestGame.MirrorRun | 6_5lastbest.py:108-124 | the frame loop as a value: frames run while the mirror runs and messages wait (closed forms: `BestGame.MirrorsCatchUp`, `BestGame.MirrorStopsAtQuit`) |
| BestGame.MirrorStopsAtQuit | 6_5lastbest.py:116-124 | a running mirror stops at the first quit, showing the last list before it, and leaves the rest unread |
| BestGame.CatchUp | 6_5lastbest.py:108-124 | the frame loop reaches the state the frame-by-frame run defines, which with no quit is the last list |
| BestGame.MirrorShowsDecoys | 6_5lastbest.py:280-297 | a mirror that has read any prefix of its pipe shows the last list of that prefix, which is a valid decoy pair |
| BestGame.MirrorStartFromCoordinator | 6_5lastbest.py:101-124 | a mirror started on a coordinator's pipe takes the first list sent, a valid decoy pair, and after catching up shows the coordinator's current figures |
| BestGame.MirrorStartOnEof | 6_5lastbest.py:102-105 | the pair a mirror draws for itself on end-of-file is a valid decoy pair |
| BestGame.PrimaryStart | 6_5lastbest.py:167-188 | the DSI starts with the figures a mirror would, or fails where a mirror would, and its answer is consistent with its figures |
| BestGame.Click | 6_5lastbest.py:212-227 | a zone click sends refresh and consumes at most one reply; only a list replaces figures and answer; a timeout changes nothing; answer consistency is kept |
| BestGame.RefreshAnswered | 6_5lastbest.py:214-224 | when the coordinator's latest list is the reply, the DSI takes the coordinator's figures and shows a natural figure whose shape and colour differ from both |
| TwoDisplays.Kiosk.constructor | 2displaysOK.py:98-99 | the HDMI draws a valid pair and sends it once, and the DSI waits for it |
| TwoDisplays.Kiosk.HdmiPoll | 2displaysOK.py:110-115 | refresh makes the HDMI regenerate and send back exactly the new pair; other commands are ignored; the protocol invariant is kept |
| TwoDisplays.Kiosk.DsiClick | 2displaysOK.py:189-191 | a click on the button sends refresh and blocks the DSI; a blocked DSI handles no click |
| TwoDisplays.Kiosk.DsiReceive | 2displaysOK.py:192-193 | the blocked DSI takes the reply as its figures, recomputes its answer and matches the HDMI again |
| TwoDisplays.IdleAnswerAvoidsShown | 2displaysOK.py:151-168 | whenever the DSI is not blocked, its answer is a natural figure whose shape and colour differ from both figures on the HDMI |

## Left out

- Drawing, windows, fonts, the splash image and its loading errors are left out, because they are rendering I/O. The hexagon's float vertices go with them.
- The pygame event loop's window-close and Escape events, which clear `running`, are left out. Only the pipe's quit message is modelled as stopping a display.
- The shutdown button (`sudo shutdown -h now`), the CPU temperature read and its formatting, and `sys.exit` are left out, because each is an operating-system side effect, file I/O or a float.
- Process creation, `join`, `time.sleep`, `clock.tick` and the poll timeouts are left out. A timeout is an empty pipe. Processes run one step at a time, as methods or functions; concurrent interleavings are not modelled.
- The quit broadcast on KeyboardInterrupt is left out, because it is shutdown handling. The displays' reaction to a quit message is modelled.
- The `try`/`except` blocks around sends are left out: a send never fails in the model.
- The probability distribution of `random.sample` and `random.choice` is left out. The draws are raw numbers.
- Hit-testing with `collidepoint` is left out. A click arrives with a flag saying whether it hit the refresh zone or button.
- The `tuple(...)` normalisation of colours in `compute_correct`, which 2displaysOK.py also applies to lists, is left out. It has no counterpart: a colour is an RGB value, so list and tuple forms are the same colour.
- Mode strings other than `"splash"` and `"game"` are left out. The coordinator sends only those two, and the model's mode type has just those values.
- LastGame.Coordinator.Serve: takes one draw per request, used only by refresh; the source draws afresh for each refresh.
- BestGame.MirrorStart: models a non-list first message as a failure (`None`), with no detail of how the drawing loop fails on it. A blocking `recv` on a pipe that is open but empty is read as the closed-pipe case, since nothing here models waiting.
- Number32.py and 2windowsfs.py are not part of this model. The first is a separate game whose only logic is a bare `random.sample`; the second is window and drawing code only.

Where one might expect other behaviour, the model follows the code:
- For a red circle and an orange square one might expect the green triangle. The code walks FIGURE_ORDER and returns the purple hexagon, because hexagon is neither shown nor naturally coloured like a shown figure (`Resolver.RedCircleOrangeSquare`).
- One might expect that no display renders a state the coordinator did not broadcast. In 6_5lastbest.py, however, a display whose first `recv` hits end-of-file draws and shows its own pair (`BestGame.MirrorStart`).
