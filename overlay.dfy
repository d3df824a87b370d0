/** The text overlay of src/ui/overlay.ts: which lines, at which font size,
    are drawn over the field in each mode. */
module Overlay {
  import opened Types

  /** One line of overlay text and its font size in pixels. */
  datatype OverlayLine = OverlayLine(text: string, size: int)

  /** `getOverlayLines`: a title card in attract mode, a pause card, a game
      over card, and nothing while playing. */
  function OverlayLines(mode: Mode): (lines: Option<seq<OverlayLine>>)
    ensures lines.None? <==> mode == Playing
    ensures mode == Attract ==> |lines.value| == 4 && lines.value[0] == OverlayLine("TORUS ASTEROIDS", 44)
    ensures mode == Paused ==> |lines.value| == 2 && lines.value[0] == OverlayLine("PAUSED", 40)
    ensures mode == GameOver ==> |lines.value| == 2 && lines.value[0] == OverlayLine("GAME OVER", 44)
    ensures lines.Some? ==> forall i :: 0 <= i < |lines.value| ==> lines.value[i].size > 0 && lines.value[i].text != ""
  {
    match mode
    case Attract =>
      Some([OverlayLine("TORUS ASTEROIDS", 44),
            OverlayLine("Press Any Key To Start", 24),
            OverlayLine("Arrow Left/Right Rotate  |  Arrow Up Thrust  |  Space Fire", 15),
            OverlayLine("P Pause  |  R Restart  |  F Fullscreen", 15)])
    case Paused =>
      Some([OverlayLine("PAUSED", 40),
            OverlayLine("Press P To Resume", 19)])
    case GameOver =>
      Some([OverlayLine("GAME OVER", 44),
            OverlayLine("Press R Or Any Key To Restart", 21)])
    case Playing => None
  }

  /** Every card opens with its title, drawn larger than any other line on
      it. */
  lemma TitleIsLargest(mode: Mode)
    requires mode != Playing
    ensures var lines := OverlayLines(mode).value;
            forall i :: 1 <= i < |lines| ==> lines[i].size < lines[0].size
  {
  }
}
