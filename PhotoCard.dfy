/** One photo (or video) card of the photo gallery's scene: its scale,
    opacity and glow ease toward targets set by the distance between the
    scroll progress and the card's milestone, and a video card plays only
    while the camera is close. */
module PhotoCard {
  import opened Numeric

  /** The scale a card eases toward: 1 up close, down to 0.7 far away. */
  function ScaleTarget(dist: real): real
  {
    if dist < 0.06 then 1.0 else Lerp(1.0, 0.7, Min(1.0, (dist - 0.06) / 0.05))
  }

  /** The photo's opacity target: 1 up close, down to 0.15 far away. */
  function OpacityTarget(dist: real): real
  {
    if dist < 0.07 then 1.0 else Lerp(1.0, 0.15, Min(1.0, (dist - 0.07) / 0.04))
  }

  /** The halo's glow target. */
  function GlowTarget(dist: real): real
  {
    if dist < 0.06 then (1.0 - dist / 0.06) * 0.5 else 0.0
  }

  /** The scale target is 1 up to 0.06, 0.7 from 0.11 on, always within
      [0.7, 1], and falls as the card gets further away. */
  lemma ScaleTargetSpec(dist: real, further: real)
    requires dist <= further
    ensures 0.7 <= ScaleTarget(dist) <= 1.0
    ensures ScaleTarget(dist) == 1.0 <==> dist <= 0.06
    ensures ScaleTarget(dist) == 0.7 <==> dist >= 0.11
    ensures ScaleTarget(further) <= ScaleTarget(dist)
  {
  }

  /** The opacity target is 1 up to 0.07, 0.15 from 0.11 on, always within
      [0.15, 1], and falls as the card gets further away. */
  lemma OpacityTargetSpec(dist: real, further: real)
    requires dist <= further
    ensures 0.15 <= OpacityTarget(dist) <= 1.0
    ensures OpacityTarget(dist) == 1.0 <==> dist <= 0.07
    ensures OpacityTarget(dist) == 0.15 <==> dist >= 0.11
    ensures OpacityTarget(further) <= OpacityTarget(dist)
  {
  }

  /** For a distance d >= 0 the glow target lies in [0, 0.5], peaks exactly
      at d = 0 and is lit exactly while d < 0.06. */
  lemma GlowTargetSpec(dist: real)
    requires dist >= 0.0
    ensures 0.0 <= GlowTarget(dist) <= 0.5
    ensures GlowTarget(dist) == 0.5 <==> dist == 0.0
    ensures GlowTarget(dist) > 0.0 <==> dist < 0.06
  {
  }

  const PhotoHeight: real := 4.2

  /** The plane keeps the item's aspect ratio at a fixed height of 4.2. */
  function PhotoWidth(aspectRatio: real): (w: real)
    ensures w / PhotoHeight == aspectRatio
  {
    PhotoHeight * aspectRatio
  }

  /** An image card: three eased values and the materials they drive. */
  class ImageCard {
    const milestoneT: real
    var prevScale: real
    var prevOpacity: real
    var prevGlow: real
    var groupScale: real
    var photoOpacity: real
    var glowOpacity: real
    var innerGlowOpacity: real

    ghost predicate Valid()
      reads this
    {
      && 0.7 <= prevScale <= 1.0
      && 0.0 <= prevOpacity <= 1.0
      && 0.0 <= prevGlow <= 0.5
      && innerGlowOpacity == glowOpacity * 0.3
    }

    constructor (milestoneT: real)
      ensures Valid()
      ensures this.milestoneT == milestoneT
      ensures prevScale == 0.7 && prevOpacity == 0.0 && prevGlow == 0.0
    {
      this.milestoneT := milestoneT;
      prevScale := 0.7;
      prevOpacity := 0.0;
      prevGlow := 0.0;
      groupScale := 1.0;
      photoOpacity := 1.0;
      glowOpacity := 0.0;
      innerGlowOpacity := 0.0;
    }

    /** The frame callback (breathing and sway left out): scale moves 10%,
        opacity 12% and glow 10% toward their targets, and the materials
        copy them, the inner glow at 30% of the outer one. */
    method Frame(p: real)
      requires Valid()
      modifies this
      ensures Valid()
      ensures prevScale == Lerp(old(prevScale), ScaleTarget(Abs(p - milestoneT)), 0.1)
      ensures prevOpacity == Lerp(old(prevOpacity), OpacityTarget(Abs(p - milestoneT)), 0.12)
      ensures prevGlow == Lerp(old(prevGlow), GlowTarget(Abs(p - milestoneT)), 0.1)
      ensures groupScale == prevScale && photoOpacity == prevOpacity && glowOpacity == prevGlow
    {
      var dist := Abs(p - milestoneT);

      var scaleTarget := if dist < 0.06 then 1.0 else Lerp(1.0, 0.7, Min(1.0, (dist - 0.06) / 0.05));
      prevScale := prevScale + (scaleTarget - prevScale) * 0.1;
      groupScale := prevScale;

      var opacityTarget := if dist < 0.07 then 1.0 else Lerp(1.0, 0.15, Min(1.0, (dist - 0.07) / 0.04));
      prevOpacity := prevOpacity + (opacityTarget - prevOpacity) * 0.12;
      photoOpacity := prevOpacity;

      var glowTarget := if dist < 0.06 then (1.0 - dist / 0.06) * 0.5 else 0.0;
      prevGlow := prevGlow + (glowTarget - prevGlow) * 0.1;
      glowOpacity := prevGlow;
      innerGlowOpacity := prevGlow * 0.3;

      ScaleTargetSpec(dist, dist);
      OpacityTargetSpec(dist, dist);
      GlowTargetSpec(dist);
      LerpStaysIn(old(prevScale), scaleTarget, 0.1, 0.7, 1.0);
      LerpStaysIn(old(prevOpacity), opacityTarget, 0.12, 0.0, 1.0);
      LerpStaysIn(old(prevGlow), glowTarget, 0.1, 0.0, 0.5);
    }
  }

  /** What a frame asks of the video element. */
  datatype Command = Play | Pause | NoCommand

  /** The play/pause decision: issue a command only when the wanted state
      differs from the remembered one, and only with a video element. */
  function VideoCommand(videoPresent: bool, shouldPlay: bool, wasPlaying: bool): Command
  {
    if !videoPresent then NoCommand
    else if shouldPlay && !wasPlaying then Play
    else if !shouldPlay && wasPlaying then Pause
    else NoCommand
  }

  /** Play is sent only to a paused video that should play and Pause only to
      a playing one that should not; with a video element, the flag
      afterwards records whether it should play, so the same command is
      never sent on two frames in a row. */
  lemma VideoCommandSpec(videoPresent: bool, shouldPlay: bool, wasPlaying: bool)
    ensures VideoCommand(videoPresent, shouldPlay, wasPlaying) == Play <==> videoPresent && shouldPlay && !wasPlaying
    ensures VideoCommand(videoPresent, shouldPlay, wasPlaying) == Pause <==> videoPresent && !shouldPlay && wasPlaying
    ensures VideoCommand(videoPresent, shouldPlay, wasPlaying) != NoCommand ==>
              VideoCommand(videoPresent, shouldPlay, shouldPlay) == NoCommand
  {
  }

  /** A video card: the same scale, opacity and glow easing as an image card
      (its eased opacity is computed but drives no material), and the
      playing flag. */
  class VideoCard {
    const milestoneT: real
    var prevScale: real
    var prevOpacity: real
    var prevGlow: real
    var groupScale: real
    var glowOpacity: real
    var wasPlaying: bool

    ghost predicate Valid()
      reads this
    {
      && 0.7 <= prevScale <= 1.0
      && 0.0 <= prevOpacity <= 1.0
      && 0.0 <= prevGlow <= 0.5
    }

    constructor (milestoneT: real)
      ensures Valid()
      ensures this.milestoneT == milestoneT
      ensures prevScale == 0.7 && prevOpacity == 0.0 && prevGlow == 0.0 && !wasPlaying
    {
      this.milestoneT := milestoneT;
      prevScale := 0.7;
      prevOpacity := 0.0;
      prevGlow := 0.0;
      groupScale := 1.0;
      glowOpacity := 0.0;
      wasPlaying := false;
    }

    /** The frame callback; `videoPresent` says whether the video element
        has been created yet. Returns the command sent to the element. */
    method Frame(p: real, videoPresent: bool) returns (cmd: Command)
      requires Valid()
      modifies this
      ensures Valid()
      ensures prevScale == Lerp(old(prevScale), ScaleTarget(Abs(p - milestoneT)), 0.1)
      ensures prevOpacity == Lerp(old(prevOpacity), OpacityTarget(Abs(p - milestoneT)), 0.12)
      ensures prevGlow == Lerp(old(prevGlow), GlowTarget(Abs(p - milestoneT)), 0.1)
      ensures groupScale == prevScale && glowOpacity == prevGlow
      ensures cmd == VideoCommand(videoPresent, Abs(p - milestoneT) < 0.07, old(wasPlaying))
      ensures wasPlaying == if videoPresent then Abs(p - milestoneT) < 0.07 else old(wasPlaying)
    {
      var dist := Abs(p - milestoneT);

      var scaleTarget := if dist < 0.06 then 1.0 else Lerp(1.0, 0.7, Min(1.0, (dist - 0.06) / 0.05));
      prevScale := prevScale + (scaleTarget - prevScale) * 0.1;
      groupScale := prevScale;

      var opacityTarget := if dist < 0.07 then 1.0 else Lerp(1.0, 0.15, Min(1.0, (dist - 0.07) / 0.04));
      prevOpacity := prevOpacity + (opacityTarget - prevOpacity) * 0.12;

      var shouldPlay := dist < 0.07;
      cmd := NoCommand;
      if videoPresent {
        if shouldPlay && !wasPlaying {
          cmd := Play;
          wasPlaying := true;
        } else if !shouldPlay && wasPlaying {
          cmd := Pause;
          wasPlaying := false;
        }
      }

      var glowTarget := if dist < 0.06 then (1.0 - dist / 0.06) * 0.5 else 0.0;
      prevGlow := prevGlow + (glowTarget - prevGlow) * 0.1;
      glowOpacity := prevGlow;

      ScaleTargetSpec(dist, dist);
      OpacityTargetSpec(dist, dist);
      GlowTargetSpec(dist);
      LerpStaysIn(old(prevScale), scaleTarget, 0.1, 0.7, 1.0);
      LerpStaysIn(old(prevOpacity), opacityTarget, 0.12, 0.0, 1.0);
      LerpStaysIn(old(prevGlow), glowTarget, 0.1, 0.0, 0.5);
    }
  }

  datatype CardKind = ImageKind | VideoKind

  /** `PhotoCard`'s dispatch on the item's type. */
  function KindOf(itemType: string): (k: CardKind)
    ensures k == VideoKind <==> itemType == "video"
  {
    if itemType == "video" then VideoKind else ImageKind
  }
}
