/**
 The carousel's input state and per-frame effects (js/main.js): dragging
 turns the target rotation, the arrow keys nudge it, the wheel zooms the
 camera inside a fixed range, planes sway about a stored base height, and a
 page without WebGL shows a plain grid of the first images instead.
 */
module CarouselInput {
  import opened Numeric
  import opened CarouselLayout

  /** The cursor or touch drag: whether a button or finger is down, the target rotation, the last x seen. */
  datatype Drag = Drag(isDown: bool, targetRot: real, lastX: real)

  /** Radians of target rotation per pixel dragged. */
  const DragGain: real := 0.002

  const Idle: Drag := Drag(false, 0.0, 0.0)

  /** Mouse-down or touch-start: start a drag at `x`. */
  function OnDown(d: Drag, x: real): (r: Drag)
    ensures r.isDown && r.lastX == x && r.targetRot == d.targetRot
  {
    d.(isDown := true, lastX := x)
  }

  /**
   Mouse or touch move: ignored unless a drag is in progress; otherwise the
   target turns by the gain times the distance moved since the last event.
   */
  function OnMove(d: Drag, x: real): (r: Drag)
    ensures !d.isDown ==> r == d
    ensures d.isDown ==> r.isDown && r.lastX == x
    ensures d.isDown ==> r.targetRot - d.targetRot == DragGain * (x - d.lastX)
  {
    if !d.isDown then d
    else d.(lastX := x, targetRot := d.targetRot + (x - d.lastX) * DragGain)
  }

  /** Mouse-up or touch-end: the drag ends, and nothing else changes. */
  function OnUp(d: Drag): (r: Drag)
    ensures !r.isDown && r.targetRot == d.targetRot && r.lastX == d.lastX
  {
    d.(isDown := false)
  }

  /** A run of move events. */
  function Moves(d: Drag, xs: seq<real>): Drag
    decreases |xs|
  {
    if |xs| == 0 then d else Moves(OnMove(d, xs[0]), xs[1..])
  }

  /**
   However the cursor wanders during one drag, the target turns by the
   gain times the net distance from where the drag started to where it is.
   */
  lemma {:induction false} DragTelescopes(d: Drag, xs: seq<real>)
    requires d.isDown && 0 < |xs|
    ensures Moves(d, xs).isDown
    ensures Moves(d, xs).lastX == xs[|xs| - 1]
    ensures Moves(d, xs).targetRot == d.targetRot + DragGain * (xs[|xs| - 1] - d.lastX)
    decreases |xs|
  {
    var d1 := OnMove(d, xs[0]);
    if |xs| > 1 {
      DragTelescopes(d1, xs[1..]);
    }
  }

  /** Once released, further moves turn nothing. */
  lemma {:induction false} ReleasedIgnoresMoves(d: Drag, xs: seq<real>)
    requires !d.isDown
    ensures Moves(d, xs) == d
    decreases |xs|
  {
    if |xs| > 0 {
      ReleasedIgnoresMoves(OnMove(d, xs[0]), xs[1..]);
    }
  }

  /** The arrow keys nudge the target by a quarter radian; other keys leave it. */
  function OnKey(targetRot: real, key: string): (r: real)
    ensures key == "ArrowLeft" ==> r == targetRot - 0.25
    ensures key == "ArrowRight" ==> r == targetRot + 0.25
    ensures key != "ArrowLeft" && key != "ArrowRight" ==> r == targetRot
  {
    var t := if key == "ArrowLeft" then targetRot - 0.25 else targetRot;
    if key == "ArrowRight" then t + 0.25 else t
  }

  /** The arrow keys undo each other. */
  lemma ArrowsCancel(targetRot: real)
    ensures OnKey(OnKey(targetRot, "ArrowLeft"), "ArrowRight") == targetRot
  {
  }

  /** The camera's distance range and its starting distance. */
  const NearZ: real := 5.5
  const FarZ: real := 14.0
  const StartZ: real := 9.0
  const WheelStep: real := 0.45

  /** A wheel event moves the camera a fixed step away (scroll down) or nearer, clamped to the range. */
  function Zoom(z: real, deltaY: real): (r: real)
    ensures NearZ <= r <= FarZ
    ensures NearZ <= z + WheelStep && z + WheelStep <= FarZ && 0.0 < deltaY ==> r == z + WheelStep
    ensures NearZ <= z - WheelStep && z - WheelStep <= FarZ && deltaY <= 0.0 ==> r == z - WheelStep
  {
    Clamp(z + (if 0.0 < deltaY then WheelStep else -WheelStep), NearZ, FarZ)
  }

  /** Zooming out never brings the camera nearer, and zooming in never takes it further. */
  lemma ZoomDirection(z: real, deltaY: real)
    requires NearZ <= z <= FarZ
    ensures 0.0 < deltaY ==> z <= Zoom(z, deltaY)
    ensures deltaY <= 0.0 ==> Zoom(z, deltaY) <= z
  {
  }

  /** The page events the carousel listens to. */
  datatype Event = Down(x: real) | Move(x: real) | Up | Wheel(deltaY: real) | Key(key: string)

  /** The input state the events act on. */
  datatype Input = Input(drag: Drag, cameraZ: real)

  const Start: Input := Input(Idle, StartZ)

  function Handle(s: Input, e: Event): (r: Input)
    ensures !e.Wheel? ==> r.cameraZ == s.cameraZ
    ensures !e.Down? && !e.Move? && !e.Up? ==> r.drag.isDown == s.drag.isDown && r.drag.lastX == s.drag.lastX
    ensures e.Wheel? ==> r.drag == s.drag
  {
    match e
    case Down(x) => s.(drag := OnDown(s.drag, x))
    case Move(x) => s.(drag := OnMove(s.drag, x))
    case Up => s.(drag := OnUp(s.drag))
    case Wheel(dy) => s.(cameraZ := Zoom(s.cameraZ, dy))
    case Key(k) => s.(drag := s.drag.(targetRot := OnKey(s.drag.targetRot, k)))
  }

  function Run(s: Input, es: seq<Event>): Input
    decreases |es|
  {
    if |es| == 0 then s else Run(Handle(s, es[0]), es[1..])
  }

  /** Whatever events arrive, the camera stays within its range. */
  lemma {:induction false} CameraStaysInRange(s: Input, es: seq<Event>)
    requires NearZ <= s.cameraZ <= FarZ
    ensures NearZ <= Run(s, es).cameraZ <= FarZ
    decreases |es|
  {
    if |es| > 0 {
      CameraStaysInRange(Handle(s, es[0]), es[1..]);
    }
  }

  /** From page load on, the camera is never nearer than 5.5 or further than 14. */
  lemma CameraRangeFromStart(es: seq<Event>)
    ensures NearZ <= Run(Start, es).cameraZ <= FarZ
  {
    CameraStaysInRange(Start, es);
  }

  /** Events that are not wheel events never move the camera. */
  lemma {:induction false} OnlyWheelZooms(s: Input, es: seq<Event>)
    requires forall i :: 0 <= i < |es| ==> !es[i].Wheel?
    ensures Run(s, es).cameraZ == s.cameraZ
    decreases |es|
  {
    if |es| > 0 {
      OnlyWheelZooms(Handle(s, es[0]), es[1..]);
    }
  }

  /** How far a plane bobs about its base height, and how fast. */
  const SwayAmplitude: real := 0.06
  const SwaySpeed: real := 0.6

  /** A plane's height at time `t` seconds: its base height plus a small sine in `t` and its angle. */
  function SwayY(baseY: real, t: real, angle: real, m: MathFns): (y: real)
    requires Lawful(m)
    ensures baseY - SwayAmplitude <= y <= baseY + SwayAmplitude
  {
    var s := m.sin(t * SwaySpeed + angle * 1.5);
    SineScaled(s);
    baseY + SwayAmplitude * s
  }

  lemma SineScaled(s: real)
    requires -1.0 <= s <= 1.0
    ensures -SwayAmplitude <= SwayAmplitude * s <= SwayAmplitude
  {
  }

  /** The plane's height after a run of frames at times `ts`, starting from height `y`. */
  function SwayFrames(y: real, baseY: real, ts: seq<real>, angle: real, m: MathFns): real
    requires Lawful(m)
    decreases |ts|
  {
    if |ts| == 0 then y else SwayFrames(SwayY(baseY, ts[0], angle, m), baseY, ts[1..], angle, m)
  }

  /**
   The sway does not accumulate: after any run of frames the height depends
   only on the base height and the last frame's time, not on where the
   plane was or on the earlier frames.
   */
  lemma {:induction false} SwayDoesNotAccumulate(y: real, baseY: real, ts: seq<real>, angle: real, m: MathFns)
    requires Lawful(m)
    requires 0 < |ts|
    ensures SwayFrames(y, baseY, ts, angle, m) == SwayY(baseY, ts[|ts| - 1], angle, m)
    ensures baseY - SwayAmplitude <= SwayFrames(y, baseY, ts, angle, m) <= baseY + SwayAmplitude
    decreases |ts|
  {
    if |ts| > 1 {
      SwayDoesNotAccumulate(SwayY(baseY, ts[0], angle, m), baseY, ts[1..], angle, m);
    }
  }

  /** The least and greatest opacity of a plane; its mapped focus value is clamped to them. */
  const MinOpacity: real := 0.42

  function FocusOpacity(mapped: real): (op: real)
    ensures MinOpacity <= op <= 1.0
    ensures MinOpacity <= mapped <= 1.0 ==> op == mapped
  {
    Clamp(mapped, MinOpacity, 1.0)
  }

  /** Clamping keeps the order of focus values: nearer the front is never dimmer. */
  lemma FocusOpacityMonotone(a: real, b: real)
    requires a <= b
    ensures FocusOpacity(a) <= FocusOpacity(b)
  {
    ClampMonotone(a, b, MinOpacity, 1.0);
  }

  /** One tile of the fallback grid: an image source and the number in its alt text. */
  datatype Tile = Tile(src: string, number: nat)

  /** The most tiles the fallback grid shows. */
  const GridSize: nat := 12

  /** Without WebGL the page shows the first 12 images (or all, if fewer), numbered from 1. */
  method FallbackGrid(sources: seq<string>) returns (tiles: seq<Tile>)
    ensures |tiles| <= GridSize && |tiles| <= |sources|
    ensures |sources| <= GridSize ==> |tiles| == |sources|
    ensures GridSize <= |sources| ==> |tiles| == GridSize
    ensures forall i :: 0 <= i < |tiles| ==> tiles[i] == Tile(sources[i], i + 1)
  {
    var n := if |sources| < GridSize then |sources| else GridSize;
    tiles := [];
    var i := 0;
    while i < n
      invariant 0 <= i <= n
      invariant |tiles| == i
      invariant forall k :: 0 <= k < i ==> tiles[k] == Tile(sources[k], k + 1)
    {
      tiles := tiles + [Tile(sources[i], i + 1)];
      i := i + 1;
    }
  }
}
