/**
 The background as a whole (js/bg.js): the state kept between frames, one
 animation frame `tick`, and the operations that rebuild the particle pool
 (`initParticles` on re-seed, `fit` on resize, `applyPreset`, and the boot
 sequence).
 */
module Background {
  import opened Options
  import opened Numeric
  import opened Config
  import opened Particles
  import opened Forces
  import opened Twinkle
  import opened Rotation
  import opened Compositor

  /** The state the script keeps between frames. */
  datatype Scene = Scene(
    cfg: Config,
    w: real, h: real,          // viewport in CSS pixels
    particles: seq<Particle>,
    lastT: real,               // time of the previous frame
    theta: real,               // sky rotation angle
    px: real, py: real,        // smoothed normalised cursor
    sOffset: real)             // smoothed scroll offset

  /** What the event handlers have recorded by the time a frame runs. */
  datatype Signals = Signals(
    now: real,
    mouseXN: real, mouseYN: real,   // cursor normalised to [-1, 1]
    mouseX: real, mouseY: real,     // cursor in CSS pixels
    lastMouseMove: real,
    sTarget: real,                  // the page's scroll offset
    lastScroll: real)

  /** The easing factor of the cursor parallax. */
  const CursorEase: real := 0.06

  /** The view a frame draws with. */
  function ViewOf(s: Scene): View
  {
    View(s.w, s.h, s.px, s.py, s.sOffset, s.theta)
  }

  /**
   One frame of `tick`: clamp the frame time, ease the cursor and scroll
   parallax, advance the rotation, start twinkles, then swirl, drift, wrap
   and draw every particle. `picks` are the particles whose twinkle was
   (re)started this frame.
   */
  method Tick(s: Scene, sig: Signals, m: MathFns, rand: nat -> real, clock: nat -> real)
    returns (t: Scene, frame: seq<Option<Sprite>>, picks: seq<int>)
    requires Lawful(m) && Uniform(rand)
    requires |s.particles| < TwoTo31
    ensures t.cfg == s.cfg && t.w == s.w && t.h == s.h
    ensures t.lastT == sig.now
    ensures |t.particles| == |s.particles| && |frame| == |s.particles|
    ensures t.px == Lerp(s.px, sig.mouseXN, CursorEase) && t.py == Lerp(s.py, sig.mouseYN, CursorEase)
    ensures t.sOffset == Lerp(s.sOffset, sig.sTarget, s.cfg.scrollDamp)
    ensures Abs(sig.mouseXN - t.px) <= Abs(sig.mouseXN - s.px)
    ensures Abs(sig.mouseYN - t.py) <= Abs(sig.mouseYN - s.py)
    ensures 0.0 <= s.cfg.scrollDamp <= 1.0 ==> Abs(sig.sTarget - t.sOffset) <= Abs(sig.sTarget - s.sOffset)
    ensures t.theta == SpinStep(Spin(s.theta, s.lastT), FrameTimes(sig.now, sig.lastMouseMove, sig.lastScroll), s.cfg).theta
    ensures 0.0 <= s.cfg.rotActive && 0.0 <= s.cfg.rotIdle && s.lastT <= sig.now ==>
      s.theta <= t.theta <= s.theta + MaxTurn(s.cfg)
    ensures forall i :: 0 <= i < |s.particles| ==>
      t.particles[i] == Advance(s.particles[i].(twinkleUntil := t.particles[i].twinkleUntil), s.w, s.h,
                                sig.mouseX, sig.mouseY, SwirlActivity(sig.now, sig.lastMouseMove), s.cfg, m)
    ensures forall i :: 0 <= i < |s.particles| ==> SameBody(t.particles[i], s.particles[i])
    ensures forall i :: 0 <= i < |s.particles| && i !in picks ==>
      t.particles[i].twinkleUntil == s.particles[i].twinkleUntil
    ensures var n := StartCount(Expected(|s.particles|, s.cfg.twinkleRate, FrameDt(sig.now, s.lastT)), rand(0));
      |picks| == (if n < 0 then 0 else n)
    ensures forall k :: 0 <= k < |picks| ==> 0 <= picks[k] < |s.particles|
    ensures forall k :: 0 <= k < |picks| ==> picks[k] == PickIndex(rand(k + 1), |s.particles|)
    ensures forall i :: 0 <= i < |s.particles| && i in picks ==>
      t.particles[i].twinkleUntil == clock(LastPick(picks, i)) + s.cfg.twinkleMs
    ensures -s.cfg.edgeMargin <= s.w + s.cfg.edgeMargin ==> forall i :: 0 <= i < |s.particles| ==>
      -s.cfg.edgeMargin <= t.particles[i].x <= s.w + s.cfg.edgeMargin
    ensures -s.cfg.edgeMargin <= s.h + s.cfg.edgeMargin ==> forall i :: 0 <= i < |s.particles| ==>
      -s.cfg.edgeMargin <= t.particles[i].y <= s.h + s.cfg.edgeMargin
    ensures forall i :: 0 <= i < |s.particles| ==>
      (frame[i].None? <==> Envelope(t.particles[i], sig.now, s.cfg, m).alpha < MinAlpha)
    ensures forall i :: 0 <= i < |s.particles| && frame[i].Some? ==>
      frame[i].value.at == Place(t.particles[i], ViewOf(t), s.cfg, m)
  {
    var c := s.cfg;
    var spin := SpinStep(Spin(s.theta, s.lastT), FrameTimes(sig.now, sig.lastMouseMove, sig.lastScroll), c);
    var dt := FrameDt(sig.now, s.lastT);
    var px := Lerp(s.px, sig.mouseXN, CursorEase);
    var py := Lerp(s.py, sig.mouseYN, CursorEase);
    var sOffset := Lerp(s.sOffset, sig.sTarget, c.scrollDamp);
    var twinkled;
    twinkled, picks := StartTwinkles(s.particles, c, dt, rand, clock);
    var activity := SwirlActivity(sig.now, sig.lastMouseMove);
    var moved := seq(|twinkled|, i requires 0 <= i < |twinkled| =>
      Advance(twinkled[i], s.w, s.h, sig.mouseX, sig.mouseY, activity, c, m));
    t := Scene(c, s.w, s.h, moved, spin.lastT, spin.theta, px, py, sOffset);
    var view := ViewOf(t);
    frame := seq(|moved|, i requires 0 <= i < |moved| => Draw(moved[i], view, sig.now, c, m));
  }

  /**
   However long the tab stalled, the frame time is capped at 50 ms before
   the twinkle schedule sees it, so one frame never expects more starts
   than 50 ms at the configured rate.
   */
  lemma TwinkleBurstCapped(count: nat, rate: real, now: real, lastT: real)
    requires 0.0 <= rate
    ensures Expected(count, rate, FrameDt(now, lastT)) <= Expected(count, rate, MaxFrameMs)
    ensures Expected(count, rate, FrameDt(now, lastT)) <= (count as real) * rate * 0.05
  {
    ExpectedGrows(count, rate, FrameDt(now, lastT), MaxFrameMs);
  }

  /** `initParticles` over the current viewport and configuration (the re-seed button). */
  function Reseed(s: Scene, rand: nat -> real): (t: Scene)
    requires Uniform(rand)
    ensures t == s.(particles := t.particles)
    ensures |t.particles| == AutoCount(s.w, s.h, s.cfg.density)
    ensures forall i :: 0 <= i < |t.particles| ==> Fresh(t.particles[i], s.w, s.h, s.cfg.edgeMargin)
  {
    s.(particles := InitParticles(s.w, s.h, s.cfg, rand))
  }

  /** `fit`: adopt the new viewport and rebuild the pool for it. */
  function Resize(s: Scene, w: real, h: real, rand: nat -> real): (t: Scene)
    requires Uniform(rand)
    ensures t == s.(w := w, h := h, particles := t.particles)
    ensures |t.particles| == AutoCount(w, h, s.cfg.density)
    ensures forall i :: 0 <= i < |t.particles| ==> Fresh(t.particles[i], w, h, s.cfg.edgeMargin)
  {
    Reseed(s.(w := w, h := h), rand)
  }

  /**
   `applyPreset(name)`: a falsy lookup returns before anything changes;
   otherwise the configuration takes the preset and the pool is rebuilt
   under it.
   */
  function ApplyPresetScene(s: Scene, name: string, rand: nat -> real): (t: Scene)
    requires Uniform(rand)
    ensures Lookup(name).None? ==> t == s
    ensures Lookup(name).Some? ==> t == s.(cfg := ApplyPreset(s.cfg, name), particles := t.particles)
    ensures Lookup(name).Some? ==> |t.particles| == AutoCount(s.w, s.h, t.cfg.density)
    ensures Lookup(name).Some? ==>
      forall i :: 0 <= i < |t.particles| ==> Fresh(t.particles[i], s.w, s.h, t.cfg.edgeMargin)
  {
    if Lookup(name).None? then s
    else Reseed(s.(cfg := ApplyPreset(s.cfg, name)), rand)
  }

  /**
   The boot sequence: `fit()` at the window size, then
   `applyPreset(CFG.preset)`, which rebuilds the pool a second time.
   */
  function Boot(w: real, h: real, now: real, rand1: nat -> real, rand2: nat -> real): (s: Scene)
    requires Uniform(rand1) && Uniform(rand2)
    ensures s.w == w && s.h == h && s.lastT == now && s.theta == 0.0
    ensures s.cfg == ApplyPreset(Initial, "Calm Nebula")
  {
    var start := Scene(Initial, 0.0, 0.0, [], now, 0.0, 0.0, 0.0, 0.0);
    ApplyPresetScene(Resize(start, w, h, rand1), Initial.preset, rand2)
  }

  /**
   After boot the twelve preset controls hold the Calm Nebula values (so the
   dominant weight is 0.9, not the starting 0.85) and the other six keep
   their starting values; the pool has `autoCount` particles at density 1.
   */
  lemma BootState(w: real, h: real, now: real, rand1: nat -> real, rand2: nat -> real)
    requires Uniform(rand1) && Uniform(rand2)
    ensures var s := Boot(w, h, now, rand1, rand2);
      && s.cfg.preset == "Calm Nebula"
      && (forall k :: k in PresetKeys ==> Get(s.cfg, k) == CalmNebula[k])
      && (forall k :: k !in PresetKeys ==> Get(s.cfg, k) == Get(Initial, k))
      && s.cfg.dominantWeight == 0.9
      && |s.particles| == AutoCount(w, h, 1.0)
  {
    BootPreset();
    var start := Scene(Initial, 0.0, 0.0, [], now, 0.0, 0.0, 0.0, 0.0);
    var fitted := Resize(start, w, h, rand1);
    assert fitted.cfg == Initial && fitted.w == w && fitted.h == h;
    var s := ApplyPresetScene(fitted, Initial.preset, rand2);
    assert s == Boot(w, h, now, rand1, rand2);
    assert |s.particles| == AutoCount(w, h, s.cfg.density);
  }
}
