/** The standalone loop of game.py: the module-level game variables become
    the fields of a ScriptGame; one pass of the `while video.isOpened()` loop
    is PlayFrame and the loop itself is Run. Here the budget is fixed, there
    is no difficulty factor, and a hit recolours the target. */
module Script {
  import opened Wrappers
  import opened Rules

  /** The game duration in seconds; nothing ever changes it. */
  const TimeLimit: int := 30
  /** The target moves once this long has passed since its last timed move, in ms. */
  const MoveIntervalMs: int := 2000
  /** The colour the target starts with. */
  const StartColor: Color := (0, 255, 0)

  /** The range of random.randint(50, 600), random.randint(50, 400). */
  predicate InArena(p: Point) {
    InBox(p, 50, 600, 50, 400)
  }

  /** Three draws of random.randint(0, 255). */
  predicate IsColor(c: Color) {
    0 <= c.0 <= 255 && 0 <= c.1 <= 255 && 0 <= c.2 <= 255
  }

  /** The game variables. */
  datatype ScriptState = ScriptState(score: nat, enemy: Point, color: Color, startTime: int, lastMoveTime: int)

  /** The draws a hit uses: a new position and a new colour. */
  datatype HitDraw = HitDraw(spot: Point, color: Color)

  /** One camera frame: the time, the index fingertip of every detected hand
      (None when it does not map to a pixel of the frame), the draw for a timed
      move, one hit draw per hand, and whether `q` was pressed after it. */
  datatype Frame = Frame(now: int, tips: seq<Option<Point>>, move: Point, draws: seq<HitDraw>, quit: bool)

  predicate DrawsFit(f: Frame) {
    && |f.draws| == |f.tips|
    && InArena(f.move)
    && forall i :: 0 <= i < |f.draws| ==> InArena(f.draws[i].spot) && IsColor(f.draws[i].color)
  }

  predicate AllFit(frames: seq<Frame>) {
    forall i :: 0 <= i < |frames| ==> DrawsFit(frames[i])
  }

  /** The invariant of the game variables: target in the arena, a valid colour. */
  predicate WellPlaced(s: ScriptState) {
    InArena(s.enemy) && IsColor(s.color)
  }

  /** int(time_limit - (time.time() - start_time)) <= 0. */
  function GameOver(s: ScriptState, now: int): bool {
    RemainingSeconds(TimeLimit, s.startTime, now, 2) <= 0
  }

  /** The timed move. */
  function TimedMove(s: ScriptState, f: Frame): ScriptState {
    if f.now - s.lastMoveTime > MoveIntervalMs then s.(enemy := f.move, lastMoveTime := f.now) else s
  }

  /** The loop over hands: a fingertip that maps to a pixel and lies in the
      square around the target scores, moves the target and recolours it. */
  function Catches(s: ScriptState, tips: seq<Option<Point>>, draws: seq<HitDraw>): ScriptState
    requires |draws| == |tips|
    decreases |tips|
  {
    if tips == [] then s
    else
      var s' := if tips[0].Some? && IsHit(tips[0].value, s.enemy)
                then s.(score := s.score + 1, enemy := draws[0].spot, color := draws[0].color)
                else s;
      Catches(s', tips[1..], draws[1..])
  }

  /** One pass of the loop after the time check. */
  function Step(s: ScriptState, f: Frame): ScriptState
    requires |f.draws| == |f.tips|
  {
    Catches(TimedMove(s, f), f.tips, f.draws)
  }

  /** The result of running the loop over a run of frames. */
  datatype Played = Played(state: ScriptState, over: bool)

  /** The loop: stop with the state unchanged at the first frame where the
      game is over; otherwise take the step, and go on unless `q` was pressed. */
  function Play(s: ScriptState, frames: seq<Frame>): Played
    requires AllFit(frames)
    decreases |frames|
  {
    if frames == [] then Played(s, false)
    else if GameOver(s, frames[0].now) then Played(s, true)
    else
      assert forall i :: 0 <= i < |frames[1..]| ==> frames[1..][i] == frames[i + 1];
      var s' := Step(s, frames[0]);
      if frames[0].quit then Played(s', false) else Play(s', frames[1..])
  }

  // ---------------------------------------------------------------------------
  // The rules of a frame

  /** What the loop over hands changes: only score, target and colour; at most
      one point per hand; a frame without a hit changes nothing; a well placed
      target stays well placed. */
  lemma {:induction false} CatchesFacts(s: ScriptState, tips: seq<Option<Point>>, draws: seq<HitDraw>)
    requires |draws| == |tips|
    ensures var r := Catches(s, tips, draws);
      && r.startTime == s.startTime && r.lastMoveTime == s.lastMoveTime
      && s.score <= r.score <= s.score + |tips|
      && (r.score == s.score ==> r == s)
    ensures (WellPlaced(s) && forall i :: 0 <= i < |draws| ==> InArena(draws[i].spot) && IsColor(draws[i].color))
      ==> WellPlaced(Catches(s, tips, draws))
    decreases |tips|
  {
    if tips != [] {
      var s' := if tips[0].Some? && IsHit(tips[0].value, s.enemy)
                then s.(score := s.score + 1, enemy := draws[0].spot, color := draws[0].color)
                else s;
      CatchesFacts(s', tips[1..], draws[1..]);
      if WellPlaced(s) && forall i :: 0 <= i < |draws| ==> InArena(draws[i].spot) && IsColor(draws[i].color) {
        assert WellPlaced(s');
        forall i | 0 <= i < |draws[1..]| ensures InArena(draws[1..][i].spot) && IsColor(draws[1..][i].color) {
          assert draws[1..][i] == draws[i + 1];
        }
      }
    }
  }

  /** The loop over hands, one hand at a time. */
  lemma CatchesStep(s: ScriptState, tips: seq<Option<Point>>, draws: seq<HitDraw>, i: nat)
    requires |draws| == |tips| && i < |tips|
    ensures Catches(s, tips[i..], draws[i..]) ==
      Catches(if tips[i].Some? && IsHit(tips[i].value, s.enemy)
              then s.(score := s.score + 1, enemy := draws[i].spot, color := draws[i].color)
              else s, tips[i + 1..], draws[i + 1..])
  {
    assert tips[i..][1..] == tips[i + 1..] && draws[i..][1..] == draws[i + 1..];
  }

  /** The game ends on the first frame more than 29 s after the start: with
      truncation, time_limit - 1 seconds of play. */
  lemma GameOverIff(s: ScriptState, now: int)
    ensures GameOver(s, now) <==> now - s.startTime > 29000
  {
    RemainingPositiveIff(TimeLimit, s.startTime, now, 2);
  }

  /** No step extends the budget: whether the game is over at any time is the
      same before and after a step, hits included. */
  lemma StepKeepsDeadline(s: ScriptState, f: Frame, later: int)
    requires |f.draws| == |f.tips|
    ensures GameOver(Step(s, f), later) == GameOver(s, later)
  {
    CatchesFacts(TimedMove(s, f), f.tips, f.draws);
  }

  /** Score never decreases, grows by at most one per hand, and the target
      stays in the arena with a valid colour. */
  lemma StepFacts(s: ScriptState, f: Frame)
    requires DrawsFit(f) && WellPlaced(s)
    ensures s.score <= Step(s, f).score <= s.score + |f.tips|
    ensures WellPlaced(Step(s, f))
  {
    CatchesFacts(TimedMove(s, f), f.tips, f.draws);
  }

  /** The move timer is reset by a timed move only, never by a hit. */
  lemma MoveTimerIgnoresHits(s: ScriptState, f: Frame)
    requires |f.draws| == |f.tips|
    ensures Step(s, f).lastMoveTime == (if f.now - s.lastMoveTime > MoveIntervalMs then f.now else s.lastMoveTime)
    ensures f.now - s.lastMoveTime > MoveIntervalMs && Step(s, f).score == s.score ==> Step(s, f).enemy == f.move
  {
    CatchesFacts(TimedMove(s, f), f.tips, f.draws);
  }

  /** With one hand, a frame scores exactly when the fingertip maps to a
      pixel inside the square around the (possibly moved) target; a hit adds
      one point and takes the draw's position and colour. */
  lemma OneHandStep(s: ScriptState, f: Frame)
    requires |f.tips| == 1 && |f.draws| == 1
    ensures var moved, r := TimedMove(s, f), Step(s, f);
      && (r.score == s.score + 1 <==> f.tips[0].Some? && IsHit(f.tips[0].value, moved.enemy))
      && (r.score == s.score + 1 ==> r == moved.(score := s.score + 1, enemy := f.draws[0].spot, color := f.draws[0].color))
      && (r.score != s.score + 1 ==> r == moved)
  {
    var moved := TimedMove(s, f);
    var hit := f.tips[0].Some? && IsHit(f.tips[0].value, moved.enemy);
    var s' := if hit then moved.(score := moved.score + 1, enemy := f.draws[0].spot, color := f.draws[0].color) else moved;
    assert f.tips[1..] == [] && f.draws[1..] == [];
    assert Step(s, f) == Catches(s', [], []) == s';
    assert moved.score == s.score;
  }

  /** No frame before `i` asked to quit. */
  predicate NoQuitBefore(frames: seq<Frame>, i: int)
    requires 0 <= i <= |frames|
  {
    forall j :: 0 <= j < i ==> !frames[j].quit
  }

  /** Some frame comes more than 29 s after `start` with no `q` pressed
      before it. */
  predicate RunsOut(frames: seq<Frame>, start: int) {
    exists i :: 0 <= i < |frames| && frames[i].now - start > 29000 && NoQuitBefore(frames, i)
  }

  /** A frame in time passes the question on to the rest, unless it quits. */
  lemma RunsOutStep(frames: seq<Frame>, start: int)
    requires frames != [] && frames[0].now - start <= 29000
    ensures RunsOut(frames, start) <==> !frames[0].quit && RunsOut(frames[1..], start)
  {
    var rest := frames[1..];
    if RunsOut(frames, start) {
      var i :| 0 <= i < |frames| && frames[i].now - start > 29000 && NoQuitBefore(frames, i);
      assert i > 0 && !frames[0].quit;
      assert rest[i - 1] == frames[i];
      assert NoQuitBefore(rest, i - 1) by {
        forall j | 0 <= j < i - 1 ensures !rest[j].quit {
          assert rest[j] == frames[j + 1];
        }
      }
    }
    if !frames[0].quit && RunsOut(rest, start) {
      var i :| 0 <= i < |rest| && rest[i].now - start > 29000 && NoQuitBefore(rest, i);
      assert frames[i + 1] == rest[i];
      assert NoQuitBefore(frames, i + 1) by {
        forall j | 0 <= j < i + 1 ensures !frames[j].quit {
          if j > 0 { assert rest[j - 1] == frames[j]; }
        }
      }
    }
  }

  /** The loop never loses points, keeps the target well placed and the
      start time, and runs out of time exactly when some frame comes more
      than 29 s after the start with no `q` pressed before it. */
  lemma {:induction false} PlayFacts(s: ScriptState, frames: seq<Frame>)
    requires AllFit(frames)
    requires WellPlaced(s)
    ensures Play(s, frames).state.score >= s.score
    ensures WellPlaced(Play(s, frames).state)
    ensures Play(s, frames).state.startTime == s.startTime
    ensures Play(s, frames).over <==> RunsOut(frames, s.startTime)
    decreases |frames|
  {
    if frames != [] {
      GameOverIff(s, frames[0].now);
      if GameOver(s, frames[0].now) {
        assert NoQuitBefore(frames, 0);
      } else {
        var s' := Step(s, frames[0]);
        StepFacts(s, frames[0]);
        StepKeepsDeadline(s, frames[0], 0);
        CatchesFacts(TimedMove(s, frames[0]), frames[0].tips, frames[0].draws);
        RunsOutStep(frames, s.startTime);
        if !frames[0].quit {
          var rest := frames[1..];
          assert AllFit(rest) by {
            forall i | 0 <= i < |rest| ensures DrawsFit(rest[i]) { assert rest[i] == frames[i + 1]; }
          }
          PlayFacts(s', rest);
        }
      }
    }
  }

  // ---------------------------------------------------------------------------
  // The script's state

  class ScriptGame {
    var score: nat
    var xEnemy: int
    var yEnemy: int
    var enemyColor: Color
    var startTime: int
    var lastMoveTime: int

    function State(): ScriptState
      reads this
    {
      ScriptState(score, (xEnemy, yEnemy), enemyColor, startTime, lastMoveTime)
    }

    ghost predicate Valid()
      reads this
    {
      WellPlaced(State())
    }

    /** The game variables at the top of the script. */
    constructor (now: int, spawn: Point)
      requires InArena(spawn)
      ensures Valid()
      ensures State() == ScriptState(0, spawn, StartColor, now, now)
    {
      score := 0;
      xEnemy, yEnemy := spawn.0, spawn.1;
      enemyColor := StartColor;
      startTime := now;
      lastMoveTime := now;
    }

    /** One pass of the main loop; `over` is the break on a spent budget, with
      the variables left as they were. */
    method PlayFrame(f: Frame) returns (over: bool)
      requires Valid() && DrawsFit(f)
      modifies this
      ensures Valid()
      ensures over == GameOver(old(State()), f.now)
      ensures State() == if over then old(State()) else Step(old(State()), f)
    {
      var remaining := RemainingSeconds(TimeLimit, startTime, f.now, 2);
      if remaining <= 0 {
        return true;
      }
      over := false;
      if f.now - lastMoveTime > MoveIntervalMs {
        xEnemy, yEnemy := f.move.0, f.move.1;
        lastMoveTime := f.now;
      }
      ghost var moved := State();
      var i := 0;
      while i < |f.tips|
        invariant 0 <= i <= |f.tips|
        invariant Valid()
        invariant Catches(State(), f.tips[i..], f.draws[i..]) == Catches(moved, f.tips, f.draws)
      {
        ghost var before := State();
        CatchesStep(before, f.tips, f.draws, i);
        var tip := f.tips[i];
        if tip.Some? && IsHit(tip.value, (xEnemy, yEnemy)) {
          score := score + 1;
          xEnemy, yEnemy := f.draws[i].spot.0, f.draws[i].spot.1;
          enemyColor := f.draws[i].color;
        }
        assert State() == (if tip.Some? && IsHit(tip.value, before.enemy)
                           then before.(score := before.score + 1, enemy := f.draws[i].spot, color := f.draws[i].color)
                           else before);
        i := i + 1;
      }
    }

    /** The `while video.isOpened()` loop over the frames the camera delivers;
      it returns the final score and whether the budget ran out, and stops
      early when `q` is pressed. */
    method Run(frames: seq<Frame>) returns (finalScore: nat, over: bool)
      requires Valid()
      requires AllFit(frames)
      modifies this
      ensures Valid()
      ensures Played(State(), over) == Play(old(State()), frames)
      ensures finalScore == score
    {
      over := false;
      var quit := false;
      var i := 0;
      while i < |frames| && !over && !quit
        invariant 0 <= i <= |frames|
        invariant Valid()
        invariant !over && !quit ==> Play(State(), frames[i..]) == Play(old(State()), frames)
        invariant over || quit ==> Played(State(), over) == Play(old(State()), frames)
      {
        assert frames[i..][1..] == frames[i + 1..];
        over := PlayFrame(frames[i]);
        quit := !over && frames[i].quit;
        i := i + 1;
      }
      assert !over && !quit ==> frames[i..] == [];
      finalScore := score;
    }
  }
}
