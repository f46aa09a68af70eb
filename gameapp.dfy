/** The session logic of gameapp.py's GameWindow: start, the per-tick update
    (idle respawn, timeout, collisions, scoring) and the end of a session,
    which appends a record to the leaderboard file and refreshes the board.
    The class keeps the window's fields; the pure functions below say what
    each method does to them, and the lemmas state the game's rules. */
module GameApp {
  import opened Wrappers
  import opened Rules
  import Leaderboard

  /** The levels of the level selector. */
  datatype Level = Easy | Medium | Hard

  /** The time budget a session starts with, in seconds. */
  const InitialTimeLimit: int := 30
  /** Seconds added to the budget by each hit. */
  const BonusSeconds: int := 5
  /** The target moves once it has sat for longer than this, in ms. */
  const IdleTimeoutMs: int := 3000
  /** Respawn positions keep this distance from every frame edge. */
  const Margin: int := 100
  /** The target colour of gameapp.py:70, kept for reference: this version
      never changes it, so the window state has no colour field. */
  const EnemyColor: Color := (0, 255, 0)

  /** Twice the difficulty factor: 1.0, 1.5 and 2.0 for the three levels. */
  function FactorHalves(level: Level): int {
    match level
    case Easy => 2
    case Medium => 3
    case Hard => 4
  }

  /** The fields of the window that the game logic reads and writes; `store`
      is the text of leaderboard.txt (None while the file does not exist) and
      `board` the scores the leaderboard panel shows. */
  datatype WindowState = WindowState(
    running: bool,
    score: nat,
    timeLimit: int,
    enemy: Point,
    enemyLastSeen: int,
    startTime: int,
    factorHalves: int,
    store: Option<string>,
    board: seq<int>)

  /** What one timer tick sees: the time, the frame size, the fingertip of
      every detected hand, and the random draws a respawn would use (one for
      the idle move, one per hand for a hit). */
  datatype Tick = Tick(now: int, width: int, height: int, tips: seq<Point>, move: Point, spawns: seq<Point>)

  /** The range of random.randint(100, w - 100), random.randint(100, h - 100). */
  predicate InPlayfield(p: Point, width: int, height: int) {
    InBox(p, Margin, width - Margin, Margin, height - Margin)
  }

  predicate DrawsFit(t: Tick) {
    && |t.spawns| == |t.tips|
    && InPlayfield(t.move, t.width, t.height)
    && forall i :: 0 <= i < |t.spawns| ==> InPlayfield(t.spawns[i], t.width, t.height)
  }

  function Remaining(s: WindowState, now: int): int {
    RemainingSeconds(s.timeLimit, s.startTime, now, s.factorHalves)
  }

  /** start_game: the chosen level's factor, a fresh score, budget and clock.
      The target keeps its position. */
  function Started(s: WindowState, level: Level, now: int): WindowState {
    s.(running := true, score := 0, timeLimit := InitialTimeLimit,
       startTime := now, enemyLastSeen := now, factorHalves := FactorHalves(level))
  }

  /** update_leaderboard: the panel shows the board, or keeps what it showed
      when reading the file raises. */
  function ShownBoard(store: Option<string>, shown: seq<int>): seq<int> {
    match Leaderboard.Board(store)
    case Success(v) => v
    case Failure(_) => shown
  }

  /** end_game: stop, append "Score: <score>" to the file, refresh the panel. */
  function Ended(s: WindowState): WindowState {
    var store := Leaderboard.Append(s.store, s.score);
    s.(running := false, store := store, board := ShownBoard(store, s.board))
  }

  /** The target moves when it has been idle too long. */
  function IdleMove(s: WindowState, t: Tick): WindowState {
    if t.now - s.enemyLastSeen > IdleTimeoutMs then s.(enemy := t.move, enemyLastSeen := t.now) else s
  }

  /** A hit: one point, more time, a new target position. */
  function Scored(s: WindowState, spawn: Point, now: int): WindowState {
    s.(score := s.score + 1, timeLimit := s.timeLimit + BonusSeconds, enemy := spawn, enemyLastSeen := now)
  }

  /** The loop over the detected hands; each tests the target as the hands
      before it left it. */
  function Collisions(s: WindowState, tips: seq<Point>, spawns: seq<Point>, now: int): WindowState
    requires |spawns| == |tips|
    decreases |tips|
  {
    if tips == [] then s
    else
      var s' := if IsHit(tips[0], s.enemy) then Scored(s, spawns[0], now) else s;
      Collisions(s', tips[1..], spawns[1..], now)
  }

  /** update_frame: nothing unless running; the idle move; the end of the
      session when no whole second is left; otherwise the collisions. */
  function Frame(s: WindowState, t: Tick): WindowState
    requires |t.spawns| == |t.tips|
  {
    if !s.running then s
    else
      var moved := IdleMove(s, t);
      if Remaining(moved, t.now) <= 0 then Ended(moved)
      else Collisions(moved, t.tips, t.spawns, t.now)
  }

  /** The loop over the hands, one hand at a time. */
  lemma CollisionsStep(s: WindowState, tips: seq<Point>, spawns: seq<Point>, now: int, i: nat)
    requires |spawns| == |tips| && i < |tips|
    ensures Collisions(s, tips[i..], spawns[i..], now) ==
      Collisions(if IsHit(tips[i], s.enemy) then Scored(s, spawns[i], now) else s, tips[i + 1..], spawns[i + 1..], now)
  {
    assert tips[i..][1..] == tips[i + 1..] && spawns[i..][1..] == spawns[i + 1..];
  }

  // ---------------------------------------------------------------------------
  // The rules of a tick

  /** What the loop over the hands changes: hits only add points, each point
      adds BonusSeconds, and a tick without a hit changes nothing. A moved
      target is one of the draws and was last seen now. */
  lemma {:induction false} CollisionsFacts(s: WindowState, tips: seq<Point>, spawns: seq<Point>, now: int)
    requires |spawns| == |tips|
    ensures var r := Collisions(s, tips, spawns, now);
      && r.running == s.running && r.startTime == s.startTime && r.factorHalves == s.factorHalves
      && r.store == s.store && r.board == s.board
      && s.score <= r.score <= s.score + |tips|
      && r.timeLimit - s.timeLimit == BonusSeconds * (r.score - s.score)
      && (r.score == s.score ==> r == s)
      && (r.score > s.score ==> r.enemy in spawns && r.enemyLastSeen == now)
    decreases |tips|
  {
    if tips != [] {
      var s' := if IsHit(tips[0], s.enemy) then Scored(s, spawns[0], now) else s;
      CollisionsFacts(s', tips[1..], spawns[1..], now);
      var r := Collisions(s', tips[1..], spawns[1..], now);
      assert r.enemy in spawns[1..] ==> r.enemy in spawns;
    }
  }

  /** Ticks while the window is not running change nothing; in particular a
      session that ended stays ended and records nothing more. */
  lemma IdleWindowIgnoresTicks(s: WindowState, t: Tick)
    requires |t.spawns| == |t.tips| && !s.running
    ensures Frame(s, t) == s
  {
  }

  /** A running tick ends the session exactly when no whole second of the
      budget is left, that is when the scaled elapsed time exceeds
      timeLimit - 1 seconds; the move before it does not touch the budget. */
  lemma FrameEndsIff(s: WindowState, t: Tick)
    requires |t.spawns| == |t.tips| && s.running
    ensures !Frame(s, t).running <==> Remaining(s, t.now) <= 0
    ensures !Frame(s, t).running <==>
      (t.now - s.startTime) * s.factorHalves > 2000 * s.timeLimit - 2000
  {
    RemainingPositiveIff(s.timeLimit, s.startTime, t.now, s.factorHalves);
    CollisionsFacts(IdleMove(s, t), t.tips, t.spawns, t.now);
  }

  /** The tick that ends a session scores nothing and appends exactly one
      record, with the score as it stood. */
  lemma EndingTickRecordsScore(s: WindowState, t: Tick)
    requires |t.spawns| == |t.tips| && s.running && !Frame(s, t).running
    ensures Frame(s, t).score == s.score && Frame(s, t).timeLimit == s.timeLimit
    ensures Frame(s, t).store == Leaderboard.Append(s.store, s.score)
  {
    CollisionsFacts(IdleMove(s, t), t.tips, t.spawns, t.now);
  }

  /** While running, score and budget never decrease, the budget grows by
      BonusSeconds per point, and a tick scores at most once per hand. A tick
      that does not end the session leaves the leaderboard alone. */
  lemma FrameNeverLosesPoints(s: WindowState, t: Tick)
    requires |t.spawns| == |t.tips|
    ensures var r := Frame(s, t);
      && s.score <= r.score <= s.score + |t.tips|
      && s.timeLimit <= r.timeLimit
      && r.timeLimit - s.timeLimit == BonusSeconds * (r.score - s.score)
      && (r.running ==> r.store == s.store && r.board == s.board)
  {
    if s.running {
      CollisionsFacts(IdleMove(s, t), t.tips, t.spawns, t.now);
    }
  }

  /** A target that moved in a tick lies in the playfield of that frame, and
      a target idle for more than IdleTimeoutMs moves and is marked seen now,
      even on the tick that ends the session. */
  lemma FramePlacesTarget(s: WindowState, t: Tick)
    requires DrawsFit(t) && s.running
    ensures Frame(s, t).enemy == s.enemy || InPlayfield(Frame(s, t).enemy, t.width, t.height)
    ensures t.now - s.enemyLastSeen > IdleTimeoutMs ==>
      InPlayfield(Frame(s, t).enemy, t.width, t.height) && Frame(s, t).enemyLastSeen == t.now
  {
    var moved := IdleMove(s, t);
    CollisionsFacts(moved, t.tips, t.spawns, t.now);
    var r := Collisions(moved, t.tips, t.spawns, t.now);
    if r.score > moved.score {
      var i :| 0 <= i < |t.spawns| && t.spawns[i] == r.enemy;
    }
  }

  /** With one detected hand a running tick scores exactly when the fingertip
      is in the square around the target (after any idle move); a hit adds one
      point and BonusSeconds, respawns the target at the draw and marks it
      seen; a miss leaves the state as the idle move left it. */
  lemma OneHandTick(s: WindowState, t: Tick)
    requires |t.tips| == 1 && |t.spawns| == 1 && s.running && Remaining(s, t.now) > 0
    ensures var moved, r := IdleMove(s, t), Frame(s, t);
      && (r.score == s.score + 1 <==> IsHit(t.tips[0], moved.enemy))
      && (IsHit(t.tips[0], moved.enemy) ==>
            r == moved.(score := s.score + 1, timeLimit := s.timeLimit + BonusSeconds,
                        enemy := t.spawns[0], enemyLastSeen := t.now))
      && (!IsHit(t.tips[0], moved.enemy) ==> r == moved)
  {
    var moved := IdleMove(s, t);
    assert t.tips[1..] == [] && t.spawns[1..] == [];
    assert Frame(s, t) == Collisions(if IsHit(t.tips[0], moved.enemy) then Scored(moved, t.spawns[0], t.now) else moved, [], [], t.now);
  }

  /** A tick without a detected hand never scores. */
  lemma NoHandNoPoints(s: WindowState, t: Tick)
    requires t.tips == [] && t.spawns == []
    ensures Frame(s, t).score == s.score
  {
  }

  /** A fresh session survives a tick exactly while the elapsed time, scaled
      by the level's factor, is at most 29 seconds: 29 s on Easy, 19.333 s on
      Medium and 14.5 s on Hard. */
  lemma FreshSessionLength(s: WindowState, level: Level, start: int, t: Tick)
    requires |t.spawns| == |t.tips|
    ensures var r := Frame(Started(s, level, start), t);
      && (r.running <==> (t.now - start) * FactorHalves(level) <= 58000)
      && (level == Easy ==> (r.running <==> t.now - start <= 29000))
      && (level == Medium ==> (r.running <==> t.now - start <= 19333))
      && (level == Hard ==> (r.running <==> t.now - start <= 14500))
  {
    FrameEndsIff(Started(s, level, start), t);
  }

  // ---------------------------------------------------------------------------
  // The end of a session and the leaderboard

  /** Ending a session on a file that holds only whole records extends the
      recorded scores by this session's score, and the panel then shows the
      five best of them. */
  lemma EndRecordsScore(s: WindowState)
    requires Leaderboard.Terminated(s.store)
    requires Leaderboard.ParseScores(Leaderboard.Lines(s.store)).Success?
    ensures var scores := Leaderboard.ParseScores(Leaderboard.Lines(s.store)).value;
      && Leaderboard.ParseScores(Leaderboard.Lines(Ended(s).store)) == Success(scores + [s.score])
      && Ended(s).board == Leaderboard.TopFive(Leaderboard.SortDescending(scores + [s.score]))
      && !Ended(s).running && Ended(s).score == s.score
  {
    Leaderboard.AppendRecordsScore(s.store, s.score);
    Leaderboard.BoardOfStore(Ended(s).store);
  }

  /** end_game does not look at `running`: pressing Stop after a timeout
      appends the same score a second time. */
  lemma StopAfterTimeoutRecordsTwice(s: WindowState)
    ensures Ended(Ended(s)).store == Leaderboard.Append(Leaderboard.Append(s.store, s.score), s.score)
  {
  }

  class GameWindow {
    var running: bool
    var score: nat
    var timeLimit: int
    var xEnemy: int
    var yEnemy: int
    var enemyLastSeen: int
    var startTime: int
    var factorHalves: int
    var store: Option<string>
    var board: seq<int>

    function State(): WindowState
      reads this
    {
      WindowState(running, score, timeLimit, (xEnemy, yEnemy), enemyLastSeen, startTime, factorHalves, store, board)
    }

    /** The invariant every method keeps: the budget never falls below its
      initial 30 s (hits only add to it) and the factor is one of the three
      levels' factors. No proof depends on it; it records that fact. */
    ghost predicate Valid()
      reads this
    {
      timeLimit >= InitialTimeLimit && 2 <= factorHalves <= 4
    }

    /** The game variables of __init__, then update_leaderboard. */
    constructor (now: int, spawn: Point, initialStore: Option<string>)
      requires InBox(spawn, 100, 700, 100, 500)
      ensures Valid()
      ensures State() == WindowState(false, 0, InitialTimeLimit, spawn, now, now, 2,
                                     initialStore, ShownBoard(initialStore, []))
    {
      running := false;
      score := 0;
      timeLimit := InitialTimeLimit;
      xEnemy, yEnemy := spawn.0, spawn.1;
      enemyLastSeen := now;
      startTime := now;
      factorHalves := 2;
      store := initialStore;
      board := [];
      new;
      var _ := UpdateLeaderboard();
    }

    /** Reads the file and shows its five best scores; a failure is returned
      and leaves the panel as it was. */
    method UpdateLeaderboard() returns (r: Result<seq<int>, Leaderboard.BoardError>)
      modifies this
      ensures r == Leaderboard.Board(store)
      ensures State() == old(State()).(board := ShownBoard(old(store), old(board)))
    {
      r := Leaderboard.Board(store);
      if r.Success? {
        board := r.value;
      }
    }

    method StartGame(level: Level, now: int)
      requires Valid()
      modifies this
      ensures Valid()
      ensures State() == Started(old(State()), level, now)
      ensures running && score == 0 && timeLimit == InitialTimeLimit
      ensures startTime == now && enemyLastSeen == now
      ensures factorHalves == (match level case Easy => 2 case Medium => 3 case Hard => 4)
    {
      factorHalves := FactorHalves(level);
      running := true;
      score := 0;
      timeLimit := InitialTimeLimit;
      startTime := now;
      enemyLastSeen := now;
    }

    /** Appends the record and refreshes the panel. The board is returned:
      a failure is the error end_game raises after the record is written. */
    method EndGame() returns (r: Result<seq<int>, Leaderboard.BoardError>)
      requires Valid()
      modifies this
      ensures Valid()
      ensures State() == Ended(old(State()))
      ensures r == Leaderboard.Board(Leaderboard.Append(old(store), old(score)))
    {
      running := false;
      store := Leaderboard.Append(store, score);
      r := UpdateLeaderboard();
    }

    /** The Stop button: the same path as a timeout. */
    method StopGame() returns (r: Result<seq<int>, Leaderboard.BoardError>)
      requires Valid()
      modifies this
      ensures Valid()
      ensures State() == Ended(old(State()))
      ensures r == Leaderboard.Board(Leaderboard.Append(old(store), old(score)))
    {
      r := EndGame();
    }

    /** One timer tick. On the tick that ends the session the board that
      end_game read is returned, so a failure is the error the tick raises;
      every other tick returns None. */
    method UpdateFrame(t: Tick) returns (ended: Option<Result<seq<int>, Leaderboard.BoardError>>)
      requires Valid() && DrawsFit(t)
      modifies this
      ensures Valid()
      ensures State() == Frame(old(State()), t)
      ensures ended.Some? <==>
        old(running) && RemainingSeconds(old(timeLimit), old(startTime), t.now, old(factorHalves)) <= 0
      ensures ended.Some? ==> ended.value == Leaderboard.Board(Leaderboard.Append(old(store), old(score)))
    {
      ended := None;
      if !running {
        return;
      }
      if t.now - enemyLastSeen > IdleTimeoutMs {
        xEnemy, yEnemy := t.move.0, t.move.1;
        enemyLastSeen := t.now;
      }
      var remaining := RemainingSeconds(timeLimit, startTime, t.now, factorHalves);
      if remaining <= 0 {
        var r := EndGame();
        ended := Some(r);
        return;
      }
      CheckHits(t);
    }

    /** The loop over the detected hands. */
    method CheckHits(t: Tick)
      requires Valid() && |t.spawns| == |t.tips|
      modifies this
      ensures Valid()
      ensures State() == Collisions(old(State()), t.tips, t.spawns, t.now)
    {
      ghost var moved := State();
      var i := 0;
      while i < |t.tips|
        invariant 0 <= i <= |t.tips|
        invariant Valid()
        invariant Collisions(State(), t.tips[i..], t.spawns[i..], t.now) == Collisions(moved, t.tips, t.spawns, t.now)
      {
        ghost var before := State();
        CollisionsStep(before, t.tips, t.spawns, t.now, i);
        if IsHit(t.tips[i], (xEnemy, yEnemy)) {
          score := score + 1;
          timeLimit := timeLimit + BonusSeconds;
          xEnemy, yEnemy := t.spawns[i].0, t.spawns[i].1;
          enemyLastSeen := t.now;
        }
        assert State() == (if IsHit(t.tips[i], before.enemy) then Scored(before, t.spawns[i], t.now) else before);
        i := i + 1;
      }
    }
  }
}
