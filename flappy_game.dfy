// The Flappy Bird panel: bird kinematics, collisions, scoring and the
// start / running / over state machine driven by timer ticks and key presses.
//
// `Panel` is the panel's state as a value and the functions below are its
// transitions; class `GamePanel` holds the same state in fields and each of its
// methods is proved to perform exactly the corresponding transition.

module FlappyGame {
  import opened FlappyPipes

  const BirdStartX := 100
  const BirdStartY := 250
  const BirdWidth := 40
  const BirdHeight := 30
  const Gravity := 1
  /** Velocity a flap sets, whatever the velocity was. */
  const Jump := -12
  /** Lowest bird y: the ground strip minus the bird's height and a margin. */
  const Ground := PanelHeight - BirdHeight - 40
  /** Highest bird y. */
  const Ceiling := 5
  /** The collision box is the bird's box shrunk by this much on every side. */
  const Inset := 5

  datatype Key = Space | KeyR | KeyC | OtherKey

  datatype Panel = Panel(
    birdX: int, birdY: int, velocity: int,
    gameOver: bool, gameStarted: bool,
    score: nat, highScore: nat,
    pipes: seq<Pipe>)

  /** The forgiving collision box of a bird at (birdX, birdY). */
  function BirdBox(birdX: int, birdY: int): Rect {
    Rect(birdX + Inset, birdY + Inset, BirdWidth - 2 * Inset, BirdHeight - 2 * Inset)
  }

  predicate Running(s: Panel) {
    s.gameStarted && !s.gameOver
  }

  /** What holds of the panel between events. */
  predicate Invariant(s: Panel) {
    && s.birdX == BirdStartX
    && Ceiling <= s.birdY <= Ground
    && Jump <= s.velocity
    && s.score <= s.highScore
    && (s.gameOver ==> s.gameStarted)
    && s.pipes != [] && WellFormed(s.pipes) && InRange(s.pipes)
  }

  function Max(a: int, b: int): int {
    if a < b then b else a
  }

  // ---------------------------------------------------------------------------
  // Transitions

  /** `resetGame`: a new round with two pairs spawned at the right edge; only
      the high score survives. `first` and `second` are the two heights drawn. */
  function Restarted(highScore: nat, first: nat, second: nat): (r: Panel)
    requires first < HeightRange && second < HeightRange
    ensures Invariant(r) && !r.gameStarted && !r.gameOver
    ensures r.birdY == BirdStartY && r.velocity == 0 && r.score == 0
    ensures r.highScore == highScore
    ensures |r.pipes| == 4 && r.pipes[0].x == r.pipes[2].x == PanelWidth
    ensures r.pipes == PairAt(PanelWidth, first) + PairAt(PanelWidth, second)
  {
    var pipes := PairAt(PanelWidth, first) + PairAt(PanelWidth, second);
    AppendPairWellFormed([], PairAt(PanelWidth, first));
    assert [] + PairAt(PanelWidth, first) == PairAt(PanelWidth, first);
    AppendPairWellFormed(PairAt(PanelWidth, first), PairAt(PanelWidth, second));
    Panel(BirdStartX, BirdStartY, 0, false, false, 0, highScore, pipes)
  }

  /** `startGame`: only `gameStarted` can change, and it ends up true. */
  function Started(s: Panel): (r: Panel)
    ensures r.gameStarted
    ensures r.(gameStarted := s.gameStarted) == s
  {
    if !s.gameStarted then s.(gameStarted := true) else s
  }

  lemma StartIdempotent(s: Panel)
    ensures Started(Started(s)) == Started(s)
    ensures s.gameStarted ==> Started(s) == s
  {
  }

  /** Gravity: velocity grows by one, then y moves by the new velocity. */
  function Fallen(s: Panel): (r: Panel)
    ensures r.velocity == s.velocity + Gravity
    ensures r.birdY == s.birdY + r.velocity
    ensures r.(birdY := s.birdY, velocity := s.velocity) == s
  {
    var v := s.velocity + Gravity;
    s.(velocity := v, birdY := s.birdY + v)
  }

  /** `checkCollisions`: the ground ends the round and clamps y; the ceiling
      clamps y and stops the bird; then the shrunk box is tested against the
      pipes. */
  function AfterCollisions(s: Panel): Panel {
    if s.birdY >= Ground then
      s.(gameOver := true, birdY := Ground)
    else
      var t := if s.birdY <= Ceiling then s.(birdY := Ceiling, velocity := 0) else s;
      if HitsPipe(BirdBox(t.birdX, t.birdY), t.pipes) then t.(gameOver := true) else t
  }

  /** What `checkCollisions` does to the panel: y ends between the ceiling and
      the ground; the ground clamps y and the ceiling clamps y and stops the
      bird; the round ends exactly on the ground or on a pipe overlap of the
      shrunk box at the clamped y; nothing else changes. */
  lemma CollisionRules(s: Panel, r: Panel)
    requires r == AfterCollisions(s)
    ensures Ceiling <= r.birdY <= Ground
    ensures s.birdY >= Ground ==> r.birdY == Ground && r.velocity == s.velocity
    ensures s.birdY <= Ceiling ==> r.birdY == Ceiling && r.velocity == 0
    ensures Ceiling < s.birdY < Ground ==> r.birdY == s.birdY && r.velocity == s.velocity
    ensures r.gameOver <==> s.gameOver || s.birdY >= Ground || HitsPipe(BirdBox(s.birdX, r.birdY), s.pipes)
    ensures r.(birdY := s.birdY, velocity := s.velocity, gameOver := s.gameOver) == s
  {
  }

  /** `updateScore`: the first scorable pipe, if any, is marked passed and
      earns one point; the high score follows the score. */
  function AfterScoring(s: Panel): Panel {
    var k := FirstScorable(s.pipes, s.birdX, 0);
    if k < |s.pipes| then
      var score := s.score + 1;
      s.(score := score,
         pipes := MarkPassed(s.pipes, k),
         highScore := if score > s.highScore then score else s.highScore)
    else
      s
  }

  /** What `updateScore` does to the panel: the score rises by one exactly
      when some pipe is scorable, and then exactly the first scorable pipe is
      marked passed and can no longer score; otherwise the pipes stay as they
      are; the high score follows the score; nothing else changes. */
  lemma ScoringRules(s: Panel, r: Panel)
    requires r == AfterScoring(s)
    ensures r.score == s.score + 1 <==> exists i :: 0 <= i < |s.pipes| && Scorable(s.pipes[i], s.birdX)
    ensures r.score == s.score || r.score == s.score + 1
    ensures r.highScore == if r.score == s.score then s.highScore else Max(s.highScore, r.score)
    ensures |r.pipes| == |s.pipes|
    ensures forall i :: 0 <= i < |s.pipes| ==>
              r.pipes[i] == s.pipes[i] ||
              (Scorable(s.pipes[i], s.birdX) && r.pipes[i] == s.pipes[i].(passed := true))
    ensures var k := FirstScorable(s.pipes, s.birdX, 0);
      r.score == s.score + 1 ==>
        k < |s.pipes| && r.pipes == MarkPassed(s.pipes, k) && !Scorable(r.pipes[k], s.birdX)
    ensures r.score == s.score ==> r.pipes == s.pipes
    ensures r.(score := s.score, highScore := s.highScore, pipes := s.pipes) == s
  {
  }

  /** One timer tick (`actionPerformed`): nothing happens unless the round is
      running; otherwise gravity, pipe movement, collisions and scoring run in
      that order. `draw` is the height drawn if a new pair is spawned. */
  function AfterTick(s: Panel, draw: nat): (r: Panel)
    requires draw < HeightRange
    ensures !Running(s) ==> r == s
  {
    if Running(s) then
      AfterScoring(AfterCollisions(Fallen(s).(pipes := Moved(s.pipes, draw))))
    else
      s
  }

  /** `keyPressed`: SPACE starts a round, restarts a finished one, or flaps;
      R restarts a finished round; any other key changes nothing. */
  function AfterKey(s: Panel, key: Key, first: nat, second: nat): (r: Panel)
    requires first < HeightRange && second < HeightRange
  {
    var t :=
      if key == Space then
        if !s.gameStarted then Started(s)
        else if s.gameOver then Restarted(s.highScore, first, second)
        else s.(velocity := Jump)
      else s;
    if key == KeyR && t.gameOver then Restarted(t.highScore, first, second) else t
  }

  // ---------------------------------------------------------------------------
  // Properties of the transitions

  /** A tick keeps the panel's invariant. */
  lemma TickKeepsInvariant(s: Panel, draw: nat)
    requires draw < HeightRange && Invariant(s)
    ensures Invariant(AfterTick(s, draw))
  {
    if Running(s) {
      MovedKeepsShape(s.pipes, draw);
      var f := Fallen(s).(pipes := Moved(s.pipes, draw));
      var c := AfterCollisions(f);
      CollisionRules(f, c);
      assert Invariant(c);
      ScoringKeepsInvariant(c);
    }
  }

  /** Scoring keeps the panel's invariant. */
  lemma ScoringKeepsInvariant(s: Panel)
    requires Invariant(s)
    ensures Invariant(AfterScoring(s))
  {
    var k := FirstScorable(s.pipes, s.birdX, 0);
    if k < |s.pipes| {
      MarkPassedWellFormed(s.pipes, k);
      MarkPassedInRange(s.pipes, k);
    }
  }

  /** While running, a tick adds gravity to the velocity, except that touching
      the ceiling stops the bird; y moves by the new velocity unless clamped;
      the score rises by at most one and the high score keeps up with it. */
  lemma TickMotion(s: Panel, draw: nat)
    requires draw < HeightRange && Invariant(s) && Running(s)
    ensures var r, y := AfterTick(s, draw), s.birdY + s.velocity + Gravity;
      && (y >= Ground ==> r.birdY == Ground && r.velocity == s.velocity + Gravity && r.gameOver)
      && (y <= Ceiling ==> r.birdY == Ceiling && r.velocity == 0)
      && (Ceiling < y < Ground ==> r.birdY == y && r.velocity == s.velocity + Gravity)
      && (r.score == s.score || r.score == s.score + 1)
      && r.highScore == Max(s.highScore, r.score)
  {
  }

  /** Scoring is the only thing that sets `passed`, and it earns exactly one
      point for each pipe it marks. */
  lemma ScoreCountsPassedPipes(s: Panel)
    ensures var r := AfterScoring(s);
      r.score - s.score == PassedCount(r.pipes) - PassedCount(s.pipes)
  {
    var k := FirstScorable(s.pipes, s.birdX, 0);
    if k < |s.pipes| {
      PassedCountMark(s.pipes, k);
    }
  }

  /** Scoring only ever sets `passed`: a scored pipe stays in place. */
  lemma ScoringKeepsPassed(s: Panel, q: Pipe)
    requires q in s.pipes && q.passed
    ensures q in AfterScoring(s).pipes
  {
    var j :| 0 <= j < |s.pipes| && s.pipes[j] == q;
    assert AfterScoring(s).pipes[j] == q;
  }

  /** A tick never clears `passed`: a scored pipe that survives scrolling is
      still in the list, shifted and still scored, so no pipe can score twice. */
  lemma TickKeepsPassed(s: Panel, draw: nat, p: Pipe)
    requires draw < HeightRange && Running(s)
    requires p in s.pipes && p.passed && !OffScreen(Shifted(p))
    ensures Shifted(p) in AfterTick(s, draw).pipes && Shifted(p).passed
  {
    MovedKeepsSurvivor(s.pipes, draw, p);
    ScoringKeepsPassed(AfterCollisions(Fallen(s).(pipes := Moved(s.pipes, draw))), Shifted(p));
  }

  /** SPACE while running sets the velocity to exactly `Jump` and changes
      nothing else. */
  lemma FlapOverridesVelocity(s: Panel, first: nat, second: nat)
    requires first < HeightRange && second < HeightRange && Running(s)
    ensures AfterKey(s, Space, first, second) == s.(velocity := Jump)
  {
  }

  /** A finished round stays finished until it is restarted: ticks do nothing
      and only SPACE or R (both restarting) change the state. */
  lemma OverIsSticky(s: Panel, draw: nat, key: Key, first: nat, second: nat)
    requires draw < HeightRange && first < HeightRange && second < HeightRange
    requires s.gameOver && s.gameStarted
    ensures AfterTick(s, draw) == s
    ensures key == Space || key == KeyR ==> AfterKey(s, key, first, second) == Restarted(s.highScore, first, second)
    ensures key != Space && key != KeyR ==> AfterKey(s, key, first, second) == s
  {
  }

  /** Every branch of `keyPressed`. */
  lemma KeyPressCases(s: Panel, key: Key, first: nat, second: nat)
    requires first < HeightRange && second < HeightRange
    ensures key == Space && !s.gameStarted ==> AfterKey(s, key, first, second) == Started(s)
    ensures key == Space && s.gameStarted && s.gameOver ==>
      AfterKey(s, key, first, second) == Restarted(s.highScore, first, second)
    ensures key == Space && Running(s) ==> AfterKey(s, key, first, second) == s.(velocity := Jump)
    ensures key == KeyR ==>
      AfterKey(s, key, first, second) == if s.gameOver then Restarted(s.highScore, first, second) else s
    ensures key == KeyC || key == OtherKey ==> AfterKey(s, key, first, second) == s
  {
  }

  /** A key press keeps the panel's invariant. */
  lemma KeyKeepsInvariant(s: Panel, key: Key, first: nat, second: nat)
    requires first < HeightRange && second < HeightRange && Invariant(s)
    ensures Invariant(AfterKey(s, key, first, second))
  {
  }

  /** From a fresh round, SPACE starts it; one tick then gives velocity 1 and
      y = 251 without touching a pipe; a flap followed by a tick gives
      velocity -12 + 1 = -11 and y = 250 - 11 = 239. */
  lemma FirstTickScenario(first: nat, second: nat, draw: nat)
    requires first < HeightRange && second < HeightRange && draw < HeightRange
    ensures var started := AfterKey(Restarted(0, first, second), Space, first, second);
      var ticked := AfterTick(started, draw);
      var flapped := AfterTick(AfterKey(started, Space, first, second), draw);
      && Running(started)
      && ticked.velocity == 1 && ticked.birdY == 251 && !ticked.gameOver && ticked.score == 0
      && flapped.velocity == -11 && flapped.birdY == 239
  {
    var started := AfterKey(Restarted(0, first, second), Space, first, second);
    var moved := Moved(started.pipes, draw);
    forall q | q in Scrolled(started.pipes)
      ensures q.x == PanelWidth - PipeSpeed
    {
      ScrolledMembers(started.pipes, q);
    }
    var box := BirdBox(BirdStartX, 251);
    forall i | 0 <= i < |moved|
      ensures !Intersects(box, PipeRect(moved[i])) && !Scorable(moved[i], BirdStartX)
    {
      assert moved[i] in Scrolled(started.pipes);
    }
  }

  // ---------------------------------------------------------------------------
  // The panel as the program holds it

  class GamePanel {
    var birdX: int
    var birdY: int
    var birdVelocity: int
    var gameOver: bool
    var gameStarted: bool
    var score: nat
    var highScore: nat
    var pipes: seq<Pipe>

    ghost function State(): Panel
      reads this
    {
      Panel(birdX, birdY, birdVelocity, gameOver, gameStarted, score, highScore, pipes)
    }

    ghost predicate Valid()
      reads this
    {
      Invariant(State())
    }

    /** The panel starts as `resetGame` leaves it, with a high score of 0. */
    constructor (first: nat, second: nat)
      requires first < HeightRange && second < HeightRange
      ensures Valid()
      ensures State() == Restarted(0, first, second)
    {
      birdX, birdY, birdVelocity := BirdStartX, BirdStartY, 0;
      gameOver, gameStarted := false, false;
      score, highScore := 0, 0;
      pipes := [];
      new;
      ResetGame(first, second);
    }

    method AddPipe(start: bool, draw: nat)
      requires draw < HeightRange
      modifies this`pipes
      ensures pipes == old(pipes) + PairAt(SpawnPosition(old(pipes), start), draw)
    {
      var height := MinHeight + draw;
      var x;
      if start || |pipes| == 0 {
        x := PanelWidth;
      } else {
        x := pipes[|pipes| - 1].x + PipeSpacing;
      }
      pipes := pipes + [Pipe(x, 0, PipeWidth, height, false)];
      pipes := pipes + [Pipe(x, height + PipeGap, PipeWidth, PanelHeight - height - PipeGap, false)];
    }

    /** The loop of `movePipes`: walks the list by index, shifting each pipe
        left in place and removing it, then stepping the index back, when it
        has left the screen. */
    method ScrollPipes()
      modifies this`pipes
      ensures pipes == Scrolled(old(pipes))
    {
      ghost var original := pipes;
      ghost var done, kept := 0, [];
      var i := 0;
      while i < |pipes|
        invariant 0 <= done <= |original|
        invariant kept == Scrolled(original[..done])
        invariant i == |kept| && pipes == kept + original[done..]
        decreases |pipes| - i
      {
        var pipe := pipes[i].(x := pipes[i].x - PipeSpeed);
        ScrollStep(kept, original, done, pipe);
        pipes := pipes[i := pipe];
        if pipe.x + PipeWidth < 0 {
          pipes := pipes[..i] + pipes[i + 1..];
          i := i - 1;
        }
        i := i + 1;
        kept := Scrolled(original[..done + 1]);
        done := done + 1;
      }
      assert original[..done] == original;
    }

    /** `movePipes`: scrolls the pipes, then spawns a pair when the last pipe
        has crossed the spawn threshold or none is left. */
    method MovePipes(draw: nat)
      requires draw < HeightRange
      modifies this`pipes
      ensures pipes == Moved(old(pipes), draw)
    {
      ScrollPipes();
      if |pipes| == 0 || pipes[|pipes| - 1].x < PipeSpacing {
        AddPipe(false, draw);
      }
    }

    method CheckCollisions()
      modifies this`birdY, this`birdVelocity, this`gameOver
      ensures State() == AfterCollisions(old(State()))
    {
      if birdY >= Ground {
        gameOver := true;
        birdY := Ground;
        return;
      }
      if birdY <= Ceiling {
        birdY := Ceiling;
        birdVelocity := 0;
      }
      var hit := PipeHit(BirdBox(birdX, birdY), pipes);
      if hit {
        gameOver := true;
      }
    }

    method UpdateScore()
      modifies this`score, this`highScore, this`pipes
      ensures State() == AfterScoring(old(State()))
    {
      var i := 0;
      while i < |pipes|
        invariant 0 <= i <= |pipes|
        invariant forall j :: 0 <= j < i ==> !Scorable(pipes[j], birdX)
        invariant unchanged(this)
      {
        var pipe := pipes[i];
        if pipe.y == 0 && birdX > pipe.x + PipeWidth && !pipe.passed {
          assert FirstScorable(pipes, birdX, 0) == i;
          score := score + 1;
          pipes := pipes[i := pipe.(passed := true)];
          if score > highScore {
            highScore := score;
          }
          break;
        }
        i := i + 1;
      }
    }

    method ResetGame(first: nat, second: nat)
      requires first < HeightRange && second < HeightRange
      modifies this
      ensures State() == Restarted(old(highScore), first, second)
    {
      birdX := BirdStartX;
      birdY := BirdStartY;
      birdVelocity := 0;
      score := 0;
      gameOver := false;
      gameStarted := false;
      pipes := [];
      AddPipe(true, first);
      AddPipe(true, second);
    }

    method StartGame()
      modifies this`gameStarted
      ensures State() == Started(old(State()))
    {
      if !gameStarted {
        gameStarted := true;
      }
    }

    /** The timer callback. */
    method Tick(draw: nat)
      requires draw < HeightRange && Valid()
      modifies this
      ensures State() == AfterTick(old(State()), draw)
      ensures Valid()
    {
      ghost var s0 := State();
      if gameStarted && !gameOver {
        birdVelocity := birdVelocity + Gravity;
        birdY := birdY + birdVelocity;
        assert State() == Fallen(s0);
        ghost var pipes0 := pipes;
        MovePipes(draw);
        assert pipes == Moved(pipes0, draw);
        CheckCollisions();
        UpdateScore();
      }
      assert State() == AfterTick(s0, draw);
      TickKeepsInvariant(s0, draw);

    }

    method KeyPressed(key: Key, first: nat, second: nat)
      requires first < HeightRange && second < HeightRange && Valid()
      modifies this
      ensures Valid()
      ensures State() == AfterKey(old(State()), key, first, second)
    {
      KeyKeepsInvariant(State(), key, first, second);
      if key == Space {
        if !gameStarted {
          StartGame();
        } else if gameOver {
          ResetGame(first, second);
        } else {
          birdVelocity := Jump;
        }
      }
      if key == KeyR && gameOver {
        ResetGame(first, second);
      }
    }
  }
}
