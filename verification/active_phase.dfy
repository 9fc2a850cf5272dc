/** The running game: the tick counter, the mistake check and the handling of a
    player's click on the board, from the guards through lazy mine placement and
    the flag/uncover transition to the end-of-game checks. */
module ActivePhase {
  import opened JavaInt
  import opened WithersweeperConfig
  import opened Minefield

  datatype Hand = MainHand | OffHand

  /** The outcome a click handler reports back to the server. */
  datatype ActionResult = Pass | Success

  /** The block a click hit. The board lies in the layer y = 0, with grid coordinates (x, z). */
  datatype BlockPos = BlockPos(x: int, y: int, z: int)

  /** The only part of a player the phase reads: the selected hotbar slot. */
  datatype Player = Player(selectedSlot: int)

  /** What the phase announces to every player before closing the game. */
  datatype Event = MistakeLimitReached | BoardCompleted(seconds: Int32)

  /** The phase state. `closed` records that the game has been closed. */
  datatype Phase = Phase(
    config: Config,
    board: Board,
    timeElapsed: Int32,
    mistakes: nat,
    started: bool,
    closed: bool)

  /** The result of one click: the action result, the new state, and the announcements made. */
  datatype Step = Step(result: ActionResult, phase: Phase, events: seq<Event>)

  /** The hotbar slot that holds the flag item. */
  const FlagSlot: int := 8

  const TicksPerSecond: Int32 := 20

  /** A phase as constructed: nothing elapsed, no mistakes, not yet started, still open. */
  function NewPhase(config: Config, board: Board): (s: Phase)
    ensures s.config == config && s.board == board
    ensures s.timeElapsed == 0 && s.mistakes == 0 && !s.started && !s.closed
  {
    Phase(config, board, 0, 0, false, false)
  }

  /** The state every reachable phase is in: the board has one field per coordinate,
      before mine placement every field is covered and mine-free, and the mistake
      counter equals the number of revealed mines. */
  predicate Inv(s: Phase)
  {
    && WellFormed(s.board)
    && (!s.board.placed ==> forall p :: p in s.board.fields ==> s.board.fields[p] == Field(Covered, false))
    && s.mistakes == |UncoveredMines(s.board)|
  }

  /** A new phase over a fresh board satisfies the invariant. */
  lemma NewPhaseInv(config: Config)
    ensures Inv(NewPhase(config, NewBoard(config.GetBoardConfig().x)))
  {
  }

  /** Starting the game sets the started flag and nothing else. */
  function Start(s: Phase): (r: Phase)
    ensures r.started
    ensures r.(started := s.started) == s
  {
    s.(started := true)
  }

  /** One server tick: the elapsed-tick counter goes up by one, wrapping as a Java `int`. */
  function Tick(s: Phase): (r: Phase)
    ensures s.timeElapsed < MaxInt ==> r.timeElapsed == s.timeElapsed + 1
    ensures s.timeElapsed == MaxInt ==> r.timeElapsed == MinInt
    ensures r.(timeElapsed := s.timeElapsed) == s
  {
    s.(timeElapsed := Inc(s.timeElapsed))
  }

  /** `n` ticks in a row. */
  function Ticks(s: Phase, n: nat): Phase
  {
    if n == 0 then s else Tick(Ticks(s, n - 1))
  }

  /** As long as the counter does not reach the top of the `int` range, `n` ticks add exactly `n`
      and change nothing else. */
  lemma {:induction false} TicksAddUp(s: Phase, n: nat)
    requires s.timeElapsed + n <= MaxInt
    ensures Ticks(s, n).timeElapsed == s.timeElapsed + n
    ensures Ticks(s, n).(timeElapsed := s.timeElapsed) == s
  {
    if n > 0 {
      TicksAddUp(s, n - 1);
    }
  }

  /** The whole seconds reported on completion: the tick count divided by 20, rounded toward zero. */
  function CompletionSeconds(timeElapsed: Int32): (seconds: Int32)
    ensures 0 <= timeElapsed ==> 0 <= seconds && 20 * seconds <= timeElapsed < 20 * seconds + 20
    ensures timeElapsed < 0 ==> seconds <= 0 && 20 * seconds - 20 < timeElapsed <= 20 * seconds
  {
    // Java's `/` rounds toward zero, Dafny's rounds down: divide the magnitude.
    if timeElapsed >= 0 then timeElapsed / TicksPerSecond
    else -((0 - timeElapsed as int) / TicksPerSecond)
  }

  /** `n` ticks after a fresh start, the reported seconds are `n / 20`. */
  lemma SecondsAfterTicks(s: Phase, n: nat)
    requires s.timeElapsed == 0 && n <= MaxInt
    ensures CompletionSeconds(Ticks(s, n).timeElapsed) == n / 20
  {
    TicksAddUp(s, n);
  }

  /** A click is a flag action exactly when the player holds the hotbar slot that the
      flag item is kept in, slot 8. */
  predicate IsModifyingFlags(player: Player)
    ensures IsModifyingFlags(player) <==> player.selectedSlot == 8
  {
    player.selectedSlot == FlagSlot
  }

  /** Ends the game once the mistake counter reaches the configured maximum;
      below it, nothing happens. */
  function CheckMistakes(s: Phase): (r: (Phase, seq<Event>))
    ensures r.0.closed <==> s.closed || s.mistakes >= s.config.GetMaxMistakes()
    ensures r.0.(closed := s.closed) == s
    ensures s.mistakes >= s.config.GetMaxMistakes() ==> r.1 == [MistakeLimitReached]
    ensures s.mistakes < s.config.GetMaxMistakes() ==> r == (s, [])
  {
    if s.mistakes < s.config.GetMaxMistakes() then (s, [])
    else (s.(closed := true), [MistakeLimitReached])
  }

  /** The visibility changes a field may go through: covered and flagged toggle, and
      either may be uncovered, but nothing leaves Uncovered. */
  predicate CanTransition(from: Visibility, to: Visibility)
  {
    from == Uncovered ==> to == Uncovered
  }

  /** Applies a click to the field at `p`. In flag mode a covered field is flagged and a
      flagged one covered again; otherwise a covered field is uncovered, which counts a
      mistake when it holds a mine. Any other click passes and changes nothing. */
  function ModifyField(s: Phase, player: Player, p: Pos): (r: (ActionResult, Phase))
    requires p in s.board.fields
    ensures r.1.board.fields.Keys == s.board.fields.Keys
    ensures var before := s.board.fields[p].visibility;
            var after := r.1.board.fields[p].visibility;
            && (IsModifyingFlags(player) && before == Flagged ==> r.0 == Success && after == Covered)
            && (IsModifyingFlags(player) && before == Covered ==> r.0 == Success && after == Flagged)
            && (!IsModifyingFlags(player) && before == Covered ==> r.0 == Success && after == Uncovered)
            && (before == Uncovered || (!IsModifyingFlags(player) && before == Flagged) ==> r.0 == Pass)
            && (r.0 == Success <==> after != before)
            && CanTransition(before, after)
    ensures r.0 == Pass ==> r.1 == s
    ensures r.1.board.side == s.board.side && r.1.board.placed == s.board.placed
    ensures r.1.board.fields[p].hasMine == s.board.fields[p].hasMine
    ensures forall q :: q in s.board.fields && q != p ==> r.1.board.fields[q] == s.board.fields[q]
    ensures r.1.(board := s.board, mistakes := s.mistakes) == s
    ensures r.1.mistakes == s.mistakes + 1 <==>
              s.board.fields[p].visibility == Covered && !IsModifyingFlags(player) && s.board.fields[p].hasMine
    ensures r.1.mistakes == s.mistakes || r.1.mistakes == s.mistakes + 1
  {
    var visibility := s.board.fields[p].visibility;
    if IsModifyingFlags(player) && visibility != Uncovered then
      if visibility == Flagged then
        (Success, s.(board := SetVisibility(s.board, p, Covered)))
      else
        (Success, s.(board := SetVisibility(s.board, p, Flagged)))
    else if visibility == Covered then
      var (board', revealedMine) := Uncover(s.board, p);
      (Success, s.(board := board', mistakes := if revealedMine then s.mistakes + 1 else s.mistakes))
    else
      (Pass, s)
  }

  /** Whether a click gets past the guards: the game has started, the main hand was
      used, the block lies in the board's layer and inside the board. */
  predicate PassesGuards(s: Phase, hand: Hand, pos: BlockPos)
    ensures PassesGuards(s, hand, pos) <==>
              s.started && hand == MainHand && pos.y == 0 && (pos.x, pos.z) in Cells(s.board.side)
    ensures PassesGuards(s, hand, pos) && WellFormed(s.board) ==> (pos.x, pos.z) in s.board.fields
  {
    s.started && hand == MainHand && pos.y == 0 && IsValidPos(s.board, pos.x, pos.z)
  }

  /** Handles a click on a block. A click that fails a guard passes and changes nothing.
      Otherwise mines are placed (once per game, never on the clicked field) and then the
      clicked field is modified as `ModifyField` describes, and a successful modification is followed by the mistake check
      and the completion check, each of which may close the game. `draw` stands for the
      mine coordinates the random source would pick. */
  function UseBlock(s: Phase, player: Player, hand: Hand, pos: BlockPos, draw: set<Pos>): (r: Step)
    requires WellFormed(s.board)
    ensures WellFormed(r.phase.board) && r.phase.board.side == s.board.side
    ensures !PassesGuards(s, hand, pos) ==> r == Step(Pass, s, [])
    ensures PassesGuards(s, hand, pos) ==>
              var placed := PlaceMines(s.board, pos.x, pos.z, draw);
              && r.phase.board.placed
              && forall q :: q in s.board.fields ==> r.phase.board.fields[q].hasMine == placed.fields[q].hasMine
    ensures PassesGuards(s, hand, pos) ==>
              var c := (pos.x, pos.z);
              var flagging := IsModifyingFlags(player);
              var before := s.board.fields[c].visibility;
              var after := r.phase.board.fields[c].visibility;
              var mine := PlaceMines(s.board, pos.x, pos.z, draw).fields[c].hasMine;
              && (flagging && before == Flagged ==> r.result == Success && after == Covered)
              && (flagging && before == Covered ==> r.result == Success && after == Flagged)
              && (!flagging && before == Covered ==> r.result == Success && after == Uncovered)
              && (before == Uncovered || (!flagging && before == Flagged) ==> r.result == Pass && after == before)
              && (r.phase.mistakes == s.mistakes + 1 <==> !flagging && before == Covered && mine)
    ensures r.phase.config == s.config && r.phase.timeElapsed == s.timeElapsed
    ensures r.phase.started == s.started
    ensures r.phase.mistakes == s.mistakes || r.phase.mistakes == s.mistakes + 1
    ensures forall q :: q in s.board.fields ==>
              && CanTransition(s.board.fields[q].visibility, r.phase.board.fields[q].visibility)
              && (q != (pos.x, pos.z) ==> r.phase.board.fields[q].visibility == s.board.fields[q].visibility)
    ensures r.result == Pass ==>
              && r.events == []
              && r.phase.mistakes == s.mistakes && r.phase.closed == s.closed
              && forall q :: q in s.board.fields ==> r.phase.board.fields[q].visibility == s.board.fields[q].visibility
    ensures r.result == Success ==>
              && (r.phase.closed <==> s.closed || r.phase.mistakes >= s.config.GetMaxMistakes() || IsCompleted(r.phase.board))
              && r.events ==
                   (if r.phase.mistakes >= s.config.GetMaxMistakes() then [MistakeLimitReached] else [])
                   + (if IsCompleted(r.phase.board) then [BoardCompleted(CompletionSeconds(s.timeElapsed))] else [])
  {
    if !PassesGuards(s, hand, pos) then
      Step(Pass, s, [])
    else
      var p := (pos.x, pos.z);
      var withMines := s.(board := PlaceMines(s.board, pos.x, pos.z, draw));
      var (result, modified) := ModifyField(withMines, player, p);
      if result == Pass then
        Step(Pass, modified, [])
      else
        var (checked, announced) := CheckMistakes(modified);
        if IsCompleted(checked.board) then
          Step(Success, checked.(closed := true), announced + [BoardCompleted(CompletionSeconds(checked.timeElapsed))])
        else
          Step(Success, checked, announced)
  }
}
