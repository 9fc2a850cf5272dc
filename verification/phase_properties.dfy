/** Properties of the click handler that relate several steps or hold across the
    whole game: the mistake counter stays equal to the number of revealed mines,
    the first uncovered field is never a mine, flagging is undone by flagging again,
    and with the default configuration the first revealed mine ends the game. */
module PhaseProperties {
  import opened WithersweeperConfig
  import opened Minefield
  import opened ActivePhase

  /** Modifying a field keeps the mistake counter equal to the number of revealed mines. */
  lemma ModifyFieldKeepsMistakeCount(s: Phase, player: Player, p: Pos)
    requires p in s.board.fields
    requires s.mistakes == |UncoveredMines(s.board)|
    ensures ModifyField(s, player, p).1.mistakes == |UncoveredMines(ModifyField(s, player, p).1.board)|
  {
    var visibility := s.board.fields[p].visibility;
    if IsModifyingFlags(player) && visibility != Uncovered {
      if visibility == Flagged {
        UncoveredMinesKeptBySafeChange(s.board, p, Covered);
      } else {
        UncoveredMinesKeptBySafeChange(s.board, p, Flagged);
      }
    } else if visibility == Covered {
      if s.board.fields[p].hasMine {
        UncoveredMinesGrowByOne(s.board, p);
      } else {
        UncoveredMinesKeptBySafeChange(s.board, p, Uncovered);
      }
    }
  }

  /** Every click keeps the phase invariant. */
  lemma UseBlockPreservesInv(s: Phase, player: Player, hand: Hand, pos: BlockPos, draw: set<Pos>)
    requires Inv(s)
    ensures Inv(UseBlock(s, player, hand, pos, draw).phase)
  {
    if PassesGuards(s, hand, pos) {
      ValidPosHasField(s.board, pos.x, pos.z);
      var withMines := s.(board := PlaceMines(s.board, pos.x, pos.z, draw));
      if !s.board.placed {
        PlaceMinesRevealsNothing(s.board, pos.x, pos.z, draw);
      }
      assert withMines.mistakes == |UncoveredMines(withMines.board)|;
      ModifyFieldKeepsMistakeCount(withMines, player, (pos.x, pos.z));
    }
  }

  /** The first click that gets past the guards, when it is not a flag action,
      uncovers a field without a mine and costs no mistake. */
  lemma FirstUncoverIsSafe(s: Phase, player: Player, hand: Hand, pos: BlockPos, draw: set<Pos>)
    requires Inv(s) && !s.board.placed
    requires PassesGuards(s, hand, pos) && !IsModifyingFlags(player)
    ensures var r := UseBlock(s, player, hand, pos, draw);
            && r.result == Success
            && r.phase.mistakes == s.mistakes
            && r.phase.board.fields[(pos.x, pos.z)] == Field(Uncovered, false)
  {
  }

  /** A flag action is enough to trigger mine placement: the first click that gets past
      the guards in flag mode places the mines, flags the clicked field, and leaves
      that field mine-free. */
  lemma FlagClickPlacesMines(s: Phase, player: Player, hand: Hand, pos: BlockPos, draw: set<Pos>)
    requires Inv(s) && !s.board.placed
    requires PassesGuards(s, hand, pos) && IsModifyingFlags(player)
    ensures var r := UseBlock(s, player, hand, pos, draw);
            && r.result == Success
            && r.phase.board.placed
            && r.phase.board.fields[(pos.x, pos.z)] == Field(Flagged, false)
            && r.phase.mistakes == s.mistakes
  {
  }

  /** Flagging a field and then clicking it again in flag mode gives back the state
      before the first click. */
  lemma FlagToggleUndoes(s: Phase, player: Player, p: Pos)
    requires p in s.board.fields && IsModifyingFlags(player)
    requires s.board.fields[p].visibility != Uncovered
    ensures var once := ModifyField(s, player, p);
            once.0 == Success && ModifyField(once.1, player, p) == (Success, s)
  {
    var once := ModifyField(s, player, p);
    assert once.1.board.fields == s.board.fields[p := once.1.board.fields[p]];
    var twice := ModifyField(once.1, player, p);
    assert twice.1.board.fields == s.board.fields;
  }

  /** After mine placement, two flag-mode clicks on the same field that is not uncovered
      leave the board exactly as it was. */
  lemma DoubleFlagClickRestoresBoard(s: Phase, player: Player, hand: Hand, pos: BlockPos, draw: set<Pos>)
    requires WellFormed(s.board) && s.board.placed
    requires PassesGuards(s, hand, pos) && IsModifyingFlags(player)
    requires s.board.fields[(pos.x, pos.z)].visibility != Uncovered
    ensures var once := UseBlock(s, player, hand, pos, draw);
            var twice := UseBlock(once.phase, player, hand, pos, draw);
            once.result == Success && twice.result == Success && twice.phase.board == s.board
  {
    var once := UseBlock(s, player, hand, pos, draw);
    FlagToggleUndoes(s, player, (pos.x, pos.z));
    assert once.phase.board == ModifyField(s, player, (pos.x, pos.z)).1.board;
  }

  /** A covered field becomes flagged exactly when the flag slot is selected, and is
      uncovered exactly when it is not. */
  lemma FlagModeIsSlotEight(s: Phase, player: Player, p: Pos)
    requires p in s.board.fields && s.board.fields[p].visibility == Covered
    ensures ModifyField(s, player, p).1.board.fields[p].visibility == Flagged <==> player.selectedSlot == 8
    ensures ModifyField(s, player, p).1.board.fields[p].visibility == Uncovered <==> player.selectedSlot != 8
  {
  }

  /** With `max_mistakes` left out of the configuration document, the first revealed mine
      closes the game and announces it. */
  lemma DefaultConfigEndsOnFirstMine(d: Document, s: Phase, player: Player, hand: Hand, pos: BlockPos, draw: set<Pos>)
    requires Decode(d).Decoded? && d.maxMistakes.None? && s.config == Decode(d).config
    requires Inv(s) && s.board.placed
    requires PassesGuards(s, hand, pos) && !IsModifyingFlags(player)
    requires s.board.fields[(pos.x, pos.z)] == Field(Covered, true)
    ensures var r := UseBlock(s, player, hand, pos, draw);
            r.result == Success && r.phase.closed && MistakeLimitReached in r.events
  {
  }

  /** Uncovering the last covered field without a mine completes the board: the game is
      closed and the completion time is announced in whole seconds. */
  lemma LastSafeFieldWins(s: Phase, player: Player, hand: Hand, pos: BlockPos, draw: set<Pos>)
    requires Inv(s) && s.board.placed
    requires PassesGuards(s, hand, pos) && !IsModifyingFlags(player)
    requires s.board.fields[(pos.x, pos.z)] == Field(Covered, false)
    requires forall q :: q in s.board.fields && q != (pos.x, pos.z) && !s.board.fields[q].hasMine ==>
               s.board.fields[q].visibility == Uncovered
    ensures var r := UseBlock(s, player, hand, pos, draw);
            && r.result == Success && r.phase.closed
            && BoardCompleted(CompletionSeconds(s.timeElapsed)) in r.events
  {
  }
}
