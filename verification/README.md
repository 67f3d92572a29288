# The rules, records and calendar of a shogi server, proved

A Dafny model of the rules engine of tabia-shogi-server and of the three
components that stand beside it: the repetition adjudicator, the CSA notation
with the `Position` block and the record, and the civil calendar with its
written timestamps, plus the line framing of the wire.

Values are datatypes and the operations on them are functions (`Position`,
`Movement`, `Legality`, `Calendar`, `Timestamps`, `Notation`, ...). Where the
source updates things in place, the same form is here and is proved against
those functions: the cloned position that a move edits is a class over arrays
(`PositionStore.Store`), the rays, the search for a legal reply, the camp
census, the traversal of a setup, the printers and the record are loops, the
repetition state is a class over maps and an array of streaks, and the line
reader and writer are classes over a byte stream.

What is proved, in the system's own terms:

- **Moves.** The tables and rays agree with an account of the pieces by the
  shape of the displacement alone. `apply_move` accepts exactly the moves an
  independent statement of the rules calls lawful, refuses every other for the
  one reason that statement gives, and leaves on the board the kind its notation
  writes. Suspending the drop-pawn-mate rule inside the reply
  search changes no answer, in any position at all. Turning the board round
  commutes with a move under an exact condition, which every run meets.
- **Runs.** Along every run from hirate the side not to move is never in check,
  no king is captured, each side has one king, the set of pieces is complete,
  no hand count saturates, no file holds two pawns of a side, and no piece
  stands where it could never move. Both sides can never hold a declaration.
- **Repetition.** The state is a function of the whole history; the verdict is
  the rule's own statement about continuous checks, and at a fourth occurrence a
  statement about a replay's moves alone; the first verdict falls on a first
  fourth occurrence and cannot be put off for ever.
- **CSA.** Notation is a bijection both as text and against a position, and each
  refusal is given exactly where it is due. A printed board has the layout of the
  protocol and determines its position, hirate's being the protocol's twelve
  lines; a transmitted block reads back as the setup, the times and every position
  between; a record is the format's lines in their order and carries the wire's
  own; and written lines come back through the reader exactly when each could.
- **Calendar.** The two conversions are inverse over all days and all dates,
  written moments lie in the second they are written as, sort as time and parse
  back, and every text is read as its grammar says or refused for its one reason.

Where a side has several kings, the source looks at the first in file-major
order, and turning the board makes the last one the first. `ColourBlindExactly`
gives the boundary this draws: a move and its mirror image are answered alike if
and only if the move cannot be made, or it leaves the mover's first and last king
both attacked or both not and, when not, a pawn drop mates the other side's first
king just when it mates the last. With at most one king a side that always holds;
`TwoKingsBreakTheSymmetry` is a position beyond it.

The source's comment on the reply search (`src/game/legality.rs:224-230`) allows
for a suspended case, a reply that escapes check and itself mates with a dropped
pawn. In play there is none (`SuspensionIsExactInPlay`). On a board written with
the waiting side in check there can be one (`MatingReplyExists`), but it is never
the only reply: the checker it shuts out is pinned, and the pinning piece can
take it (`MatingRepliesLeaveACapture`).

The header of `src/game/repetition.rs` (lines 10-14) says a side that checks on
most of its moves reaches a draw. For the side that did not move into the fourth
occurrence this is so only of its moves since the one before the second
occurrence (`VerdictOfAReplay`). `QuietMoveForgiven` is a game, every move of it
accepted and none before the last deciding it, in which a side whose first move
is quiet loses by perpetual check.

## Model

| member | source | states |
|---|---|---|
| Movement.Ray | src/game/legality.rs:484-501 | the walk that updates the square and the block answers what the ray function answers, and ends by distance to the edge |
| Movement.ReachLoop | src/game/legality.rs:460-482 | steps first, then every slide, a block remembered: the same answer as the declarative reach |
| Movement.RayIsGeometry | src/game/legality.rs:484-501 | a ray reaches exactly the squares n >= 1 steps away with nothing strictly between, and is blocked exactly when something stands between |
| Movement.ReachIsGeometry | src/game/legality.rs:460-513 | reach succeeds by a step or along a clear slide, and is blocked only on a slide behind a piece |
| Movement.RemovingBlockersLosesNothing | src/game/legality.rs:460-501 | taking pieces off the board never loses a square a piece reached |
| Movement.ForcedPromotionIsADeadSquare | src/game/legality.rs:552-566 | promotion is forced exactly where the whole movement pattern lies off the board |
| MovementShapes.StepTablesHaveTheShape | src/game/legality.rs:411-449 | each step table holds exactly the displacements of its piece's shape |
| MovementShapes.ReachIsByShape | src/game/legality.rs:411-501 | for every board: unreachable, blocked or reaching, decided by the displacement's shape and whether the straight way is clear |
| MovementShapes.PromotedShapes | src/game/legality.rs:411-449 | a promoted rook or bishop moves as before or to a neighbour, every other promoted piece as a gold |
| PositionStore.Store.Clone | src/game/position.rs:302-307 | a clone holds the same position in arrays of its own |
| PositionStore.Store.SetPieceAt | src/game/position.rs:356-358 | one square changes and nothing else |
| PositionStore.Store.AddToHand | src/game/position.rs:279-282 | one counter of one hand, saturating at 255 |
| PositionStore.Store.RemoveFromHand | src/game/position.rs:285-294 | one counter down, or reported empty and nothing changed |
| PositionStore.Store.SetSideToMove | src/game/position.rs:376-378 | the turn changes and nothing else |
| PositionStore.Store.Hirate | src/game/position.rs:311-346 | the placement loops build the even starting position |
| Position.TheStartingPosition | src/game/position.rs:311-346 | every kind of either side stands on just the squares it starts on, nothing is held, Black is to move |
| PrintedLayout.HirateIsPrinted | src/csa/position_block.rs:87-123 | a buoy's block begins with the twelve lines of the protocol, letter by letter, and a record's diagram leaves out the bare hands |
| Position.SquareOrderIsABijection | src/game/legality.rs:582-585 | the file-major order visits each of the 81 squares once |
| Position.KindConversionsInvert | src/game/position.rs:108-211 | promotion and base, hand kind and board kind, undo each other |
| Position.KindsByName | src/game/position.rs:108-211 | what promotes to what, what cannot, and what is held as what in the order hands are written |
| Position.CountersMoveByOne | src/game/position.rs:274-294 | a counter gains one up to 255 or loses one if it has any, and the others stand |
| Legality.FirstKingIsFirst | src/game/legality.rs:524-532 | the king found is the first in file-major order, and none is missed |
| LegalityInPlace.ApplyBoardMoveTo | src/game/legality.rs:263-323 | the board move made on a clone, with every refusal in its order |
| LegalityInPlace.ApplyDropTo | src/game/legality.rs:325-359 | the drop made on a clone, with every refusal in its order |
| LegalityInPlace.ValidateMove | src/game/legality.rs:236-261 | validation under either setting of the drop-pawn-mate rule |
| LegalityInPlace.FindLegalMove | src/game/legality.rs:361-398 | the brute-force search is true exactly when some move value at all is accepted with the rule suspended |
| DropPawnMate.OnlyTheDroppedPawnChecks | src/game/legality.rs:222-261 | a checking pawn drop stands next to the king and is its only attacker |
| DropPawnMate.NoDropAnswersAnAdjacentPawn | src/game/legality.rs:325-359 | against a pawn standing next to the king it checks, every drop is refused |
| DropPawnMate.RepliesNeedNoRule | src/game/legality.rs:222-261 | after a pawn drop checks a king that was not in check, every reply is judged alike with the rule on or off, at any depth |
| DropPawnMate.MatingRepliesLeaveACapture | src/game/legality.rs:222-230 | a check answered by a pawn drop that itself mates could also be answered by taking the checker |
| PlayedExamples.MatingReplyExists | src/game/legality.rs:222-230 | a board with the waiting side in check where a reply itself mates by a dropped pawn, and the rule suspended and in force judge it apart |
| DropPawnMate.SomeReplyNeedsNoRule | src/game/legality.rs:361-398 | when a side in check faces one that is not, some reply is accepted with the rule suspended exactly when some reply is with it in force, at every depth |
| DropPawnMate.SuspensionIsExact | src/game/legality.rs:222-261 | in every position, carrying the reply search any number of levels further changes no answer |
| DropPawnMate.DropPawnMateMeansCheckmate | src/game/legality.rs:99-103 | in every position, the refusal is given exactly for a playable pawn drop that checks and leaves no reply the full rules accept |
| Symmetry.ReachTurned | src/game/legality.rs:503-513 | movement is the same seen from the other side |
| Symmetry.BoardInCheckTurned | src/game/legality.rs:215-220 | on every board, check seen from the other side is an attack on the last king |
| Symmetry.CheckedAlikeExactly | src/game/legality.rs:524-532 | the first and the last king are in check apart only where there are two and just one of them is attacked |
| Symmetry.InCheckTurned | src/game/legality.rs:215-220 | check is the same seen from the other side, with at most one king |
| Symmetry.SuspendedTurnsExactly | src/game/legality.rs:236-261 | with the rule suspended, turning commutes if and only if the move leaves the mover's first and last king checked alike |
| Symmetry.ColourBlindExactly | src/game/legality.rs:206-359 | for every position and move, turning commutes with apply_move, refusals included, if and only if the kings are checked and mated alike |
| Symmetry.ColourBlindButForPawnDrops | src/game/legality.rs:206-359 | for every move but a checking pawn drop the mover's own kings alone decide it |
| Symmetry.TurningTwice | src/game/legality.rs:206-359 | turning a position round twice gives it back, so the colour symmetry is a two-way one |
| Symmetry.RulesAreColourBlind | src/game/legality.rs:206-359 | turning the board round commutes with apply_move, refusals and the squares or file they name included |
| LawOfMoves.GoingOnIsNotForced | src/game/legality.rs:552-566 | a piece may arrive unpromoted exactly when its shape leads on to some square of the board |
| LawOfMoves.CheckIsAttack | src/game/legality.rs:210-220 | on every board, check is some enemy piece bearing on the king, of several the first, by shape and a clear way |
| LawOfMoves.OneKingIsTheKing | src/game/legality.rs:524-532 | with at most one king of a colour, the king is any king |
| LawOfMoves.AcceptedMovesAreTheLawfulOnes | src/game/legality.rs:199-359 | in every position, a move is accepted if and only if the independently stated rules call it lawful |
| Refusals.RefusedExactly | src/game/legality.rs:236-359 | for every position, move and refusal: the move is refused for that reason, with those squares, kind or file, if and only if the law says so |
| LawOfMoves.TheWrittenKindStands | src/csa/notation.rs:6-12 | after an accepted move the kind written stands on the destination, the origin is empty, every other square is as it was, and the turn has passed |
| LawOfMoves.TheHandsAfter | src/game/legality.rs:199-204 | the mover's hand gains the captured piece as its base kind, up to 255, or loses the dropped one, and the other hand is untouched |
| LawOfMoves.TwoKingsBreakTheSymmetry | src/game/legality.rs:524-532 | a position beyond the boundary of ColourBlindExactly: two kings of a colour, a move that stands and its mirror image refused |
| Material.BoardMovesTransferTheCapture | src/game/legality.rs:303-322 | for every valuation of the kinds, a board move passes exactly the captured value from the opponent to the mover |
| Material.DropsTransferNothing | src/game/legality.rs:344-358 | a drop changes neither side's holdings |
| Material.HandsWithinTheSet | src/game/position.rs:274-282 | with a full set in play no hand exceeds the number of pieces of the kind, at most eighteen |
| Material.FullSetInPieces | src/game/position.rs:311-346 | a full set is 2/2/4/4/4/4/18 pieces of each base kind, on the board promoted or not and in hand |
| Material.HirateHoldsFullSet | src/game/position.rs:311-346 | hirate holds a full set |
| Runs.NoKingIsCaptured | src/game/legality.rs:303-313 | with the side not to move out of check, no accepted move captures a king |
| Runs.AcceptedMovesKeepSoundness | src/game/legality.rs:199-359 | one king a side, the side not to move out of check, a full set, no two pawns on a file, no stranded piece: every accepted move keeps all of it |
| Runs.EveryRunStaysSound | src/game/start_spec.rs:58-99 | every position of every replay from a sound position is sound |
| Runs.HirateIsSound | src/game/position.rs:309-346 | hirate is sound |
| Runs.NoRunCapturesAKing | src/game/legality.rs:303-313 | no run from hirate ever captures a king |
| Runs.SaturationIsUnreachable | src/game/position.rs:274-282 | in every reachable position each hand count is within the set, adding adds one, and every base kind is complete |
| Runs.SuspensionIsExactInPlay | src/game/legality.rs:222-230 | in every reachable position, each reply to a checking pawn drop is judged alike with the rule suspended, in force, or in force at any depth |
| Runs.PlayIsLawful | src/game/legality.rs:199-359 | in every reachable position the accepted moves are the lawful ones, and the turned board is judged alike |
| Declaration.CampCensus | src/game/declaration.rs:112-138 | the one pass that skips and accumulates gives both census numbers |
| Declaration.Adjudicate | src/game/declaration.rs:74-98 | the chain of early returns decides the four conditions |
| Declaration.CensusCounts | src/game/declaration.rs:112-138 | the census is the number of the declarer's non-king pieces in the camp, and one point each with four more for a rook or bishop |
| Declaration.HoldsExactlyWhen | src/game/declaration.rs:8-27 | a declaration holds exactly under the rule as stated: no check, king entered, ten pieces, 28 or 27 points |
| Declaration.NeverBothDeclare | src/game/declaration.rs:40-98 | in no position a run from hirate reaches do both sides hold a declaration |
| StartSpec.TraversePositions | src/game/start_spec.rs:81-99 | the loop that pushes one position per setup move gives the replay, or the refusal and its index |
| StartSpec.DecodePosition | src/game/start_spec.rs:56-62 | decoding is the last position of the traversal |
| StartSpec.WhereStartsBegin | src/game/start_spec.rs:56-99 | a written board decodes to itself and passes through nothing else; a buoy starts from hirate |
| StartSpec.ReplayIsStepwise | src/game/start_spec.rs:64-99 | each position of a traversal is what apply_move makes of the one before |
| StartSpec.LinkedPositionsAreTheReplay | src/game/start_spec.rs:81-99 | and only that: positions each made by apply_move from the one before are the replay |
| StartSpec.ReplayIsPrefixStable | src/game/start_spec.rs:81-99 | replaying a prefix gives the prefix of the traversal |
| StartSpec.RefusalNamesTheFirst | src/game/start_spec.rs:76-99 | a refused setup names its first refused entry: everything before it is accepted |
| Repetition.RepetitionState.CountStart | src/game/repetition.rs:144-152 | a start is one occurrence and touches no streak |
| Repetition.RepetitionState.Record | src/game/repetition.rs:154-198 | after any sequence of calls the maps and streaks are the counts of the history, and the verdict is its stated function |
| Repetition.RepetitionState.CountOf | src/game/repetition.rs:119-127 | a streak answers how often the position was made in that side's current run of checks |
| Repetition.RunStartIsTheLongestRun | src/game/repetition.rs:76-116 | the run a streak remembers is the longest one whose every move by that side was a check |
| Repetition.VerdictByContinuousCheck | src/game/repetition.rs:10-14 | from the fourth occurrence: perpetual check against the mover with four in a continuous check, else against the other side with three, else a draw |
| Repetition.MoverLosesExactly | src/game/repetition.rs:28-40 | at a fourth occurrence the mover is the perpetual checker if and only if a move made the first and all its moves since were checks |
| Repetition.OtherSideLosesExactly | src/game/repetition.rs:28-40 | the other side is, if and only if all its moves were checks since the one the second occurrence answered |
| Repetition.FourthOccurrenceExactly | src/game/repetition.rs:10-14 | the verdict at a fourth occurrence from the moves alone, both sides and the draw |
| Games.SeedRepetition | src/session/game_task.rs:134-146 | the start counted and every setup position recorded leave the state that holds exactly the traversal's history |
| Games.ReplaysAreGames | src/session/game_task.rs:134-146 | the history of every replay is a start and then moves, the sides in turn |
| Games.VerdictOfAReplay | src/game/repetition.rs:10-14 | the verdict on a replay that makes a position a fourth time, from which of its moves were checks |
| PlayedExamples.QuietMoveForgiven | src/game/repetition.rs:10-14 | a game of accepted moves, undecided before its last, lost by perpetual check with a quiet move since the first occurrence |
| Repetition.FirstVerdictIsTheFourthOccurrence | src/game/repetition.rs:21-27 | with no verdict so far, a move draws one if and only if it makes a position occur for exactly the fourth time |
| Repetition.RepetitionMustBeDecided | src/game/repetition.rs:21-27 | a game over n distinct positions has a verdict within 3n+1 of them |
| Calendar.YearOfEraFinds | src/stamp.rs:128-130 | the one-line formula finds the year a day of the 400-year era lies in |
| Calendar.DaysRoundTrip | src/stamp.rs:119-143 | for every day number the date found is a real date and counts back to it |
| Calendar.DatesRoundTrip | src/config/timestamp.rs:171-186 | every real date is found again from its day number |
| Calendar.CalendarKeepsOrder | src/stamp.rs:119-143 | a day is earlier exactly when its date is |
| Timestamps.KnownDays | src/config/timestamp.rs:171-186 | day 0 is 1 January 1970 and day 2932897 is 1 January 10000 |
| Numerals.DecimalRoundTrip | src/csa/response.rs:144-148 | a printed number reads back as itself |
| Numerals.DecimalIsPlain | src/csa/response.rs:144-148 | a numeral has its units last and no zero before it |
| Numerals.PaddedOrder | src/stamp.rs:65-70 | at one width, string order is numeric order |
| Timestamps.FieldsNameTheSecond | src/stamp.rs:93-108 | a moment lies within the second its civil fields name, and one before the epoch is written as the epoch |
| Timestamps.StampsSortByTime | src/stamp.rs:45-86 | up to year 9999, string order of each written form is the order of the moments' whole seconds |
| Timestamps.OneMomentThreeForms | src/stamp.rs:41-86 | the three forms hold the same digits, each with its own separators |
| Timestamps.WrittenMomentsParse | src/config/timestamp.rs:47-83 | a written moment parses to a whole second, not after the moment and less than a second before it |
| TimestampGrammar.ParsedExactly | src/config/timestamp.rs:47-142 | every text is read as the second its fields and offset name, or refused for the one reason its shape, offset or fields give |
| Timestamps.OffsetsShiftTheMoment | src/config/timestamp.rs:85-123 | an offset form parses as the Z form minus the offset, fraction or none, and is refused exactly as it is |
| Timestamps.NothingIsUnrepresentable | src/config/timestamp.rs:145-154 | no text is refused as outside the clock's range if and only if the platform's clock holds the earliest to the latest second a text can name |
| Notation.ParseLine | src/csa/notation.rs:190-237 | the buffer filled a character at a time gives the parse, every error in its order |
| Notation.ShownMovesParse | src/csa/notation.rs:190-237 | every written move reads back as itself |
| Notation.ParsedLinesShow | src/csa/notation.rs:320-335 | every accepted line is the one way to write its move |
| Notation.WrittenMovesResolve | src/csa/notation.rs:239-317 | what the side to move writes for a move denotes that move, and only that |
| NotationLaw.LettersByName | src/csa/notation.rs:351-406 | the two letters of each of the fourteen kinds |
| NotationLaw.ShownLayout | src/csa/notation.rs:320-335 | seven characters: sign, origin or zeros, destination, letters, file before rank |
| NotationLaw.UnreadableExactly | src/csa/notation.rs:190-237 | a line is refused for each reason exactly when it looks so |
| NotationLaw.UnresolvedExactly | src/csa/notation.rs:279-317 | a written move denotes nothing for each reason exactly when the position says so |
| NotationLaw.UnwrittenExactly | src/csa/notation.rs:239-275 | a move is written with its own squares, side and kind, or cannot be for one of two reasons |
| PositionBlock.PushRows | src/csa/position_block.rs:189-207 | the nine rows, pushed in order |
| PrintedLayout.RowLayout | src/csa/position_block.rs:189-207 | each square's three characters stand in its row from file 9 to file 1: blank around an asterisk, or the piece's sign and letters |
| PositionBlock.PushHands | src/csa/position_block.rs:209-228 | the hand lines, bare or omitted when empty |
| PrintedLayout.HandLineLayout | src/csa/position_block.rs:209-228 | a hand line is its head and one token for each piece held, rooks first and pawns last |
| PrintedLayout.LinesInOrder | src/csa/position_block.rs:183-228 | rows, hand lines where they are written, and the side to move |
| PositionBlock.WriteMoves | src/csa/position_block.rs:133-147 | the loop that writes each move and then plays it, with each failure's index |
| PositionBlock.EncodeStart | src/csa/position_block.rs:87-106 | the block, or the count mismatch before anything is rendered |
| PositionBlock.WritingFollowsReplay | src/csa/position_block.rs:125-147 | writing fails at exactly the index where replaying fails, and otherwise reaches the same position |
| PositionBlock.WritingRefusalNamesTheFirst | src/csa/position_block.rs:133-147 | the reason given is the first refused entry's, its notation looked at before the rules |
| PositionBlock.BlocksOfWrittenBoards | src/csa/position_block.rs:87-106 | one T-value per move or a count mismatch, and a written board is its own lines |
| PositionBlock.EncodedSetupsReplay | src/csa/position_block.rs:76-106 | an encoded block is hirate's twelve lines and one per move carrying its time; the move texts of the first i lines, parsed, resolved and applied, give the first i moves and the i-th position of the traversal |
| PositionBlock.BlocksDecode | src/csa/position_block.rs:76-106 | reading the whole block gives back the setup and the position the start decodes to |
| PositionBlock.BlocksAreUnambiguous | src/csa/position_block.rs:87-106 | two setups with the same block are the same setup with the same times |
| PositionBlock.EchoesAreNotMoves | src/csa/notation.rs:190-237 | a transmitted line with its time is not itself a move: the parser refuses what trails |
| PositionBlock.EncodingAgreesWithDecoding | src/csa/position_block.rs:62-74 | with one T-value per move a buoy encodes exactly when it decodes, and both name the same entry |
| PositionBlock.WritingIsPrefixStable | src/csa/position_block.rs:125-147 | writing more moves keeps the lines already written |
| BoardPrinting.PrintingLosesNothing | src/csa/position_block.rs:171-228 | two positions with the same lines are the same position, empty hands written or not |
| Record.RenderRecord | src/csa/record.rs:206-276 | the text is every line in order, each terminated |
| RecordText.RecordsAreInOrder | src/csa/record.rs:206-293 | a record is the header, the board, the setup count, the moves with their times, the ending's command, the summary with each side's result, and the end time, in the format's words; its moves read back |
| RecordText.HeaderInOrder | src/csa/record.rs:206-236 | a header is the lines of its table that are there |
| RecordText.EveryWordIsListed | src/csa/record.rs:157-197 | the word and the command of each ending, and the word of each result and unit |
| RecordText.RecordsRenderExactly | src/csa/record.rs:206-276 | a record renders exactly when its moves replay, and fails as the writing of them does |
| RecordText.TextIsItsLines | src/csa/record.rs:270-276 | cut at its LFs, the text is its lines again if and only if none of them holds one |
| Record.HeaderLosesNothing | src/csa/record.rs:206-236 | records with one header agree in names, limit, time settings, reduction, game and start |
| Record.RecordAgreesWithTheWire | src/csa/record.rs:16-22 | the block's move lines are the record's move and T lines joined by a comma, in order |
| Record.AnnouncedCountIsTheWireCount | src/csa/record.rs:238-245 | the announced setup count is the number of move lines on the wire |
| Codec.LineReader.ReadLine | src/csa/codec.rs:78-114 | one bounded read: its answer, how far the stream moves, and never past the limit |
| Codec.LineWriter.WriteLine | src/csa/codec.rs:150-166 | the line and one LF are appended, and nothing else |
| Codec.ReturnedLinesAreBounded | src/csa/codec.rs:98-113 | a returned line is within the cap, holds no LF, and is what was read less its terminator |
| Codec.ReadsTake | src/csa/codec.rs:90-95 | one read takes through the first LF, else to the end, and never more than 2050 bytes |
| Codec.TerminatedLinesAnswer | src/csa/codec.rs:98-113 | a line whose LF comes in time is too long, invalid or returned, by its content |
| Codec.OtherBytesAnswer | src/csa/codec.rs:96-104 | with no LF in time: the end, an unterminated end, or a line too long |
| Codec.LineRoundTrip | src/csa/codec.rs:40-46 | a written line is what the next read returns if and only if it is free of LF, within the cap, not ending in CR, and valid |
| Codec.WriteLines | src/csa/codec.rs:150-166 | line after line through the writer, the bytes are the lines' stream |
| Codec.ReadLines | src/csa/codec.rs:78-114 | line after line through the reader: the lines up to the end of the stream, or the first refusal |
| Codec.FramingRoundTrip | src/csa/codec.rs:78-166 | a written stream reads back as its lines and then the end if and only if every line is free of LF, within the cap, not ending in CR, and valid |
| Codec.RelayLines | src/csa/codec.rs:78-166 | the same through the two objects, with the reader left at the end |

## Left out

- Session, matchmaking, clocks, ratings and storage: not modelled, but for the seeding of the repetition state; the T-values of a setup arrive as data.
- `src/csa/command.rs`, `src/csa/response.rs`, `src/csa/game_summary.rs`: tables and one-branch classification, except the `<move>,T<n>` line and the settings a record prints.
- Error message text and `Debug` output: an error is its variant and its fields.
- `Codec.WriteLines`, `Codec.ReadLines` and `Codec.RelayLines`: loops of the model's own over the source's reads and writes, which its sessions make one at a time.
- Asynchronous input and I/O errors: a stream is the bytes it holds; a failing read or write is not modelled.
- UTF-8: which bytes are valid is a parameter of the reader, so the framing theorems hold for any such set.
- The `u32` width of T-values: printing does not depend on it, so they are unbounded naturals (occurrence counts saturate, as in the source).
- The clock: a moment is an integer count of nanoseconds; which seconds the platform's clock holds is a parameter, 64 bits signed where a theorem names none.
- `Time_Roundup`: a record does not print it.
