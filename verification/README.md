# OpenAC: a verified model

OpenAC is a client, a launcher and their shared libraries for an online game. This
project models the parts of it that decide things by pure logic, and proves what
they promise. Where the program changes state step by step, a class or a loop does
the same here and is proved against a specification; the specification's own
properties are lemmas.

- **Chess** (`Chess*.dfy`): the rules of a move, castling, en passant, promotion and
  the shortcut test for checkmate; what every game from the opening keeps.
- **JSON** (`Json*.dfy`): the strict parser, the grammar it accepts exactly, the two
  writers, and reading back.
- **Dat files** (`Dat*.dfy`, `Lru.dfy`, `Recency.dfy`, `Texture*.dfy`): block
  chains, directory nodes, lookup and listing, the caches over them, and the texture
  cache many threads share.
- **Sound** (`Sound*.dfy`, `Voice*.dfy`, `EngineGates.dfy`, `Mixer*.dfy`, `Ambient.dfy`):
  the wave cache many threads share, the ring of voices, the gates in front of it, the
  command queue between engine and mixer, and the ambient scheduler.
- **Layout** (`Disk*.dfy`, `FolderWalks.dfy`, `BesideNames.dfy`, `TemporaryNames.dfy`,
  `Copy*.dfy`, `Layout*.dfy`, `LeftoverSweep.dfy`, `Migration*.dfy`): moving an
  installation into its new folders, by renames and by copies to other volumes, on a
  disk where any operation may fail or be the last; sweeping up before, starting again
  after; and the gate that retries and stops the move.
- **Calendar** (`Calendar.dfy`, `ZoneRules.dfy`, `SessionFolders.dfy`,
  `Iso*.dfy`): day numbers, rule dates, folder names and timestamps.
- **Bytes and text** (`Codec.dfy`, `Png*.dfy`, `DecimalText.dfy`, `StatusLines.dfy`):
  variable-length integers, the PNG encoder with both checksums, decimal rounding, and
  the status log.

Threads are modelled as interleaved steps, one step for each block of code a lock
protects; a run is any sequence of enabled steps. Files that fail to be read or
written, decoders and clocks are parameters, and the lemmas hold for all of them.

Where the code and its own documentation disagree, the code is followed:

- `crates/ac-dat/src/collection.rs:355-359` says each read of a portal object counts
  one hit or one miss. None is counted when no cache holds the object and looking it
  up in the high-resolution directory fails; `DatObjects.CachedAnswersUncached` says
  exactly when, and `DatWitness.BrokenDirectoryGoesUncounted` gives such a directory.
- `crates/ac-host-core/src/layout.rs:298-303` says a failed or cut copy leaves nothing
  partial under a real name and the source whole: `LayoutCopy.WholeUntilCopied` and
  `LayoutCopy.NothingPartialHasARealName` prove it. A copy that goes through can still
  lose a file that stood under a temporary name; `LayoutRuns.SurvivesIffSpared` and
  `LayoutLosses.CopySurvivesIff` say exactly when, `LayoutLosses.MergeIsRun` and
  `LayoutLosses.FolderIsRun` give disks and runs.
- `crates/ac-host-core/src/layout.rs:362-364` says the sweep deletes what earlier copies
  cut short left and that the originals are still in place. It deletes every file so
  named in those folders, whoever made it: `MigrationRuns.SurvivesIffUnswept` says what
  survives, `MigrationRuns.UserFileIsSwept` gives a file that does not.
- `crates/ac-audio/src/engine.rs:302-305` says a sound of `play_ui_wave` that is not an
  interface sound does not survive a world change. The code records every sound of that
  call as an interface one, so it does: `EngineGates.GoesOnIffUi`, with the exact
  condition in `EngineGates.SparesInterfaceOnlyIffNoCue` and an engine in
  `EngineGates.CueSoundsOn`.

## Model

| member | source | states |
|---|---|---|
| `ChessPlay.ChessBoard.Get` | crates/ac-core/src/chess.rs:338-347 | The piece standing on a square, and nothing for a square off the board, of the 64 cells read as a map of occupied squares. |
| `ChessPlay.ChessBoard.Place` | crates/ac-core/src/chess.rs:351-356 | Exactly one square changes: it holds the given piece, or becomes empty. |
| `ChessPlay.ChessBoard.PathIsClear` | crates/ac-core/src/chess.rs:542-556 | The walk square by square answers "no piece strictly between", and always "clear" for a jump that is not along a line. |
| `ChessPlay.ChessBoard.PlanReach` | crates/ac-core/src/chess.rs:436-494 | The planning of one piece's movement gives exactly the accepted plan or the refusal the rules give, en passant, captures and blocked paths included. |
| `ChessMoves.ReachesIffGoes` | crates/ac-core/src/chess.rs:436-494 | For every position and any two squares: the planning without en passant accepts iff the piece steps so in plain geometry (rook straight, bishop diagonally, queen both, over empty squares; king one square; knight by 1 and 2; pawn ahead to empty squares, diagonally only to take) to a square of the board none of its own stands on. |
| `ChessMoves.AttackedIffGoes` | crates/ac-core/src/chess.rs:560-571 | A square is attacked iff an enemy piece goes there in that sense. |
| `ChessPlay.ChessBoard.AttackedBy` | crates/ac-core/src/chess.rs:560-571 | The scan of all squares says "attacked" iff some enemy piece reaches the square. |
| `ChessPlay.ChessBoard.PlanCastle` | crates/ac-core/src/chess.rs:496-538 | Castling is accepted or refused, with the same reason, as by the rules: first piece along the rank an unmoved own rook, king safe on both squares. |
| `ChessPlay.ChessBoard.PlanMove` | crates/ac-core/src/chess.rs:409-434 | Every refusal in its order, or the plan of the move. |
| `ChessPlay.ChessBoard.Apply` | crates/ac-core/src/chess.rs:620-660 | The whole new position after a plan: squares, promotion, the castled rook, the en passant chance. |
| `ChessPlay.ChessBoard.IsCheckmated` | crates/ac-core/src/chess.rs:573-606 | The shortcut test as written: king steps, then answers to the first attacker only. |
| `ChessPlay.ChessBoard.MakeMove` | crates/ac-core/src/chess.rs:392-405 | A refused move changes nothing at all; an accepted one is made, passes the turn, and reports its kind, promotion and what it did to the other side. |
| `ChessLegal.AcceptedIffLegal` | crates/ac-core/src/chess.rs:409-538 | A move is accepted iff it is legal, said square by square: such a step, or a pawn taking in passing, that leaves no enemy piece going to the own king; or a castling with king and first rook unmoved and no check before, where the king passes and where it ends. |
| `ChessLegal.LegalMoveLeaves` | crates/ac-core/src/chess.rs:620-660 | What an accepted move leaves: the piece, a queen for a pawn on a last rank, on its new square and marked as moved, what it took gone, the rest as it was, the square a double step passed as the en passant chance. |
| `ChessLegal.CastledSquares` | crates/ac-core/src/chess.rs:636-649 | A castling takes the first piece along the rank, an own unmoved rook, to the square the king passed. |
| `ChessLegal.MoveRefusedBecause` | crates/ac-core/src/chess.rs:409-494 | A refused move that is no castling is refused for the first reason of the list that is so; "blocked" means the piece would go there were nothing in between. |
| `ChessLegal.CastlingRefusedBecause` | crates/ac-core/src/chess.rs:496-538 | And a refused castling. |
| `ChessCheck.KingOfFinds` | crates/ac-core/src/chess.rs:609-612 | The search in square order finds a king iff one stands on the board. |
| `ChessCheck.InCheckHasFirstAttacker` | crates/ac-core/src/chess.rs:379-388 | A king is in check iff the scan of checkmate finds a first attacker, and what it finds attacks. |
| `ChessMate.CheckmateIsExact` | crates/ac-core/src/chess.rs:566-606 | In check and to move, a side is called mated iff every accepted move takes the first checking pawn en passant: the one exception named, nothing else missed. |
| `ChessMate.NotMatedHasMove` | crates/ac-core/src/chess.rs:573-606 | A side in check that is not called mated has an accepted move. |
| `ChessMate.EndingCheckStopsChecker` | crates/ac-core/src/chess.rs:590-606 | A move of another piece that ends a check lands on the checker, between it and the king, or takes it en passant, so answering one checker is enough. |
| `ChessMate.CheckmateMissesEscape` | crates/ac-core/src/chess.rs:566-606 | The exception is real: a concrete position called mated in which an en passant capture is accepted. |
| `ChessPlay.ChessBoard.Standard` | crates/ac-core/src/chess.rs:296-319 | The board set up piece by piece is the opening position, White to move. |
| `ChessPlay.PlayGame` | crates/ac-core/src/chess.rs:392-405 | Whatever moves are tried on a new board, it plays the game of the rules and keeps what every game keeps. |
| `ChessGame.EveryGameKeepsInvariant` | crates/ac-core/src/chess.rs:296-319 | After any sequence of tried moves from the opening: one king each, the side that just moved not in check, unmoved pieces at home, no pawn on a last rank, a genuine en passant chance. |
| `ChessGame.CastlingShape` | crates/ac-core/src/chess.rs:496-538 | In a game, an accepted castling is one of the four standard ones: king from the e-file, unmoved rook in its corner, both squares the king crosses empty. |
| `ChessGame.RookMoveOpensNoLine` | crates/ac-core/src/chess.rs:524-538 | Bringing the corner rook to the square the king passed opens no attack on the king, though safety is tested with the rook still in its corner. |
| `ChessGame.CastledKingIsSafe` | crates/ac-core/src/chess.rs:524-538 | So the castled king really is out of check, with the rook moved. |
| `ChessGame.DoubleStepSkipsEmpty` | crates/ac-core/src/chess.rs:650-660 | After an ordinary move the en passant target is empty with an enemy pawn just past it. |
| `ChessGame.CaptureTakesEnemy` | crates/ac-core/src/chess.rs:436-494 | In a game a capture takes an enemy piece that is not a king, and only a capturing kind of move captures. |
| `ChessArmies.PlainMoverArmy` | crates/ac-core/src/chess.rs:620-660 | An ordinary move changes the mover's army by one square given up and one taken. |
| `ChessArmies.PlainEnemyArmy` | crates/ac-core/src/chess.rs:620-660 | It removes from the enemy exactly the captured piece, if any; all others stand unchanged. |
| `ChessArmies.CastlingOwnArmy` | crates/ac-core/src/chess.rs:636-649 | Castling moves the king and the rook of the side and no other piece of it. |
| `ChessArmies.CastlingEnemyArmy` | crates/ac-core/src/chess.rs:636-649 | Castling touches no enemy piece. |
| `ChessArmies.TriedLosesAtMostOneEnemy` | crates/ac-core/src/chess.rs:392-405 | Whatever is tried, the side to move keeps its number of pieces and the other loses one iff the move captures. |
| `ChessVerdict.GameVerdictIsExact` | crates/ac-core/src/chess.rs:392-405 | In every game, a move reported as plain check leaves an answer, and one reported as checkmate leaves none but the named exception. |
| `JsonParser.ParseDocument` | crates/ac-host-core/src/json.rs:139-170 | The offset-moving parser gives the value or the kind of error of the recursive reading, byte order mark and trailing text included. |
| `JsonParser.Parser.NumberText` | crates/ac-host-core/src/json.rs:330-362 | The number scanner stops where the grammar stops, and fails where it fails. |
| `JsonParser.Parser.Escape` | crates/ac-host-core/src/json.rs:400-449 | Escapes are read as by the grammar, surrogate pairs joined and lone ones refused. |
| `JsonParser.Parser.ReadObject` | crates/ac-host-core/src/json.rs:258-300 | Objects are read with duplicate names refused and depth counted. |
| `JsonSoundness.AcceptedIsAcceptable` | crates/ac-host-core/src/json.rs:139-467 | Every accepted document is a tree of at most 64 levels with distinct names and numbers of the grammar of section 6 of RFC 8259. |
| `JsonExact.AcceptsExactlyTheGrammar` | crates/ac-host-core/src/json.rs:139-467 | For every text and every tree: the reader gives that tree iff the text is one of it in the grammar of RFC 8259 over whole strings, a byte order mark and blanks around it at most, and the tree is acceptable. |
| `JsonExact.TextIsRead` | crates/ac-host-core/src/json.rs:139-467 | A text of a tree with distinct names and grammatical numbers is read as it, or refused as too deep exactly when it has more than 64 levels. |
| `JsonExact.EmptyIffBlank` | crates/ac-host-core/src/json.rs:139-170 | A document is called empty iff nothing but blanks follows its mark. |
| `JsonSoundness.ParsedNumberIsSound` | crates/ac-host-core/src/json.rs:330-362 | What the scanner takes is a number of that grammar, and exactly the text it consumed. |
| `JsonRoundTrip.DocumentReadsBack` | crates/ac-host-core/src/json.rs:608-674 | Any sound value written at any indent reads back as itself, or as too deep exactly when it has more than 64 levels. |
| `JsonRoundTrip.ReadsBackIffAcceptable` | crates/ac-host-core/src/json.rs:608-674 | For every value whatever: the writer's text parses back to it iff it has at most 64 levels, distinct names and grammatical numbers. |
| `JsonRoundTrip.RewriteKeepsTree` | crates/ac-host-core/src/json.rs:638-674 | Parsing, writing and parsing again gives the first tree. |
| `JsonRoundTrip.CharReadsBack` | crates/ac-host-core/src/json.rs:608-636 | Every character, escaped or not, in one unit or a surrogate pair, reads back. |
| `JsonRoundTrip.WrittenNumberReadsBack` | crates/ac-host-core/src/json.rs:330-362 | Every grammatical number before a terminator reads back as its own text. |
| `JsonWriter.Buffer.WriteString` | crates/ac-host-core/src/json.rs:608-636 | The appending writer adds exactly the string's text. |
| `JsonWriting.StringIsAscii` | crates/ac-host-core/src/json.rs:604-636 | A string is written in printable ASCII alone. |
| `JsonWriting.WrittenAsItself` | crates/ac-host-core/src/json.rs:604-636 | A character is written as it is iff it is printable ASCII and none of the eight that are escaped. |
| `JsonWriter.Buffer.WriteValue` | crates/ac-host-core/src/json.rs:638-674 | The appending writer adds exactly the value's text, whatever was there before. |
| `JsonWriter.WriteOut` | crates/ac-launcher-core/src/json.rs:80-132 | The launcher's writer adds, for what its value means, the same text as the host's writer. |
| `JsonWriter.LauncherFileReadsBack` | crates/ac-launcher-core/src/json.rs:80-132 | What the launcher writes, the host's parser reads back, at any level of indent. |
| `JsonWriter.IntReadsBack` | crates/ac-launcher-core/src/json.rs:92-132 | A written integer denotes that integer. |
| `DatChain.GatherChain` | crates/ac-dat/src/database.rs:241-282 | Following block links gives the recursive reading of the chain, with the same errors, and always ends, on cyclic chains too. |
| `DatChain.ReadsExactlyWhatIsLaid` | crates/ac-dat/src/database.rs:241-282 | A read of a length gives certain data iff that data is laid from the start block along the links, wherever the blocks lie. |
| `DatNode.SearchNode` | crates/ac-dat/src/btree.rs:136-159 | The loop over left, right and probe gives the recursive last-probe search. |
| `DatNode.SearchDecides` | crates/ac-dat/src/btree.rs:136-159 | In an ordered non-empty node the last-probe search finds the entry or misses at the lower bound, the child that could hold it. |
| `DatNode.EmptySearchSkipsChildZero` | crates/ac-dat/src/btree.rs:136-159 | An empty node is missed at child 1 for every id but 0. |
| `DatNode.UnpackNode` | crates/ac-dat/src/btree.rs:91-130 | A node's bytes unpack to the slots up to the first repeat, resized, and its entries, or to the same errors. |
| `DatNode.UnpackReadsBack` | crates/ac-dat/src/btree.rs:91-130 | A node laid out in bytes unpacks to what was laid out. |
| `DatContents.ChildrenOfStored` | crates/ac-dat/src/btree.rs:91-130 | The children of a stored node are its slots before the first that is zero, the fill pattern or a repeat, and with entries as many as these and one more, zero where no slot names one. |
| `DatTree.Entries.Next` | crates/ac-dat/src/database.rs:313-347 | One step of the explicit-stack walk yields the next entry or error of the recursive in-order walk, and nothing is left after an error. |
| `DatTree.Entries.Collect` | crates/ac-dat/src/database.rs:310-347 | Run to its end, the stack walk yields exactly the recursive walk up to its first error. |
| `DatTree.FindEntry` | crates/ac-dat/src/database.rs:140-151 | The descending loop gives the recursive search of the tree that stands on the disk. |
| `DatLookup.WalkIsInOrder` | crates/ac-dat/src/database.rs:310-347 | On an intact directory the walk is the in-order listing with no error. |
| `DatLookup.Listing` | crates/ac-dat/src/database.rs:155-168 | Opening and running the walk lists every entry in order. |
| `DatLookup.OrderedIffIncreasing` | crates/ac-dat/src/database.rs:310-347 | The walk of an intact directory is strictly increasing iff every node is sorted and each child lies between the entries around it. |
| `DatLookup.FindAnswersOrdered` | crates/ac-dat/src/database.rs:140-151 | On a directory ordered node by node the search finds an id iff the walk lists it, and gives the listed entry. |
| `DatReader.NodeCache.Get` | crates/ac-dat/src/cache.rs:169-178 | A node is found iff it is held, and becomes the most recent. |
| `DatReader.NodeCache.Insert` | crates/ac-dat/src/cache.rs:182-195 | A node already held wins; otherwise the oldest go until there is room within the limit. |
| `DatReader.DatFile.CachedNode` | crates/ac-dat/src/database.rs:218-228 | A node read through the cache is the node the uncached read gives, errors included. |
| `DatReader.DatFile.FindEntry` | crates/ac-dat/src/database.rs:140-151 | So a lookup through the node cache answers as the tree does, whatever the cache holds. |
| `DatReader.DatFile.GetBytes` | crates/ac-dat/src/database.rs:171-191 | The bytes of an id are its entry's chain, compressed entries refused. |
| `DatContents.ContentsAreWhatIsListed` | crates/ac-dat/src/database.rs:171-191 | On a directory in order: the contents of an id are `data` iff the listing holds an entry of that id with an even flag, a size within the file and `data` of that size laid along its chain; refused as compressed iff its flag is odd, as too large iff its size is beyond the file; not there iff nothing is listed. |
| `DatObjects.CachedAnswersUncached` | crates/ac-dat/src/collection.rs:343-386 | One cached read answers what the uncached dats answer, keeps the caches sound and within limits, and counts one hit or miss except where a portal id's directory lookup fails. |
| `DatWitness.BrokenDirectoryGoesUncounted` | crates/ac-dat/src/collection.rs:355-374 | The uncounted read is real: a high-resolution directory on disk whose root can be read and whose child cannot, a portal key in neither cache, an error and no count. |
| `DatObjects.EveryReadAnswersUncached` | crates/ac-dat/src/collection.rs:379-386 | Over every sequence of reads each answer is the uncached one. |
| `DatObjects.CachedPortalAnswers` | crates/ac-dat/src/collection.rs:360-374 | For portal ids the hit in either cache without a directory lookup is right, because the portal cache never holds an id the high-resolution dat has. |
| `DatObjects.ResolveAgreesWithPick` | crates/ac-dat/src/collection.rs:89-98 | The portal rule and the four-dat precedence name the same dat whenever either portal dat holds the id. |
| `DatObjects.FirstHoldingIsFirst` | crates/ac-dat/src/collection.rs:131-142 | Resolution names the first dat in precedence that holds the id, and none iff none holds it. |
| `DatAnswers.ReadsWhatIsStored` | crates/ac-dat/src/collection.rs:89-142 | With directories in order: an object is read as what the bytes listed under its id in its file decode to, that file being the high-resolution one for a portal object it lists; it is not there iff nothing is listed. |
| `DatAnswers.ResolvesInPrecedence` | crates/ac-dat/src/collection.rs:131-142 | An id of unknown type is in the first of high-resolution, portal, local and cell dat that lists it. |
| `DatObjects.EmptyIsSound` | crates/ac-dat/src/collection.rs:264-282 | Empty caches are sound, so the guarantee holds from opening on. |
| `DatCaches.ObjectCache.GetOrAdd` | crates/ac-dat/src/cache.rs:342-362 | A held object wins over the candidate; an oversize one is used but not kept; otherwise the oldest make room. |
| `DatCaches.CachedDats.GetPortal` | crates/ac-dat/src/collection.rs:360-374 | The portal read changes the four caches and their counters exactly as specified. |
| `DatCaches.CachedDats.Get` | crates/ac-dat/src/collection.rs:379-386 | The read on the real caches answers what the uncached dats answer and leaves the caches sound. |
| `Recency.TouchedKeepsItems` | crates/ac-dat/src/cache.rs:99-106 | Using an entry only reorders: same entries, same total size. |
| `Recency.MakeRoomDropsOldest` | crates/ac-dat/src/cache.rs:342-362 | Making room drops the oldest entries, no more than needed, and then the new one fits. |
| `Recency.OfferedStaysWithin` | crates/ac-dat/src/cache.rs:342-362 | An offer never takes the cache past its entry or byte limit. |
| `Recency.OfferDecides` | crates/ac-dat/src/cache.rs:342-362 | What an offer does in plain terms: a held item is used and becomes the newest; one beyond the limits is used and not kept; any other is the newest, the fewest of the oldest gone. |
| `Lru.Lru.Touch` | crates/ac-dat/src/cache.rs:99-106 | The stamped map with its order map acts as a plain recency list: the touched entry moves to the end. |
| `Lru.Lru.EvictOldest` | crates/ac-dat/src/cache.rs:113-121 | The smallest stamp is the head of the recency list, and its size leaves the byte total. |
| `Lru.Lru.Insert` | crates/ac-dat/src/cache.rs:123-134 | A new entry goes to the end of the list with the order map still the inverse of the stamps. |
| `TextureFlights.OneLeaderPerKey` | crates/ac-dat/src/cache.rs:514-556 | In every interleaving at most one thread leads a key at a time. |
| `TextureFlights.NobodyIsStranded` | crates/ac-dat/src/cache.rs:514-556 | A waiting follower's flight always has a leader that will still notify, and at most four steps wake the follower. |
| `TextureFlights.EveryTextureIsGenuine` | crates/ac-dat/src/cache.rs:486-556 | In every interleaving the cache stays within its limits and every texture kept or handed out is the decode of its own key. |
| `TextureAnswers.NothingIffOwnDecodeFailed` | crates/ac-dat/src/cache.rs:514-556 | In every interleaving a reader is given nothing iff the decode it made itself for that call failed, never because another's did. |
| `TextureAnswers.EveryReaderIsServed` | crates/ac-dat/src/cache.rs:514-556 | With no decode failing every reader is given what its key decodes to. |
| `SoundCache.OneDecodeAtATime` | crates/ac-audio/src/cache.rs:149-180 | In every interleaving at most one thread decodes an id at a time. |
| `SoundCache.EveryCallIsServed` | crates/ac-audio/src/cache.rs:149-199 | After any run every calling thread has a run of at most fourteen steps, all of which can be taken, after which it is served what it asked for. |
| `SoundAnswers.EveryAnswerIsTrue` | crates/ac-audio/src/cache.rs:149-207 | In every interleaving a caller is given a wave only of the id it asked for and only if there is one, told there is none only if there is none, which is remembered, and given an error only if a read failed. |
| `SoundAnswers.FoundIffThere` | crates/ac-audio/src/cache.rs:149-207 | With no failed read every caller is given the wave iff it exists. |
| `SoundAnswers.MissingIsMissing` | crates/ac-audio/src/cache.rs:149-189 | Nothing is remembered as missing that is there. |
| `SoundCache.EveryRunStaysBounded` | crates/ac-audio/src/cache.rs:209-233 | Resident bytes are the sum of the held waves and never exceed the budget. |
| `SoundAnswers.HeldFitsBudget` | crates/ac-audio/src/cache.rs:209-233 | What the held waves take as stored never exceeds the budget, and neither does their number. |
| `SoundCache.DecodedOnce` | crates/ac-audio/src/cache.rs:149-180 | In a run with no eviction, oversize wave or read error each id is decoded at most once. |
| `SoundCache.EveryCallerGetsTheSame` | crates/ac-audio/src/cache.rs:149-180 | In such a run every caller of an id is served the same outcome. |
| `SoundCache.RoomForAllIsSmooth` | crates/ac-audio/src/cache.rs:209-233 | A budget that holds every asked wave at once makes every run such a run. |
| `SoundStore.Waves.Touch` | crates/ac-audio/src/cache.rs:78-88 | The stamp map acts as a recency list. |
| `SoundStore.Waves.EvictForRoom` | crates/ac-audio/src/cache.rs:209-233 | The loop evicts the least recent waves until the new one fits the budget. |
| `SoundStore.Waves.Admit` | crates/ac-audio/src/cache.rs:209-233 | A wave already held wins, an oversize one is used unkept, otherwise it is kept within the budget. |
| `DiskModel.RenamedIsWellFormed` | crates/ac-host-core/src/layout.rs:286-293 | Renaming a tree to a free name leaves a disk in which everything lies in a folder. |
| `DiskModel.RenamedFileAlone` | crates/ac-host-core/src/layout.rs:286-293 | Renaming a file moves that file and nothing else. |
| `BesideNames.BesideName` | crates/ac-host-core/src/layout.rs:679-700 | The search ends at the first name beside a path that is free. |
| `BesideNames.CandidatesDiffer` | crates/ac-host-core/src/layout.rs:679-700 | Different numbers give different names beside a path. |
| `BesideNames.BesideIsSpelled` | crates/ac-host-core/src/layout.rs:679-700 | The names are spelled stem, `.old` and from the second on its number, extension; a dot that begins a name begins no extension. |
| `LayoutMoves.Mover.MoveItem` | crates/ac-host-core/src/layout.rs:593-673 | Wherever a move stops, whichever operation failed: the disk, in each state, still holds every file whose name and new name are no temporary ones where it was, at its new place or beside that; nothing else changes but folders on the way. With no copy finding a temporary name taken that holds of every file. Success leaves nothing at the source; with no failing operation, the way open and no folder under a temporary name it succeeds. |
| `LayoutMoves.Mover.RenameOrCopy` | crates/ac-host-core/src/layout.rs:283-311 | What is moved ends renamed as a whole, or, on another volume, copied and deleted, and each state in between keeps the same promise. |
| `LayoutMoves.Mover.MoveToFree` | crates/ac-host-core/src/layout.rs:593-600 | Onto a free place everything in the source arrives at the same place below the destination; across volumes exactly what a copy brings along, holding the same. |
| `LayoutMoves.Mover.Merge` | crates/ac-host-core/src/layout.rs:614-645 | Merging child by child, each renamed or copied, keeps the same promise and removes the emptied folder. |
| `LayoutMoves.Mover.Settle` | crates/ac-host-core/src/layout.rs:646-672 | A clash ends with the folder over a file, else the newer, under the name and the other beside it, renamed or copied there, and a duplicate dropped. |
| `LayoutMoves.SettledByTime` | crates/ac-host-core/src/layout.rs:646-672 | On one volume a settled clash ends with a folder rather than a file, else the one modified later, under the name as it was, and the other as it was beside it. |
| `LayoutMoves.RunAgain` | crates/ac-host-core/src/layout.rs:593-673 | A move stopped at any state it passes through and run again with nothing failing leaves nothing at the source, and each file of the first disk at its place or beside it, or where it was or beside that: every file on one volume or where none has a temporary name, else every file under a real name. |
| `LayoutRuns.SurvivesIffSpared` | crates/ac-host-core/src/layout.rs:283-360 | A move that goes through, merges included, keeps all contents in every state iff every copy it made found no file under a temporary name it used, up to another file that holds the same. |
| `LayoutRuns.EveryNamedFileIsHeld` | crates/ac-host-core/src/layout.rs:593-673 | In every state of a move, finished or not, what a file under a real name held is held where it was, where it was going, or beside that. |
| `LayoutRuns.WithoutTemporariesNothingIsLost` | crates/ac-host-core/src/layout.rs:593-673 | Where no file involved has a temporary name no state of a move loses anything, whatever is copied. |
| `LayoutRuns.KeptChain` | crates/ac-host-core/src/layout.rs:593-673 | The promise carries over one step after another, copies included, through names taken beside names. |
| `LayoutRuns.ChildKept` | crates/ac-host-core/src/layout.rs:630-640 | What moving a child keeps and costs is what moving its folder keeps and costs. |
| `LayoutCopy.CopyThenDelete` | crates/ac-host-core/src/layout.rs:304-312 | Copying to another volume is first a copy under way, then, from one state on, a copy made; with nothing failing and no folder in the way of a temporary name it goes through and leaves nothing at the source. |
| `LayoutCopy.CopyChecked` | crates/ac-host-core/src/layout.rs:321-360 | Every state of a copy leaves the source whole; one that goes through brings along exactly what no later temporary name cleared away, and nothing that did not read back the same. |
| `LayoutCopy.CopyOneFile` | crates/ac-host-core/src/layout.rs:339-359 | A file is copied under its temporary name and takes its own only once it reads back the same; a folder under the temporary name stops the copy. |
| `LayoutCopy.RemoveAll` | crates/ac-host-core/src/layout.rs:427-445 | Removing takes away only what is at or under the path, in every state, and all of it when it goes through. |
| `LayoutCopy.WholeUntilCopied` | crates/ac-host-core/src/layout.rs:295-312 | In every state the source is whole until its deletion begins, and by then everything brought along stands in the copy. |
| `LayoutCopy.NothingPartialHasARealName` | crates/ac-host-core/src/layout.rs:295-303 | In no state does the copy hold, under a real name, a file that is not the one it is the copy of. |
| `LayoutLosses.CopySurvivesIff` | crates/ac-host-core/src/layout.rs:304-360 | One copy that goes through keeps all contents iff, on the disk it began on: of a file, no file stood under its temporary name or another file held the same; of a folder, each file listed in its folder before the one whose temporary name it has held what some file not listed so holds. |
| `LayoutLosses.MergeLoses` | crates/ac-host-core/src/layout.rs:339-343 | The condition is needed in a merge: with "a.copying" at the destination, copying "a" there and deleting it leaves its contents nowhere. |
| `LayoutLosses.MergeIsRun` | crates/ac-host-core/src/layout.rs:286-312 | A run gets there: on that disk, with the two places on different volumes and nothing failing, moving "a" goes through and what "a.copying" held is nowhere. |
| `LayoutLosses.FolderLoses` | crates/ac-host-core/src/layout.rs:321-360 | And within one folder: listed before "a", a file "a.copying" is lost with its contents. |
| `LayoutLosses.FolderIsRun` | crates/ac-host-core/src/layout.rs:286-312 | A run gets there too, the folder being moved to another volume with nothing failing. |
| `LeftoverSweep.RemoveLeftoverCopies` | crates/ac-host-core/src/layout.rs:362-400 | In every state of the sweep only files with temporary names inside the swept folders are missing; one that goes through leaves none of them. |
| `LeftoverSweep.SweepIsExact` | crates/ac-host-core/src/layout.rs:377-400 | A sweep that goes through removes exactly those files. |
| `Migration.Migrator.Migrate` | crates/ac-host-core/src/layout.rs:177-256 | Sweep, steps, records and marker, whichever operation fails or is the last: every state is one of the sweep or follows it, with the marker saying "current" only where every step is done; a current layout is left untouched; with no failing operation and the ways open it succeeds. When it goes through every record the first step left in `game/` holds what it is rewritten to, and none names its old place any more. |
| `Migration.Migrator.RunJob` | crates/ac-host-core/src/layout.rs:480-575 | A step still to do moves what stands at its source, keeping the promise of a move in every state, or deletes the folder there, with nothing outside it touched; one that goes through is done, and so are all before it. |
| `Migration.Migrator.RewriteRecord` | crates/ac-host-core/src/layout.rs:739-766 | A record that names its old place is written anew under its temporary name, which it then loses to the record; in every state the rest stands, and a record that names none is left. |
| `Migration.Migrator.DeleteJob` | crates/ac-host-core/src/layout.rs:565-571 | Deleting an expired folder takes only what is in it, in every state, and all of it when it goes through. |
| `Migration.Migrator.WriteMarker` | crates/ac-host-core/src/layout.rs:447-459 | The marker is written under a temporary name and takes its own last; a write cut short never makes a marker. |
| `Migration.EarlierStayDone` | crates/ac-host-core/src/layout.rs:229-238 | A later step never undoes an earlier one. |
| `MigrationRuns.NamedContentsAreSafe` | crates/ac-host-core/src/layout.rs:177-256 | At every moment of a migration, stopped or not: what any file under a real name held such a file still holds, unless it stood where the migration itself does away with it (a record to be rewritten, its temporary name, an expired session folder, the marker), and a marker stands only where every step is done. |
| `MigrationRuns.SurvivesIffUnswept` | crates/ac-host-core/src/layout.rs:229-238 | Once the sweep went through and copies to other volumes cost nothing, contents are held at every moment iff some file of the first disk holds them that is neither swept nor stands where the migration does away with it. |
| `MigrationRuns.SurvivesIffUnsweptAtFirst` | crates/ac-host-core/src/layout.rs:229-238 | The same with every condition on the first disk: where nothing is copied, or every file with a temporary name is swept or done away with. |
| `MigrationRuns.UserFileIsSwept` | crates/ac-host-core/src/layout.rs:362-400 | A user's "plugins/x/files/notes.copying" and what only it held are gone before any step runs. |
| `MigrationRuns.RecordIsRewritten` | crates/ac-host-core/src/layout.rs:480-491 | A record's own bytes go: a migration of a disk with "data/install.json" naming its old place ends with the marker in place, the record in "game" rewritten, and what it held nowhere. |
| `MigrationRuns.StartAgain` | crates/ac-host-core/src/layout.rs:12-15 | A migration stopped at any moment and started again with nothing failing ends with every step done, the marker in place, no record naming its old place, and nothing lost that a file under a real name held, unless it stood where the migration does away with it. |
| `MigrationSteps.StepsArePlanned` | crates/ac-host-core/src/layout.rs:480-575 | The game folder, the files of every plugin and of every copy of one left in a hidden folder, the shared profiles, expired and unreadable session folders are steps that leave alone the sources of earlier ones, the ways to all destinations, the swept folders, the marker and the records, and bring nothing to where the migration does away with things. |
| `TemporaryNames.NearIsReal` | crates/ac-host-core/src/layout.rs:293-320 | A name a file takes by stepping aside is never a temporary one unless the first was. |
| `LayoutGate.OneTryAtATime` | crates/ac-launcher-core/src/layout_gate.rs:138-213 | In every interleaving of worker, retry and stop at most one try runs. |
| `LayoutGate.RetryWaitsForTheFailed` | crates/ac-launcher-core/src/layout_gate.rs:154-171 | A retry starts a worker only after a failure whose worker can no longer loop. |
| `LayoutGate.RetryIffFailed` | crates/ac-launcher-core/src/layout_gate.rs:154-171 | A retry is let through iff the move is shown as failed, nobody is at it and the gate is not stopped; any other changes nothing. |
| `LayoutGate.WaitingGoesOn` | crates/ac-launcher-core/src/layout_gate.rs:173-213 | In every interleaving, while the gate shows a move going on or waiting and is not stopped, some worker is at it. |
| `LayoutGate.NoTryStartsOnceStopped` | crates/ac-launcher-core/src/layout_gate.rs:141-146 | No try begins after stop. |
| `LayoutGate.StoppedForGood` | crates/ac-launcher-core/src/layout_gate.rs:141-146 | Once stop has answered that none is running, none ever runs again. |
| `LayoutGate.RunningTryGoesOn` | crates/ac-launcher-core/src/layout_gate.rs:173-213 | While a try is marked as running, some worker is in it and can step. |
| `Calendar.DateReadsBack` | crates/ac-host-core/src/status.rs:275-291 | A valid date becomes a day number and the same date again. |
| `Calendar.DayReadsBack` | crates/ac-host-core/src/layout.rs:796-804 | Every day number, before the epoch too, gives a valid date and itself again. |
| `Calendar.NextDayIsNext` | crates/ac-host-core/src/local_time.rs:516-524 | The day after a date, by month lengths and leap years, has the next day number. |
| `Calendar.DayCountIsCalendar` | crates/ac-host-core/src/status.rs:275-291 | Day 0 is the epoch and each day is followed by the calendar's next: the numbering is the calendar. |
| `ZoneRules.YearOfBrackets` | crates/ac-host-core/src/local_time.rs:526-535 | The year of a second is the one whose January 1sts bracket it, and agrees with the date conversion. |
| `ZoneRules.WeekdayInMonth` | crates/ac-host-core/src/local_time.rs:538-553 | A month, week and weekday rule gives a day of that month, on that weekday, that is the nth or the last such. |
| `ZoneRules.NthOrLastIsOne` | crates/ac-host-core/src/local_time.rs:538-553 | There is only one such day. |
| `ZoneRules.SameDateEveryYear` | crates/ac-host-core/src/local_time.rs:554-557 | A day number that skips 29 February names the same month and day in every year. |
| `ZoneRules.CountedDay` | crates/ac-host-core/src/local_time.rs:558-558 | A day number that counts it names the date that many days after January 1st. |
| `ZoneRules.DateSeconds` | crates/ac-host-core/src/local_time.rs:538-561 | Any rule date becomes midnight of the date the rule names. |
| `SessionFolders.FolderNameReadsBack` | crates/ac-host-core/src/layout.rs:808-860 | A folder name reads back to the second its session started in exactly for the years 0 to 9999, and not at all for others. |
| `SessionFolders.NumberedNameReadsBack` | crates/ac-host-core/src/layout.rs:823-860 | So does the name with a number after it. |
| `SessionFolders.ReadsExactlyNames` | crates/ac-host-core/src/layout.rs:823-860 | For every name and every moment: the name is read as that moment iff it is the moment's stamp digit by digit, alone or followed by a number in brackets. |
| `IsoTimes.ParseIso8601` | crates/ac-launcher-core/src/time.rs:25-103 | The position-advancing parser gives the declarative reading of the text. |
| `IsoGrammar.ReadsExactlyTimes` | crates/ac-launcher-core/src/time.rs:23-103 | For every text and every time: it is read as that time iff it is the text of a date, with a time of day and a zone or without, whose clock there shows the instant and the offset together. |
| `IsoGrammar.OffsetShifts` | crates/ac-launcher-core/src/time.rs:68-103 | A text with an offset is the instant of the same text with `Z`, earlier by the offset. |
| `IsoTimes.Fraction` | crates/ac-launcher-core/src/time.rs:46-61 | One to seven fraction digits are read to nanoseconds; none or more are refused. |
| `IsoTimes.TimestampReadsBack` | crates/ac-host-core/src/status.rs:252-272 | A printed timestamp reads back to the instant cut to 100 nanoseconds at offset zero exactly up to the year 9999; earlier instants print as the epoch. |
| `Codec.Writer.PackedDword` | crates/ac-bits/src/writer.rs:92-105 | Up to the limit the encoding is appended; above it the value is refused with nothing written. |
| `Codec.Writer.CompressedU32` | crates/ac-bits/src/writer.rs:110-126 | The one, two or four byte form is appended, or the value refused with nothing written. |
| `Codec.Writer.String16LBytes` | crates/ac-bits/src/writer.rs:131-140 | The length, bytes and padding are appended, or an over-long text refused with nothing written. |
| `Codec.Writer.Align` | crates/ac-bits/src/writer.rs:83-88 | The fewest zeros that reach the alignment. |
| `Codec.Reader.PackedDword` | crates/ac-bits/src/reader.rs:122-130 | The read gives the value or error, and the position after it, of the reading function. |
| `Codec.Reader.CompressedU32` | crates/ac-bits/src/reader.rs:155-167 | The same for compressed integers. |
| `Codec.Reader.String16LBytes` | crates/ac-bits/src/reader.rs:170-175 | The same for padded strings. |
| `Codec.ReadsExactlyPacked` | crates/ac-bits/src/reader.rs:122-130 | Whatever the bytes, a packed integer is read as a value ending at a position iff that value's two or four byte form stands there up to that position. |
| `Codec.ReadsExactlyCompressed` | crates/ac-bits/src/reader.rs:155-167 | The same for the one, two and four byte compressed forms. |
| `Codec.ReadsExactlyText` | crates/ac-bits/src/reader.rs:170-175 | A padded string is read iff its length and bytes stand there and the record ends at the first multiple of 4 bytes. |
| `Codec.RecordReadsBack` | crates/ac-bits/src/reader.rs:122-175 | Any record that fits reads back from the middle of any bytes, consuming exactly what was written. |
| `Codec.TextReadsBack` | crates/ac-bits/src/writer.rs:131-140 | A padded string reads back and its record is a multiple of 4 bytes long. |
| `Codec.AllReadBack` | crates/ac-bits/src/writer.rs:92-140 | Any sequence of records written one after another reads back as the same sequence, consuming exactly the bytes written. |
| `Codec.ReadIntegersFit` | crates/ac-bits/src/reader.rs:122-167 | What is read never exceeds the writers' limits, and no reading is shorter than the writer's form. |
| `Png.RunFits` | crates/ac-bits/src/png.rs:64-77 | 5552 is the longest run whose deferred sums always fit 32 bits: they fit, and one byte more may not. |
| `Png.Adler32` | crates/ac-bits/src/png.rs:64-77 | Deferring the modulo gives the byte-by-byte checksum of section 2.2 of RFC 1950. |
| `PngCrc.LookupDividesByte` | crates/ac-bits/src/png.rs:85-110 | One table lookup equals eight steps of bitwise polynomial division. |
| `PngCrc.Crc32.constructor` | crates/ac-bits/src/png.rs:86-103 | Every table entry is its index shifted through eight division steps. |
| `PngCrc.Crc32.Update` | crates/ac-bits/src/png.rs:105-110 | Feeding bytes through the table divides exactly their bits. |
| `PngCrc.ChunkCrc` | crates/ac-bits/src/png.rs:30-40 | A chunk's checksum is that of its kind and data together (section 3.4 of RFC 2083). |
| `PngFile.ZlibStored` | crates/ac-bits/src/png.rs:42-61 | The loop writes the header, the stored blocks and the checksum. |
| `PngFile.ZlibReadsBack` | crates/ac-bits/src/png.rs:42-61 | Decoding the stored blocks (section 3.2.4 of RFC 1951) gives back the data for every length. |
| `PngFile.ChunkReadsBack` | crates/ac-bits/src/png.rs:30-40 | A chunk of any data reads back, its length and checksum agreeing, iff the data is shorter than 2^32 bytes. |
| `PngFile.EncodeRgba` | crates/ac-bits/src/png.rs:7-28 | The encoder writes signature, header, image data and end. |
| `PngFile.PngReadsBack` | crates/ac-bits/src/png.rs:7-28 | For any width, height and bytes given, a reader of PNG files gets back width, height and the pixels of whole rows iff they pass a test of their own: bytes enough for the rows, a pixel in each row and a stream below 2^32 bytes; otherwise it gets nothing. |
| `DecimalText.AddOne` | crates/ac-core/src/text.rs:195-222 | The ripple through nines adds one, carry out included. |
| `DecimalText.CutRounds` | crates/ac-core/src/text.rs:190-222 | Looking at the first dropped digit rounds to nearest, halves away from zero. |
| `DecimalText.Rounded` | crates/ac-core/src/text.rs:183-228 | The digit list and exponent after rounding stand for the nearest millionth, through carry and below-resolution cases. |
| `DecimalText.FormatUpToSixDecimals` | crates/ac-core/src/text.rs:183-256 | From any digits and exponent the text denotes exactly that decimal rounded to six places, with no trailing zero and no extra leading zero. |
| `DecimalText.ShownOnce` | crates/ac-core/src/text.rs:183-256 | A sign and a number of millionths have one such text, so nothing else could be printed. |
| `Voices.RetailDecides` | crates/ac-audio/src/voices.rs:31-43 | The retail ring refuses iff every voice is busy at no lower priority, and cuts a playing voice only when all are busy and its priority is lower. |
| `Voices.RetailTakesNearest` | crates/ac-audio/src/voices.rs:31-43 | Round the ring from the cursor none before the voice taken would have done: each is busy or, with no voice free, of no lower priority. |
| `Voices.OldestOfOneWave` | crates/ac-audio/src/voices.rs:93-121 | The loop answers iff the wave is at its cap, with the oldest playing copy, the first round the ring of those equally old. |
| `Voices.Acquire` | crates/ac-audio/src/voices.rs:68-91 | A claim answers as specified: the oldest copy at the cap, else the retail ring. |
| `Voices.CutOnlyWhenAllowed` | crates/ac-audio/src/voices.rs:68-121 | A playing voice is cut only as the oldest copy of a wave at its cap, or when the whole ring is busy and its priority is strictly lower. |
| `Voices.ClaimKeepsCap` | crates/ac-audio/src/voices.rs:68-121 | A claim never takes a wave's playing voices past the cap. |
| `VoicePools.VoicePool.MakeClaim` | crates/ac-audio/src/voices.rs:220-261 | A claim gives the chosen voice to the request and moves the cursor, and otherwise changes nothing. |
| `VoicePools.ClaimGives` | crates/ac-audio/src/voices.rs:220-261 | The voice claimed speaks for the request through the mixer slot it had, at the authored priority only where options let it count; the others stand and the next search begins after it. |
| `VoicePools.VoicePool.ApplyOptions` | crates/ac-audio/src/voices.rs:264-286 | Resizing retires the last voices or takes sources for new ones, and keeps the cursor in the ring. |
| `VoicePools.Engine.ApplyMixerOptions` | crates/ac-audio/src/engine.rs:250-266 | Every retired source is stopped and returned, and the engine's stock stays whole. |
| `VoicePools.Engine.AssignSources` | crates/ac-audio/src/engine.rs:65-77 | Each starting voice gets a source of its own. |
| `VoicePools.ResizeKeepsPermutation` | crates/ac-audio/src/engine.rs:250-266 | Voice sources and free sources stay a permutation of 1 to 64 through every resize. |
| `VoicePools.CapIsKept` | crates/ac-audio/src/voices.rs:220-261 | Over every run with fixed settings the playing voices of one non-zero wave never exceed a non-zero cap. |
| `VoicePools.RetailNeverCuts` | crates/ac-audio/src/voices.rs:220-286 | A pool that has only ever been retail never cuts a playing sound. |
| `EngineGates.GatedEngine.PlayUiWave` | crates/ac-audio/src/engine.rs:302-319 | A refused sound changes nothing; one given a voice passed its gate and is remembered as the kind it was asked for, though with a mixer gone unnoticed the voice is given and nothing starts; with a voice free only the gate decides. |
| `EngineGates.GatedEngine.SuspendWorldAudio` | crates/ac-audio/src/engine.rs:447-457 | Exactly the voices not recorded as interface ones are vacated and their mixer slots stopped. |
| `EngineGates.GatedEngine.PlayThenChange` | crates/ac-audio/src/engine.rs:302-319 | A sound of the interface call followed by a world change sounds after it iff its gate let it start, whether or not it was an interface sound. |
| `EngineGates.GoesOnIffUi` | crates/ac-audio/src/voices.rs:288-296 | Of the voices sounding at a world change exactly those started by the interface call, an interface sound or not, go on; world and ambient sounds, the centred ambient bed included, stop. |
| `EngineGates.SparesInterfaceOnlyIffNoCue` | crates/ac-audio/src/engine.rs:302-305 | A world change leaves interface sounds and no others playing, as documented, iff no sound that came through the interface call without being an interface one is sounding. |
| `EngineGates.CueSoundsOn` | crates/ac-audio/src/engine.rs:302-319 | The documented rule fails: a portal cue on a new engine sounds on after a world change. |
| `MixerProtocol.PlayingIsQueuedOrSounding` | crates/ac-audio/src/mixer.rs:58-108 | In every interleaving, while connected, a slot counts as playing iff its latest Play is still queued or is the voice sounding there. |
| `MixerProtocol.EveryRunBalances` | crates/ac-audio/src/mixer.rs:191-262 | Voices started are always those cut, finished and active together. |
| `MixerProtocol.SoundsItsLength` | crates/ac-audio/src/mixer.rs:238-262 | Left alone, a sound is heard for exactly its frames however they are cut up, then ends once and is reported. |
| `MixerEnds.MixerLink.StartPlaying` | crates/ac-audio/src/mixer.rs:58-69 | Playing takes a new generation and queues one command, or notices the mixer is gone. |
| `MixerEnds.MixerLink.StillPlaying` | crates/ac-audio/src/mixer.rs:84-87 | The answer of the protocol's playing test. |
| `MixerEnds.Mixer.Apply` | crates/ac-audio/src/mixer.rs:191-223 | One command changes the voices and counts as the protocol's step. |
| `MixerEnds.Mixer.Render` | crates/ac-audio/src/mixer.rs:238-262 | Rendering takes every queued command and then mixes every slot. |
| `MixerEnds.RenderIsRun` | crates/ac-audio/src/mixer.rs:238-262 | So one rendering is a run of protocol steps, and all that holds over runs holds of it. |
| `Ambient.FirstExists` | crates/ac-audio/src/ambient.rs:392-399 | Deadlines of different ages are totally ordered by time and age, so a heap of them has a first. |
| `Ambient.Scheduler.Track` | crates/ac-audio/src/ambient.rs:445-457 | A sound is tracked once, under one index. |
| `Ambient.Scheduler.EndRebuild` | crates/ac-audio/src/ambient.rs:495-515 | Exactly the newly audible, unqueued sounds are set going, first to last, each with one new deadline its interval from now, and every deadline still has its one instance. |
| `Ambient.Scheduler.Tick` | crates/ac-audio/src/ambient.rs:518-533 | The tick ends, takes exactly the deadlines before now in order of time and age, fires each instance at most once, gives each that fired a new deadline its interval from now and leaves none before now. |
| `Ambient.TakenAreDistinct` | crates/ac-audio/src/ambient.rs:518-533 | Deadlines taken in order name each instance once. |
| `StatusLines.EveryLogIsSound` | crates/ac-host-core/src/status.rs:482-678 | For every sequence of calls and every pattern of write failures: a disconnected between any two connected, one exited at most and last, never while connected, one diagnostic at most between successful writes. |
| `StatusLines.HandleIsSound` | crates/ac-host-core/src/status.rs:482-678 | Each call keeps that. |
| `StatusLines.EveryCallIsWritten` | crates/ac-host-core/src/status.rs:482-678 | With no failing write each accepted call adds exactly its own line, after one that closes an open connection where it must, and the writer then knows what the call said. |
| `StatusLines.EveryRunIsWritten` | crates/ac-host-core/src/status.rs:482-678 | And a run of calls the lines of its calls one after another. |
| `StatusLines.NothingAfterTheEnd` | crates/ac-host-core/src/status.rs:631-643 | After close or exited no call writes or even tries. |
| `StatusLines.StatusWriter.Receive` | crates/ac-host-core/src/status.rs:482-678 | The writer's fields and log after any call are those of the step function. |
| `StatusLines.StatusWriter.SessionEnded` | crates/ac-host-core/src/status.rs:598-628 | Exited closes an open connection first and is not written when that fails. |

## Left out

- ChessMate.CheckmateIsExact: assumes what every game gives (one king for the side to move, both kings there, a pawn just past the skipped square, the king not on that square); on boards set up by hand with `place` or `restore_squares` it says nothing. `ChessVerdict.GameVerdictIsExact` needs no such assumption.
- Chess `place`, `restore_squares` and snapshots from the network: they can set up boards no game reaches, and break the game's invariants.
- JSON line and column positions, message texts, UTF-8 decoding (text is a sequence of characters here) and the typed readers of values.
- DatLookup.FindAnswersOrdered: assumes the directory is intact and ordered node by node, and gives inner nodes at least one entry.
- DatTree.FindEntry: the directory is a finite tree whose inner nodes have entries; `find_entry` has no check for cycles and would not end on one.
- DatContents.ContentsAreWhatIsListed: assumes the directory is opened, intact and ordered node by node; of a chain that does not hold the whole size it says only that the file is not read.
- DatAnswers.ReadsWhatIsStored: assumes the directories are intact and ordered; which error a damaged file gives is not said.
- JsonExact.AcceptsExactlyTheGrammar: which kind of error a refused text gets is said only for blank and for too deep ones.
- LayoutMoves.SettledByTime: on one volume; a copy to another keeps times only as far as setting them works.
- ChessLegal.CastledSquares: says nothing of the squares when the rook met first stands where the king goes, which no game from the opening reaches.
- MixerProtocol.SoundsItsLength: a sound is so many output frames; how many a wave gives at its rate is not modelled.
- DatReader.DatFile.FindEntry: the same finite tree as `DatTree.FindEntry`.
- DatReader.DatFile.GetBytes: the same finite tree as `DatTree.FindEntry`.
- DatObjects.CachedAnswersUncached: decoding is any fixed function of the bytes; size estimates are any fixed function of the object.
- Memory-mapped reading in longer runs, the file headers and the iteration record of a dat file.
- TextureFlights.OneLeaderPerKey: claims one leader at a time, not one decode ever, because the cache is not looked at again after the lock on the flights.
- SoundCache.DecodedOnce: holds for runs with no eviction, oversize wave or read error; `SoundCache.RoomForAllIsSmooth` says which budgets give such runs.
- Weak memory ordering, poisoned locks and panics inside decoders: each lock-protected block is one step.
- Clocks, stamps, generations and byte counts that the program keeps in 64 bits are unbounded here.
- LayoutMoves.Mover.MoveItem: no symbolic links or junctions, so no test for two names of one place and no check for cycles while merging or copying; success with no failing operation assumes no file on the way to the destination and, where something is copied, no folder under a temporary name, which is what makes a copy fail.
- LayoutMoves.Mover.Merge: the same, no links or junctions and no test for two names of one place.
- LayoutMoves.RunAgain: where something is copied to another volume, says nothing of files under temporary names; `LayoutRuns.SurvivesIffSpared` says what becomes of those.
- DiskModel.RenamedIsWellFormed: is about the rename alone; copying across volumes is `LayoutCopy.CopyThenDelete`.
- DiskModel.RenamedFileAlone: is about the rename alone; copying across volumes is `LayoutCopy.CopyThenDelete`.
- LayoutCopy.CopyThenDelete: file times are copied as far as that works and are not part of what is promised; permissions are not modelled; a folder's listing fails as a whole.
- LeftoverSweep.RemoveLeftoverCopies: telling a folder from a file does not fail here.
- Migration.Migrator.Migrate: takes the list of steps as given instead of listing folders between them, and what a record is rewritten to as any function of what it holds; the locks held meanwhile are not modelled.
- MigrationSteps.StepsArePlanned: macro logs, and session folders that can be read and so are renamed to their server and character, are such steps too, but not in this list.
- MigrationRuns.NamedContentsAreSafe: contents are not followed where the migration itself does away with them, which is read off the first disk: `MigrationSteps.DoneAway` lists the places. What a stopped run still holds there is not said.
- MigrationRuns.SurvivesIffUnswept: what stands only where the migration does away with it counts as not held from the start, so nothing is said of how long a run still holds it; the copies of its steps are those logged in the run, and `MigrationRuns.SurvivesIffUnsweptAtFirst` has no such condition.
- MigrationRuns.StartAgain: nothing is said of contents that stood where the migration does away with them.
- LayoutRuns.SurvivesIffSpared: of a merge that makes several copies the condition is on the copies made, each seen on the disk it began on; `LayoutLosses.CopySurvivesIff` has it on the first disk for one copy.
- LayoutGate.StoppedForGood: what a try does is not part of the gate; its end is a free choice.
- Reading zone files, parsing rule strings and choosing the offset at an instant (`Zone::utc_offset`, `Rule::utc_offset`).
- IsoTimes.TimestampReadsBack: instants before the epoch print as the epoch, and the statement says so; fractions finer than 100 nanoseconds are cut.
- The floating-point step before the digit list of `format_up_to_six_decimals`, durations and integer parsing.
- VoicePools.CapIsKept: with settings that stay as they are; a lowered cap does not silence voices already past it.
- EngineGates.GatedEngine.PlayUiWave: whether a sound is loud enough and playable is taken as given; volumes, panning, sample mixing, silencing an owner's sounds and the gain command's effect are not modelled.
- MixerProtocol.PlayingIsQueuedOrSounding: assumes the mixer is still there; once it has gone, noticed or not, nothing is said.
- Ambient.Scheduler.Tick: the chance of playing, volumes, directions and positions are not modelled; play intervals are any non-negative reals.
- StatusLines.EveryLogIsSound: the text of a line is not modelled, only which event it reports.
- Credentials, process counting, settings, command grammar, wire enumerations, icons, redirects and other tables: easy or finite.
