# A verified model of the game server's core logic

The server keeps a world of items, creatures and players.  This project models eight of its pieces in
Dafny, each in the form the server gives it (classes with fields updated in place, loops, queues), and
proves what those pieces are for.

| piece | files | main results |
|---|---|---|
| node files | `NodeFormat`, `NodeRoundTrip`, `NodeWriter`, `FileLoader`, `FileCache`, `BitMask` | a written tree is rebuilt exactly if an explicit condition on its node types holds; the three-block cache behaves like a plain file |
| decay wheel | `DecayWheel`, `DecayGame` | every item is in one place; it fires at an exact tick, for every duration and every interleaving |
| containers | `Containment`, `ContainerEffects`, `ContainerGame`, `ContainerWalk`, `ContainerIteration` | a forest with truthful weight caches under every operation; moves conserve items of every type, keep stacks and limits; the iterator is breadth-first and meets everything once |
| money and trade | `Money`, `MoneyGame`, `MoneyWalk`, `ContainerWealth`, `ContainerMoney`, `Trade`, `TradeGame` | paying from a tree of containers takes the cheapest stacks that are enough, leaves all else in place and costs exactly the amount; the partner, offer and registration invariants hold over every run |
| dispatcher | `Dispatcher` | exactly once, in order, no missed signal, and exactly when `stop()` takes effect |
| conditions | `ConditionCommon`, `DamageList`, `ConditionFormat`, `ConditionRoundTrip`, `ConditionLayout`, `ConditionStream`, `ConditionLedger`, `CreatureConditions` | exact sums of damage lists; storing and loading rebuilds every condition; all changes to speed, skills and stats cancel exactly |
| creature routing and thinking | `Route`, `CreatureMind` | routes are always walkable; who does not think does nothing; who thinks will be asked again, and exactly how often |
| combat areas | `CombatShapes`, `CombatAreas` | turned copies are exact; reflected copies are exact only for square areas; the list of squares is the area clipped to the map |

`Wrappers` holds the option type, `Arithmetic` absolute values, minima and maxima.  How to read the
imperative parts: an object's fields are collected in a snapshot (`State()`, `Value()`, `Position()`,
`Contents()`), each method is proved to turn one snapshot into another one given by a function, and the
properties are proved about those functions.

## Where the code does not do what one would expect

Each of these is proved, with the exact condition under which the code does meet the property.

- Node types are escaped by the writer and read raw by the parser.  A tree is rebuilt if and only if every node
  type is below 0xFD, or is 0xFD and the first property byte that is not 0xFD exists and is below 0xFD
  (`NodeRoundTrip.RoundTrip`, `NodeRoundTrip.SpecialKindIsLost`).
- A cache block can have a size that is not a power of two; its blocks then do not start at multiples of the size
  (`FileCache.UnalignedBlocks`), and reads are right all the same.
- The firing time of a decaying item is off by at most a second unless its duration is at least 16 s and leaves
  15.5 s or more over whole rounds (`DecayWheel.Drift`).
- A damage list sums to its amount exactly if 1 + 2 + ... + start is at most the amount
  (`DamageList.GenerateDamageList`); the start value the server chooses on its own is good up to 760, and for 780
  (`DamageList.DefaultStartExact`).
- Paying more than 2^32 - 1 without having it can take everything and still fail
  (`MoneyGame.FailureTakesAll`, `MoneyGame.FailureExample`, `ContainerMoney.RemoveMoney`).
- A player without an offer who accepts a trade leaves the trade broken (`Trade.AcceptSafeExactly`,
  `Trade.AcceptWithoutOfferBreaks`).
- A `stop()` between the dispatcher's test of its state and its taking of the lock is lost
  (`Dispatcher.StopSucceedsExactly`, `Dispatcher.StopInWindowIsLost`, `Dispatcher.WindowIsReachable`).
- Directions make a walkable route exactly if none is NONE and none leads over the edge of the coordinates
  (`Route.StepsMakeChain`, `Route.NoChainExamples`).
- A creature that stops and starts to think keeps one think call under way exactly if it remembers that call and the
  call still waits in the scheduler; otherwise there are two (`CreatureMind.Creature.Restart`,
  `CreatureMind.Creature.RestartOfOne`).  Right after it began to think a creature remembers no call
  (`CreatureMind.RestartAtOnce`); and a call that the scheduler has handed to the dispatcher is remembered but can no
  longer be called off (`CreatureMind.RestartAfterHandOver`).  As every call puts one in its own place, two stay two
  (`CreatureMind.Creature.RunDispatched`, `CreatureMind.Creature.RunScheduled`).
- Mirrored and flipped areas count the centre from the wrong side: they are reflections exactly if the area is
  square or covers nothing (`CombatShapes.MirroredIffSquare`, `CombatShapes.FlippedIffSquare`,
  `CombatShapes.FlippedAndMirroredIffSquare`); a row of two squares is not reflected
  (`CombatShapes.ReflectionExamples`).
- Properties are copied past their buffer exactly if they are more than 1024 bytes longer than it; for a new loader
  that begins with 2049 bytes (`FileLoader.FileLoader.GetProps`).
- A cached read that begins in the file and goes beyond its end never ends
  (`FileCache.FileReader.ReadBytes`, `FileCache.FileReader.ReadCached`).
- A list draws its area inside the matrix exactly if it covers nothing after its last whole row, and its copies can be
  turned exactly if the centre it marks is not beyond the square that holds the area (`CombatAreas.CreateArea`,
  `CombatAreas.TurnableExactly`, `CombatAreas.CombatArea.SetupArea`, `CombatAreas.StrayExamples`).
- A new haste takes over from an old one even if it ends earlier, unless the old one lasts for ever; skills and stats
  last as long as the longer of two conditions (`ConditionLedger.SpeedTakesOver`, `ConditionLedger.RefreshedLasts`).
- An empty stack put on a slot of a full container, and finding no stack of its type there, is let in and becomes one
  item too many; nothing else ever does (`ContainerGame.OverfillsExactly`, `ContainerGame.OverfilledExample`,
  `ContainerGame.Game.InternalAddItem`).

## Model

| member | source | states |
|---|---|---|
| NodeFormat.UnescapeInvertsEscape | sources/fileloader.h:118-143 | unescaping gives back what the escaping filter was fed, and what the filter writes is well escaped |
| NodeFormat.EscapeConcat | sources/fileloader.h:118-143 | escaping piece by piece is escaping the whole |
| NodeWriter.Writer.WriteData | sources/fileloader.h:118-143 | the writing loop appends the escaped bytes, or the bytes as they are |
| NodeWriter.Writer.Start | sources/fileloader.cpp:286-291 | starting a node writes an unescaped marker and an escaped type |
| NodeWriter.Writer.Props | sources/fileloader.cpp:277-284 | setting properties writes them escaped |
| NodeWriter.Writer.End | sources/fileloader.cpp:293-297 | ending a node writes an unescaped marker |
| NodeWriter.CallsWriteTree | sources/fileloader.cpp:277-297 | any nesting of start, properties in pieces, children and end writes the format of that tree |
| NodeWriter.CallsWriteForest | sources/fileloader.cpp:277-297 | the same for siblings |
| NodeRoundTrip.AcceptedSpansSound | sources/fileloader.cpp:114-220 | every property span the parser accepts, at any depth, lies in the file and is well escaped |
| NodeRoundTrip.ParseInverse | sources/fileloader.cpp:114-220 | what an accepted byte sequence looked like around each node |
| NodeRoundTrip.ParseWritten | sources/fileloader.cpp:114-220 | written trees are parsed to nodes with the same shape and types and the right spans, up to the right position |
| NodeRoundTrip.DecodeWritten | sources/fileloader.cpp:114-262 | the spans of parsed nodes unescape to the original properties |
| NodeRoundTrip.ReadBackIsWritable | sources/fileloader.cpp:114-262 | no tree outside the condition is ever rebuilt |
| NodeRoundTrip.RoundTrip | sources/fileloader.cpp:114-297 | a tree is rebuilt, shape, types and properties, if and only if its types meet the condition above |
| NodeRoundTrip.OrdinaryRoundTrip | sources/fileloader.cpp:114-297 | trees with types below 0xFD are always rebuilt, from exactly the bytes written |
| NodeRoundTrip.SpecialKindIsLost | sources/fileloader.cpp:286-291 | trees with special types that are, and are not, rebuilt |
| NodeFormat.FileExample | sources/fileloader.cpp:277-297 | a small file, byte by byte |
| FileLoader.FileLoader.ParseNode | sources/fileloader.cpp:114-220 | the loop over siblings builds linked nodes that represent what the format says, and leaves the cursor behind them |
| FileLoader.FileLoader.ParseOne | sources/fileloader.cpp:120-186 | one node: its type is read raw, its properties are skipped, its children are parsed |
| FileLoader.FileLoader.SkipToMarker | sources/fileloader.cpp:126-206 | skipping over escaped bytes stops at the next marker, or fails at the end of the file |
| FileLoader.FileLoader.ParseChildren | sources/fileloader.cpp:132-152 | children are parsed from the start marker on and hang below their node |
| FileLoader.FileLoader.NextSibling | sources/fileloader.cpp:155-196 | after a node: another one, the end of the parent, the end of the file, or an error |
| FileLoader.FileLoader.OpenFile | sources/fileloader.cpp:53-112 | opening succeeds exactly for the right header and a well-formed tree, and builds it |
| FileLoader.FileLoader.GetProps | sources/fileloader.cpp:222-262 | the buffer holds exactly the unescaped properties of the node, and has grown once if it had to; exactly when they run over it |
| FileLoader.UnescapeInPlace | sources/fileloader.cpp:238-253 | the two-index loop in the buffer equals the functional unescape |
| FileLoader.RepresentedHold | sources/fileloader.cpp:222-262 | linked nodes that represent what the parser accepts hold, at any depth, spans that can be asked for their properties and give the decoded ones |
| FileLoader.HeldIsOne | sources/fileloader.cpp:222-262 | linked nodes hold no two different lists of trees |
| FileLoader.FileLoader.OpenWritten | sources/fileloader.cpp:53-112 | opening the file written for a tree builds nodes that hold exactly that tree, for every tree that is rebuilt |
| BitMask.AndNotSplits | sources/fileloader.cpp:471-542 | masking with a number and with its complement splits a position in two, whatever the mask |
| FileCache.LowBitsAreRemainder | sources/fileloader.cpp:471-542 | for masks of low bits the masked part is the remainder |
| FileCache.BlockSizes | sources/fileloader.cpp:84-90 | which of four sizes a block has, by the size of the file; one of them is not a power of two |
| FileCache.UnalignedBlocks | sources/fileloader.cpp:84-90 | a file size for which blocks do not begin at multiples of their size |
| FileCache.FileReader.ReadByte | sources/fileloader.cpp:328-362 | the next byte of the file, and the cursor one further, across all evictions; fails exactly at the end |
| FileCache.FileReader.SafeSeek | sources/fileloader.cpp:426-444 | the cursor is at the position asked for |
| FileCache.FileReader.SafeTell | sources/fileloader.cpp:446-469 | the position before the cursor |
| FileCache.FileReader.ReadBytes | sources/fileloader.cpp:364-407 | exactly the bytes of the file at a position, over any number of blocks, and nothing else in the buffer changes; exactly when a read fails, and when it never ends |
| FileCache.FileReader.ReadCached | sources/fileloader.cpp:364-389 | the block-wise copy loop ends with the right bytes exactly for reads within the file, and exactly where it makes no progress |
| FileCache.FileReader.GetCacheBlock | sources/fileloader.cpp:471-491 | a block that holds the position, found or loaded |
| FileCache.FileReader.LoadCacheBlock | sources/fileloader.cpp:493-542 | some block is overwritten with the right stretch of the file, and all that were loaded still are right |
| FileCache.FileReader.ChooseSlot | sources/fileloader.cpp:495-516 | the block that gives way: one not loaded, else one more than two blocks away, else the first |
| FileCache.FileReader.FillSlot | sources/fileloader.cpp:521-532 | a block holds the stretch of the file from its base on |
| FileCache.FileReader.NextBlock | sources/fileloader.cpp:338-349 | at the end of a block the cursor goes on in the next without moving |
| FileCache.FileReader.Fread | sources/fileloader.cpp:493-542 | what a plain file read gives |
| DecayWheel.StartValid | sources/game.cpp:4263-4275 | starting to decay keeps every item in exactly one place |
| DecayWheel.StartItemValid | sources/game.cpp:4263-4290 | also for an item without time left, which decays at once and may start what it turns into |
| DecayWheel.CleanupValid | sources/game.cpp:5832-5844 | so does spreading the pending items over the buckets |
| DecayWheel.TickValid | sources/game.cpp:4292-4354 | so does a tick, which moves on by one bucket |
| DecayWheel.NextValid | sources/game.cpp:4263-4354 | over any run of starts, cleanups and ticks |
| DecayWheel.Unique | sources/game.cpp:4263-4354 | no item is in two buckets or twice in one |
| DecayWheel.TickTracks | sources/game.cpp:4292-4354 | an item fires when its count of ticks is down to one, and else is one tick nearer |
| DecayWheel.TickFollows | sources/game.cpp:4292-4354 | where an item is after a tick |
| DecayWheel.SweptBucketNotFilled | sources/game.cpp:4299-4348 | the sweep puts nothing new into the bucket it sweeps |
| DecayWheel.FiresWhenDue | sources/game.cpp:4292-4354 | an item in a bucket fires at exactly its due tick, whatever else happens in between |
| DecayWheel.PlacedFiresExactly | sources/game.cpp:5832-5844 | a pending item placed by a cleanup fires after 1 + D/1000 ticks below 16 s, else after 16 per round and the rounded rest |
| DecayWheel.PendingFires | sources/game.cpp:5832-5844 | a pending item fires that many ticks after it is placed, which is at the next cleanup or tick, whatever else happens |
| DecayWheel.StartedFires | sources/game.cpp:4263-4275 | an item that starts to decay with time left is scheduled and fires, in every run |
| DecayWheel.StartedOnce | sources/game.cpp:4263-4267 | a second start of a decaying item changes nothing |
| DecayWheel.StagesPassed | sources/game.cpp:4263-4290 | stages without time left are passed through to the first that has some or decays already, or to nothing |
| DecayWheel.StagesStart | sources/game.cpp:4263-4290 | an item without time left schedules the stage it comes to |
| DecayWheel.StagesFire | sources/game.cpp:4263-4290 | and that one fires |
| DecayWheel.ProductFires | sources/game.cpp:4292-4354 | what a fired item turns into is scheduled in turn and fires when its own time is over |
| DecayWheel.CancelledIsDropped | sources/game.cpp:4308-4322 | what no longer decays when its bucket comes round does not fire and is not scheduled any more |
| DecayWheel.Drift | sources/game.cpp:4292-4354 | firing is off by at most 1000 ms exactly for the durations named above |
| DecayWheel.DriftExample | sources/game.cpp:4292-4354 | a duration of almost 32 s that fires after 16 ticks |
| DecayGame.Game.StartDecay | sources/game.cpp:4263-4275 | the code enters an item, or decays it at once with all stages that have no time left, as the wheel does |
| DecayGame.Game.InternalDecayItem | sources/game.cpp:4277-4290 | what an item decays to may itself start to decay |
| DecayGame.Game.CleanUp | sources/game.cpp:5832-5844 | the loop over pending items is the cleanup of the wheel |
| DecayGame.Game.SweepItem | sources/game.cpp:4308-4346 | one item of the bucket: kept, moved on, dropped or fired |
| DecayGame.Game.SweepBucket | sources/game.cpp:4302-4348 | the loop over a bucket is the sweep of the wheel |
| DecayGame.Game.CheckDecay | sources/game.cpp:4292-4354 | the whole tick, and which items fired in which order |
| Containment.NothingContainsItself | sources/container.cpp:298-334 | in a forest the way up never comes back: every parent-chain walk ends |
| Containment.UpClosed | sources/container.cpp:140-145 | all that an item is in is on its way up |
| Containment.PropagateCoherent | sources/container.cpp:140-150 | handing a weight difference up puts right all caches above, at any depth |
| Containment.AddKeeps | sources/container.cpp:455-489 | adding an item keeps links, forest and weights |
| Containment.RemoveKeeps | sources/container.cpp:569-621 | so does taking one out |
| Containment.UpdateKeeps | sources/container.cpp:491-523 | so does changing type or count in place |
| Containment.ReplaceKeeps | sources/container.cpp:525-567 | so does putting one item in the place of another |
| Containment.NewKeeps | sources/container.cpp:33-38 | so does creating an item |
| Containment.AddShape | sources/container.cpp:455-489 | an added item comes first, and apart from weights nothing else changes |
| Containment.RemoveShape | sources/container.cpp:605-621 | what is left keeps its order, and apart from weights nothing else changes |
| Containment.ReplaceShape | sources/container.cpp:525-567 | one item is in the place of another, and apart from weights nothing else changes |
| Containment.UpdateShape | sources/container.cpp:491-523 | a changed item keeps its place, and everything its contents |
| Containment.SplitWeighs | sources/item.cpp:1171-1177 | a stack weighs as much as what it is split into, an empty one as much as one item |
| Containment.CachesTellTruth | sources/container.cpp:147-150 | in a sound world the cached weight is the sum over everything inside, recursively |
| ContainerEffects.AddGains | sources/container.cpp:455-489 | what adding changes in the counts of every type in every container |
| ContainerEffects.RemoveGains | sources/container.cpp:605-621 | what taking out changes |
| ContainerEffects.UpdateGains | sources/container.cpp:491-523 | what a change of count changes |
| ContainerEffects.MovedConserves | sources/game.cpp:1217-1242 | whatever a move does, source and target together hold the same number of every type, and no other container changes |
| ContainerEffects.RemoveShelves | sources/container.cpp:605-621 | contents keep their order when one is taken out |
| ContainerEffects.ShelvedChain | sources/game.cpp:1217-1242 | items gone and items put in front, step after step |
| ContainerGame.Game.UpdateItemWeight | sources/container.cpp:140-145 | the recursive call up the parents is the propagation |
| ContainerGame.Game.GetWeight | sources/container.cpp:147-150 | weight with contents |
| ContainerGame.Game.AddThing | sources/container.cpp:455-489 | pushes to the front, or does nothing for a slot beyond the limit; the world stays sound |
| ContainerGame.Game.UpdateThing | sources/container.cpp:491-523 | changes a held item, or nothing if it is not here |
| ContainerGame.Game.ReplaceThing | sources/container.cpp:525-567 | swaps at an existing slot, or does nothing |
| ContainerGame.Game.RemoveThing | sources/container.cpp:569-621 | takes part of a stack, the whole item, or nothing if it is not here |
| ContainerGame.Game.TakeThing | sources/container.cpp:605-621 | complete removal |
| ContainerGame.Game.IndexOfThing | sources/container.cpp:640-652 | the first index of an item, or -1 |
| ContainerGame.Game.QueryAdd | sources/container.cpp:298-334 | refuses exactly what cannot be picked up, what would contain itself at any depth, and what does not fit |
| ContainerGame.Game.ClimbsTo | sources/container.cpp:317-325 | the ancestor loop ends and finds an item exactly if it is above |
| ContainerGame.Game.QueryMaxCount | sources/container.cpp:336-378 | how much fits: a hundred per free place and the rest of a matching stack |
| ContainerGame.Game.QueryRemove | sources/container.cpp:380-396 | when and why removal is refused |
| ContainerGame.Game.QueryDestination | sources/container.cpp:398-448 | the destination of a slot |
| ContainerGame.Game.ResolveDestination | sources/game.cpp:1139-1147 | the loop ends after at most one hop, with a destination that is its own, and limits are lifted only without a hop |
| ContainerGame.DestinationSettles | sources/container.cpp:398-448 | the first destination is a fixpoint |
| ContainerGame.WhereSlotsLead | sources/container.cpp:398-448 | where every slot leads: 254 to the container around, a slot with a container on it into that, and any other nowhere else |
| ContainerGame.Game.QueryMove | sources/game.cpp:1153-1208 | the refusal, or how much will be moved |
| ContainerGame.Game.InternalMoveItem | sources/game.cpp:1124-1274 | every outcome of a move: refused without change, or exactly its share moved, counts conserved, stacks at most 100, no container over its limit, no needless place filled; what becomes of the item and of the stack at the target, and that no other item changes or changes places |
| ContainerGame.WhatMoves | sources/game.cpp:1153-1274 | in plain words when a move is refused, when all that is asked for goes, and how much of it if the target is full but for a stack |
| ContainerGame.SingleMoveShows | sources/game.cpp:1217-1250 | after a single item has moved: what every container holds, in order, and that nothing else has changed |
| ContainerGame.StackMoveShows | sources/game.cpp:1217-1250 | the same after some of a stack has moved, with what is left of it, what the other stack has, and the new stack |
| ContainerGame.ToppedTillFull | sources/game.cpp:1231-1236 | a stack takes what is put onto it until it has a hundred |
| ContainerGame.Game.MoveResolved | sources/game.cpp:1149-1274 | the same once the place is found: the outcome, and what it changes |
| ContainerGame.Game.Transfer | sources/game.cpp:1217-1242 | what is taken from one container is in the other |
| ContainerGame.Game.TransferSingle | sources/game.cpp:1217-1242 | a single item leaves one container and is the first of the other; nothing else changes |
| ContainerGame.Game.TransferStack | sources/game.cpp:1217-1242 | a stack is split and merged without loss: what is left of it, what goes onto the stack at the target, what becomes a new first stack, and that nothing else changes |
| ContainerGame.Game.Settle | sources/game.cpp:1293-1333 | a new item is merged as far as it fits and the rest put in front; exactly how many places that fills, and which items change |
| ContainerGame.Game.InternalAddItem | sources/game.cpp:1276-1336 | the refusals of adding a loose item, that the target gains all of it, how many places it fills, which items change, and exactly when the container is filled beyond its limit |
| ContainerGame.AddShows | sources/game.cpp:1293-1333 | after an item has been added: what every container holds, in order, what the stack there has, and what is new |
| ContainerGame.OverfillsExactly | sources/game.cpp:1276-1291 | what is let in without a place for it is exactly an empty stack on a slot without its like |
| ContainerGame.OverfilledExample | sources/container.cpp:336-378 | a bag for one item that ends up with two |
| ContainerGame.Game.InternalRemoveItem | sources/game.cpp:1338-1372 | the refusals of removing, and exactly what the holder loses |
| ContainerGame.OnlyContainersAbove | sources/container.cpp:298-334 | what is not a container need not be looked for above |
| ContainerWalk.WalkIsByLevels | sources/container.cpp:858-879 | a queue of containers meets items level by level |
| ContainerWalk.WalkCounts | sources/container.cpp:858-879 | and every item as often as it is inside what is in the queue |
| ContainerWalk.InsideOnce | sources/container.cpp:858-879 | what is inside a container is inside, or is, exactly one of its contents |
| ContainerWalk.WalkMeetsAll | sources/container.cpp:774-879 | a walk from a container meets all that is inside, once, level by level |
| ContainerIteration.ContainerIterator.Begin | sources/container.cpp:774-784 | an iterator has exactly that walk before it |
| ContainerIteration.ContainerIterator.AtEnd | sources/container.cpp:818-837 | it is at the end exactly if nothing is before it |
| ContainerIteration.ContainerIterator.Get | sources/container.cpp:847-851 | it gives the next item |
| ContainerIteration.ContainerIterator.Advance | sources/container.cpp:858-879 | it goes on by exactly one item |
| ContainerIteration.GetItemHoldingCount | sources/container.cpp:192-199 | the number of items inside at any depth |
| ContainerIteration.IsHoldingItem | sources/container.cpp:201-210 | true exactly if the container is among those the item is in |
| ContainerIteration.GetMoney | sources/game.cpp:1527-1568 | the queue walk gives the recursively defined worth of all things, and ends |
| ContainerIteration.CountThings | sources/game.cpp:1538-1565 | containers are put in line, other things counted |
| Money.LittleIsLeft | sources/game.cpp:1647-1665 | the greedy change leaves less than the smallest coin, so nothing if there is a coin worth one |
| Money.ChangeIsGreedy | sources/game.cpp:1647-1665 | the largest coins first: what the smaller coins come to, with what is left, is less than the next larger coin |
| Money.SortedIsFair | sources/game.cpp:1577-1620 | the map of stacks is in order of worth and holds all that is worth something |
| Money.SortedIsAll | sources/game.cpp:1590-1620 | what is worth nothing is not in the map, and all else is, as often as it is met |
| Money.InsertsBehind | sources/game.cpp:1601-1601 | a stack goes behind all that are worth no more and before the first that is worth more |
| Money.InsertKeepsOrder | sources/game.cpp:1601-1601 | the map stays in order |
| Money.EnoughIsLeast | sources/game.cpp:1626-1642 | the stacks taken pay if all would, and not one can be spared |
| MoneyGame.Cylinder.AddMoney | sources/game.cpp:1647-1665 | new stacks pay the amount as far as coins allow, with the greedy number of each coin, in the purse or on the tile; of each coin all stacks but one have 100 |
| MoneyGame.Cylinder.AddCoins | sources/game.cpp:1656-1663 | coins of one kind, in full stacks and one for the rest |
| MoneyGame.Cylinder.CollectMoney | sources/game.cpp:1577-1620 | the map in order, and the total |
| MoneyGame.Cylinder.TakeStack | sources/game.cpp:1628-1642 | one stack is taken, with change |
| MoneyGame.Cylinder.TakeMoney | sources/game.cpp:1626-1644 | the cheapest stacks are taken until the amount is paid |
| MoneyGame.Cylinder.RemoveMoney | sources/game.cpp:1570-1645 | true exactly if there is enough, for every amount; what is in the purse and on the tile afterwards |
| MoneyGame.PaidExactly | sources/game.cpp:1570-1665 | purse and tile together lose exactly the amount |
| MoneyGame.FailureTakesAll | sources/game.cpp:1623-1644 | exactly when a failed payment takes everything |
| MoneyGame.FailureExample | sources/game.cpp:1623-1644 | five coins lost to a price of 2^32 |
| MoneyWalk.CollectThings | sources/game.cpp:1584-1620 | containers are put in line, stacks worth something collected |
| MoneyWalk.CollectPurse | sources/game.cpp:1577-1620 | the stacks collected are worth all the things walked over, at any depth |
| MoneyWalk.RemoveMoneyFrom | sources/game.cpp:1570-1645 | paying from what a cylinder holds succeeds exactly if its recursively defined worth is enough, and costs exactly the amount |
| ContainerWealth.OnePrice | sources/game.cpp:1527-1568 | there is only one way to price everything: the recursively defined worth |
| ContainerWealth.AddWealth | sources/container.cpp:455-489 | adding an item makes everything around its container worth as much more, and nothing else |
| ContainerWealth.RemoveWealth | sources/container.cpp:605-621 | taking one out makes it worth as much less |
| ContainerWealth.NewWealth | sources/container.cpp:33-38 | creating an item changes no worth |
| ContainerMoney.ChainOrdered | sources/container.cpp:317-325 | of two containers around an item one is in the other |
| ContainerMoney.UpSince | sources/container.cpp:298-334 | taking stacks out and putting stacks in leaves the way up from all else as it is |
| ContainerMoney.PutCoins | sources/game.cpp:1657-1660 | a new stack goes into the container exactly if there is a place or no limit, and else onto the ground; that one is worth the more, and all else stays where it is, in its order |
| ContainerMoney.AddMoney | sources/game.cpp:1647-1665 | new stacks pay the amount with the greedy number of each coin, the largest first, all but one of each coin full; they lie in front of what the container holds, and on the ground only those made after it was full; nothing that was there is moved |
| ContainerMoney.StackPut | sources/game.cpp:1656-1663 | one more stack: what the containers hold and are worth then, and that stacks fall only when the container is full |
| ContainerMoney.AccountChain | sources/game.cpp:1570-1665 | what was taken, what was given and what is left in which order, step after step |
| ContainerMoney.MetStep | sources/game.cpp:1598-1620 | one more item is entered, put in line or passed over, and none is met twice or missed |
| ContainerMoney.GatherNext | sources/game.cpp:1593-1598 | the next container in line is opened, and none of its items is missed |
| ContainerMoney.EntersBehind | sources/game.cpp:1601-1601 | stacks of the same worth stay in the order in which they are met |
| ContainerMoney.CourseStart | sources/game.cpp:1577-1620 | the walk through the container is by levels |
| ContainerMoney.CourseStep | sources/game.cpp:1598-1620 | one item is met, and what is ahead is the rest of that walk |
| ContainerMoney.CourseNext | sources/game.cpp:1593-1598 | the next container in line is opened, and what is ahead stays the same |
| ContainerMoney.TopComesFirst | sources/game.cpp:1577-1620 | among stacks of the same worth those on top are taken first, then those in bags, then those in bags in bags |
| ContainerMoney.CollectThings | sources/game.cpp:1577-1620 | containers are put in line, stacks worth something entered in the order of their worth |
| ContainerMoney.CollectMoney | sources/game.cpp:1577-1620 | the map holds all the money in a container, at any depth, each stack once, in the order of worth and level by level; its total is the recursively defined worth |
| ContainerMoney.TakeStack | sources/game.cpp:1632-1632 | one stack leaves the container, at any depth, which is worth as much less |
| ContainerMoney.PayWith | sources/game.cpp:1628-1642 | one stack is taken, with change |
| ContainerMoney.TakeMoney | sources/game.cpp:1626-1644 | the least number of the cheapest stacks is taken until the amount is paid, and nothing else is moved |
| ContainerMoney.PayingCosts | sources/game.cpp:1570-1665 | what the stacks taken and the change come to: exactly the amount with a coin worth one, else less than the smallest coin more |
| ContainerMoney.RemoveMoney | sources/game.cpp:1570-1645 | paying from a container succeeds exactly if all the money in it is enough; which stacks leave it, where the change lies, what all costs, what is left in which order, and exactly when a failed payment takes everything |
| Trade.StartKeeps | sources/game.cpp:2592-2628 | starting a trade keeps the links, the states and the register of offers right |
| Trade.AcceptKeeps | sources/game.cpp:2630-2719 | accepting does, unless it breaks |
| Trade.AcceptSafeExactly | sources/game.cpp:2630-2719 | accepting is safe exactly if it is ignored or the player holds an offer, and exactly when it breaks |
| Trade.AcceptWithoutOfferBreaks | sources/game.cpp:2559-2719 | a run of two acceptances that breaks, after which neither side can close the trade |
| Trade.SwapSettles | sources/game.cpp:2658-2719 | every transfer is of two distinct registered items with their owners, and leaves both sides fully reset |
| Trade.TradeCompletes | sources/game.cpp:2559-2719 | offer, answer and two acceptances make the items change hands and leave the desk as it was |
| Trade.TradeCancels | sources/game.cpp:2857-2910 | breaking off an offer, by either side, leaves the desk as it was |
| Trade.StartsExactly | sources/game.cpp:2592-2628 | exactly when a start is refused, and what an accepted one does to both sides |
| Trade.CloseFrees | sources/game.cpp:2857-2910 | closing frees both sides, takes their offers off the register, and nothing else |
| Trade.CloseKeeps | sources/game.cpp:2857-2910 | closing keeps everything right and resets the player |
| Trade.StepKeeps | sources/game.cpp:2559-2910 | any call by anyone |
| Trade.RunKeeps | sources/game.cpp:2559-2910 | any run, for any number of players, when only those with an offer accept |
| TradeGame.Game.InternalStartTrade | sources/game.cpp:2592-2628 | the code is the start of the model, and says whether it is accepted |
| TradeGame.Game.PlayerAcceptTrade | sources/game.cpp:2630-2719 | the code is the acceptance of the model, outcome included |
| TradeGame.Game.Transfer | sources/game.cpp:2658-2719 | the exchange and the reset of both sides |
| TradeGame.Game.InternalCloseTrade | sources/game.cpp:2857-2910 | the code is the closing of the model |
| Dispatcher.StepKeeps | sources/dispatcher.cpp:67-201 | every atomic step keeps conservation, order and the coherence of worker, state and signal |
| Dispatcher.RunKeeps | sources/dispatcher.cpp:67-201 | over every interleaving |
| Dispatcher.ExecutionOrder | sources/dispatcher.cpp:67-132 | without urgent additions the order of taking is a prefix of the order of acceptance |
| Dispatcher.DrainedWhenStopped | sources/dispatcher.cpp:105-201 | when the worker reaches STOPPED every accepted function has been taken, exactly once |
| Dispatcher.NoMissedTask | sources/dispatcher.cpp:73-89 | a blocked worker has an empty queue |
| Dispatcher.TakenInTime | sources/dispatcher.cpp:166-201 | with anything in the queue, the worker takes the next after a known number of its own steps |
| Dispatcher.UrgentIsNext | sources/dispatcher.cpp:67-103 | an urgent task is the next the worker takes |
| Dispatcher.StopsInTime | sources/dispatcher.cpp:149-201 | a stop that takes effect leads to STOPPED after a known number of steps |
| Dispatcher.StopSucceedsExactly | sources/dispatcher.cpp:149-173 | a stop takes effect exactly outside the window between test and lock |
| Dispatcher.SelfStopSucceeds | sources/dispatcher.cpp:149-201 | a stop issued on the worker itself always does |
| Dispatcher.StopInWindowIsLost | sources/dispatcher.cpp:166-175 | inside the window the worker stays blocked |
| Dispatcher.WindowIsReachable | sources/dispatcher.cpp:135-175 | the window is reached by starting and one step |
| Dispatcher.ShutdownRunsLastTask | sources/game.cpp:226-240 | the shutdown branch runs what was queued and the last addition, in order |
| DamageList.GenerateDamageList | sources/condition.cpp:1258-1277 | a staircase from start to 1 with every value, whose sum is the amount exactly if the triangle of start is at most the amount, however ties are resolved |
| DamageList.EveryValue | sources/condition.cpp:1258-1277 | a staircase never rises, and has every value from its first to its last and no other |
| DamageList.DealValue | sources/condition.cpp:1266-1275 | how far one value is repeated |
| DamageList.CloserInIntegers | sources/condition.cpp:1271-1275 | the comparison of distances, in whole numbers |
| DamageList.ShareLeavesRoom | sources/condition.cpp:1264-1275 | what is dealt so far leaves room for one of each smaller value |
| DamageList.DefaultStartExact | sources/condition.cpp:1068-1071 | for which amounts the default start gives an exact sum |
| DamageList.ConditionDamage.AddDamage | sources/condition.cpp:1024-1052 | rounds and ticks added, or periodic damage set, or refused |
| DamageList.ConditionDamage.AddRounds | sources/condition.cpp:1073-1075 | one round for each value of the list |
| DamageList.ConditionDamage.Init | sources/condition.cpp:1054-1078 | the list, its sum and the ticks it takes |
| ConditionRoundTrip.ReadFlatten | sources/condition.cpp:59-69 | attributes that are known in their turn are all read, up to the end tag and no further |
| ConditionRoundTrip.DamageReadsBack | sources/condition.cpp:927-1002 | damage over time, with its ticks counted anew |
| ConditionRoundTrip.SpeedReadsBack | sources/condition.cpp:1323-1404 | speed, its formula and outfits |
| ConditionRoundTrip.LooksReadBack | sources/condition.cpp:1482-1515 | outfits |
| ConditionRoundTrip.LightReadsBack | sources/condition.cpp:1634-1703 | light |
| ConditionRoundTrip.RegenerationReadsBack | sources/condition.cpp:657-725 | regeneration |
| ConditionRoundTrip.SoulReadsBack | sources/condition.cpp:795-838 | soul |
| ConditionRoundTrip.AttributesReadBack | sources/condition.cpp:373-422 | skills and stats, by the counters that say which is next |
| ConditionRoundTrip.HeaderReadsBack | sources/condition.cpp:237-276 | the five attributes all conditions begin with, and the kind they lead to |
| ConditionRoundTrip.ConditionReadsBack | sources/condition.cpp:59-276 | every kind of condition is rebuilt from exactly the bytes written |
| ConditionRoundTrip.ConditionsRoundTrip | sources/iologindata.cpp:544-556 | any list of conditions is rebuilt in order, with nothing left over |
| ConditionRoundTrip.TicksAreSum | sources/condition.cpp:960-974 | the ticks rebuilt are the sum of the intervals |
| ConditionRoundTrip.UnchangedIff | sources/condition.cpp:927-1002 | a condition comes back unchanged exactly if it is no damage condition or lasts as long as its list |
| ConditionLayout.NumberBytes | sources/fileloader.h:310-321 | numbers are stored with their lowest byte first, negative ones as their complement |
| ConditionLayout.StoredHeader | sources/condition.cpp:135-152 | the bytes all conditions begin with |
| ConditionLayout.StoredDamage | sources/condition.cpp:981-1002 | the bytes of damage over time |
| ConditionLayout.StoredRound | sources/condition.cpp:981-1002 | the bytes of each round |
| ConditionLayout.StoredSpeed | sources/condition.cpp:1384-1404 | the bytes of a speed |
| ConditionLayout.StoredLooks | sources/condition.cpp:1503-1515 | the bytes of each outfit |
| ConditionLayout.StoredLight | sources/condition.cpp:1685-1703 | the bytes of light |
| ConditionLayout.StoredRegeneration | sources/condition.cpp:708-725 | the bytes of regeneration |
| ConditionLayout.StoredSoul | sources/condition.cpp:826-838 | the bytes of soul |
| ConditionLayout.StoredAttributes | sources/condition.cpp:404-422 | the bytes of skills and stats |
| ConditionLayout.StoredNumber | sources/condition.cpp:404-422 | the bytes of each skill or stat |
| ConditionLayout.StoredOne | sources/iologindata.cpp:911-922 | header, body and an end tag, one condition after the other |
| ConditionLayout.KindsStore | sources/condition.cpp:184-276 | which types of conditions store what |
| ConditionLayout.CommonAttributes | sources/condition.cpp:71-133 | what the five attributes of the header do to a condition of any kind, wherever they come |
| ConditionLayout.UnknownEndsCondition | sources/condition.cpp:59-69 | an attribute a kind does not know ends the reading of a condition |
| ConditionLayout.CutOffEndsCondition | sources/condition.cpp:59-69 | so does a value that is cut off |
| ConditionLayout.TicksWrap | sources/condition.cpp:960-974 | added ticks wrap around like 32-bit numbers |
| ConditionStream.PropWriteStream.AddValue | sources/fileloader.h:310-321 | a value is appended, in a buffer that grows as needed |
| ConditionStream.PropStream.GetValue | sources/fileloader.h:195-204 | the next bytes, or nothing if there are too few |
| ConditionStream.LiveCondition.Serialize | sources/condition.cpp:135-152 | a condition writes its format |
| ConditionStream.LiveCondition.UnserializeProp | sources/condition.cpp:71-133 | one attribute is read and applied, or refused |
| ConditionStream.LiveCondition.Unserialize | sources/condition.cpp:59-69 | the reading loop is the reading function |
| ConditionStream.CreateCondition | sources/condition.cpp:237-276 | a condition of the right kind, or none |
| ConditionStream.LoadConditions | sources/iologindata.cpp:544-556 | all that can be read to its end is loaded |
| ConditionStream.SaveConditions | sources/iologindata.cpp:911-922 | all persistent conditions are written, each with its end tag |
| ConditionStream.StoredExactly | sources/condition.h:66-66 | exactly which conditions are stored: those with time left that do not come from fighting, and the marks of gamemasters |
| ConditionStream.SaveAndLoad | sources/iologindata.cpp:911-922 | saving and loading rebuilds every condition saved |
| ConditionLedger.SumChange | sources/condition.cpp:1425-1453 | how a total changes with one entry |
| ConditionLedger.SumErase | sources/condition.cpp:494-525 | and when an entry is dropped |
| ConditionLedger.SpeedAdds | sources/condition.cpp:1406-1423 | haste and paralysis change the speed by as much as they say and nothing else |
| ConditionLedger.PointedAdds | sources/condition.cpp:437-492 | what skills and stats a player gets, percentages included; other creatures get none |
| ConditionLedger.PointsExamples | sources/condition.cpp:437-453 | percentages in points; without percentages nothing changes |
| ConditionLedger.ScaleExactly | sources/player.cpp:712-719 | skills are counted with all other changes to them, but never below nothing, and stats without any |
| ConditionLedger.StartedLasts | sources/condition.cpp:154-167 | what begins with time to run ends when it is over; a speed of 0 is the one drawn by lot |
| ConditionLedger.RefreshedLasts | sources/condition.cpp:278-282 | skills and stats last as long as the longer of two conditions, and for ever if one does |
| ConditionLedger.SpeedTakesOver | sources/condition.cpp:1425-1453 | a new speed takes over even if it ends earlier, unless the old one lasts for ever |
| CreatureConditions.Condition.UpdatePercent | sources/condition.cpp:437-453 | percentages become points of the skills and stats they are taken of |
| CreatureConditions.Creature.GetScale | sources/player.cpp:712-719 | percentages are of skills with all changes to them, and of stats without |
| CreatureConditions.Creature.ChangeSpeed | sources/game.cpp:3734-3738 | the change is added to the variable speed |
| CreatureConditions.Creature.Apply | sources/condition.cpp:455-525 | every skill and stat changes by what the condition gives, or gave |
| CreatureConditions.Creature.StartCondition | sources/condition.cpp:424-435 | what a starting condition adds, and what it has become |
| CreatureConditions.Creature.AddNew | sources/creature.cpp:1928-1936 | a new condition is started and put last |
| CreatureConditions.Creature.EndCondition | sources/condition.cpp:494-525 | an ending one takes back exactly what it holds |
| CreatureConditions.Creature.RefreshSpeed | sources/condition.cpp:1425-1453 | a refreshed speed, and that the speed changes by the difference |
| CreatureConditions.Creature.RefreshAttributes | sources/condition.cpp:350-371 | refreshed skills and stats, with percentages of what is left without the old ones |
| CreatureConditions.Creature.RefreshCondition | sources/condition.cpp:350-371 | what a refreshed one becomes, when it changes at all, and that the numbers change by the difference |
| CreatureConditions.Creature.AddCondition | sources/creature.cpp:1913-1941 | one with the same key is refreshed in its place, else a new one is put last; keys stay unique and what is not owed to conditions is left alone |
| CreatureConditions.Creature.GetCondition | sources/creature.cpp:2036-2045 | the condition with a key, if there is one |
| CreatureConditions.Creature.RemoveConditionsOfType | sources/creature.cpp:1955-1972 | exactly those of a type end, and the numbers balance |
| CreatureConditions.Creature.RemoveConditionsOfId | sources/creature.cpp:1974-1991 | exactly those of a type and id end |
| CreatureConditions.Creature.RemoveCondition | sources/creature.cpp:1993-2005 | exactly that one ends |
| CreatureConditions.Creature.RemoveConditions | sources/creature.cpp:2017-2034 | all, or the persistent ones, end |
| CreatureConditions.Creature.ExecuteConditions | sources/creature.cpp:2047-2064 | exactly those that are over end; the others keep their order, and their ticks run down |
| CreatureConditions.Creature.Clear | sources/creature.cpp:2017-2034 | without conditions a creature is left with its own numbers, to the point |
| CreatureConditions.SpeedComesAndGoes | sources/creature.cpp:1913-2005 | while it lasts a new speed is added to the speed of a creature, and when it ends the creature is as it was |
| Route.StepsMakeChain | sources/creature.cpp:717-743 | directions give a chain of neighbouring squares exactly if every one is a step on the map |
| Route.Compass | sources/tools.cpp:801-838 | where each direction leads |
| Route.Edges | sources/tools.cpp:801-838 | coordinates wrap around at the edges of the map |
| Route.Neighbours | sources/creature.cpp:636-641 | squares are neighbours if no coordinate differs by more than one and some does |
| Route.SquaresFollow | sources/creature.cpp:730-736 | one square for each direction, each where its direction leads from the one before |
| Route.NoChainExamples | sources/creature.cpp:717-743 | directions that make no chain: none at all, and over the edge |
| Route.AfterChain | sources/creature.cpp:475-485 | from any square of a route the rest of it can be walked |
| Route.BeforeChain | sources/creature.cpp:490-501 | a route cut before a square can be walked and avoids the square |
| CreatureMind.Creature.StartRouting | sources/creature.cpp:717-743 | a route is laid if the creature thinks, and can be walked exactly if the directions are steps |
| CreatureMind.Creature.StopRouting | sources/creature.cpp:811-818 | the route is gone, and a new one wanted if someone is followed |
| CreatureMind.Creature.StartFollowing | sources/creature.cpp:697-714 | who is followed afterwards, and whether a route is wanted |
| CreatureMind.Creature.StopFollowing | sources/creature.cpp:797-808 | nobody is followed and no route is wanted |
| CreatureMind.Creature.StartWandering | sources/creature.cpp:769-789 | only who thinks wanders |
| CreatureMind.Creature.StartThinking | sources/creature.cpp:746-766 | starting puts exactly one think call under way |
| CreatureMind.Creature.StopThinking | sources/creature.cpp:821-833 | nothing is left of following, routing and wandering; a call is off exactly if it is remembered and still waits in the scheduler |
| CreatureMind.Creature.CancelTask | sources/scheduler.cpp:107-126 | a task is called off exactly if it waits in the scheduler |
| CreatureMind.Creature.HandOver | sources/scheduler.cpp:182-197 | a due task goes from the scheduler to the dispatcher, and stays remembered |
| CreatureMind.Creature.OnMove | sources/creature.cpp:446-485 | after its own move a creature goes on from where it is, if that is on its route |
| CreatureMind.Creature.OnFollowedMove | sources/creature.cpp:488-508 | the route is cut before the followed creature or dropped; exactly when a new one is wanted, and whether the creature begins to think |
| CreatureMind.Creature.CutRoute | sources/creature.cpp:490-501 | a route is cut before a square, or dropped |
| CreatureMind.Creature.OnOtherMove | sources/creature.cpp:510-515 | when another one does: whether a new route is wanted, and whether the creature begins to think |
| CreatureMind.Creature.WalkRoute | sources/creature.cpp:626-655 | on a route that can be walked the next square is a neighbour, so the broken-route branch is dead; exactly when a square is taken off, and when the route is given up |
| CreatureMind.Creature.MoveTo | sources/creature.cpp:391-412 | where the creature is after a step, and what is left of its route |
| CreatureMind.Creature.Stagger | sources/creature.cpp:681-694 | a drunken step |
| CreatureMind.Creature.StepInDirection | sources/creature.cpp:846-857 | when a step succeeds, and what is left of the route then |
| CreatureMind.Creature.Wander | sources/creature.cpp:967-992 | when wandering gets the creature on, and when it stops |
| CreatureMind.Creature.UpdateMovement | sources/creature.cpp:936-964 | exactly when the creature gets on, along its route or wandering, and when the route is given up |
| CreatureMind.Creature.UpdateFollowing | sources/creature.cpp:900-933 | the route wanted is found, or given up, and no longer wanted; it can be walked if the path found is one of steps |
| CreatureMind.Creature.OnThink | sources/creature.cpp:1115-1118 | the route wanted is looked for, and then the creature gets on along it or wandering: where it is then, what is left of the route, whom it follows, and whether it wants a new route |
| CreatureMind.Creature.GoesOnExactly | sources/creature.cpp:900-964 | exactly when a creature gets on: with a route, drunk or not, and without one; and which route it has then |
| CreatureMind.Creature.Think | sources/creature.cpp:860-897 | who thinks on will be asked again, once; who is dead stops; exactly when the creature gets on, and where to; what is left of its route and whom it follows; a route that can be walked stays one |
| CreatureMind.Creature.ScheduleThinking | sources/creature.cpp:880-896 | thinking goes on exactly while it is alive and not over or there is something to think about, and then a call is under way |
| CreatureMind.Creature.RunDispatched | sources/creature.cpp:760-766 | a call by the dispatcher does what thinking does, and puts exactly one call in its place while thinking goes on and none when it stops, restarts apart |
| CreatureMind.Creature.RunScheduled | sources/scheduler.cpp:164-198 | so does one by the scheduler, which goes by way of the dispatcher, remembered or not |
| CreatureMind.WalkToTheEnd | sources/creature.cpp:626-964 | thought by thought a creature walks its whole route, one square at a time, and stands at its end |
| CreatureMind.Creature.Restart | sources/creature.cpp:746-833 | a restart adds a call exactly if the remembered one cannot be called off |
| CreatureMind.Creature.RestartOfOne | sources/creature.cpp:746-833 | one call stays one exactly if it is remembered and waits in the scheduler, and else becomes two |
| CreatureMind.RestartAtOnce | sources/creature.cpp:746-833 | two calls after a restart right after the start |
| CreatureMind.RestartAfterHandOver | sources/creature.cpp:746-833 | two calls after a restart between hand-over and run of a remembered call |
| CombatShapes.TurnedCovers | sources/combat.cpp:1230-1273 | a turned copy is the area turned about its centre; all writes are in bounds and no cell is lost |
| CombatShapes.TurnsAddUp | sources/combat.cpp:1235-1257 | quarter turns compose |
| CombatShapes.TurnsPointRight | sources/combat.cpp:1301-1322 | what points north points east, south and west |
| CombatShapes.MirroredAt | sources/combat.cpp:1208-1217 | a mirrored copy is the mirror image, shifted by as much as columns exceed rows |
| CombatShapes.MirroredIffSquare | sources/combat.cpp:1208-1217 | it is the mirror image exactly for square or empty areas |
| CombatShapes.FlippedIffSquare | sources/combat.cpp:1219-1228 | the same for flipping |
| CombatShapes.FlippedAndMirroredIffSquare | sources/combat.cpp:1390-1416 | and for the fourth diagonal |
| CombatShapes.ReflectionExamples | sources/combat.cpp:1208-1228 | an area of one row and two columns whose copies are not reflections, and what they cover instead |
| CombatAreas.Rotate | sources/combat.cpp:1230-1273 | the loops make the turned copy, unless a cell has no place in it |
| CombatAreas.TurnableExactly | sources/combat.cpp:1230-1273 | all turned copies lie in their matrices exactly if the centre is not beyond the square that holds the area, or there are no cells |
| CombatAreas.Mirror | sources/combat.cpp:1208-1217 | the loops make the mirrored copy |
| CombatAreas.Flip | sources/combat.cpp:1219-1228 | the loops make the flipped copy |
| CombatAreas.CreateArea | sources/combat.cpp:1276-1299 | the matrix a list draws row by row; exactly which lists cover a square outside it |
| CombatAreas.StrayExamples | sources/combat.cpp:1276-1322 | a list that covers a square outside, and one whose centre is too far out for its copies |
| CombatAreas.DrawnIsSensible | sources/combat.cpp:1276-1299 | cells and centre are within the area |
| CombatAreas.CenterIsLast | sources/combat.cpp:1276-1299 | of several marks of a centre the last one counts |
| CombatAreas.DrawnExample | sources/combat.cpp:1276-1299 | an area of two rows, cell by cell |
| CombatAreas.CombatArea.SetupArea | sources/combat.cpp:1301-1322 | which copy serves which direction; exactly for which lists all copies can be made |
| CombatAreas.CombatArea.SetupExtArea | sources/combat.cpp:1390-1416 | which copy serves which diagonal; exactly for which lists |
| CombatAreas.LeadsThere | sources/combat.h:225-250 | the area used is the one for the direction that leads from origin to target |
| CombatAreas.HitExactly | sources/combat.cpp:1160-1187 | a square is hit if it lies as far from the target as some cell of the area from its centre |
| CombatAreas.CombatArea.GetList | sources/combat.cpp:1143-1191 | exactly the covered squares around the target that are on the map and pass the tests, row by row and each once |
| CombatAreas.CombatArea.GetRow | sources/combat.cpp:1168-1187 | one row of them |

## Left out

- The `m_lastError` codes, files of 2 GiB and more (positions do not wrap), and reuse of a cache block's memory; blocks are values.
- What happens after properties have run over their buffer, and in a cached read that begins behind the end of the file, where the source copies from before or behind a block.
- The decay wheel treats items as values with an identity; other code that changes a duration while an item waits is not modelled.
- DecayGame.Game.SweepItem: an item that fires loses its mark there and then; the source leaves the mark to the transformation that follows (game.cpp:4326-4341, item.cpp:677-698), which may keep it when the new type has its clock stopped.
- DecayGame.Game.InternalDecayItem: the transformation itself, the removal of what turns into nothing, and their failures are left out; a row of stages without time left that comes back to the same item ends there, where the source would not end.
- DamageList.GenerateDamageList: exact arithmetic in place of floats, with ties going either way; 32-bit overflow is not modelled.
- ContainerGame.Game.UpdateThing: sets the count for every type; for fluids and things with charges the source sets those and leaves the count.
- Weights are exact integers, where the source adds doubles.
- ContainerGame.Game.QueryAdd: the question to the topmost container with FLAG_CHILDISOWNER is left out; in the source it is answered at once by containers, and tiles and players are not part of this model.
- ContainerGame.Game.InternalMoveItem: exchanging items (RET_NEEDEXCHANGE is never answered by a container) and notifications are left out; an item that is nowhere is the case of InternalAddItem, to which the source hands it with lifted limits and no slot.
- ContainerGame.Game.InternalRemoveItem: what an item does when removed is left out.
- Tiles, depots, players and other holders that are not containers; `removeItemOfType`, whose loop does not advance past a wrong subtype; reading containers from files.
- MoneyGame.Cylinder.RemoveMoney: this and `MoneyWalk` hold for any cylinder, with its money as a sequence of stacks and whether a new stack fits in it left open; `ContainerMoney` has the rest for containers.  Merging of stacks in a player's slots and 64-bit overflow of the total are not modelled.
- ContainerMoney.RemoveMoney: the tile that takes what does not fit is a container without limits that is not around or inside the one paid from; coins are stackable and can be picked up.
- TradeGame.Game.Transfer: the checks of inventory room, and with them the exchange itself, are a boolean; selling houses, notifications and script events are left out.
- Dispatcher: `waitUntilStopped`, restarting a stopped dispatcher and what the functions do; an expired one counts as taken.
- ConditionStream.LiveCondition.UnserializeProp: more than seven skill or five stat attributes are refused, where the source writes beyond its arrays; fields that are not stored (percentages, damage bounds, the end time) are not part of a stored condition.
- CreatureConditions.Creature.ExecuteConditions: which conditions other than speed and attributes go on is left open.
- CreatureConditions.Creature.StartCondition: whether conditions other than speed and attributes start is left open; percentages are exact fractions, where the source multiplies floats, and the speed that is drawn by lot is a parameter; what losing health points leads to is left out.
- CreatureConditions.Creature.RefreshCondition: what refreshing does to conditions other than speed and attributes, their ticks among it, is left open.
- CreatureMind.Creature.Think: attacking, events and executing conditions may stop and restart the thinking any number of times; what else they do is left out, as are fighting, summons and the overriding methods of monsters, players and NPCs.
- CreatureMind.Creature.CancelTask: a scheduler or dispatcher that is not running, and refuses calls, is left out; so are the times for which tasks wait.
- CombatAreas.Rotate: quarter turns are exact, where the source multiplies by rounded sines of 3.1416; sizes stay below 2^15, since the source keeps them in 16 bits.
- What the source does after a write outside a matrix; areas without rows, for which it divides by zero.
- Areas from length and spread or from a radius only make lists for the operations above.
- Sockets, protocol, Lua, XML and database code; chat, beds and house access lists; the icons of conditions.
