# Ascidia recognition engine, modelled in Dafny

Ascidia turns ASCII-art diagrams into drawings. Its engine scans the text
cell by cell, row by row, and every cell carries a `bv21` set of flags.
Every pattern class in `PATTERNS` takes its own pass over the whole text:

- at every cell it starts a new match;
- it resumes every live match of that class on the cell;
- when a match completes, its cells are claimed for good, which is what
  later passes see.

Each match is a coroutine (a Python generator). It is resumed with the
current cell, and it answers in one of three ways:

- it yields the flags to record at that cell;
- it returns, which means the match is complete;
- it raises, which means the match is rejected.

This project models:

- the positional flags (`Flags`) and the scanned grid (`Grid`);
- the helpers of the pattern base class, in both of the engine's versions.
  `PatternBase` follows `main.py`; `CorePattern` follows `core.py`, where the
  end of input is a sentinel object rather than a character.
- every matcher of `PATTERNS`, each as an explicit state machine. A
  `Step(mode, state, cell)` function returns `Yield(meta, next)`,
  `Return(final)` or `Raise(exc)`:
  - `LiteralGrammar`
  - `LineGrammar`, eight line kinds
  - `BoxGrammar`
  - `DiamondGrammar`
  - `CylinderGrammar`
  - `CornerGrammar`, square and round corners
  - `ArrowheadGrammar` and `CrowsFeetGrammar`, four directions each
  - `TinyCircleGrammar`, `SmallCircleGrammar` and `JumpGrammar`
- `Catalog`: the 27 entries of `PATTERNS` and one `Step` over all of them.
- `Lookup.MatchLookup`: the bookkeeping of live matches, a class whose
  methods update its three tables in place.
- `Driver`: the recognition loop.
  - `Driver.Pattern` is a match whose `Test` resumes its machine.
  - `Driver.Recognizer` holds the completed matches and their merged
    flags, with one method per part of the loop body.
  - `Driver.Recognize` runs one pass per pattern class.
- `Lines.SplitLines`, the `splitlines` the loop applies to the text.

`await_pos` has two forms, selected by an `AwaitMode` that every grammar takes:

- `Legacy` (`main.py:195-199`) gives up only once the scan is on a later row
  than the target.
- `Strict` (`core.py:215-221`) also gives up as soon as the scan has passed
  the target on the target's own row.

The two forms differ exactly where `PatternBase.AwaitModesCompared` says. The
difference has a visible effect; see "## Findings".

The central driver invariant is `Recognizer.Settled`. It holds after every
cell and every pass, and it says four things:

- the completed matches are distinct;
- each of them returned;
- the merged flags equal the OR of their records;
- no two records claim the same position.

A match that has left the lookup is never resumed again, and merged flags
are never cleared.

## Model

| member | source | states |
|---|---|---|
| Flags.FlagsAreSingleBits | main.py:21-42 | M_NONE is empty, and the k-th of the 21 flags is bit k alone |
| Flags.FlagsAreDisjoint | main.py:22-42 | no two distinct flags share a bit |
| Grid.BeforeIsStrictTotal | main.py:1043-1044 | the row-major scan order is irreflexive, transitive and total |
| CorePattern.IsIn | core.py:223-227 | membership holds iff the symbol is one of the set's characters; a sentinel is never in a set |
| CorePattern.Expect | core.py:205-209 | accepts (with the given flags) iff the cell is unoccupied and its symbol is in the set |
| CorePattern.SentinelsAreNeverExpected | core.py:163-173 | no character set lets expect accept a sentinel |
| CorePattern.Offset | core.py:211-213 | the result lies (x, y) away from the base position |
| CorePattern.Await | core.py:215-221 | arrived iff at the target; waiting only before it; unreachable exactly when past it or at end of input |
| PatternBase.Expect | main.py:185-189 | yields the flags iff the cell is unoccupied and holds one of the characters, otherwise rejects; never claims an occupied cell |
| PatternBase.ExpectAgreesWithSentinelForm | core.py:205-209 | the end-of-input character behaves under expect like core.py's sentinel |
| PatternBase.OffsetHere | main.py:191-193 | an offset without a base position is taken from the current cell |
| PatternBase.AwaitLegacy | main.py:195-199 | arrived iff at the target; gives up once on a later row or at end of input |
| PatternBase.Await | main.py:195-199 | under either form, a pattern arrives at exactly its target position and nowhere else |
| PatternBase.AwaitModesCompared | core.py:215-221 | both forms agree on arrival; the strict form gives up whenever the legacy one does; they differ iff the target is earlier on the current row |
| PatternBase.AwaitThen | main.py:195-199 | waiting yields M_NONE; arriving and giving up go on with the recognizer's own continuations |
| PatternBase.LegacyWaitsForPassedTarget | main.py:195-199 | at every cell past the target on the target's own row, except the end-of-input character, the legacy await keeps waiting while the strict await gives up |
| PatternBase.FeedYields | main.py:201-208 | feeding cells to a recognizer that yields on the first one is feeding the rest to its next state |
| PatternBase.ScanRest | main.py:1043-1044 | the cells after the first of a scan run still form a scan run, and the second is the scan successor of the first: the next column, or column 0 of the next row after the appended newline |
| PatternBase.TookStep | main.py:185-189 | consuming a later cell keeps every cell claimed so far, and claiming a free cell adds it to the claims |
| PatternBase.FeedKeeps | main.py:201-208 | an invariant that every resumption of a recognizer keeps, and that its return turns into a final property, holds of any completed run over consecutive scan cells, of its record and the cells it consumed |
| LiteralGrammar.Step | main.py:221-230 | a literal claims only an unoccupied cell |
| LiteralGrammar.CompletesIffEligible | main.py:221-230 | completes, claiming exactly its anchor, iff the anchor is unoccupied, not whitespace and not end of input; otherwise rejected |
| LiteralGrammar.Render | main.py:232-234 | renders its own character at its own position |
| LineGrammar.ConfigOf | main.py:729-814 | every line kind has start and middle characters; its end flags never claim a cell; the dashed kinds are exactly the four dashed classes |
| LineGrammar.Lead | main.py:697-700 | claims a start character only on an unoccupied cell |
| LineGrammar.Probe | main.py:704-714 | a probe of the next character claims only a free cell |
| LineGrammar.Step | main.py:693-719 | a line claims only unoccupied cells |
| LineGrammar.ProbeOutcomes | main.py:705-718 | three outcomes at a probe. A break at a repetition start ends the line with its end flags, then completes. A break inside a repetition rejects. An unreachable target ends the line at once |
| LineGrammar.ClaimRunAt | main.py:713-714 | a run of claims marks exactly its columns as occupied |
| LineGrammar.HorizontalNext | main.py:704-714 | after a claimed dash, a free dash one column on is claimed and continues the line |
| LineGrammar.HorizontalRunEnds | main.py:707-719 | the cell after the last dash, on the same row or the appended line break, reports the end flags, and the line completes on whatever cell comes next |
| LineGrammar.HorizontalRunFrom | main.py:703-719 | resumed inside a run of free dashes, the line claims each of them, ends after the last, and completes on the following cell even when that is on the next row |
| LineGrammar.HorizontalStart | main.py:694-700 | a free dash starts a solid horizontal line, claimed and marked as a line start |
| LineGrammar.RunRecordAt | main.py:693-716 | the flags recorded over a run: a start at the first dash, claims on the rest, an end just after |
| LineGrammar.HorizontalRun | main.py:693-719 | over n free dashes on one row, a horizontal line completes spanning exactly those dashes, with exactly that record, including a run that ends its row |
| LineGrammar.ScanInRow | main.py:1043-1044 | consecutive scan cells stay on the first cell's row, column by column, up to and including the first line break |
| LineGrammar.HorizontalRunOnScan | main.py:693-719 | on any run of consecutive scan cells starting with n free dashes, a solid horizontal line completes spanning exactly those dashes, with the end flags just after them, whatever follows |
| LineGrammar.Render | main.py:722-725 | one segment, edge to edge along the line's direction, dashed iff the kind is dashed |
| LineGrammar.HorizontalSpan | main.py:722-725 | a horizontal line spans from the left edge of its first dash to the right edge of its last |
| LineGrammar.AlongNext | main.py:705 | the position k+1 steps along a line is one step (xdir, ydir) on from the k-th, and lies k+1 steps along |
| LineGrammar.NextIndexStep | main.py:703-714 | the middle character expected after the n-th character of a line is the one the style puts at n+1, and the index cycles through the middle characters |
| LineGrammar.StepKeeps | main.py:693-719 | one resumption of any line kind keeps every character seen so far claimed in place, and the line returns only with all of them |
| LineGrammar.Recognized | main.py:693-719 | a completed line of any of the eight kinds (horizontal, vertical, both diagonals, solid or dashed) runs step by step from its start to its end, at least as long as its start characters, each cell holding the character its style puts there, claimed and free |
| BoxGrammar.RowStart | main.py:363-374 | a side row or the bottom edge claims only a free cell |
| BoxGrammar.RightWall | main.py:366-368 | the right wall claims only a free cell |
| BoxGrammar.BelowAt | main.py:380-387 | the row under the box claims only free cells |
| BoxGrammar.Step | main.py:349-388 | a box claims only unoccupied cells |
| BoxGrammar.InteriorIsNotClaimed | main.py:366-367 | while the box waits for its right wall, the interior cells are passed over with M_NONE |
| BoxGrammar.BottomEdgeNeedsASideRow | main.py:361-374 | a '+' straight under the top edge is rejected; after a side row it starts the bottom edge |
| BoxGrammar.StepKeeps | main.py:349-388 | one resumption keeps the edges and walls seen so far claimed, and a box returns only when its frame is whole |
| BoxGrammar.Recognized | main.py:349-388 | a completed box is a whole frame from tl to br, at least 3 by 3: '+' at the four corners, '-' along top and bottom, '\|' on both walls of every row between, each claimed on a free cell |
| DiamondGrammar.Bounds | main.py:261-273 | a diamond whose upper half has top+1 rows has a square (2·top+2)-cell bounding box, centred on the apex |
| DiamondGrammar.TurnAt | main.py:259-260 | the turn to the lower half claims only free cells |
| DiamondGrammar.UpperProbeAt | main.py:249-255 | the probe for another upper row claims only free cells |
| DiamondGrammar.UpperRightAt | main.py:256-258 | the right edge of an upper row claims only free cells |
| DiamondGrammar.LowerRightAt | main.py:265-267 | the right edge of a lower row claims only free cells |
| DiamondGrammar.LowerNextAt | main.py:268-271 | the next lower row claims only free cells |
| DiamondGrammar.Step | main.py:242-274 | a diamond claims only free cells, and ends only after its bottom row, with the bounds of its apex and height |
| DiamondGrammar.StepKeeps | main.py:242-274 | one resumption keeps the slashes seen so far claimed, and a diamond returns only when both halves are whole |
| DiamondGrammar.Recognized | main.py:242-274 | a completed diamond has the bounds of its apex and height, and every '/' and '\\' of its upper and lower halves is claimed on a free cell where its shape puts it |
| CylinderGrammar.RimWaitAt | main.py:306-308 | the rim claims only free cells |
| CylinderGrammar.RowStart | main.py:314-322 | a row start is accepted iff its cell is free and holds '\|', or, on any row but the first after the rim, a quote; '\|' claims the left wall and a quote starts the base |
| CylinderGrammar.WallWaitAt | main.py:316-321 | the walls claim only free cells |
| CylinderGrammar.RightWaitAt | main.py:316-318 | the right wall claims only a free cell |
| CylinderGrammar.Step | main.py:296-327 | a cylinder claims only free cells and ends only after its base, at the base's right quote |
| CylinderGrammar.StepKeeps | main.py:296-327 | one resumption keeps the top, rim, walls and base seen so far claimed, and a cylinder returns only when it is whole |
| CylinderGrammar.Recognized | main.py:296-327 | a completed cylinder from its top-left '.' to its base's right quote has a top, a rim, at least one row of walls and a base of one width of at least three columns, each character claimed on a free cell |
| CornerGrammar.Incoming | main.py:404-412 | at most one end per probe is read from the corner's own flags |
| CornerGrammar.IncomingEndsAreMarked | main.py:404-412 | the ends read are exactly the probes whose line flag is set, in an allowed direction (upward only for corners that allow it), each dashed iff its dash flag is set |
| CornerGrammar.NothingEndsAtAnUnmarkedCell | main.py:404-412 | a corner with no flags has no incoming ends |
| CornerGrammar.ProbeFrom | main.py:414-425 | outgoing probes wait with M_NONE; they return only with at least two ends, extending those found; otherwise they reject |
| CornerGrammar.Step | main.py:401-426 | a corner claims only a free cell and completes only with at least two ends |
| CornerGrammar.FewerThanTwoEndsRejects | main.py:425 | after the last probe, fewer than two ends rejects; otherwise the corner completes with exactly those ends |
| CornerGrammar.ProbeWaits | main.py:418-419 | a probe before its target waits with M_NONE |
| CornerGrammar.ProbePassed | main.py:424 | a probe whose target is unreachable is skipped |
| CornerGrammar.ProbeArrives | main.py:420-421 | a probe at its target adds an end iff the target carries its line-start flag |
| CornerGrammar.CompletedCornerJoinsTwoEnds | main.py:425-426 | however many cells it is fed, a corner completes only with at least two ends |
| CornerGrammar.RenderSquare | main.py:428-435 | one half-cell stroke from the centre per end, towards it, dashed iff that end is dashed |
| CornerGrammar.ColumnZeroCornerIsSuchAScan | main.py:1043-1044 | the text "+--\n\|\n" scans as a column-0 corner scan |
| CornerGrammar.ColumnZeroClaim | main.py:403-413 | the corner claims its '+' |
| CornerGrammar.ColumnZeroEast | main.py:414-421 | the line to the east is found as the first end |
| CornerGrammar.ColumnZeroRowZero | main.py:418-419 | the south-west probe, aimed at column -1, waits through the rest of row 0 |
| CornerGrammar.LegacyWaitsBelowColumnZero | main.py:195-199 | the legacy await keeps waiting for column -1 all along row 1 |
| CornerGrammar.ColumnZeroLegacyEnd | main.py:414-425 | at end of input the remaining probes are dropped and the corner is rejected with one end |
| CornerGrammar.ColumnZeroStrictSouth | core.py:215-221 | the strict await drops the south-west probe on row 1 and the south line is found |
| CornerGrammar.ColumnZeroStrictDone | core.py:215-221 | the strict corner completes with its east and south ends |
| CornerGrammar.LegacyRejectsCornerAtColumnZero | main.py:195-199 | with the legacy await, a '+' in column 0 joining a line east and a line south is rejected |
| CornerGrammar.StrictJoinsCornerAtColumnZero | core.py:215-221 | with the strict await, the same corner completes, joining both lines |
| ArrowheadGrammar.ProbeAt | main.py:522-530 | the probe claims only free cells |
| ArrowheadGrammar.Step | main.py:513-531 | an arrowhead claims only a free cell |
| ArrowheadGrammar.HeadNeedsItsLine | main.py:515-528 | a head is claimed only where its line ends. A flipped head completes only at the next cell along its direction, where a line starts; for a horizontal head that is the cell that resumes it |
| ArrowheadGrammar.HeadPointsIntoBox | main.py:522-529 | at the next cell along the direction, a head pointing along its line completes, pointing into a box iff it already did or that cell carries the box flag. A flipped head completes there iff a line starts there, and otherwise is rejected |
| CrowsFeetGrammar.ProbeAt | main.py:613-617 | the probe claims only free cells |
| CrowsFeetGrammar.Step | main.py:603-618 | a crow's foot claims only a free cell |
| CrowsFeetGrammar.FootJoinsLineAndBox | main.py:603-617 | claimed only on its start flag. It completes only at the next cell along its direction, on its end flag there, dashed as its line's own end says. This holds for horizontal feet, which arrive at once, and for vertical ones |
| TinyCircleGrammar.Step | main.py:821-828 | the cell before the ring goes on iff it is not a letter; the ring is claimed iff it is a free 'O'; the cell after completes the match iff it is not a letter, ending at the ring |
| TinyCircleGrammar.RingStandsApart | main.py:821-828 | completes iff a free 'O' stands between two non-letters, claiming the 'O' alone |
| SmallCircleGrammar.Step | main.py:843-855 | a small circle claims only free cells |
| SmallCircleGrammar.FirstClose | main.py:848-849 | the index of the first ')', with none before it |
| SmallCircleGrammar.CloseWithinGap | main.py:848-854 | inside the circle, completes iff the first ')' is free and within the remaining gap, spanning to it; the cells need reach only one past that ')', or the cell that rejects |
| SmallCircleGrammar.SmallCircleSpan | main.py:843-855 | completes iff a free '(' is followed within 3 cells by a free first ')', spanning from one to the other; this covers a circle at the very end of the text |
| JumpGrammar.SouthAt | main.py:887-892 | the wait below the jump claims nothing |
| JumpGrammar.EastAt | main.py:883-886 | the wait east of the jump claims nothing |
| JumpGrammar.Step | main.py:872-893 | a jump claims only a free cell |
| JumpGrammar.JumpCrossesTwoLines | main.py:872-893 | claimed only where two lines end. It moves on from east of itself only where a horizontal line starts there, with that line's dash flag. It completes only below itself where a vertical line starts. Each crossing line is dashed iff both its halves are |
| Catalog.Initial | main.py:170-173 | a fresh match belongs to the class it was created for |
| Catalog.Wrap | main.py:932-960 | lifting a grammar's outcome keeps its kind, flags and exception |
| Catalog.Step | main.py:932-960 | no matcher of any class claims an occupied cell |
| Catalog.StepKeepsClass | main.py:1046-1052 | a match stays in its class from cell to cell |
| Catalog.Drawing | main.py:210-234 | literals draw their character; lines and square corners draw their segments |
| Catalog.PatternsListEveryClass | main.py:932-960 | PATTERNS lists all 27 classes, literal text last |
| Catalog.RankOfEachEntry | main.py:932-960 | each entry of PATTERNS sits at its own rank |
| Catalog.PatternsAreDistinct | main.py:932-960 | no class is tried twice |
| Lookup.RemoveFirst | main.py:992-994 | removes one element when present, and changes nothing when absent |
| Lookup.RemoveFirstCounts | main.py:992-994 | exactly one occurrence of the element leaves the list |
| Lookup.Without | main.py:1002-1006 | keeps exactly the elements outside the removed set |
| Lookup.RemoveFirstOfDistinct | main.py:992-994 | in a list without repetitions, removing the first occurrence removes every occurrence |
| Lookup.WithoutNothing | main.py:994 | removing absent elements changes nothing |
| Lookup.WithoutAll | main.py:1002-1006 | removing every element leaves nothing |
| Lookup.WithoutTwice | main.py:1005-1006 | removing two sets one after the other removes their union |
| Lookup.WithoutKeepsDistinct | main.py:991-1000 | removal keeps a list free of repetitions |
| Lookup.AddMatchKeepsConsistent | main.py:983-984 | listing a new match keeps the three tables consistent |
| Lookup.AppendKeepsDistinct | main.py:983-984 | appending an absent match keeps the list free of repetitions |
| Lookup.AddMetaKeepsConsistent | main.py:986-989 | recording flags at a new position keeps the tables consistent |
| Lookup.RemoveKeepsConsistent | main.py:991-1000 | dropping a match everywhere keeps the tables consistent and removes it from every list |
| Lookup.RemoveKeepsAgreement | main.py:995-1000 | the occupant lists still agree with the recorded claims |
| Lookup.RemoveEveryM | main.py:995-999 | removing the first occurrence from a consistent occupant list removes it entirely |
| Lookup.RemoveMore | main.py:1005-1006 | two rounds of removals compose |
| Lookup.RemoveNone | main.py:1002-1006 | removing nothing leaves every table as it is |
| Lookup.ClearOne | main.py:1004-1006 | clearing a claimed position removes only co-occupants |
| Lookup.AllCleared | main.py:1002-1006 | once every claimed position is cleared, exactly the co-occupants are gone and those positions are empty |
| Lookup.MatchLookup.constructor | main.py:969-972 | three empty tables, consistent |
| Lookup.MatchLookup.AddMatch | main.py:983-984 | appends the match and keeps the tables consistent |
| Lookup.MatchLookup.AddMeta | main.py:986-989 | records the flags, and lists the match as an occupant iff the flags claim the cell |
| Lookup.MatchLookup.Unlist | main.py:995-999 | takes the match off the occupants of every position it claimed |
| Lookup.MatchLookup.RemoveMatch | main.py:991-1000 | removes the first listing, its flags and its occupancy; a no-op on an absent match; keeps the tables consistent |
| Lookup.MatchLookup.RemoveEach | main.py:1005-1006 | removing each listed match drops exactly those matches |
| Lookup.MatchLookup.ClearPosition | main.py:1004-1006 | clearing one claimed position removes its occupants, all co-occupants |
| Lookup.MatchLookup.ClearAll | main.py:1003-1006 | clearing every claimed position removes co-occupants only, and all of those there |
| Lookup.MatchLookup.RemoveCooccupants | main.py:1002-1006 | removes exactly the matches sharing a claimed position, leaving those positions with no occupant |
| Lines.FirstBreakFrom | main.py:1043 | the first line break at or after the index, or the end |
| Lines.FirstBreakIsFirst | main.py:1043 | no line break comes before it |
| Lines.Next | main.py:1043 | the next line starts strictly after the break and within the text |
| Lines.SplitFrom | main.py:1043 | no lines are left only at the end of the text |
| Lines.SplitLines | main.py:1043 | an empty text has no lines, and any other text has some |
| Lines.LinesHoldNoBreak | main.py:1043 | no line holds a line break |
| Lines.SplitAtNewline | main.py:1043 | a text splits at its first newline |
| Lines.JoinCons | main.py:1043 | joining a line onto more lines puts a newline between them |
| Lines.Reassemble | main.py:1043 | a line, its newline and the rest give back the text |
| Lines.JoinSplitStep | main.py:1043 | splitting at a newline then joining gives back the text |
| Lines.JoinSplitLast | main.py:1043 | the last line is the rest of the text |
| Lines.JoinSplitFrom | main.py:1043 | joining the split lines gives back the text from the index on |
| Lines.JoinSplitLines | main.py:1043 | for a text without '\r' and without a final newline, joining its lines with newlines gives it back |
| Driver.Resume | main.py:201-208 | a yield is reported; a return is StopIteration; a raise is PatternRejected; an ended generator answers StopIteration; a report never claims an occupied cell |
| Driver.Pattern.constructor | main.py:170-173 | a fresh match of its class, not finished |
| Driver.Pattern.Test | main.py:201-208 | resumes the machine; is_finished is set on StopIteration |
| Driver.Pattern.Render | main.py:210-213 | PatternStateError iff the match is not finished, otherwise its drawing |
| Driver.AccumulatedStep | main.py:1057-1058 | merging a record ORs its flags in |
| Driver.HasOr | main.py:1058 | a flag is in an OR iff it is in one of its operands |
| Driver.AccumulatedHas | main.py:1056-1058 | a merged flag is set iff some completed match recorded it |
| Driver.ExclusiveExtend | main.py:1052-1062 | a record claiming only unoccupied cells keeps the claims exclusive |
| Driver.AccumulatedGrows | main.py:1058 | merging more records never clears a flag |
| Driver.AccumulatedPrefix | main.py:1058 | later merged flags cover earlier ones |
| Driver.CoversOr | main.py:1058 | OR-ing in keeps covering |
| Driver.EvictionFreesClaims | main.py:1057-1060 | after a completion and its evictions, every live claim is still on an unoccupied cell |
| Driver.KeptReports | main.py:1053-1054 | dropping matches keeps what holds of the others |
| Driver.RecordKeeps | main.py:1061-1062 | recording a report keeps live claims free |
| Driver.ReportedLater | main.py:1044 | moving on to a later cell, every report lies behind the scan |
| Driver.MergeOne | main.py:1057-1058 | merging one more entry of a record |
| Driver.OccupiedByOne | main.py:1056-1058 | a cell is occupied iff exactly one completed match claimed it |
| Driver.Recognizer.constructor | main.py:1038-1039 | no completed matches and no flags |
| Driver.Recognizer.Absorb | main.py:1057-1058 | every entry of the record is ORed into the merged flags |
| Driver.Recognizer.Reject | main.py:1053-1054 | a rejected match leaves the lookup, which stays consistent |
| Driver.Recognizer.Enlist | main.py:1056-1058 | appends the match and merges its record, keeping the invariant |
| Driver.Recognizer.Retire | main.py:1059-1060 | removes the co-occupants, then the match itself |
| Driver.Recognizer.Evict | main.py:1059-1060 | the completed match and its co-occupants leave; the remaining claims stay free |
| Driver.Recognizer.Complete | main.py:1055-1060 | the match is appended, and the record the lookup held for it is appended to the claims and merged; it and its co-occupants leave the lookup |
| Driver.Recognizer.Record | main.py:1061-1062 | add_meta for a match that reported: the match's record gains the report at the current cell, and every invariant is kept |
| Driver.Recognizer.Poll | main.py:1052 | a report keeps the match open and claims only a free cell; StopIteration means the matcher returned |
| Driver.Recognizer.Advance | main.py:1051-1062 | one test of a live match, with its three outcomes, keeping every invariant |
| Driver.Recognizer.Open | main.py:1046-1047 | a fresh, open match with an empty record joins the end of the live list |
| Driver.Recognizer.Visit | main.py:1045-1062 | one cell: invariants kept, completions only grow, and a match dropped earlier is never resumed |
| Driver.Recognizer.ScanRow | main.py:1044-1062 | one row, cell by cell, keeping every invariant |
| Driver.Recognizer.Pass | main.py:1042-1062 | one pass keeps the invariant and never clears a merged flag |
| Driver.Recognize | main.py:1038-1062 | every completed match returned and can be rendered; the claims are exactly the completed matches' own records, in completion order; the merged metadata is those records ORed together, and no two completed matches claim the same cell |

## Left out

- SvgOutput (`main.py:47-158`) and writing the drawing to a file (`main.py:1064-1068`): output only.
- The demonstration text in `INPUT` and the `print` of each class name: these are demonstration and logging.
- Rendering geometry. It is modelled only for literals, lines and square corners. Diamonds, cylinders, boxes, the quadratic curves of round corners, arrowheads, crow's feet, circles and jumps are left out, because they need floating point and trigonometry. Their matchers, with their final fields, are modelled.
- The shape classes of `core.py` and its `START_OF_INPUT` sentinel are not part of this model. No modelled code uses them.
- Generator mechanics are left out: the priming `next()` in `__init__`, and `PatternStateError` as an exception. A generator is an explicit state. `Pattern.Render` returns `None` for `PatternStateError`.
- The entries that `defaultdict` creates when it is read are left out. `OccAt` and `MetaAt` read a missing entry as empty, which is the same observable behaviour.
- Lookup.MatchLookup.RemoveCooccupants: specified only for a lookup whose tables are consistent (`Valid`). The driver keeps that invariant at every call.
- Lookup.MatchLookup.RemoveMatch: the exact removal from the occupant lists is stated only for consistent tables. For any tables, it states the first-occurrence removal from each claimed position.
- Lines.JoinSplitLines: the round trip is proved only for texts without '\r'. `SplitLines` itself also handles '\r' and "\r\n" as Python 2 `str.splitlines` does. It does not handle the other separators that `splitlines` recognises on Unicode strings, because the engine works on byte strings.
- DiamondGrammar.Step: the column-0 failure of a diamond under the legacy await is not proved. Only the corner case is proved.
- ArrowheadGrammar.Step: the `dashed` field of an arrowhead is never set by its matcher (`main.py:503-531`), so it is always false. The model follows the code.
- BoxGrammar.Step: the interior of a box is passed over with M_NONE and is not claimed (`main.py:366-367`). The model follows the code.
- Driver.Pattern.Render: applies the base class's finished check to every class. Arrowhead, crow's-foot and jump `render` do not call it (`main.py:532-545`, `main.py:618-636`, `main.py:900-929`); their drawings are left out, so only the check's answer differs for an unfinished match of those classes.
- BoxGrammar.Recognized: states what every completed box has claimed, not the converse that every frame drawn on free cells completes. The converse is proved only for solid horizontal lines (`LineGrammar.HorizontalRunOnScan`).
- DiamondGrammar.Recognized: states what every completed diamond has claimed, not the converse.
- CylinderGrammar.Recognized: states what every completed cylinder has claimed, not the converse.
- LineGrammar.Recognized: states what every completed line has claimed; the converse is proved for solid horizontal lines only.
- Round-corner ends record `meta & dm` as an integer (`main.py:466`, `main.py:479`). The model keeps only whether it is non-zero, which is all that rendering uses.

## Findings

| source | as written | input that shows it | evidently intended | confidence | as-written member | corrected member |
|---|---|---|---|---|---|---|
| main.py:195-199 | A square corner '+' in column 0 probes south-west at column -1 on the next row. The legacy await_pos gives up on that target only on a later row or at end of input, so the south and south-east probes are never reached. The corner is rejected, though it joins a line east and a line south. | the text "+--\n\|\n" (`CornerGrammar.COLUMN_ZERO_CORNER`) | give up on a target the scan has passed on its own row, as core.py:215-221 does; the corner then completes with its east and south ends | not executed | CornerGrammar.LegacyRejectsCornerAtColumnZero | CornerGrammar.StrictJoinsCornerAtColumnZero |
