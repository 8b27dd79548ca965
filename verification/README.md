# squash: a verified model

squash is a multi-threaded music player for the empeg car stereo and for Linux terminals. It draws into a
packed four-bit framebuffer with its own rasteriser, decodes and plays songs in two cooperating threads,
picks songs by rating, and keeps its state and song data in key/value files it prints and scans itself.

This project models those parts in Dafny and proves what they promise. Everything here is checked by
`dafny verify dfyconfig.toml`.

## How the model is organised

**Drawing** (`Framebuffer`, `Spans`, `LineMath`, `Lines`, `Rectangles`, `EllipseMath`, `EllipseEnds`, `Ellipses`,
`EllipsePictures`, `PolygonMath`, `PolygonPictures`, `ActiveEdges`, `Polygons`, `BitmapFormats`, `Bitmaps`,
`FontText`). The routines of `empeg/vfdlib.c` change an array of 2048 bytes in place, with the library's moving
pointers, masks and decision variables. Their contracts speak only of pictures: `Painted(before, after, region, shade)` says that exactly
the on-screen pixels of a region took the shade and that no other pixel changed (`PaintedUnique` shows that
this fixes every byte), and `Copied` says the same of a bitmap laid over a region. The regions are defined
without reference to the routines: a line is the set of pixels nearest to the ideal segment with ties rounded
down (`LineInNumbers`), a polygon is its even-odd interior by the crossings of its own points, with the ends of each
span included (`PolygonPictures`), an ellipse is symmetric and its rows are spans (`EllipsePictures`), a bitmap pixel is
read by the documented format. Where a routine draws something else, the region it draws is stated too, with the exact
condition under which the two agree.

**Playback** (`Playback`, `PlaybackCommands`, `PlaybackOrder`, `PlaybackExact`, `PlaybackMemory`). The decoder and the player thread
are a state machine. Each critical section is one step, each condition wait a program counter, and the decoder an
arbitrary stream of frame sizes. Waits may end without a signal, and commands arrive arbitrarily. A skip discards
the history, a stop inside a song begins the song again. `PlaybackCommands` says what the commands make the two threads
do and when the decoder sleeps; `PlaybackOrder` proves order and liveness for all runs in
which a song starts, or is stopped, at a clean moment, and `PlaybackExact` shows that no weaker condition would do.

**Locks** (`LockOrder`, `Threads`, `Locks`, `SpectrumLockup`). `LockOrder` is a small language of locking code with a
step relation and a check; `Threads` writes every thread of the empeg build in it, one function for each function
of the source; `Locks` runs the threads side by side and proves that code passing the check cannot lock up. The code also marks
where a structure is read or written, and no such access is made without the lock that guards it;
`SpectrumLockup` shows how the other builds can.

**Songs** (`Ratings`, `Picker`, `SongQueues`). The picker is a class over the running sums and the songs'
counters, with exact reals; random draws are an input sequence, and so is what other threads do while the sums are
recomputed. The queues are heap lists proved against sequences.

**Files** (`Text`, `Scanner`, `FileLines`, `Metadata`, `Numbers`, `StatFile`, `SavedState`). `Scanner.Parse` defines the
format by tokens and `FileLines` says what it makes of each kind of line; `ParseFile` is the one-pass scanner proved to make the same calls. The printers and
the callbacks that receive the scanned values then give the round trips.

**Small loops** (`Sound`, `Layout`). Audio re-blocking, silence detection and the window layout. `Common` holds the
few definitions all modules share.

## What turned out not to hold

* In the empeg build the documented lock order is broken in one place: `spectrum_reset` takes the two spectrum locks
  the other way round. No other code of that build takes both, so no circular wait follows
  (`OnlyTheResetBreaksTheDocument`, `EmpegNeverLocksUp`). Beside the spectrum thread of the other builds some run
  ends in one, whatever else is running (`SpectrumThreadLocksUp`). The ncurses build breaks the order once
  more: `do_edit_command` takes `database_info` before `display_info` (src/input.c:1424-1425).
* Frames do not always reach the player in order once SKIP or STOP is used. A song start keeps order, and leaves its
  song a source, in every continuation exactly when no skip is still unseen by the decoder, no decoder is open and no
  frame is in flight (`CleanStartExactly`); a stop inside a song exactly when the song's decoder is open, or about to
  be, and no frame of it is in flight, unless that frame is the song's first and last (`CleanStopExactly`). Otherwise a
  frame of the past is played (`SkipCanMixSongs`, `StopCanDisorderASong`), or the song can never end. A skip after the
  decoder has finished a song makes both threads sleep on each other for good, one frame into the next
  (`SkipHangsPlayback`, `StrandedForGood`). A stop at such a moment also seeks in decoder data that has been freed
  (`EndIsThrownAway`).
* A skip before any song has started follows a null pointer; the program crashes in exactly the runs that obey one
  (`CrashesExactly`).
* `start_song_picker` lets go of the database between songs in the empeg build. Feedback on a song not yet added is then
  counted twice, a file loaded or a bias set is not told to the songs already added, and a second `start_song_picker`
  running at the same time, as the remote control can start one, zeroes the sums and adds songs too. `StartSongPicker`
  accounts for all of these and says exactly when the sums come out right. Plays and skips never cancel
  (`EarlyFeedbackStays`, `SkipInGapSpoilsSums`). Two loops that overlap count every song from where the first one stood
  twice, however they interleave, and do no harm exactly when all of those are unplayed, unskipped and rated nought
  (`OtherBeganFirst`, `OtherBeganLater`, `SecondLoopSpoilsSums`).
* With sums that are wrong, the value under the square root of `pick_song` can be negative without the `fabs`, and the
  deviation can be zero although ratings differ. A song rated off the average then divides by zero and reads the
  table of areas at no place an integer holds (`PickSong`); exact sums rule it out.
* An empty value ends the program: any in a statistics file (`FileAddsUp`, `EmptyValueEndsProgram`), and one for a number
  in a state file (`FileSettles`, `EmptyNumberEndsProgram`). A position in a state file that has no filename of its own
  leaves an entry whose name is never set (`NamedExactly`, `PositionAloneIsUnnamed`), and it, like a negative current
  entry, sends the search and the next save through memory that holds no path (`RebuildQueue`, `SaveState`). A path no
  longer than some song's directory part is read past its end, harmlessly for the result (`FindSongByFilename`).
* The comment on `get_rating` calls the range exclusive. It is, except when the bias gives the manual rating
  all the weight and that rating is 0 or 10 (`RatingRange`).
* The clipped line routine draws the visible part of every line exactly when the clip has extent both ways or neither
  (`ClippingIsExact`, `ColumnlessClipDraws`, `RowlessClipDraws`).
* An ellipse's quarter outline can stop short of its half width: with half sizes a and b it does so exactly when
  a > 0 and a >= 8bb, or a >= 3, 9aa >= 16bb(a - 1) and aa <= 2bb(a - 1) (`OutlineClosesExactly`).
* A solid ellipse is one column narrower on the right than its outline, because its rows are half-open runs
  (`PicturesAreSymmetric`).
* A rectangle outline that is empty in one direction only is drawn as two lines (`SidesAreBorder`). A solid rectangle
  without columns is drawn one column wide exactly when it has rows and starts in an odd column (`SolidIsExact`).
* An asked shade does not reach every pixel of an opaque bitmap: four-bit pixels keep their own shade and unset
  one-bit pixels stay black (`TintIsHonoured`, `CopiedPaints`).
* A bitmap request that is wider or higher than the bitmap is cut down only after its low edge is clipped, so it can
  show what lies behind a row's end. `CopyIsExact` says when it does not.
* Saving the state moves the loader's own cursor past the entries not yet queued (`SaveState`), and prints a missing
  filename as the text `(null)`, which names no song (`PrintedRebuilds`).
* With a wanted size of zero, adding a song to the past list ends in a null pointer (`PushPast`).
* A song's meta data survives saving and loading exactly when its keys and values can be printed, its keys
  differ up to case and no value is missing (`RoundTripExactly`); a missing value comes back as the text
  `(null)` (`LoadSaveLoad`). The saved playlist survives exactly when every path can be printed on a line
  (`PlaylistSurvives`).

## Model

| member | source | states |
|---|---|---|
| `Framebuffer.PaintedUnique` | empeg/vfdlib.c:313-322 | with two pixels to a byte, a region and a shade fix all 2048 bytes |
| `Framebuffer.PixelsMakeByte` | empeg/vfdlib.c:313-322 | 64 bytes a row, the even column of a pair in the low nybble, a shade below 16 |
| `Framebuffer.SetLo` | empeg/vfdlib.c:395-406 | the masked write to an even column changes that pixel and not its neighbour in the byte |
| `Framebuffer.SetHi` | empeg/vfdlib.c:386-391 | the same for an odd column |
| `Framebuffer.SetBoth` | empeg/vfdlib.c:393-397 | a whole-byte write changes exactly two neighbouring pixels |
| `Spans.ClipArea.SetClipArea` | empeg/vfdlib.c:235-246 | an inverted request changes nothing; any other leaves exactly the on-screen part of the request |
| `Spans.DrawPointUnclipped` | empeg/vfdlib.c:313-322 | exactly the one pixel changes |
| `Spans.DrawPointClipped` | empeg/vfdlib.c:287-292 | the pixel changes exactly when it lies in the clip |
| `Spans.DrawLineHorizUnclipped` | empeg/vfdlib.c:376-406 | exactly the half-open run is painted, for either alignment of its ends |
| `Spans.DrawLineHorizClipped` | empeg/vfdlib.c:343-356 | exactly the part of the run in the clip is painted, for all arguments |
| `Spans.DrawLineVertUnclipped` | empeg/vfdlib.c:458-478 | exactly the half-open column is painted |
| `Spans.DrawLineVertClipped` | empeg/vfdlib.c:424-438 | exactly the part of the column in the clip is painted |
| `LineMath.NearestUnique` | empeg/vfdlib.c:1856-1944 | each step along a line has one nearest offset, ties going down |
| `LineMath.NearestMonotone` | empeg/vfdlib.c:1856-1944 | the nearest offset never goes back along the line |
| `LineMath.WalkStep` | empeg/vfdlib.c:1856-1944 | the sign of the decision variable picks the next nearest pixel, and the update keeps the variable's closed form |
| `LineMath.RoundedIsNearest` | empeg/vfdlib.c:499-602 | the clipper's rounded quotient is the offset the unclipped walk has in that column |
| `LineMath.FirstReaching` | empeg/vfdlib.c:499-602 | stepping back half a pixel and dividing finds the first column whose pixel reaches a given offset, exactly |
| `LineMath.ReachedExactly` | empeg/vfdlib.c:499-602 | the pixel in that column lies on the entry row itself, and the column is within the line |
| `LineMath.EntryIsFirstVisible` | empeg/vfdlib.c:499-602 | for clips with extent both ways or neither: an entry found is the first visible pixel of the unclipped walk; none found means nothing is visible |
| `LineMath.EntryIsOnLine` | empeg/vfdlib.c:499-602 | for every clip: an entry found is a pixel of the unclipped walk |
| `Lines.LineInNumbers` | empeg/vfdlib.c:623-657 | in the ends' own numbers, in any octant and order: a pixel is on the line exactly when it is between the ends and within half a pixel of the segment along its longer extent; half way, the one on the left end's side |
| `Lines.HTrackFillsWindow` | empeg/vfdlib.c:1712-1790 | a flat walk that ends by columns or by rows has drawn all of its window |
| `Lines.VTrackFillsWindow` | empeg/vfdlib.c:1802-1854 | the same for a steep walk |
| `Lines.HWindowIsClipped` | empeg/vfdlib.c:548-602 | the window drawn from the entry is exactly the visible part of a flat line |
| `Lines.VWindowIsClipped` | empeg/vfdlib.c:548-602 | the same for a steep line |
| `Lines.NothingVisible` | empeg/vfdlib.c:499-602 | every early return is taken only when no pixel of the line is in the clip |
| `Lines.VerticalLine` | empeg/vfdlib.c:623-657 | a vertical line's nearest pixels are the run the span routine draws, last pixel included |
| `Lines.HorizontalLine` | empeg/vfdlib.c:623-657 | the same for a horizontal line |
| `Lines.DrawLineHMaxClipped` | empeg/vfdlib.c:1712-1790 | resumed with the unclipped walk's decision variable, the byte-buffering flat walk paints exactly its window |
| `Lines.DrawLineVMaxClipped` | empeg/vfdlib.c:1802-1854 | the same for the steep walk |
| `Lines.DrawLineHMaxUnclipped` | empeg/vfdlib.c:1856-1943 | the whole flat walk paints exactly the nearest pixels |
| `Lines.DrawLineVMaxUnclipped` | empeg/vfdlib.c:1945-1997 | the whole steep walk paints exactly the nearest pixels |
| `Lines.DrawLineUnclipped` | empeg/vfdlib.c:623-657 | exactly the line's pixels are painted, in every octant |
| `Lines.DrawnIsVisible` | empeg/vfdlib.c:499-602 | with extent both ways or neither, what the clipped routine's windows hold is the visible part of the line |
| `Lines.ColumnlessClipDraws` | empeg/vfdlib.c:547-573 | for every clip with rows and no columns: a line of which no pixel is visible and one is drawn |
| `Lines.RowlessClipDraws` | empeg/vfdlib.c:576-601 | for every clip with columns and no rows: the same |
| `Lines.ClippingIsExact` | empeg/vfdlib.c:499-602 | the clipped routine's picture is the visible part of the line, for every line, exactly when the clip has extent both ways or neither |
| `Lines.DrawLineClipped` | empeg/vfdlib.c:499-602 | for all endpoints and clips that picture is painted, without a division by zero; with extent both ways or neither it is exactly the line's pixels inside the clip |
| `Rectangles.SidesAreBorder` | empeg/vfdlib.c:678-688 | the four sides drawn are the rectangle's border exactly when it is empty both ways or neither |
| `Rectangles.DrawOutlineRectangleClipped` | empeg/vfdlib.c:678-688 | exactly the border inside the clip is painted |
| `Rectangles.SolidIsExact` | empeg/vfdlib.c:773-809 | the columns drawn are those asked for exactly when there is a column or no row, or the left column is even |
| `Rectangles.DrawSolidRectangleUnclipped` | empeg/vfdlib.c:773-809 | for any width and height, exactly the columns the routine draws are painted, the odd left column of an empty width included |
| `Rectangles.DrawSolidRectangleClipped` | empeg/vfdlib.c:739-752 | exactly the rectangle inside the clip is painted, empty or inverted ones included |
| `Rectangles.DrawOutlinePolygonClipped` | empeg/vfdlib.c:1182-1199 | what the clipped line routine draws of the closed ring of lines is painted; with extent both ways or neither that is exactly the ring inside the clip |
| `Rectangles.DrawOutlinePolygonUnclipped` | empeg/vfdlib.c:1220-1237 | exactly the closed ring of lines is painted |
| `Rectangles.RingIsLines` | empeg/vfdlib.c:1182-1199 | the ring is the lines between successive points and the one from the last to the first |
| `EllipseMath.StartFlatExact` | empeg/vfdlib.c:923-984 | region 1 starts with the decision variable and deltas of the exact implicit function |
| `EllipseMath.FlatStepExact` | empeg/vfdlib.c:923-984 | every region 1 step keeps them exact and moves where the exact midpoint says |
| `EllipseMath.StartSteepExact` | empeg/vfdlib.c:923-984 | region 2 starts exact wherever region 1 stopped |
| `EllipseMath.SteepStepExact` | empeg/vfdlib.c:923-984 | every region 2 step keeps exactness and follows the exact midpoint |
| `EllipseMath.FlatStaysOnCurve` | empeg/vfdlib.c:923-984 | while region 1's guard holds, the curve passes within half a pixel of the pixel drawn |
| `EllipseMath.FlatInvariantStep` | empeg/vfdlib.c:923-984 | region 1 stays in the bounding box and on the curve |
| `EllipseMath.SteepStepInBox` | empeg/vfdlib.c:923-984 | region 2 stays in the box from any pixel and goes down each step |
| `EllipseMath.SteepStaysOnCurve` | empeg/vfdlib.c:923-984 | once on the curve, region 2 stays on it |
| `EllipseEnds.ClosesExactly` | empeg/vfdlib.c:923-984 | the quarter ends at its half width exactly when the hand-over leaves as many rows as columns |
| `EllipseEnds.StopsShortExactly` | empeg/vfdlib.c:923-984 | for which half sizes it does not, as a condition on the two numbers alone |
| `Ellipses.EllipseInBox` | empeg/vfdlib.c:837-842 | no pixel leaves the bounding box, so handing over to the unclipped routine is safe |
| `Ellipses.DrawPixel4WaySymmetricClipped` | empeg/vfdlib.c:1694-1701 | the four mirror pixels inside the clip are painted |
| `Ellipses.DrawPixel4WaySymmetricUnclipped` | empeg/vfdlib.c:1703-1710 | the four mirror pixels are painted |
| `Ellipses.DrawOutlineEllipseUnclipped` | empeg/vfdlib.c:923-984 | exactly the reference outline is painted, and both loops end |
| `Ellipses.OutlineClosesExactly` | empeg/vfdlib.c:923-984 | the outline has its rightmost pixel exactly for the other half sizes |
| `Ellipses.DrawOutlineEllipseClipped` | empeg/vfdlib.c:831-903 | exactly the same outline inside the clip is painted, by the fast path or the slow one |
| `Ellipses.DrawSolidEllipseUnclipped` | empeg/vfdlib.c:1098-1160 | exactly the reference solid ellipse is painted |
| `Ellipses.DrawSolidEllipseClipped` | empeg/vfdlib.c:1006-1078 | exactly the same solid ellipse inside the clip is painted |
| `EllipsePictures.PicturesAreSymmetric` | empeg/vfdlib.c:923-984 | the outline is its own mirror about the centre's row and column; the solid ellipse about the row, and about the line half a column left of the centre, being one column short on the right |
| `EllipsePictures.SolidRowsEndAtOutline` | empeg/vfdlib.c:1098-1160 | in each row of its height the outline's outermost pixels lie equally far on both sides, and the solid row is one span from the left one to just before the right one, or one longer at each end |
| `PolygonMath.StepIsExact` | empeg/vfdlib.c:1411-1447 | stepping an edge's quotient and remainder never drifts from the closed form, so the start at the clip's top row equals stepping there |
| `PolygonMath.CrossingParity` | empeg/vfdlib.c:1287-1330 | the crossings of a row by the edges so far are odd exactly when the ends of the open ring lie on different sides |
| `PolygonMath.CrossingsAreEven` | empeg/vfdlib.c:1395-1409 | every row crosses a closed polygon an even number of times |
| `PolygonMath.CountLessPermutes` | empeg/vfdlib.c:1395-1409 | what a row fills does not depend on the order of its crossings |
| `PolygonMath.PairFillsSpan` | empeg/vfdlib.c:1395-1409 | two more sorted crossings fill exactly the inclusive span between them |
| `PolygonPictures.EntryIsNearSide` | empeg/vfdlib.c:1300-1330 | for any side and row: the column put into the scan is within one column of the segment, and in the row of the upper end it is that end's own column |
| `PolygonPictures.CrossesAtUpperEnd` | empeg/vfdlib.c:1300-1305 | from whichever end the side is named, it crosses its top row at the upper end |
| `PolygonPictures.ScanIsInside` | empeg/vfdlib.c:1258-1490 | the even-odd rule over the scan's entries is the one over the crossings of the caller's own points |
| `PolygonPictures.RectangleFills` | empeg/vfdlib.c:1258-1490 | an upright rectangle is filled with its right column and without its bottom row |
| `PolygonPictures.TriangleFills` | empeg/vfdlib.c:1258-1490 | the rows of one triangle: its tip is one pixel |
| `ActiveEdges.MergeGivesMerged` | empeg/vfdlib.c:1349-1369 | adding the edges that start on a row gives that row's table |
| `ActiveEdges.ExpiryGivesCrossing` | empeg/vfdlib.c:1349-1393 | after deleting the expired edges the table holds exactly the edges that cross the row |
| `ActiveEdges.StepGivesCarried` | empeg/vfdlib.c:1411-1447 | stepping the crossings gives the table carried to the next row |
| `ActiveEdges.SwapRemovesInversion` | empeg/vfdlib.c:1449-1480 | each swap of the bubble sort removes exactly one inversion and permutes |
| `Polygons.BuildEdgeTable` | empeg/vfdlib.c:1287-1345 | each edge is filed under the row it starts on, stepped to the clip's top row if it starts above, and every side that reaches the clip is kept: by its points, no crossing in the clip's rows is missing |
| `Polygons.MergeNewEdges` | empeg/vfdlib.c:1349-1369 | the sorted insertion keeps the table sorted and adds exactly the new edges |
| `Polygons.DeleteExpired` | empeg/vfdlib.c:1371-1393 | exactly the expired edges go, order kept |
| `Polygons.BubbleSort` | empeg/vfdlib.c:1449-1480 | the sort ends, sorted and a permutation |
| `Polygons.ScanRow` | empeg/vfdlib.c:1348-1481 | one row paints the inclusive spans between its crossings and leaves the next row's table sorted |
| `Polygons.DrawSolidPolygon` | empeg/vfdlib.c:1258-1490 | the even-odd interior inside the clip is painted, by crossings of the caller's points that do not mention edges or entries |
| `BitmapFormats.ByteInBitmap` | empeg/vfdlib.h:172-202 | a pixel of a complete bitmap lies in a byte of its own padded row, and can be read |
| `BitmapFormats.HeaderInNumbers` | empeg/vfdlib.h:172-202 | width and height are two bytes each, the high one first |
| `BitmapFormats.OneBitInNumbers` | empeg/vfdlib.h:172-202 | eight pixels a byte in padded rows, the highest bit leftmost: 1 is bright or the asked shade, 0 clear or black |
| `BitmapFormats.TwoBitInNumbers` | empeg/vfdlib.h:172-202 | four pixels a byte, the lowest pair leftmost: shade 0 is clear in a transparent bitmap |
| `BitmapFormats.FourBitInNumbers` | empeg/vfdlib.h:172-202 | two pixels a byte, the low nybble leftmost: two bits of shade, two that make it clear in a transparent bitmap |
| `BitmapFormats.TintIsHonoured` | empeg/vfdlib.h:201-202 | a plotted pixel has the asked shade exactly unless it is an opaque four-bit pixel or an unset opaque one-bit pixel of another shade |
| `BitmapFormats.CopiedPaints` | empeg/vfdlib.h:201-202 | a copied bitmap paints its inked pixels in the asked shade exactly when no such pixel is among them |
| `Bitmaps.Row1BPP` | empeg/vfdlib.c:1999-2065 | one row of a one-bit bitmap is a per-pixel copy, for every pair of alignments |
| `Bitmaps.Row2BPP` | empeg/vfdlib.c:2067-2129 | the same for the two-bit format |
| `Bitmaps.Row4BPP` | empeg/vfdlib.c:2131-2236 | the same for the four-bit format, transparent or opaque |
| `Bitmaps.OneBitInk` | empeg/vfdlib.c:2027-2049 | the moving mask reads the documented bit: highest is leftmost |
| `Bitmaps.TwoBitInk` | empeg/vfdlib.c:2088-2112 | the shifted byte reads the documented pair: lowest is leftmost |
| `Bitmaps.FourBitInk` | empeg/vfdlib.c:2152-2181 | the nybble's low bits are the shade and its high bits the transparency |
| `Bitmaps.DrawRows` | empeg/vfdlib.c:1999-2236 | all rows together are a per-pixel copy of the area |
| `Bitmaps.ClipAxis` | empeg/vfdlib.c:1629-1653 | on each axis the drawing begins at the later of destination and clip, ends at the first of the request's end, the clip's end and one bitmap further on, and keeps the offset between source and destination |
| `Bitmaps.DrawBitmap` | empeg/vfdlib.c:1620-1671 | every pixel of the area so cut shows what its computed address holds, clear pixels and all others untouched |
| `Bitmaps.DrawnInNumbers` | empeg/vfdlib.c:1620-1671 | which pixels are drawn, in the caller's numbers: those in the clip, from the request's corner on, up to its size - below one, the bitmap's - and no more than a bitmap on from the first one drawn |
| `Bitmaps.CopyIsExact` | empeg/vfdlib.c:1620-1671 | that area is the part of the request in the clip and in the bitmap exactly when on both axes it begins and ends inside the bitmap, or is empty |
| `Bitmaps.InRangeFits` | empeg/vfdlib.c:1620-1671 | a request inside a complete bitmap can always be made, and is cut to the clip alone |
| `FontText.GetTextWidth` | empeg/vfdlib.c:1570-1588 | the loop returns the total of the character advances |
| `FontText.TextInBox` | empeg/vfdlib.c:1516-1588 | a text's pixels all lie in the box the two measuring functions give, less its last column |
| `FontText.OneCharacterShows` | empeg/vfdlib.c:1516-1588 | the table's entry i is the character i after the exclamation mark: exactly the font's columns it names appear from the pen on, and it is one wider than they are |
| `FontText.OtherCharacterShowsNothing` | empeg/vfdlib.c:1516-1588 | any other character is one blank column |
| `FontText.TextsFollow` | empeg/vfdlib.c:1516-1588 | a text continues where the width of what comes before it ends |
| `FontText.DrawText` | empeg/vfdlib.c:1516-1537 | all of the text inside the clip is painted and nothing else, although drawing stops at the right edge |
| `Playback.StepKeepsBounds` | src/player.c:64-100 | every step, skips and stops included, keeps the buffer within 2048 frames and every append in range |
| `Playback.BufferNeverOverflows` | src/player.c:51-102 | so does every run |
| `Playback.StepCrashes` | src/player.c:142-160 | a step crashes the program exactly when it obeys a skip before any song has started |
| `Playback.CrashesExactly` | src/player.c:124-160 | so the runs that crash are exactly those that obey a skip before the first song starts |
| `PlaybackCommands.BatchDecides` | src/player.c:142-214 | inside a song, after a batch without SKIP: if the last PLAY, PAUSE or STOP is PAUSE or STOP the player waits; if it is PLAY it acts, with a frame if there is one and else waiting for data; no frame is consumed |
| `PlaybackCommands.PauseHolds` | src/player.c:186-215 | after such a pause or stop no frame is consumed, and the player takes, ends and starts nothing, in every run until a batch with PLAY or SKIP is obeyed |
| `PlaybackCommands.PlayerObeysLast` | src/player.c:142-217 | in every run, when the player has read its commands it waits exactly if it was never told to play, pause or stop, or is inside a song and was last told to pause or stop |
| `PlaybackCommands.SkipEndsSong` | src/player.c:147-168 | a skip inside a song empties the buffer, its byte count and the song at once, and no frame is consumed |
| `PlaybackCommands.PlayWakesDecoder` | src/player.c:169-192 | PLAY or STOP anywhere in a batch leaves no decoder asleep |
| `PlaybackCommands.StartWakesDecoder` | src/player.c:278-353 | neither does a song start, nor a player that finds the buffer empty |
| `PlaybackCommands.PlayedFrameWakesDecoder` | src/player.c:305-352 | a played frame leaves it asleep exactly while the buffer is nine tenths full by frames and by bytes |
| `PlaybackCommands.DecoderSleepsWhenFull` | src/player.c:97-100 | the decoder goes on exactly below 2048 frames and a megabyte, with a song to decode |
| `PlaybackCommands.SectionDelivers` | src/player.c:56-103 | the decoder's section appends the frame in hand, counts its data, closes the decoder after a skip or a last frame, installs a new song's decoder whether the old one is closed or not, and wakes the player with the first frame of an empty buffer |
| `PlaybackCommands.SongEndsExactly` | src/player.c:314-343 | sizes 0 and -2 or less end the song; data and -1 do not |
| `PlaybackCommands.TakesFirst` | src/player.c:299-308 | the first frame is taken, the rest stay in order, and the byte count falls by its size |
| `PlaybackOrder.OneTerminalPerSong` | src/player.c:71-79 | a song has one terminal frame, and it is the song's last |
| `PlaybackOrder.EarlierSongsAreClosed` | src/player.c:71-79 | every song before the current one has its terminal frame |
| `PlaybackOrder.StepKeepsGood` | src/player.c:51-372 | every step at a clean moment keeps the handshake good: an ordered history in force, or no song playing and only old frames about |
| `PlaybackOrder.RunKeepsGood` | src/player.c:111-372 | so does every run of such steps, skips and stops included |
| `PlaybackOrder.FramesArriveInOrder` | src/player.c:221-355 | in every clean run, while a song plays, the frames consumed, buffered and in flight are together the frames decoded, in order, since history last began, each finished song up to its single terminal frame |
| `PlaybackOrder.PlayPauseRunKeepsInv` | src/player.c:111-372 | every run that obeys only PLAY and PAUSE is clean and keeps one history in force from start to end |
| `PlaybackOrder.NothingIsDiscarded` | src/player.c:221-355 | runs that obey only PLAY and PAUSE are clean, and their history is the whole one |
| `PlaybackOrder.WaiterIsServed` | src/player.c:90-100 | while the player waits for data, the decoder has or is being handed a song and need not wait |
| `PlaybackOrder.NeverBothAsleep` | src/player.c:79-100 | in every clean run the two threads never sleep on each other, and a waiting player means an empty buffer with a zero byte count |
| `PlaybackOrder.WaitMakesProgress` | src/player.c:350-353 | while the player waits some decoder step is enabled, and each one brings the data closer |
| `PlaybackOrder.TerminalIsLast` | src/player.c:314-327 | nothing follows the current song's terminal frame in the buffer until the next song starts |
| `PlaybackOrder.ByteCountIsExact` | src/player.c:299-309 | in every clean run pcm_size is the total of the buffered non-terminal sizes until the terminal frame is taken |
| `PlaybackMemory.BufferMemoryIsBounded` | src/player.c:90-100 | in every run, skips and stops included, buffered PCM stays below a megabyte plus 2048 bytes plus the largest frame, despite the -1 frames |
| `PlaybackExact.CleanStartExactly` | src/player.c:59-66 | after any good past, a song start keeps order and leaves its song a source in every continuation exactly when no skip is unseen, no decoder open and no frame in flight |
| `PlaybackExact.CleanStopExactly` | src/player.c:162-185 | a stop inside a song does so exactly when the decoder is open or about to be, with no frame in flight but a song's only one |
| `PlaybackExact.LateFrameArrives` | src/player.c:68-88 | a frame in flight at a song start is delivered into the new song |
| `PlaybackExact.OldDecoderGoesOn` | src/player.c:51-66 | a decoder left open at a song start decodes one more frame of the old song |
| `PlaybackExact.NewSongIsClosed` | src/player.c:59-66 | an unseen skip closes the new song's decoder after one frame |
| `PlaybackExact.StrandedForGood` | src/player.c:51-372 | a song without source and end stays the current one in every run without SKIP and STOP, and nothing more is decoded |
| `PlaybackExact.SkipCanMixSongs` | src/player.c:142-160 | the program reaches a song start that breaks order after a skip |
| `PlaybackExact.StopCanDisorderASong` | src/player.c:162-185 | the program reaches a stop that breaks order |
| `PlaybackExact.EndIsThrownAway` | src/player.c:162-176 | a stop after the decoder has closed leaves the song without source and end |
| `PlaybackExact.SkipHangsPlayback` | src/player.c:59-100 | by a skip after the decoder has finished a song, the program reaches a state in which both threads sleep and the next song can never end |
| `LockOrder.StepKeepsCheck` | doc/LOCKS:1-4 | checked code takes only locks above those it holds, drops only what it holds, sleeps holding only its own mutex, and still passes the check after each step |
| `LockOrder.WantIsAbove` | doc/LOCKS:1-4 | a lock such code is about to take comes after all it holds |
| `LockOrder.UseIsGuarded` | doc/LOCKS:6-9 | checked code makes no access to a structure without its lock, and no write with a lock that readers share |
| `LockOrder.OrdersAreLists` | doc/LOCKS:1-41 | the documented order is the document's list; the one kept differs in the two spectrum locks alone |
| `Threads.SetupDatabaseBalances` | src/squash.c:118-169 | the database thread keeps the documented order and ends holding nothing |
| `Threads.LoadStateBalances` | src/global_squash.c:84-164 | so does loading the state, which lets go of it after each song |
| `Threads.LoadMetaBalances` | src/database.c:521-557 | so does loading the statistics, which swaps between read and write lock |
| `Threads.PickerBalances` | src/stat.c:48-79 | so does recomputing the sums, under any lock below the database |
| `Threads.StateSaverBalances` | src/squash.c:77-95 | the state saver keeps the order |
| `Threads.MainWaitBalances` | src/squash.c:426-432 | main waits holding only its own mutex |
| `Threads.DisplayMonitorBalances` | src/display.c:144-177 | the display thread keeps the order though it releases in another |
| `Threads.PlaylistManagerBalances` | src/playlist_manager.c:102-165 | the manager lets the database go before each wait and takes both locks again in order |
| `Threads.FrameDecoderBalances` | src/player.c:51-106 | the decoder waits holding only the frame buffer |
| `Threads.PlayerBalances` | src/player.c:126-370 | the player keeps whichever order its spectrum resets keep |
| `Threads.IrMonitorBalances` | src/input.c:456-723 | every remote event keeps the order under the display lock |
| `Threads.FifoMonitorBalances` | src/input.c:944-1036 | every fifo command keeps the order |
| `Threads.OnlyTheResetBreaksTheDocument` | src/spectrum.c:203-242 | every thread but the player keeps the documented order; the player does too apart from its spectrum resets, which break it whatever is held |
| `Threads.EveryThreadKeepsOrder` | doc/LOCKS:1-38 | with the two spectrum locks swapped, every thread of the empeg build keeps one total order |
| `Locks.StepKeepsInOrder` | include/global.h:531-538 | every step keeps the order and keeps written locks exclusive |
| `Locks.RunKeepsInOrder` | include/global.h:531-538 | so does every run |
| `Locks.NoCircularWait` | doc/LOCKS:1-4 | threads in order never wait for each other in a circle of any length |
| `Locks.SomeHolderSteps` | doc/LOCKS:1-4 | when a lock is held, some holder has a step that needs no lock anyone holds |
| `Locks.SleeperHoldsNothing` | include/global.h:537 | a thread inside a condition wait holds no lock |
| `Locks.EmpegNeverLocksUp` | src/squash.c:340-432 | in every run of the empeg build's ten threads there is no circular wait, written locks are exclusive and sleepers hold nothing |
| `Locks.EmpegHolderSteps` | src/squash.c:340-432 | in every such run a held lock means some holder can really step |
| `Locks.EmpegNeverRaces` | doc/LOCKS:6-9 | in every run of the empeg build each marked access to a structure is made with its lock held, a write with no reader beside it, and no write meets another thread's access |
| `SpectrumLockup.RunsAlone` | include/global.h:531-538 | what a thread can do alone with some locks busy, it can do beside threads that hold no others |
| `SpectrumLockup.SpectrumThreadLocksUp` | src/spectrum.c:98-130 | in every system with the spectrum thread and the player, whatever the other threads are, some run ends in a circular wait of the two |
| `Ratings.RatingRange` | src/stat.c:30-39 | ratings lie in -1 to 1, strictly inside except exactly for full manual weight at an end |
| `Ratings.BetterManual` | src/stat.c:30-39 | a higher manual rating never lowers the rating, and raises it exactly when it has any weight |
| `Ratings.CountsMoveRating` | src/stat.c:30-39 | one more play never lowers it and one more skip never raises it; strictly so unless the manual rating has all the weight |
| `Ratings.UnratedIgnoresBias` | src/stat.c:30-39 | an unrated song's rating does not depend on the bias |
| `Ratings.RatingEnds` | src/stat.c:30-39 | with all the weight, manual ratings 10, 5 and 0 are 1, 0 and -1; without any they count for nothing |
| `Ratings.RatingInNumbers` | src/stat.c:30-39 | plays less skips over one more than both, and with a manual rating its weighted mean with that |
| `Ratings.TotalsAppend` | src/stat.c:61-76 | adding a song adds its term to each of the six sums |
| `Ratings.TotalsUpdate` | src/stat.c:169-193 | changing one song exchanges exactly its terms |
| `Picker.SumsInNumbers` | src/stat.c:61-76 | the six sums grow by a song's rating, its counts and their squares, from nothing |
| `Ratings.VarianceFacts` | src/stat.c:142-143 | the value under the square root is never negative, and zero deviation means every song is rated the average |
| `Ratings.AcceptanceMonotone` | src/stat.c:85-124 | for the same draw a better rated song is accepted whenever a worse one is |
| `Ratings.AreaSymmetric` | src/stat.c:85-124 | ratings equally far above and below the average share the whole range of draws |
| `Ratings.AreaTable` | src/stat.c:85-124 | the area takes the table's values at whole deviations, is linear between them and one half from four on |
| `Ratings.AreaInDeviations` | src/stat.c:85-124 | a song z deviations above the average is accepted below one half more than the area at z, one as far below it below one half less |
| `Ratings.SomeSongIsLikely` | src/stat.c:142-151 | some song is accepted by at least half of all draws |
| `Picker.Database.StartSongPicker` | src/stat.c:48-79 | whatever other threads do between songs - feedback, ratings, loaded files, a new bias, other recomputations - the sums come out as the exact ones plus the drift of those changes, and are exact if and only if it is zero |
| `Picker.KeptAndDrift` | src/stat.c:61-76 | each such change moves the sums, the songs added so far and the drift so that the account still balances |
| `Picker.QuietGaps` | src/stat.c:48-79 | without such changes nothing drifts |
| `Picker.EarlyFeedbackStays` | src/stat.c:61-66 | among plays, skips and ratings, plays and skips never cancel: one of them before its song is added leaves the sums wrong |
| `Picker.SkipInGapSpoilsSums` | src/stat.c:61-66 | one unrated song skipped in the gap: -1 and 1/2 instead of -1/2 and 1/4 |
| `Picker.OtherBeganFirst` | src/stat.c:48-79 | a second recomputation that began earlier, however it interleaves: every song it had not added counts twice, which is harmless exactly when those songs are silent |
| `Picker.OtherBeganLater` | src/stat.c:48-79 | the same for one that begins later, and the songs not yet added when it zeroes the sums |
| `Picker.SecondLoopSpoilsSums` | src/stat.c:61-66 | one unrated song played once and a second recomputation in the gap: 1 and 1/2 instead of 1/2 and 1/4 |
| `Picker.ExactVariance` | src/stat.c:142-143 | with exact sums the value under the square root is the variance of the ratings, and the fabs changes nothing |
| `Picker.KeptVarianceInNumbers` | src/stat.c:142-143 | n squared times the value is the distance of n times the sum of squares from the square of the sum |
| `Picker.Database.Feedback` | src/stat.c:169-193 | field by field: a play adds one to the play count and its sum and twice the old count plus one to its sum of squares, a skip the same on the other side; the rating sum moves by the change of the rating, everything else stays, and exact sums stay exact |
| `Picker.Database.AdjustRating` | src/input.c:118-149 | the new rating is the one asked for, or the old one plus the amount, clamped to -1 to 10; counts and their sums stay, the rating sums move by the difference, so that exact sums stay exact |
| `Picker.Database.TryDraw` | src/stat.c:85-160 | a refused draw changes nothing; an accepted one takes one off the counter, or at zero puts it to ten and picks, and touches no other song; the table is read off its end exactly for no deviation and a rating off the average |
| `Picker.Database.PickSong` | src/stat.c:133-162 | counters and pick are those of tallying the accepted draws by the sums as they are kept; the loop is lost exactly at the first draw off the table, never with exact sums; otherwise more accepted draws than the counters add up to are enough for a pick |
| `Picker.TallyAppend` | src/stat.c:155-160 | tallying draw by draw is tallying the whole run |
| `Picker.PicksAreSpaced` | src/stat.c:155-160 | a song starting at counter c with m accepted draws is picked 0 times if m <= c, else 1+(m-c-1)/11 times |
| `Picker.NoPickCountsDown` | src/stat.c:155-160 | without a pick every accepted draw uses up one count |
| `Picker.EnoughDrawsPick` | src/stat.c:145-161 | one accepted draw more than the sum of the counters is enough for a pick |
| `SongQueues.SongList.Append` | src/playlist_manager.c:171-193 | the list gains exactly the entry at its tail; head, tail, size and chain agree |
| `SongQueues.SongList.PopFront` | src/player.c:379-405 | the first entry is returned and removed; an empty queue gives nothing |
| `SongQueues.WithoutNode` | src/input.c:43-57 | dropping one node keeps everyone else's neighbours right |
| `SongQueues.SongList.RemoveSelected` | src/input.c:33-65 | exactly the selected entry goes, at the head, the tail or between; a selection past the end removes nothing |
| `SongQueues.SongList.Unlink` | src/input.c:1344-1361 | unlinking a node removes it from the chain and mends head and tail |
| `SongQueues.SongList.PushPast` | src/player.c:412-449 | the past list becomes the wanted number of entries of the song followed by the old list; the code follows a null tail exactly when none is wanted |
| `SongQueues.SongList.ManagerAdds` | src/playlist_manager.c:113-145 | the manager adds one song exactly when there are too few, and never passes the wanted size |
| `Scanner.ParseFile` | src/global.c:391-587 | the one-pass scanner makes exactly the calls the line format defines, for every file |
| `Scanner.AtEnd` | src/global.c:567-586 | a token cut short by the end of the file: only a value is reported |
| `FileLines.LineIsOneEvent` | src/global.c:450-565 | a line is one call: the key and the value without the blanks around either, under the header in force |
| `FileLines.LeadingSpaceIsSkipped` | src/global.c:456-461 | blanks and ends of line before a line count for nothing |
| `FileLines.CommentIsSkipped` | src/global.c:443-449 | neither does a comment up to its newline |
| `FileLines.HeaderHolds` | src/global.c:474-496 | a header in brackets holds for what follows; an empty one takes it away |
| `FileLines.LoneKeyIsSkipped` | src/global.c:497-517 | a key without a value sign counts for nothing |
| `Metadata.Song.InsertMetaData` | src/database.c:566-610 | a value joins the key equal up to case, or opens a new key at the end |
| `FileLines.OtherCaseJoins` | src/database.c:582-589 | a key that differs in the case of its letters at most joins the values already there, at the end |
| `FileLines.OtherKeyOpens` | src/database.c:591-610 | any other opens a key of its own, after the others |
| `FileLines.CaseAloneIsIgnored` | src/database.c:584 | keys are equal up to the case of the letters A to Z and in nothing else |
| `Metadata.Song.LoadMetaData` | src/database.c:408-470 | scanning and inserting a file applies all its events in order |
| `Metadata.Song.SaveMetaData` | src/database.c:389-403 | one line a value, in key order |
| `Metadata.LineParses` | src/database.c:389-403 | a printed line scans back as its one event, whatever follows |
| `Metadata.ScannedIsPrintable` | src/global.c:441-587 | whatever the scanner reports can be printed: '=' occurs in a key only as its first character |
| `Metadata.PrintThenLoad` | src/database.c:389-403 | printing and loading rebuilds the same keys, values and order |
| `Metadata.RoundTripExactly` | src/database.c:389-403 | it does so exactly for complete, printable songs whose keys differ up to case |
| `Metadata.LoadSaveLoad` | src/database.c:566-610 | for any file, load-save-load equals load exactly when the file has no empty value |
| `Numbers.AtoiUndoesDecimal` | src/database.c:369-383 | every integer survives being printed and read back |
| `Numbers.DecimalInNumbers` | src/database.c:369-383 | decimal notation: each place counts ten times the next, a minus sign comes first |
| `StatFile.SongStat.SetStatData` | src/database.c:616-650 | an empty value ends the program whatever the key; else key by key a count changes by the number given for it, the repeat counter is replaced by its own, a rating only when unset |
| `StatFile.SongStat.Load` | src/database.c:445-450 | a statistics file applies its events in order; the program survives it exactly when no value is empty |
| `StatFile.FileAddsUp` | src/database.c:616-650 | for any file: survived exactly without empty values, and then both counts grow by the sum of their entries, the counter takes its last, an unset rating the first that gives one |
| `StatFile.EmptyValueEndsProgram` | src/database.c:630 | a file of one key without a value ends the program |
| `StatFile.SongStat.SaveStatData` | src/database.c:369-383 | a fresh song that loads the text printed has the same statistics |
| `StatFile.SavedText` | src/database.c:369-383 | the text is these four lines, by name, and an empty one |
| `StatFile.StatRoundTrip` | src/database.c:616-650 | a statistics file read into a fresh song restores it; read into any other it adds the counts |
| `SavedState.SaveState` | src/global.c:152-223 | the file lists the playing song, the queue and the entries not yet loaded, a missing filename as a text of its own, and the loader's cursor moves past them; memory is misread exactly for a cursor before the first entry or a name never set |
| `SavedState.StateInfo.LoadStateCallback` | src/global_squash.c:35-78 | a number without a value ends the program; else only a position adds an entry, with the name waiting, a filename waits, a position uses it up, and the other keys change their own number |
| `SavedState.FileSettles` | src/global_squash.c:35-102 | for any file: survived exactly when every number is there, and then one entry for each position, and the last setting of each kind wins |
| `SavedState.EntryCollected` | src/global_squash.c:41-49 | for any such file: the k-th position makes the k-th entry, with the filename named since the entry before it, or no name |
| `SavedState.NamedExactly` | src/global_squash.c:38-49 | every entry has a name exactly when every position comes after a filename of its own |
| `SavedState.EmptyNumberEndsProgram` | src/global_squash.c:45 | a file of one position without a number ends the program |
| `SavedState.PositionAloneIsUnnamed` | src/global_squash.c:38-49 | a file of one position leaves one entry whose name is never set |
| `SavedState.StateInfo.Load` | src/global_squash.c:88-102 | a state file applies its events in order; the program survives it exactly when every number is there |
| `SavedState.SaveThenLoad` | src/global_squash.c:35-78 | loading the file recovers the entries with their positions, the brightness, and the volume: itself between the bounds, the lower bound below them, the upper one above |
| `SavedState.StateInWords` | src/global.c:152-223 | the text of the file, word for word |
| `SavedState.EntryInWords` | src/global.c:176-193 | the text of one entry, word for word |
| `SavedState.EmptyFileLoads` | src/global_squash.c:88-102 | what a file leaves out is no entries, entry 0, volume 50 and brightness 100 |
| `SavedState.PlaylistSurvives` | src/global_squash.c:35-78 | the playlist is recovered exactly when every path can be printed on a line |
| `SavedState.FindSongByFilename` | src/database.c:175-203 | comparing file part and directory part separately finds the first song with that full path, and reads past the path's end exactly when a song looked at has a directory part as long |
| `SavedState.LookupOwnPath` | src/database.c:175-203 | with distinct paths a song's own path finds that song |
| `SavedState.RebuildQueue` | src/global_squash.c:136-153 | from the file's current entry on, entries whose song is gone are dropped, the rest queued in order; memory is misread exactly for a negative current entry or a name never set |
| `SavedState.RebuiltIsQueue` | src/global_squash.c:136-153 | with distinct paths in the database the rebuilt queue is the saved sequence |
| `SavedState.PrintedRebuilds` | src/global.c:189-193 | entries not yet loaded come to the same songs after being printed and read back |
| `SavedState.StateRoundTrip` | src/global_squash.c:84-164 | saving, loading and rebuilding gives back the playing song, the queue and what the entries not yet loaded would have come to, in order |
| `Sound.SoundDevice.SoundPlay` | src/sound.c:153-175 | a frame of any size joins the stream, written in whole blocks; the inner loop ends |
| `Sound.SoundDevice.SoundClose` | src/sound.c:184-199 | the rest of the stream is written, padded with fewer than 4608 zeros |
| `Sound.PlayAll` | src/sound.c:153-199 | the device receives the frames' bytes in order, then only that padding, in whole blocks |
| `Sound.DetectSilence` | src/player.c:460-487 | the early-exit scan decides exactly whether zeros reach 30 percent of the frame |
| `Sound.CountZerosCounts` | src/player.c:460-487 | what is counted is the bytes that are zero |
| `Sound.DurationIsCurrentRun` | src/player.c:460-487 | the kept duration is the total size of the current unbroken run of silent frames |
| `Layout.FindMaximized` | src/display.c:200-210 | at most one flexible window stays maximized |
| `Layout.Measure` | src/display.c:212-247 | the rows left over are the screen less the needs of the windows shown |
| `Layout.ShareKeepsUp` | src/display.c:269-290 | each rounded-up share keeps the rows given out at least in proportion to the weight served |
| `Layout.Share` | src/display.c:269-291 | every flexible window's extra rows times the total weight lie below its proportion plus the total, and not below its proportion unless the rows run out at it; after that windows get their least rows; all rows are given out |
| `Layout.ShareInNumbers` | src/display.c:278-289 | one share, in the same numbers |
| `Layout.OwnWindowsShare` | src/display.c:111-128 | the program's own three flexible windows share 24 spare rows as 4, 10 and 10 |
| `Layout.RowsOfOthers` | src/display.c:229-238 | with a maximized window the others keep their least rows |
| `Layout.DrawScreen` | src/display.c:186-307 | on a large enough screen with a flexible window shown, for any number of windows and any positive weights: heights sum exactly to the screen, the flexible windows share the spare rows as said above, and each window begins where the ones above it end |

## Left out

- DrawLineClipped: a clip with extent in one direction only must be such that what is drawn of the line lies on the
  screen; `setClipArea` leaves clips whose lines can reach one pixel past it.
- DrawSolidPolygon: requires one point, because the last point is read before the number of points is looked at, and
  for a clip that starts below the screen that no edge spans the clip's rows, because the edge table has a row for each
  row of the screen. The active edge list is a sequence here; its heap nodes, and the nodes never freed on one path,
  are not modelled.
- DrawBitmap: requires that the bytes at the addresses it computes exist. The two-bit routine looks at the byte after a
  pixel that ends one, so a two-bit bitmap needs one byte more than its pixels.
- FramesArriveInOrder: covers the runs whose song starts and stops are clean, which is exact step by step
  (`CleanStartExactly`, `CleanStopExactly`). It assumes songs of known type: for an unknown type the player goes back to
  its loop still holding locks.
- EmpegNeverLocksUp: covers the empeg build without its adventure game, from the moment the threads start until
  main leaves its exit wait, with songs of known type and no fatal error. The debug log lock and shutdown are not
  part of this model. Choices between lock operations are left open, so more runs are covered than can happen.
- EmpegNeverRaces: is about the accesses marked in `Threads`. These accesses the source makes without the lock, and they
  are not marked: the player looks at the state of `player_info` holding only the command lock (src/player.c:211) and
  copies its device without any (src/player.c:339); saving a song clears its changed mark under the read lock
  (src/database.c:383, 551-553); the remote control clears `stats_loaded` without the database lock (src/input.c:464,
  576); a rating is adjusted after looking at the screen and at the current song without theirs (src/input.c:71-76);
  the database thread draws the first screen without any lock (src/squash.c:151-154); and the decoder decodes
  while the player may seek in the same decoder data (src/player.c:52, 176).
- PickSong: takes the deviation as an input whose square is the variance, and the draws as a sequence; exact reals
  stand for doubles. Negative repeat counters, which the code would count down for ever, are excluded where counts
  are summed.
- RatingRange: counts of plays and skips are natural numbers; a statistics file written by hand can hold others.
- The player's command queue: appending moves the head and leaves the tail, so it is no queue; commands are
  arbitrary batches.
- The spectrum ring's contents and the spectrum display: floating point, and a wrap copy that disagrees with the
  new tail by one slot.
- The ncurses build's other threads and handlers, do_edit_command included.
- A circular wait through load_all_meta_data for TYPE_META, which would release a lock it does not hold after
  skipping a song; the call is disabled in the source.
- NUL bytes inside files, which end C strings early, and a file that grows between its size check and its read.
- Loading statistics or changing the bias after the sums have been recomputed; both leave the sums stale. The bias is
  set without the database lock; a change between two reads of it inside one `feedback` is not modelled.
- Machine integer width: coordinates, counts and sums are unbounded.
- Unclipped rectangle outlines: four span calls with no condition of their own.
- The built-in font tables; any valid font is allowed.
- Codecs, the sound device, ioctl and mmap, the file-system walk, window drawing and the Ruby scripts.
