# Verified models of gem5's Python tools

This project models the algorithms in the Python layer of gem5 (utilities and configuration
scripts) and proves what they promise. `dafny verify dfyconfig.toml` checks all of it.

| area | files | source |
|---|---|---|
| O3 pipeline viewer | `PipeQueue`, `PipeView`, `PipeTrace`, `Timeline` | `util/o3-pipeview.py` |
| checkpoint upgrader | `CptScheduler`, `CptUpgrader` | `util/cpt_upgrader.py` |
| trace codecs | `Protolib`, `DepRecord`, `DepTrace`, `Wire` | `util/protolib.py`, `util/encode_inst_dep_trace.py`, `util/decode_inst_dep_trace.py`, `src/proto/inst_dep_record.proto` |
| port binder | `PortBinder` | `configs/example/read_config.py` |
| checkpoint merger | `Aggregator` | `util/checkpoint_aggregator.py` |
| simulation driver | `Simulation`, `Simpoint` | `configs/common/Simulation.py` |
| memory-test tree | `MemTest` | `configs/example/memtest.py` |
| copyright years | `Copyrights` | `util/find_copyrights.py` |
| GPU port wiring | `GpuPorts` | `configs/example/apu_se.py`, `configs/ruby/GPU_VIPER.py` |
| latency ranges | `LatMemRd` | `configs/dram/lat_mem_rd.py` |
| shared | `Arithmetic`, `Bits`, `Results`, `Sequences`, `Sorting`, `Text` | |

Code that works step by step is a method with loops, or a class where the script updates an
object or globals. Each such method is proved equal to a function of its inputs, and the
properties are lemmas about that function. Pure code is modelled by functions.

## What the proofs show about the code

Where code and documentation disagree the model follows the code.

- The reorder queue of the pipeline viewer keeps its promise for every pair of thresholds, also
  when the lower one exceeds the upper one, and the window of `min_threshold` places cannot be
  widened by one for any pair (`PipeQueue.DrainIsFullSort`, `PipeQueue.WindowIsTight`).
- Drawing an instruction fails exactly if all its ticks are zero, and a line has exactly `width`
  cells exactly if the drawn columns differ (`Timeline.RenderFailsIff`, `Timeline.RowLength`).
- The upgrader's header comment (`util/cpt_upgrader.py:56-61`) promises that a tag runs after the
  downgraders of the tags it depends on. The `ready` test asks for these tags to be present, so the
  dependent never runs in a later round. The promise can fail in every order
  (`CptScheduler.HeaderCommentFails`); it is kept in every order exactly if there is no such
  dependency (`CptScheduler.EveryOrderKeepsIff`), and in some order exactly if such tags share
  their round without waiting in a circle (`CptScheduler.SomeOrderKeepsIff`).
- A tag list in the deprecated `Globals` section is read in preference to the list just written, so
  a second run can repeat updates (`CptUpgrader.StaleListRepeats`). A run is settled exactly if
  there is no such list, or it needs nothing, or a pending script removes the section, as
  `util/cpt_upgraders/globals-to-root.py` does (`CptUpgrader.SettledIff`). That script itself fails
  on a checkpoint that has both sections.
- With downgraders the loop can also get stuck because a tag was removed too early.
  `CptScheduler.FinishesIff` says exactly when it finishes.
- Text traces lose `v_addr` and `asid`, and memory fields that do not fit the record type.
  `DepRecord.LineRoundTripIff` says exactly which records survive. An empty payload ends the
  reading of a file, and lengths are taken modulo 2^32 (`Protolib.FramesRoundTripIff`).
- The comment in `bind_ports` says that sorting lets exactly one direction of every connection be
  bound. That is false (`PortBinder.SortedCanFail`). Binding succeeds exactly if one direction of
  each connection can be chosen so that in every port the positions in the processing order
  ascend with the index (`PortBinder.BindsIff`).
- Merging moves a checkpoint away from its offset exactly if an image before the last is shorter
  than its page count (`Aggregator.AlignedIff`). Of the sections without "cpu" only those of the
  last checkpoint are kept (`Aggregator.ConfigHolds`).
- Writing a checkpoint or switching CPUs drains the simulator, which takes simulated time that
  `configs/common/Simulation.py` does not count. Checkpoints are late by the drains so far
  (`Simulation.CheckpointTicks`), and both loops can pass maxtick because of them
  (`Simulation.DrainPassesMaxtick`, `Simulation.SwitchPassesMaxtick`). The exact conditions are
  `Simulation.ScriptWithinIff`, `Simulation.RepeatSwitchWithinIff` and, for the clock,
  `Simulation.RepeatSwitchStays`. The guard in front of
  `repeatSwitch` compares the period with `maxtick`, not with the ticks that are left.
- In `scriptCheckpoints` the inner loop does not refresh `exit_cause`, so a checkpoint instruction
  of the guest ends the series, although `configs/common/Simulation.py:781-784` calls them skipped
  (`Simulation.GuestEndsSeries`, `Simulation.FullSeriesIff`). Such a run does not simulate the
  ticks that remain; others end at maxtick plus the drains (`Simulation.ScriptEnds`).
- SimPoint directories sort in the order they were taken exactly up to one hundred of them
  (`Simpoint.SortedAsTakenIff`).
- Printed copyright years read back as the same set exactly if every two consecutive years in it
  both lie within 1000 to 9999; years on their own may be anything (`Copyrights.RoundTripIff`).

## Model

| member | source | states |
|---|---|---|
| PipeQueue.FeedConserves | gem5/util/o3-pipeview.py:212-277 | for every stream and thresholds, popped plus queued instructions are what arrived, per sequence number and in order |
| PipeQueue.FeedCounts | gem5/util/o3-pipeview.py:212-277 | the buffer holds as many instructions above any number as have arrived |
| PipeQueue.DrainConserves | gem5/util/o3-pipeview.py:212-277 | the final output holds each arrival once, equal numbers in arrival order |
| PipeQueue.FewAbove | gem5/util/o3-pipeview.py:49-50 | a later arrival has at most the window's number of earlier ones above it |
| PipeQueue.PoppedBelowLater | gem5/util/o3-pipeview.py:45-50 | pigeonhole: what is popped while the window stays queued belongs before everything that arrives later |
| PipeQueue.FeedSettles | gem5/util/o3-pipeview.py:45-50 | after every prefix of the stream the popped part is sorted and below the queue and all later arrivals |
| PipeQueue.DrainIsFullSort | gem5/util/o3-pipeview.py:45-50 | if inversions span at most `min_threshold` places, the output is the stable sort of the whole stream, for any thresholds |
| PipeQueue.WindowIsTight | gem5/util/o3-pipeview.py:49-50 | for all thresholds some stream with inversions of one place more comes out unsorted |
| PipeView.SelectOfSort | gem5/util/o3-pipeview.py:244-277 | filtering commutes with the stable sort |
| PipeView.ReadingStarts | gem5/util/o3-pipeview.py:94-121 | reading starts at the first line from the start tick on, or at the first fetch from the start number on |
| PipeView.ReadingEnds | gem5/util/o3-pipeview.py:158-178 | a fetch beyond the stop tick by more than the drift, or beyond the stop number by more than the upper threshold, ends the reading whatever follows |
| PipeView.Viewer.PopOne | gem5/util/o3-pipeview.py:246-277 | popping moves the front instruction and prints it exactly if it passes the range and commit filters |
| PipeView.Viewer.PopAndPrint | gem5/util/o3-pipeview.py:246-277 | the loop pops all but the lower threshold, in order |
| PipeView.Viewer.PrintInsts | gem5/util/o3-pipeview.py:232-277 | one flush: sort, then pop down to the lower threshold |
| PipeView.Viewer.QueueInst | gem5/util/o3-pipeview.py:212-228 | one arrival: append, and flush when over the upper threshold |
| PipeView.Viewer.FindRegion | gem5/util/o3-pipeview.py:94-129 | skip-ahead to the starting tick or number, then to the next fetch |
| PipeView.Viewer.ProcessTrace | gem5/util/o3-pipeview.py:69-207 | the whole reading loop prints exactly the specified output of its trace |
| PipeTrace.RecordOverwrites | gem5/util/o3-pipeview.py:155-190 | the reused dictionary holds exactly the current group's record when it is queued |
| PipeTrace.GroupArrives | gem5/util/o3-pipeview.py:155-190 | the lines of an instruction queue exactly its record |
| PipeTrace.GroupsArrive | gem5/util/o3-pipeview.py:155-207 | a trace queues the records up to the first fetch that stops it |
| PipeTrace.StopLosesNothing | gem5/util/o3-pipeview.py:158-178 | nothing from the early stop on could have passed the filters |
| PipeTrace.SkipGroups | gem5/util/o3-pipeview.py:94-129 | skip-ahead lands on a group start and drops only what the filters reject |
| PipeTrace.RunArrivals | gem5/util/o3-pipeview.py:94-207 | what is queued is a contiguous run of the records, and no record outside it passes |
| PipeTrace.PrintsExactly | gem5/util/o3-pipeview.py:94-277 | on traces that run back no more than the drift and the upper threshold, exactly the completed records that pass are printed, each once |
| PipeTrace.PrintsInOrder | gem5/util/o3-pipeview.py:45-50 | with inversions within the window too, the output is their stable sort |
| PipeTrace.PrintedIff | gem5/util/o3-pipeview.py:246-277 | an instruction is printed exactly if the numbers and ticks on its own lines are within the options |
| PipeTrace.PrintedAreDrawable | gem5/util/o3-pipeview.py:342-377 | every printed record is that of a group, and lacks no stage that drawing looks up |
| PipeTrace.StageLineShows | gem5/util/o3-pipeview.py:369-402 | where the drawn columns of its row differ, the tick of the last line of a stage shows d, n, p, i or c at its row and column; a dispatch in the tick of the issue is not drawn |
| PipeTrace.FetchShows | gem5/util/o3-pipeview.py:369-402 | likewise the tick of the fetch line shows f |
| PipeTrace.RetireShows | gem5/util/o3-pipeview.py:369-402 | likewise the tick of the retire line shows r |
| PipeTrace.StoreShows | gem5/util/o3-pipeview.py:325-332 | likewise, with store completions, the store tick shows s |
| PipeTrace.OtherCellsShow | gem5/util/o3-pipeview.py:363-367 | every other cell is = if the retire line has tick 0, and a dot otherwise |
| PipeTrace.PrintedAreDrawn | gem5/util/o3-pipeview.py:337-416 | every printed record is drawn, except exactly those without a fetch tick and without a later one |
| Timeline.OneLineIffCompact | gem5/util/o3-pipeview.py:337-359 | one line is used exactly if the timeline is shorter than a line |
| Timeline.ExactlyOneWindow | gem5/util/o3-pipeview.py:369-386 | each tick from the fetch on lies in exactly one line's window |
| Timeline.CellsLength | gem5/util/o3-pipeview.py:387-416 | the length of a line is the width plus one for each shared column |
| Timeline.CellsPlaced | gem5/util/o3-pipeview.py:387-416 | with distinct columns each event stands in its own column and dots fill the rest |
| Timeline.RowLength | gem5/util/o3-pipeview.py:387-416 | a line has `width` cells exactly if the drawn columns differ |
| Timeline.StageIsShown | gem5/util/o3-pipeview.py:337-416 | each stage is shown on its line in column (tick mod line) div cycle, below the width |
| Timeline.StageReads | gem5/util/o3-pipeview.py:337-416 | in the rows as drawn, the row is 0 in the compact form and else the difference of the quotients of tick and fetch by the line, the column (tick mod line) div cycle |
| Timeline.DrawOrder | gem5/util/o3-pipeview.py:369-387 | events are drawn by their place in the line, and at the same place by the names of their stages |
| Timeline.RestIsDots | gem5/util/o3-pipeview.py:387-416 | a cell that no drawn stage claims is a dot |
| Timeline.RenderFailsIff | gem5/util/o3-pipeview.py:369-391 | drawing fails exactly without a fetch tick and without a positive one, which for ticks that are not negative means no tick at all |
| Timeline.Draw | gem5/util/o3-pipeview.py:387-416 | the drawing loop writes the specified cells |
| Timeline.DrawLine | gem5/util/o3-pipeview.py:369-416 | one line, or the failure on an empty single line |
| Timeline.PrintInst | gem5/util/o3-pipeview.py:337-416 | all lines of an instruction |
| CptScheduler.ApplyBatch | gem5/util/cpt_upgrader.py:147-155 | in any iteration order a round applies each ready tag once, removal never fails, and the tag set changes as specified |
| CptScheduler.Migrate | gem5/util/cpt_upgrader.py:252-266 | the round loop terminates and computes the specified outcome, whatever the set order |
| CptScheduler.FinalTags | gem5/util/cpt_upgrader.py:252-272 | a finished run leaves the tags minus the untag set plus the tag set |
| CptScheduler.NothingLeft | gem5/util/cpt_upgrader.py:252-266 | nothing is pending for the tags a finished run leaves |
| CptScheduler.EachOnce | gem5/util/cpt_upgrader.py:254-266 | no tag runs twice; a finished run has run every pending one, an aborted one all but the stuck |
| CptScheduler.RunLogsOnce | gem5/util/cpt_upgrader.py:254-266 | in the log of a finished run every pending tag occurs exactly once and no other; in an aborted one at most once |
| CptScheduler.RoundIsReadySet | gem5/util/cpt_upgrader.py:254-266 | a round is exactly the pending tags that are ready when it starts |
| CptScheduler.DependenciesFirst | gem5/util/cpt_upgrader.py:141-155 | with no applicable downgrader every tag runs after all its dependencies |
| CptScheduler.DowngradedDependencyStays | gem5/util/cpt_upgrader.py:141-155 | a tag that depends on a tag with a downgrader runs in a round at whose start that tag is still present |
| CptScheduler.PromiseByRounds | gem5/util/cpt_upgrader.py:56-61 | for a finished run the header's promise holds of a log exactly if dependent pairs share rounds and each round's order keeps it |
| CptScheduler.EveryOrderKeepsIff | gem5/util/cpt_upgrader.py:56-61 | every order of the set iterations keeps the promise exactly if no pending tag depends on a tag with a downgrader |
| CptScheduler.SomeOrderKeepsIff | gem5/util/cpt_upgrader.py:56-61 | some order keeps it exactly if dependent pairs share their round and no tags of a round wait for each other in a circle |
| CptScheduler.HeaderCommentFails | gem5/util/cpt_upgrader.py:56-61 | a registry and a checkpoint on which every order breaks the promise |
| CptScheduler.AbortIffOutsideClosure | gem5/util/cpt_upgrader.py:254-266 | with no applicable downgrader the loop aborts exactly if a pending tag is outside the least closure of the starting tags |
| CptScheduler.AbortIffMissingOrCycle | gem5/util/cpt_upgrader.py:254-266 | that is, exactly if following dependencies meets a missing tag or a cycle |
| CptScheduler.FinishesIff | gem5/util/cpt_upgrader.py:254-266 | downgraders included, the loop finishes exactly if, removals ignored, every pending tag becomes ready, none later than a pending downgraded tag it depends on |
| CptUpgrader.LinkLegacy | gem5/util/cpt_upgrader.py:168-172 | each version on the unbroken chain from 3 depends on its predecessor only; it fails exactly without a version 2 |
| CptUpgrader.LinkOne | gem5/util/cpt_upgrader.py:175-183 | forward edges of one script are appended exactly to the scripts it names, or one does not exist |
| CptUpgrader.LinkAndAudit | gem5/util/cpt_upgrader.py:175-189 | one script's edges and audit succeed exactly if its declarations do not dangle, although lists grow meanwhile |
| CptUpgrader.LinkForward | gem5/util/cpt_upgrader.py:174-189 | in any order all scripts get exactly the forward edges that name them, and it succeeds exactly if nothing dangles |
| CptUpgrader.Upgraders.Load | gem5/util/cpt_upgrader.py:91-139 | one script enters the dictionaries and the set of its kind |
| CptUpgrader.Upgraders.Link | gem5/util/cpt_upgrader.py:161-189 | loading succeeds exactly if the legacy chain is anchored and nothing dangles, and then every dependency is known |
| CptUpgrader.RegistryIsValid | gem5/util/cpt_upgrader.py:85-139 | what loading builds is what the scheduler relies on |
| CptUpgrader.AuditedAbort | gem5/util/cpt_upgrader.py:174-189 | after the audit only cycles and dependencies on absent downgradable tags can make the scheduler abort |
| CptUpgrader.ProcessFile | gem5/util/cpt_upgrader.py:192-276 | a file fails, stays unchanged or is rewritten with the final tags and the replayed updates. With a version v the tags of 2 to v count as there: none of them is applied unless it is to be undone, a missing number is an error; every other tag in the tag set is applied exactly once in a run that is written, and the written list is the tags it had and the tag set without the untag set |
| CptUpgrader.BodySeesEarlier | gem5/util/cpt_upgrader.py:254-266 | the body at any place of the log acts on what all earlier bodies made, and before all later ones |
| CptUpgrader.SecondRunIdle | gem5/util/cpt_upgrader.py:217-252 | a written checkpoint with tags only in root.globals needs nothing more |
| CptUpgrader.SettledIff | gem5/util/cpt_upgrader.py:217-252 | when a second run is idle: exactly without a list in Globals, or with one that needs nothing, or if a pending body removes the section |
| CptUpgrader.StaleListRepeats | gem5/util/cpt_upgrader.py:230-233 | a checkpoint with a stale Globals list whose update would be applied again |
| CptUpgrader.RenamedListSettles | gem5/util/cpt_upgraders/globals-to-root.py:2-12 | a checkpoint from before root.globals is settled after a run of the script that renames the section |
| Protolib.DecodeVarint32 | gem5/util/protolib.py:100-128 | the loop decodes the first varint of the stream, consuming exactly its bytes; end of file and overlong numbers as specified |
| Protolib.EncodeVarint32 | gem5/util/protolib.py:147-159 | the loop appends the base-128 bytes of any natural number |
| Protolib.DecodeOfEncode | gem5/util/protolib.py:100-159 | for every number and whatever follows, decoding an encoding gives its narrowed value, or the error from 2^70 on |
| Protolib.VarintRoundTripIff | gem5/util/protolib.py:100-159 | exactly the numbers below 2^32 come back |
| Protolib.TooLongIff | gem5/util/protolib.py:126-128 | the error is raised exactly on ten continuation bytes |
| Protolib.DecodedValue | gem5/util/protolib.py:117-125 | a terminated varint is congruent to its raw sum modulo 2^32, in [0, 2^32) up to 2^63-1 and in [-2^32, 0) above |
| Protolib.EncodeMessage | gem5/util/protolib.py:162-168 | one frame is appended |
| Protolib.DecodeMessage | gem5/util/protolib.py:131-144 | one frame is read, or reading stops on size zero, end of file or a bad length, or raises on a size below -1 |
| Protolib.InFile.Read | gem5/util/protolib.py:140-141 | at most n bytes, all that is left for -1, an exception below -1 |
| Protolib.FrameReads | gem5/util/protolib.py:131-168 | a frame is read back from the front of any stream, leaving the rest |
| Protolib.FramesReadBack | gem5/util/protolib.py:131-168 | a list of frames reads back in order |
| Protolib.FramesRoundTripIff | gem5/util/protolib.py:131-168 | exactly the lists of non-empty payloads below 2^32 bytes survive |
| DepRecord.DepsRoundTrip | gem5/util/encode_inst_dep_trace.py:192-205 | every dependency list survives printing and parsing |
| DepRecord.LineRoundTrip | gem5/util/encode_inst_dep_trace.py:156-205 | a printable record's line parses to the record with pc and weight defaulted |
| DepRecord.ParsedIsPrintable | gem5/util/encode_inst_dep_trace.py:156-205 | what parses is a record that a line carries in full |
| DepRecord.LineRoundTripIff | gem5/util/decode_inst_dep_trace.py:163-214 | exactly the typed records with matching memory fields and no v_addr or asid survive |
| DepRecord.MemoryLine | gem5/util/decode_inst_dep_trace.py:166-214 | the line of a load or store: number, pc, weight, type, address, size, flags, delay, and the two lists |
| DepRecord.OtherLine | gem5/util/decode_inst_dep_trace.py:166-214 | the line of a computation: the same without the memory fields |
| DepRecord.WriteInfo | gem5/util/decode_inst_dep_trace.py:166-197 | the writes in front of the first colon are the joined fields |
| DepRecord.PrintRecord | gem5/util/decode_inst_dep_trace.py:163-214 | the loop body writes the line of its packet |
| DepRecord.ReadDeps | gem5/util/encode_inst_dep_trace.py:194-205 | the loops over dependency items collect the non-empty ones, or fail on a bad number |
| DepTrace.LinesOfText | gem5/util/encode_inst_dep_trace.py:156-157 | iterating the printed text gives back one line per record |
| DepTrace.TextRoundTripIff | gem5/util/decode_inst_dep_trace.py:163-214 | a trace survives the text exactly if each record does |
| DepTrace.FileRoundTrip | gem5/util/encode_inst_dep_trace.py:135-213 | a written file reads back as the same records in order, if serialisation is inverse on them |
| DepTrace.FileStarts | gem5/util/encode_inst_dep_trace.py:135-140 | the file starts with the bytes of gem5 |
| DepTrace.TraceRoundTrip | gem5/util/encode_inst_dep_trace.py:135-213 | decoding to text, encoding and decoding again gives the same records with defaults, and the same text |
| DepTrace.Decode | gem5/util/decode_inst_dep_trace.py:132-222 | the decoder writes the lines of the records of its file, or rejects the magic number, or raises |
| DepTrace.EncodeLines | gem5/util/encode_inst_dep_trace.py:156-208 | one frame per line, stopping exactly at the first bad line |
| DepTrace.Encode | gem5/util/encode_inst_dep_trace.py:135-208 | the encoder writes magic number, header and the records of its lines |
| Wire.FieldsRoundTrip | gem5/src/proto/inst_dep_record.proto:63-83 | reading the numbered fields of a record within the field widths gives it back |
| Wire.FieldNumbers | gem5/src/proto/inst_dep_record.proto:52-83 | each field has its number, and each type its value |
| Wire.FieldsInBytes | gem5/src/proto/inst_dep_record.proto:63-83 | the fields of a message are read back from its bytes |
| Wire.RecordRoundTrip | gem5/src/proto/inst_dep_record.proto:63-83 | every record within its field widths survives the wire format |
| Wire.RecordSize | gem5/src/proto/inst_dep_record.proto:63-83 | a message is neither empty nor over 4 GB unless its dependency lists are |
| Wire.WireCarries | gem5/src/proto/inst_dep_record.proto:63-83 | the wire format meets the assumption on serialisation for every such trace |
| Wire.WireTraceRoundTrip | gem5/util/encode_inst_dep_trace.py:135-213 | file to text to file and back on real messages gives the same records with defaults |
| PortBinder.Gather | gem5/configs/example/read_config.py:308-329 | the connections gathered are those of the configuration, each once |
| PortBinder.BindPorts | gem5/configs/example/read_config.py:331-389 | for any permutation as the sort, the greedy pass decides which connections are made, or raises |
| PortBinder.BindConsistent | gem5/configs/example/read_config.py:343-377 | in any order, bound endpoints are those below the counters and peers are appended in index order |
| PortBinder.SuccessBindsAll | gem5/configs/example/read_config.py:373-377 | half the connections were made exactly if every endpoint is bound |
| PortBinder.EachConnectionOnce | gem5/configs/example/read_config.py:373-377 | on success each connection is made in exactly one direction |
| PortBinder.PeersRebuilt | gem5/configs/example/read_config.py:379-389 | on success every vector port's peer list is rebuilt exactly |
| PortBinder.GreedyIsComplete | gem5/configs/example/read_config.py:352-377 | for every order the pass succeeds exactly if making some of the connections in turn makes all of them |
| PortBinder.BindsIff | gem5/configs/example/read_config.py:352-377 | the pass succeeds exactly if no port has a gap and one direction of each connection can be chosen so that in every port the positions ascend with the index |
| PortBinder.SortedCanFail | gem5/configs/example/read_config.py:352-361 | a well-formed configuration that is rejected in sorted order and bound in another order of the same connections |
| PortBinder.DistinctCount | gem5/configs/example/read_config.py:373-377 | the length compared is the number of connections |
| PortBinder.MakeConnections | gem5/configs/example/read_config.py:379-389 | the binding loop appends each connection at both its ends |
| PortBinder.BindSymmetric | gem5/configs/example/read_config.py:308-377 | gathering and choosing for a symmetric file |
| PortBinder.RebuildPorts | gem5/configs/example/read_config.py:308-389 | for every symmetric file and order: it raises, exactly if no choice ascends, or rebuilds every port, empty ones included |
| Aggregator.CopyPages | gem5/util/checkpoint_aggregator.py:106-113 | the page loop copies the image up to its page count |
| Aggregator.MergeMemory | gem5/util/checkpoint_aggregator.py:98-139 | image, page pointer and range size of the merge; the padding is of the character 0 |
| Aggregator.MemoryPreserved | gem5/util/checkpoint_aggregator.py:98-113 | each byte of a checkpoint is at its relocated address in the merged image if the images before it are full |
| Aggregator.AlignedIff | gem5/util/checkpoint_aggregator.py:98-113 | every checkpoint starts at its offset exactly if no image but the last is short |
| Aggregator.ShortImageMoves | gem5/util/checkpoint_aggregator.py:98-113 | a short image that moves the next checkpoint away from its offset |
| Aggregator.RelocationInjective | gem5/util/checkpoint_aggregator.py:71-77 | relocated regions are disjoint |
| Aggregator.RangeSizeIsLeast | gem5/util/checkpoint_aggregator.py:122-139 | the recorded size is the least page multiple that covers pages and memory size |
| Aggregator.FileMatchesRange | gem5/util/checkpoint_aggregator.py:122-139 | the file is as long as recorded exactly if all images are full |
| Aggregator.RenameInverse | gem5/util/checkpoint_aggregator.py:67-68 | renaming can be undone, and the number can be read off a renamed section |
| Aggregator.RenameFirst | gem5/util/checkpoint_aggregator.py:67-68 | the number stands behind the first cpu, and likewise in the rest of the name |
| Aggregator.SectionNamesDistinct | gem5/util/checkpoint_aggregator.py:58-69 | renamed sections of all checkpoints never collide |
| Aggregator.PointersPreserved | gem5/util/checkpoint_aggregator.py:71-77 | a moved paddr points at the byte it pointed at before |
| Aggregator.MergeSections | gem5/util/checkpoint_aggregator.py:66-93 | the section loop of one checkpoint writes its contribution, which `ConfigHolds` and `ConfigDistinct` are about |
| Aggregator.MergeConfigs | gem5/util/checkpoint_aggregator.py:60-99 | the loop over the checkpoints, with the page pointer |
| Aggregator.ConfigHolds | gem5/util/checkpoint_aggregator.py:66-93 | over all checkpoints: a section without cpu is merged, unchanged, exactly if it is in the last checkpoint and is neither system nor Globals; one with cpu exactly if it is a renamed and relocated section of some checkpoint |
| Aggregator.ConfigDistinct | gem5/util/checkpoint_aggregator.py:66-93 | no section is there twice, if no checkpoint has one twice |
| Aggregator.FdMapHasPid | gem5/util/checkpoint_aggregator.py:81-82 | a workload.FdMap256 section of checkpoint i has M5_pid i |
| Simulation.Ask | gem5/src/python/m5/simulate.py:171-206 | a request advances at most its ticks, and exactly them at the limit |
| Simulation.AskUntil | gem5/configs/common/Simulation.py:244-248 | skipping guest checkpoints ends at the target if a limit ends it |
| Simulation.CheckpointTicks | gem5/configs/common/Simulation.py:238-275 | in every run checkpoint i is written at when + i*period plus the drains so far (its own only after a guest checkpoint), at most max(1, max_checkpoints) |
| Simulation.OnScheduleIff | gem5/configs/common/Simulation.py:238-275 | they are on schedule exactly if no drain took time |
| Simulation.DrainDelaysCheckpoint | gem5/configs/common/Simulation.py:250-252 | a run whose checkpoints are late by its first drain |
| Simulation.DropsOnSchedule | gem5/configs/common/Simulation.py:238-275 | without draining, checkpoints are written at when, when+period, ... without gaps |
| Simulation.ScriptWithinIff | gem5/configs/common/Simulation.py:238-275 | no request passes maxtick or is negative exactly if the first is due between now and maxtick and the drains let the loop stay within |
| Simulation.PeriodsWithinIff | gem5/configs/common/Simulation.py:257-273 | the same for the loop alone, from any lateness |
| Simulation.ScriptWithinNoDrains | gem5/configs/common/Simulation.py:238-275 | without draining: exactly if the first is due between now and maxtick |
| Simulation.DrainPassesMaxtick | gem5/configs/common/Simulation.py:261-264 | a run with when well before maxtick whose last request passes it because of one drain |
| Simulation.GuestEndsSeries | gem5/configs/common/Simulation.py:257-273 | for every run, how many checkpoints the loop writes: all that fit if every request reaches its limit, else up to the first that does not, its own included exactly if it recovers from a guest checkpoint in time |
| Simulation.ScriptLength | gem5/configs/common/Simulation.py:238-275 | the number of checkpoints of a whole run |
| Simulation.FullSeriesIff | gem5/configs/common/Simulation.py:238-275 | exactly when all checkpoints that fit are written |
| Simulation.GuestCheckpointLoses | gem5/configs/common/Simulation.py:266-273 | a run in which a guest checkpoint leaves two of five checkpoints |
| Simulation.UndisturbedSeries | gem5/configs/common/Simulation.py:238-275 | undisturbed, all checkpoints that fit are written, however long draining takes |
| Simulation.PeriodsEnd | gem5/configs/common/Simulation.py:257-275 | how and at which tick the loop ends, from any lateness |
| Simulation.ScriptEnds | gem5/configs/common/Simulation.py:238-275 | exactly when a run ends at a limit; then the clock is at the last checkpoint if the maximum was written or a guest checkpoint ended the series, and else at maxtick plus all drains |
| Simulation.UndisturbedEnds | gem5/configs/common/Simulation.py:257-275 | undisturbed and without draining it ends exactly at maxtick, or at the last of the maximum number of checkpoints |
| Simulation.RemainingTicksRun | gem5/configs/common/Simulation.py:261-264 | a run with two checkpoints that simulates the remaining five ticks |
| Simulation.SwitchKeepsTurn | gem5/src/python/m5/simulate.py:334-383 | a switch hands each pair over and swapping makes the active CPU first again |
| Simulation.SwitchRefusedIff | gem5/src/python/m5/simulate.py:353-372 | a switch is refused exactly for an empty list, an active new CPU, an inactive old one, or one that is both; otherwise the new CPUs replace the old ones |
| Simulation.RepeatSwitchInTurn | gem5/configs/common/Simulation.py:445-463 | in every run each switch gets pairs whose first CPU is active, and exactly one CPU of a pair is active |
| Simulation.RepeatSwitchWithinIff | gem5/configs/common/Simulation.py:445-463 | no request passes maxtick or is negative exactly if a whole period is left at the start and no drain for a switch passes maxtick |
| Simulation.RepeatSwitchEnds | gem5/configs/common/Simulation.py:461-463 | a run that ends at a limit ends exactly at maxtick, whatever the drains |
| Simulation.RepeatSwitchStays | gem5/configs/common/Simulation.py:445-463 | the clock does not pass maxtick exactly under that condition, or, if the very first request stops early, if it stops in time |
| Simulation.SwitchesWithinNoDrains | gem5/configs/common/Simulation.py:445-463 | without draining the condition is that a whole period is left at the start |
| Simulation.SwitchPassesMaxtick | gem5/configs/common/Simulation.py:454-463 | a run whose clock passes maxtick because of one drain for a switch |
| Simulation.M5.Drain | gem5/src/python/m5/simulate.py:265-298 | draining advances the clock by an arbitrary time |
| Simulation.M5.WriteCheckpoint | gem5/src/python/m5/simulate.py:311-319 | a checkpoint is written at the tick at which draining ends |
| Simulation.M5.SkipGuest | gem5/configs/common/Simulation.py:246-248 | the loop over guest checkpoints |
| Simulation.M5.RunPeriod | gem5/configs/common/Simulation.py:266-273 | one period: the first cause decides whether the loop goes on, the last whether a checkpoint is written |
| Simulation.M5.ScriptCheckpoints | gem5/configs/common/Simulation.py:238-275 | the driver loop performs the requests and checkpoints of the run that `CheckpointTicks`, `ScriptLength` and `ScriptEnds` are about |
| Simulation.M5.RepeatSwitching | gem5/configs/common/Simulation.py:445-463 | the switching loop performs the specified requests and switches |
| Simpoint.MakePointMeasures | gem5/configs/common/Simulation.py:343-350 | start plus warmup is interval times length; the warmup is the one asked for if there is room for it, and else all there is |
| Simpoint.WarmupIsLongest | gem5/configs/common/Simulation.py:343-350 | no longer warmup within the one asked for starts at instruction 0 or later |
| Simpoint.PointsMeasure | gem5/configs/common/Simulation.py:343-366 | so for every parsed point: its interval, its warmup, and a line of the files it comes from |
| Simpoint.ParseAnalysis | gem5/configs/common/Simulation.py:343-371 | one point per line, sorted by start, each measuring its interval after the warmup asked for or as much as there is room for; and the ascending list of starts |
| Simpoint.MatchOfRender | gem5/configs/common/Simulation.py:155-158 | the expression gives back the groups of any rendered name |
| Simpoint.NameParses | gem5/configs/common/Simulation.py:169-176 | a printed name parses to the same index, start, weight text, length and warmup |
| Simpoint.NameReads | gem5/configs/common/Simulation.py:399-408 | the name written out, the index padded to two digits |
| Simpoint.NamesInOrder | gem5/configs/common/Simulation.py:399-408 | below index 100 names sort like their indices |
| Simpoint.HundredBeforeTen | gem5/configs/common/Simulation.py:399-408 | index 100 sorts in front of index 10 |
| Simpoint.SortNamesOrdered | gem5/configs/common/Simulation.py:164 | the sorted list is ordered |
| Simpoint.SortedAsTakenIff | gem5/configs/common/Simulation.py:159-164 | the sorted names are in the order taken exactly for at most 100 checkpoints |
| Simpoint.FindCheckpoint | gem5/configs/common/Simulation.py:154-169 | matching, sorting and picking the n-th directory, or failing if there are fewer |
| Simpoint.RestorePicksNth | gem5/configs/common/Simulation.py:154-169 | from any listing that holds the checkpoints, n selects the n-th one taken, 0 the last, and more than there are fails |
| Simpoint.Simulate | gem5/configs/common/Simulation.py:386-394 | running on past guest checkpoints |
| Simpoint.TakeCheckpoints | gem5/configs/common/Simulation.py:374-418 | names of the points up to the first start not found; points with the same start need no further run |
| Simpoint.OneRunPerStart | gem5/configs/common/Simulation.py:380-388 | for sorted points the simulator runs once for each different start |
| Simpoint.GuestsAreSkipped | gem5/configs/common/Simulation.py:388-394 | guest checkpoints anywhere among the returns make no difference |
| MemTest.NumTesters | gem5/configs/example/memtest.py:149-160 | the multiplier loops compute the closed form |
| MemTest.CountedIsTree | gem5/configs/example/memtest.py:149-160 | the closed form counts the testers of the whole tree |
| MemTest.CheckSpec | gem5/configs/example/memtest.py:190-216 | accepts exactly the valid specifications |
| MemTest.Prototypes | gem5/configs/example/memtest.py:235-259 | k levels below the L1, size, associativity and MSHRs are multiplied by the fan-outs between, the latency by ten to the k, and write-back and inclusivity alternate |
| MemTest.CompleteCounts | gem5/configs/example/memtest.py:279-287 | complete trees have the product of the preceding fan-outs on each level |
| MemTest.PlacedStep | gem5/configs/example/memtest.py:286-292 | a new subsystem's name is never in use, and numbering stays without gaps |
| MemTest.Builder.AddSubSystem | gem5/configs/example/memtest.py:286-309 | naming a subsystem with its testers |
| MemTest.Builder.MakeCacheLevel | gem5/configs/example/memtest.py:283-345 | terminates within bounds, adds one complete subtree and its testers, each child below its own cache slot |
| MemTest.Builder.MakeChildren | gem5/configs/example/memtest.py:321-327 | the loop over tree caches fills the slots in order |
| MemTest.Builder.Build | gem5/configs/example/memtest.py:279-349 | the whole tree has the planned subsystems per level and exactly the counted testers |
| Copyrights.MaximalRuns | gem5/util/find_copyrights.py:192-217 | the runs printed are separated by gaps, ascend and cover exactly the set |
| Copyrights.DateStr | gem5/util/find_copyrights.py:192-217 | the popping loop prints the runs of the sorted years; the empty set is an error |
| Copyrights.ProcessDates | gem5/util/find_copyrights.py:112-129 | the union of the years of all entries, bad entries counting for nothing |
| Copyrights.MatchOfRange | gem5/util/find_copyrights.py:109 | a printed range is matched exactly if its first year has four digits and its second at least four |
| Copyrights.BlanksDoNotCount | gem5/util/find_copyrights.py:109-129 | blanks around a year, around a range and around its dash do not change the years |
| Copyrights.RunReads | gem5/util/find_copyrights.py:109-129 | a run's text gives years of that run only, and all of them exactly if it is readable |
| Copyrights.RoundTripIff | gem5/util/find_copyrights.py:109-217 | reading back gives the set exactly if every two consecutive years in it both lie within 1000 to 9999 |
| GpuPorts.ConstructCorePairs | gem5/configs/ruby/GPU_VIPER.py:651-688 | two sequencers for each pair of CPUs |
| GpuPorts.Construct | gem5/configs/ruby/GPU_VIPER.py:691-804 | one sequencer for each TCP, SQC or scalar cache, in order |
| GpuPorts.ConstructCmdProcs | gem5/configs/ruby/GPU_VIPER.py:807-865 | a data and an instruction sequencer for each CP |
| GpuPorts.CreateSystem | gem5/configs/ruby/GPU_VIPER.py:950-1051 | the list in the order of construction |
| GpuPorts.CpuSequencers | gem5/configs/example/apu_se.py:812-813 | the first sequencers are those of the CPUs in pairs, one for each and at most one to spare |
| GpuPorts.AttachCpus | gem5/configs/example/apu_se.py:811-819 | CPU i is attached to its own half of pair i div 2 |
| GpuPorts.CeilIsLast | gem5/configs/example/apu_se.py:408-412 | the rounded-up count of shared caches is one more than the group of the last CU |
| GpuPorts.MovesIsDiv | gem5/configs/example/apu_se.py:872-888 | moving on at the multiples of the group size is dividing by it |
| GpuPorts.WalkShared | gem5/configs/example/apu_se.py:872-888 | the index walk of the shared caches |
| GpuPorts.AttachShared | gem5/configs/example/apu_se.py:872-888 | CU i gets the cache of its group |
| GpuPorts.AttachMemory | gem5/configs/example/apu_se.py:862-870 | CU i gets all lanes of coalescer i |
| GpuPorts.AttachCps | gem5/configs/example/apu_se.py:891-898 | each CP gets its own pair |
| GpuPorts.WalkTokens | gem5/configs/example/apu_se.py:854-860 | the search collects the coalescers in order |
| GpuPorts.TokensOfLayout | gem5/configs/example/apu_se.py:854-860 | the coalescers of the list are those of the CUs, one each |
| GpuPorts.Wire | gem5/configs/example/apu_se.py:843-906 | the walk over the list as built connects every CU and CP to its own or its group's sequencers |
| LatMemRd.Pow2TestExact | gem5/configs/dram/lat_mem_rd.py:154-155 | the bit test is exact for every integer |
| LatMemRd.NextSize | gem5/configs/dram/lat_mem_rd.py:167-171 | consecutive sizes differ by the step |
| LatMemRd.Octave | gem5/configs/dram/lat_mem_rd.py:167-171 | the step is a quarter of the largest power of two not above the size |
| LatMemRd.SizeIsPow2Iff | gem5/configs/dram/lat_mem_rd.py:169-170 | a size is a power of two exactly at the start of an octave |
| LatMemRd.Ranges | gem5/configs/dram/lat_mem_rd.py:163-171 | the loop terminates with the sizes up to the first not below the maximum |
| LatMemRd.SizesIncrease | gem5/configs/dram/lat_mem_rd.py:167-171 | the sizes strictly increase |
| LatMemRd.HitsPowers | gem5/configs/dram/lat_mem_rd.py:163-171 | every power of two from 4096 to the last size is measured |
| LatMemRd.OvershootBound | gem5/configs/dram/lat_mem_rd.py:167-171 | above 4096 the last size is below 5/4 of the maximum |

## Left out

- Files, gzip, argument parsing, printed progress and terminal colours, in all tools.
- Pipeline viewer: splitting trace lines at colons, stage names other than the eight known ones, the header and the label columns of a row, timestamps. Traces with instructions that lack stages are outside the well-formed traces; the script ends with a KeyError there.
- Checkpoint upgrader: what the upgrader scripts do (a function parameter that does not raise), the ConfigParser file format, joining and splitting the tag text, wrongly typed declarations, two scripts with the same tag. `SettledIff` is about scripts that keep or remove the Globals section.
- Trace codecs: protobuf's errors on malformed messages and on values outside a field's width, the header message (any bytes), `int()` on signs, blanks and underscores, white space outside ASCII. Serialisation is any pair of functions that are inverse on the records at hand; `Wire` gives the wire format. The magic number is four bytes.
- Port binder: parsing port names (an endpoint is an object, a port and an index). The sort is any permutation.
- Checkpoint merger: the maximum of `curTick`, the text of sections, the `--no-compress` switch, a missing memory size.
- Simulation driver: at-instruction checkpoints, benchmark checkpoints, standard and fast-forward switching, memory modes and the compatibility checks of `switchCpus`, drains that never end, exit events that are lost while draining. The simulator is an arbitrary list of replies within the limits of each request and an arbitrary list of drain times.
- SimPoint: reading the analysis files line by line and checking that they match; floating-point weights (kept as printed text).
- Memory test: clocks, latencies and intervals of testers, crossbar connections, the random tree of `--random`, parsing the command line.
- Copyright years: negative years, finding copyright lines and comments, `int()` on signs and blanks.
- GPU wiring: caches, directories, DMA and the network of GPU_VIPER; the CPU numbers of CPs; rounding of `float` in the division, which is taken as exact.
- Coherence protocols, address interleaving and the C++ simulator.
