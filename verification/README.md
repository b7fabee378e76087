# A verified model of the Nozdormu CDN

The project models, in Dafny, the parts of the CDN whose correctness rests on several functions or
several concurrent actors, and proves what they keep over every input, every run and every
interleaving. `dafny verify dfyconfig.toml` checks all of it.

| files | what they model |
|---|---|
| `Segmenter`, `Conservation`, `PartAudio` | the live segmenter, and where every pushed frame ends up |
| `CutTiming`, `CutContents` | when the segmenter cuts, told from the frames alone, and what each segment and part then is |
| `LiveStream`, `LiveSystem` | the live stream behind its lock, the ingest side and any number of blocking playlist readers |
| `Playlist`, `LiveServer`, `LiveHistory` | the HLS playlist, the HTTP handler, their agreement, and the stream over time |
| `LiveContents`, `LiveAnswers`, `PlaylistText` | what players see: the playlist read back from its lines and from its text, reloads, and the answer to every URI, all in terms of the frames fed |
| `ConfigHistory`, `SaveRuns`, `SaveVersion` | versioned site configurations in etcd, saved and pruned by any number of nodes |
| `LiveConfig`, `Watcher`, `WatchRuns` | host matching over the site map, the watch that keeps the map up to date, and whole runs of it beside reloads |
| `HashRing`, `RoundRobin`, `SharedCounter`, `AdaptiveWeight` | the load balancer |
| `RateLimiter`, `Bans`, `RateBound`, `LagBound` | request counters and bans, with explicit time, how long a ban lasts, and how many requests a window lets through |
| `TsDemux`, `NalUnits`, `TsSplit`, `TsRoundTrip`, `TsTables` | the MPEG-TS demuxer, its key frames, cuts of its input, and a multiplexer it inverts from the first byte on |
| `Coalescing`, `Followers` | leaders and waiters of coalesced cache misses |
| `TagIndex`, `TagContents`, `TagRuns` | the cache and its tag index, by whole operations and by single Redis calls |
| `RegexMemo` | the two bounded caches of compiled patterns |
| `Decimal`, `Wrappers` | numerals as printed and parsed, and shared types |

Code that updates objects is a class here, and each of its methods is proved to compute a
specification function on values; the theorems are about those functions and about runs of them.
Concurrency is a state machine: one lock-held region, etcd or Redis call, or access to a shared map is
one step, and a run is any list of steps. Floating point is `real`. Widths are written out where they
decide something: DTS differences wrap at 2^64, fragment numbers at 2^32, the round-robin counter at
2^64, parsed file numbers are bounded, and version keys are padded to ten digits.

## What the proofs found

Each of these is stated as a lemma with the exact condition, or with a run that shows it.

- A segment's bytes leave a track out exactly when no event before the closing frame had set the
  track's configuration. Frames are carried by the bytes if and only if that never happened to a
  segment with frames on the track. The SRT path never sets a configuration, so its segments carry no
  video at all. The durations announced are 3000 ticks a sample; the comment beside them speaks of DTS
  differences, which play no part.
- A segment's clock, and a part's, starts not with its first frame, which is the one that closed the
  segment or part before it, but with the frame after that one. A key frame closes a segment if and only
  if video is buffered and its distance from that frame, modulo 2^64, has reached the configured length:
  in a release build a small step back in time counts as nearly 2^64 ticks.
- A part's duration counts its video samples with the timescale of the track of the frame that cuts it,
  so a part cut by an audio frame is announced with the audio timescale.
- With LL-HLS, audio can be left in the part buffer when a segment closes, because a part is cut only
  if video is buffered. The parts then lack audio the segment has, and the next segment's first part
  has it too much. With the configuration known in time, parts and segment carry the same audio
  frames if and only if this happened neither here nor at the cut before.
- With LL-HLS off, nothing ever empties the part buffers: they hold every frame of the stream.
- A playlist target that is ready stays ready if and only if the ring keeps at least one segment.
- A reload returns if and only if the playlist lists the segment or part asked for, the segment has left
  the ring, or the stream is over; asked for no part, it returns with the first part of the segment. Of
  a closed segment's parts only the one it closed with can still be fetched.
- A playlist URI is read back from its quoted attribute if and only if it has no quote and no newline;
  stream names are printed as they are.
- A save is given up with the fifth transaction in a row before which somebody else committed. Pruning
  spares the newest fifty versions if and only if their keys have one length. Every run of up
  to n commits keeps them if and only if n is below 10^10, where the ten digits of the keys run out.
- An update that does not parse leaves the old site served, where a full load would drop it. Until the
  site is written again, whether it is served depends on which of the two came last.
- After any interleaving of writes, batches, reloads and reconnects, and when payloads parse, what is
  left to deliver brings the live map to etcd's contents if and only if every site changed after the
  revision the map has it at, not later than the watch and not since, is configured alike at both. So a
  reload overtaken by a batch, or a reconnect after a batch older than the last load, can lose updates
  for good.
- The consistent-hash promise holds if and only if some candidate has weight or there are at most two.
- Round robin is exactly fair in every window of consecutive counter values if and only if the total
  weight divides 2^64 or one origin takes every pick; otherwise a window across the wrap is unfair.
- All sites draw from that one counter. A site that gets every s-th value is served in proportion to
  the weights if and only if the greatest common divisor of s and the total weight divides every
  origin's share: two sites with two equal origins each that take turns send everything to one origin
  each. With arbitrary turns a site may get any sequence of origins at all.
- The adaptive multiplier lies in [1/100, 1]; its comment says [0.1, 1.0]. A weight of 0 becomes 1
  once statistics are active.
- An interval as long as the window lets through at most 2 * rate requests, by the time they looked
  their counter up, if and only if the window is not zero or the rate is; every rate attains it. By
  the time they were decided, at most a given lag after their counter's life, the least bound is
  (2 + lag / window, rounded up) * rate. A ban stops exactly the requests that had not passed their
  check before it was stored, up to its end and no longer; writing over a live ban keeps its first expiry.
- The demuxer carries nothing over between calls. A cut leaves the packets met unchanged if and only if
  the scan from the cut meets what the scan from its last stop before the cut meets; for aligned input
  that is safe exactly between packets. Otherwise the packet cut is lost, and if its rest holds a sync
  byte, so can be the packets after it. Of a table longer than a packet only the first packet is read:
  42 programs, and the stream headers complete in it.
- A leader whose `cache_key` is cleared leaves its key in the coalescing map for ever, and every later
  request for the key waits. A waiter is woken if and only if its entry is notified after it began to
  listen, so one that finds the entry and begins after the notification never is.
- One operation at a time, the tag index survives every run if and only if no site's id is another's
  followed by a colon and more; the id check does not exclude colons. With operations interleaved, a
  stored entry is missing from a tag's set in the end if and only if a purge that had read the set
  before the entry was last added dropped it afterwards. A key written again with other tags stays in
  the old tag's set, and a purge of that tag removes it.
- The cache-rule memo calls its eviction LRU but does not promote on a hit: it evicts in order of
  insertion.

## Model

| member | source | states |
|---|---|---|
| `Segmenter.ComputeDurations` | crates/cdn-ingest/src/segmenter/mod.rs:447-461 | Every sample without a duration gets 3000 ticks, no other sample and nothing else of it changes |
| `Segmenter.SumDurations` | crates/cdn-ingest/src/segmenter/mod.rs:251-255 | The duration of a cut is the sum of its samples' durations in seconds |
| `Segmenter.SegmentExcludesParts` | crates/cdn-ingest/src/segmenter/mod.rs:174-204 | One frame never completes both a segment and a part, and completes at most one part |
| `Segmenter.LiveSegmenter.Push` | crates/cdn-ingest/src/segmenter/mod.rs:131-231 | Pushing a frame takes the object to the specified next state and returns the specified output |
| `Segmenter.LiveSegmenter.BeginInPlace` | crates/cdn-ingest/src/segmenter/mod.rs:138-165 | The init segment is built once, and start times are set only when unset |
| `Segmenter.LiveSegmenter.TrySegment` | crates/cdn-ingest/src/segmenter/mod.rs:174-189 | A segment is cut exactly on a due video key frame |
| `Segmenter.LiveSegmenter.TryPart` | crates/cdn-ingest/src/segmenter/mod.rs:191-204 | A part is cut exactly when due, with LL-HLS on and video buffered |
| `Segmenter.LiveSegmenter.CutSegmentInPlace` | crates/cdn-ingest/src/segmenter/mod.rs:233-277 | The whole new state and the segment, trailing part included |
| `Segmenter.LiveSegmenter.CutTrailingInPlace` | crates/cdn-ingest/src/segmenter/mod.rs:238-243 | The trailing part is cut and kept for the segment exactly when LL-HLS is on and video is buffered |
| `Segmenter.LiveSegmenter.CutPartInPlace` | crates/cdn-ingest/src/segmenter/mod.rs:279-315 | The whole new state and the part, or nothing when both tracks are empty |
| `Conservation.PackedSamples` | crates/cdn-ingest/src/segmenter/mod.rs:317-400 | The bytes built from a buffer carry exactly its samples, per track, for the tracks that are configured |
| `Conservation.CutSegmentFacts` | crates/cdn-ingest/src/segmenter/mod.rs:233-277 | A cut segment has the next number, holds exactly the buffered samples, and its trailing part exactly the open part's |
| `Conservation.PushFacts` | crates/cdn-ingest/src/segmenter/mod.rs:131-231 | What any frame does: close the segment and start the next with itself, or continue it, closing at most one part |
| `Conservation.EveryRunConserves` | crates/cdn-ingest/src/segmenter/mod.rs:131-277 | In every run, per track, the samples of the cuts followed by the pending ones are the frames pushed, in order; segments are numbered 0, 1, ..; every segment after the first starts on a key frame |
| `Conservation.DurationCountsSamples` | crates/cdn-ingest/src/segmenter/mod.rs:447-461 | A segment's announced duration is its number of samples times 3000 ticks, whatever the frames' times |
| `Conservation.CutsFollowConfiguration` | crates/cdn-ingest/src/segmenter/mod.rs:317-357 | In every run a segment's bytes have a track if and only if an event before its closing frame set the track's configuration |
| `Conservation.PartsFollowConfiguration` | crates/cdn-ingest/src/segmenter/mod.rs:279-400 | The same of every part and both tracks, and of the frame that cut it, which is not later than the one that closed the segment |
| `Conservation.BytesCarryEveryFrame` | crates/cdn-ingest/src/segmenter/mod.rs:257-357 | The bytes of all segments plus the pending samples are exactly the pushed frames of a track if and only if every segment with frames on it was closed after an event setting its configuration |
| `Conservation.ConfigFirstIsComplete` | crates/cdn-ingest/src/segmenter/mod.rs:110-112 | A run whose first event sets the video configuration has it in every segment |
| `Conservation.NoConfigCarriesNothing` | crates/cdn-ingest/src/srt/demux.rs:48-90 | A run that never sets it, as the SRT handler's, has no video sample in any segment's bytes |
| `Conservation.EveryRunSplitsIntoParts` | crates/cdn-ingest/src/segmenter/mod.rs:191-243 | With LL-HLS the video of a segment's parts in index order, trailing part included, is the segment's video; parts are numbered from 0 and carry the audio buffered with them; the open parts and part buffer are the open segment |
| `PartAudio.EveryRunSplitsAudio` | crates/cdn-ingest/src/segmenter/mod.rs:191-243 | With LL-HLS the audio of a segment's parts, followed by what its cut left in the part buffer, is what the cut before left, followed by the segment's audio |
| `Conservation.PartsPlayTheVideo` | crates/cdn-ingest/src/segmenter/mod.rs:279-400 | Playing a segment's parts plays its video sample for sample if and only if no part was cut before the first video configuration while the segment was closed after it |
| `PartAudio.PartsPlayTheAudio` | crates/cdn-ingest/src/segmenter/mod.rs:279-400 | Which audio frames the bytes of a segment and of its parts carry, and that they are the same if and only if the segment found no audio configuration, or left nothing behind and each part was cut after the configuration exactly if its audio is this segment's |
| `PartAudio.InStepIffNothingLeft` | crates/cdn-ingest/src/segmenter/mod.rs:238-243 | With the configuration known in time: if and only if neither this segment nor the one before was closed with audio and no video in the part buffer |
| `PartAudio.AudioLeftBehind` | crates/cdn-ingest/src/segmenter/mod.rs:191-243 | With durations of 0, a key frame, an audio frame and a key frame give a segment with the audio frame and parts without it |
| `CutTiming.EveryRunIsClocked` | crates/cdn-ingest/src/segmenter/mod.rs:131-231 | After every run both buffers hold exactly the frames pushed since their cut, with the first DTS of each track, and their clocks stand at the first frame after the cutting one |
| `CutTiming.SegmentClosesIff` | crates/cdn-ingest/src/segmenter/mod.rs:167-189 | A frame closes a segment if and only if it is a video key frame, video was pushed since the last cut, and its distance from the first frame after that cut reached the segment duration, counted modulo 2^64 whatever the order of times |
| `CutTiming.PartClosesIff` | crates/cdn-ingest/src/segmenter/mod.rs:191-204 | The same for a part that is cut on its own |
| `CutTiming.TrailingPartIff` | crates/cdn-ingest/src/segmenter/mod.rs:238-243 | A closing segment has a part exactly when LL-HLS is on and video was pushed since the last part |
| `CutContents.SampleIsFrame` | crates/cdn-ingest/src/segmenter/mod.rs:206-228 | A sample has its frame's bytes and key flag, and as offset the frame's PTS less its DTS, as a 32-bit integer |
| `CutContents.SegmentIsItsFrames` | crates/cdn-ingest/src/segmenter/mod.rs:233-277 | The segment a frame closes: the next number, the frames pushed since the last cut as its samples, 3000 ticks each, their first DTS per track as base, and their number times 3000 ticks as duration |
| `CutContents.PartIsItsFrames` | crates/cdn-ingest/src/segmenter/mod.rs:279-315 | The same for a part, with its index and fragment number and the timescale of the cutting frame's track |
| `Conservation.PlainHlsKeepsEveryFrame` | crates/cdn-ingest/src/segmenter/mod.rs:206-228 | With LL-HLS off the part buffers hold all frames pushed since the start |
| `LiveStream.LiveStreamObject.constructor` | crates/cdn-ingest/src/store.rs:112-160 | A new stream is empty, not ended, without waiters |
| `LiveStream.LiveStreamObject.IsAvailable` | crates/cdn-ingest/src/store.rs:303-320 | True exactly for targets in the completed segments or the listed parts |
| `LiveStream.LiveStreamObject.Evict` | crates/cdn-ingest/src/store.rs:261-265 | Keeps the newest segments that fit and advances the media sequence by the number dropped |
| `LiveStream.LiveStreamObject.PushSegmentInPlace` | crates/cdn-ingest/src/store.rs:257-274 | The whole new state: ring, counters, parts cleared, waiters notified |
| `LiveStream.LiveStreamObject.PushPartInPlace` | crates/cdn-ingest/src/store.rs:277-280 | The part is appended and waiters are notified |
| `LiveStream.LiveStreamObject.NotifyWaiters` | crates/cdn-ingest/src/store.rs:322-333 | Ready waiters are signalled in order and removed, the others stay in order |
| `LiveStream.LiveStreamObject.EndInPlace` | crates/cdn-ingest/src/store.rs:163-173 | The stream is ended and every waiter signalled |
| `LiveStream.LiveStreamObject.ApplyOutput` | crates/cdn-ingest/src/rtmp/session.rs:391-440 | Init segment, parts, then segment, under one hold of the lock |
| `LiveStream.LiveStreamObject.CheckOrRegister` | crates/cdn-ingest/src/manifest/blocking.rs:28-35 | Returns at once exactly if the target is ready under the write lock, otherwise registers one new channel |
| `LiveSystem.EveryRun` | crates/cdn-ingest/src/store.rs:257-339 | The invariant of segmenter, stream and readers holds after every interleaving |
| `LiveSystem.LockStep` | crates/cdn-ingest/src/rtmp/session.rs:391-440 | After every run the segmenter's next number is the stream's and the open segment's, its part index the number of listed parts, part i has index i, segments are consecutive from the media sequence, and the ring never overflows |
| `LiveSystem.NoLostWakeup` | crates/cdn-ingest/src/manifest/blocking.rs:19-45 | After every run a reader still waiting though its target is ready has been signalled, no channel is signalled twice, signals are sent only for ready targets, and an unsignalled reader is still registered |
| `LiveSystem.AvailabilityStays` | crates/cdn-ingest/src/store.rs:257-320 | With at least one segment kept, a ready target is ready after any further event |
| `LiveSystem.ZeroRingForgets` | crates/cdn-ingest/src/store.rs:257-274 | With none kept, a listed part stops being ready when its segment completes |
| `LiveSystem.ReadinessIsPermanent` | crates/cdn-ingest/src/store.rs:257-339 | Readiness is permanent in all runs if and only if the ring keeps at least one segment |
| `Playlist.Find` | crates/cdn-ingest/src/http_handler.rs:200-216 | The first occurrence, if any |
| `Playlist.SegmentNameRoundTrip` | crates/cdn-ingest/src/http_handler.rs:200-208 | A printed segment name parses back to its number if that fits, and never as a part |
| `Playlist.PartNameRoundTrip` | crates/cdn-ingest/src/http_handler.rs:210-216 | A printed part name parses back to both numbers if they fit, and never as a segment |
| `Playlist.NeverConfused` | crates/cdn-ingest/src/http_handler.rs:200-216 | No file name at all is both a segment and a part |
| `Decimal.ParsesIff` | crates/cdn-ingest/src/http_handler.rs:200-216 | A file number parses exactly if it is digits, perhaps after one plus sign, whose value is below the type's limit |
| `Playlist.MaxSegmentDuration` | crates/cdn-ingest/src/manifest/mod.rs:18-22 | The largest of the segments' durations and the configured one |
| `Playlist.AppendParts` | crates/cdn-ingest/src/manifest/mod.rs:55-64 | Appends the tags of a segment's parts, in order |
| `Playlist.AppendSegments` | crates/cdn-ingest/src/manifest/mod.rs:52-69 | Appends every segment's parts, duration and URI, in order |
| `Playlist.GenerateHead` | crates/cdn-ingest/src/manifest/mod.rs:10-49 | The header lines, LL-HLS lines only with LL-HLS on, the map only with an init segment |
| `Playlist.AppendTail` | crates/cdn-ingest/src/manifest/mod.rs:71-95 | The open parts and the hint with LL-HLS on and parts listed, the end tag exactly on an ended stream |
| `Playlist.GenerateLiveManifest` | crates/cdn-ingest/src/manifest/mod.rs:9-98 | The text produced by the appends is the rendering of the playlist's lines |
| `LiveServer.ServeSegment` | crates/cdn-ingest/src/http_handler.rs:127-153 | The segment with that number, or 404 |
| `LiveServer.ServePart` | crates/cdn-ingest/src/http_handler.rs:155-197 | The part from the completed segments first, then from the open one, or 404 |
| `LiveServer.RoutePrinted` | crates/cdn-ingest/src/http_handler.rs:25-67 | A media path of a stream is routed to that stream and file name |
| `LiveServer.RouteManifest` | crates/cdn-ingest/src/http_handler.rs:41-45 | The manifest path of a stream is routed to its manifest |
| `LiveServer.RouteNames` | crates/cdn-ingest/src/http_handler.rs:47-64 | Printed file names are routed to the segment, part or init segment they name |
| `LiveServer.KeysDiffer` | crates/cdn-ingest/src/store.rs:187-190 | Streams of different app or stream names have different keys |
| `LiveServer.PrintedIsListed` | crates/cdn-ingest/src/manifest/mod.rs:46-82 | The URIs in the playlist are exactly the listed entries, in order |
| `LiveServer.EveryPrintedUriIsServed` | crates/cdn-ingest/src/http_handler.rs:25-197 | In every reachable state each URI the playlist prints is answered 200 with exactly the bytes it was printed for |
| `LiveHistory.LaterRun` | crates/cdn-ingest/src/store.rs:257-285 | Every continuation of a run only extends the stream's history |
| `LiveHistory.UriKeepsItsMeaning` | crates/cdn-ingest/src/http_handler.rs:103-197 | During the life of one stream a media path answered 200 now and later is answered with the same bytes both times |
| `LiveHistory.HeaderDescribesSegments` | crates/cdn-ingest/src/manifest/mod.rs:17-31 | The target duration is the least integer bounding every EXTINF and the configured duration; the media sequence is the first listed segment's number |
| `LiveHistory.ReloadSeesItsTarget` | crates/cdn-ingest/src/manifest/blocking.rs:13-45 | When a blocking reload has returned and the stream has not ended, the playlist lists what was asked for, unless it has left the window |
| `LiveContents.StreamIsRun` | crates/cdn-ingest/src/store.rs:257-285 | After every run, whatever readers do, the ring is the newest segments the frames fed led to, the parts are those of the segment in progress, the media sequence is the number dropped, and the stream is ended exactly if its end came |
| `LiveContents.ReadBack` | crates/cdn-ingest/src/manifest/mod.rs:9-98 | A player reading the lines gets back the header values, every segment with its duration and parts, the open parts, the hint and the end, and nothing else |
| `LiveContents.PlaylistIsRun` | crates/cdn-ingest/src/manifest/mod.rs:9-98 | The same after every run, in terms of the frames fed; the end tag is there if and only if an end of stream occurred |
| `LiveContents.HintIsKept` | crates/cdn-ingest/src/manifest/mod.rs:84-89 | The next part listed in the same segment is the one the preload hint named |
| `LiveContents.ReadyIffPrinted` | crates/cdn-ingest/src/store.rs:303-320 | In every run a target is available if and only if the playlist prints it, the ring dropped it, or the stream ended, with and without a part number |
| `LiveContents.SignalledIffPrinted` | crates/cdn-ingest/src/manifest/blocking.rs:13-45 | No reader waits unsignalled for a target the playlist prints; with a ring of at least one segment it is signalled exactly then |
| `LiveContents.ReloadFollowsPlaylist` | crates/cdn-ingest/src/manifest/blocking.rs:13-45 | Every step of a reload against the playlist: both checks, the wake-up and the time-out |
| `LiveAnswers.SegmentAnswer` | crates/cdn-ingest/src/http_handler.rs:127-153 | After every run segment n is answered 200 with the n-th segment's bytes while it is in the ring, and 404 before and after |
| `LiveAnswers.PartAnswer` | crates/cdn-ingest/src/http_handler.rs:155-197 | A part is answered 200 with its bytes while its segment is in progress, or if its segment closed with it and is in the ring, and 404 otherwise |
| `LiveAnswers.InitAnswer` | crates/cdn-ingest/src/http_handler.rs:103-125 | The init segment is answered 200 once it was built and 404 until then; without the stream the path is not answered here |
| `LiveAnswers.StreamsDoNotMix` | crates/cdn-ingest/src/http_handler.rs:25-67 | A further stream in the store changes no answer of this one |
| `PlaylistText.TextReadsBack` | crates/cdn-ingest/src/manifest/mod.rs:9-98 | The text read by the general syntax of RFC 8216 means the lines it was rendered from, every tag name and attribute |
| `PlaylistText.ManifestReadsBack` | crates/cdn-ingest/src/manifest/mod.rs:9-98 | The same for every stream under a base path without quotes and newlines |
| `PlaylistText.MapReadsBackIff` | crates/cdn-ingest/src/manifest/mod.rs:46-49 | That condition is exact |
| `Decimal.ParsePrinted` | crates/cdn-ingest/src/http_handler.rs:200-216 | Parsing a printed number gives it back if it fits the type, and nothing otherwise |
| `Decimal.LexIsNumeric` | crates/cdn-config/src/config_history.rs:68-70 | Digit strings of one length compare as text as they do as numbers |
| `ConfigHistory.EveryRun` | crates/cdn-config/src/config_history.rs:93-193 | The invariant of the counter, the store and every node's progress holds after every interleaving, without a bound |
| `ConfigHistory.VersionsAreExact` | crates/cdn-config/src/config_history.rs:108-177 | For any interleaving of any nodes the counter equals the number of commits, versions are 1 to latest in commit order, and no two nodes return the same one |
| `ConfigHistory.StoredIsCommitted` | crates/cdn-config/src/config_history.rs:126-153 | After every interleaving what is stored under a version is the snapshot its committer built |
| `ConfigHistory.NewestAreKept` | crates/cdn-config/src/config_history.rs:164-174 | With fewer than 10^10 commits each of the newest fifty versions is stored, stale pruners included |
| `ConfigHistory.NewestAreKeptIff` | crates/cdn-config/src/config_history.rs:68-70 | All runs of up to n commits keep their newest fifty versions if and only if n is below 10^10 |
| `ConfigHistory.NewestPrunerLeavesFifty` | crates/cdn-config/src/config_history.rs:294-321 | A prune by the newest committer leaves exactly the newest fifty versions |
| `ConfigHistory.RollbackRestores` | crates/cdn-config/src/config_history.rs:251-291 | A committed rollback carries the configuration of the version it named |
| `ConfigHistory.PruneIsNumeric` | crates/cdn-config/src/config_history.rs:294-307 | Below 10^10 the textual range delete removes exactly the versions up to the cutoff |
| `ConfigHistory.PruneSparesNewestIff` | crates/cdn-config/src/config_history.rs:300-306 | A prune spares all of the newest fifty if and only if their keys have one length |
| `ConfigHistory.RangeStaysInSite` | crates/cdn-config/src/config_history.rs:303-307 | The range delete of one site hits no version key of another slash-free site |
| `SaveRuns.TransactionOutcome` | crates/cdn-config/src/config_history.rs:108-193 | In every interleaving a transaction commits the job under the next number if nobody committed since its read, and otherwise nothing; the fifth such loss in a row gives the save up |
| `SaveRuns.SavesWhatWasAsked` | crates/cdn-config/src/config_history.rs:93-138 | A node that is not restoring saves the configuration, change type and revision it was last asked to save |
| `SaveRuns.RollbackSavesItsWrite` | crates/cdn-config/src/config_history.rs:251-291 | A rollback saves the configuration it read and put back, under the revision at which it put it back |
| `SaveVersion.EtcdSite.Transact` | crates/cdn-config/src/config_history.rs:147-153 | Counter and snapshot are both written if the counter is as it was read, otherwise nothing is |
| `SaveVersion.EtcdSite.RivalsCommit` | crates/cdn-config/src/config_history.rs:108-153 | Each rival's commit advances the counter by one, and any at all changes the revision compared |
| `SaveVersion.EtcdSite.SaveVersion` | crates/cdn-config/src/config_history.rs:93-193 | Fails exactly if every one of the five attempts was overtaken; otherwise returns the number after all rivals', which is then the latest, with its own snapshot stored and, below 10^10, no version fifty or more below it stored |
| `SaveVersion.EtcdSite.PruneOldVersions` | crates/cdn-config/src/config_history.rs:294-321 | Below 10^10 exactly the versions fifty or more below the one just saved are gone |
| `LiveConfig.Config.BuildIndexes` | crates/cdn-config/src/live_config.rs:15-52 | In any iteration order each index maps exactly the claimed domains of its kind, each to a claimant |
| `LiveConfig.Config.AddSite` | crates/cdn-config/src/live_config.rs:19-51 | Visiting one more site extends both indexes to its domains |
| `LiveConfig.MatchIsNaiveSearch` | crates/cdn-config/src/live_config.rs:56-81 | Matching returns an enabled site claiming the normalised host if one exists; otherwise, for a host `a.rest` with no dot in `a`, one claiming `*.rest` if one exists; otherwise none, as for a host without a dot |
| `LiveConfig.PortIsIgnored` | crates/cdn-config/src/live_config.rs:99-115 | What follows the last colon is dropped exactly if it is all digits and not empty; a host without a colon is kept |
| `LiveConfig.BracketsAreDropped` | crates/cdn-config/src/live_config.rs:99-115 | Of a host in brackets what stands in them is matched, whatever follows |
| `Watcher.EventRefinesIff` | crates/cdn-config/src/etcd_watcher.rs:195-269 | One watch event keeps the map equal to a full load if and only if it parses or the site was not served |
| `Watcher.ServedIff` | crates/cdn-config/src/etcd_watcher.rs:62-118 | A load at a revision serves a site if and only if its last write up to there is a configuration that parses and names no target label or one the node has; it serves that configuration |
| `Watcher.WatchRefinesLoad` | crates/cdn-config/src/etcd_watcher.rs:158-315 | Applying the events between two revisions to the load at the first gives the load at the second |
| `Watcher.ReplayIsHarmless` | crates/cdn-config/src/etcd_watcher.rs:148-155 | Events already reflected may be delivered again if delivery goes on to the revision reflected |
| `Watcher.EtcdConfigManager.LoadAllInPlace` | crates/cdn-config/src/etcd_watcher.rs:62-118 | In any key order the map becomes the parsed, label-matched contents and the revision the larger one |
| `Watcher.EtcdConfigManager.HandleBatch` | crates/cdn-config/src/etcd_watcher.rs:164-314 | The batch is applied in order to the live map, and the revision becomes the maximum seen |
| `WatchRuns.Unchanged` | crates/cdn-config/src/etcd_watcher.rs:167-296 | A batch for which the changed flag stays false would not have changed the map |
| `WatchRuns.ApplyReadable` | crates/cdn-config/src/etcd_watcher.rs:261-263 | Events that do not parse can be left out of a batch without changing what it does |
| `WatchRuns.EventsAdvance` | crates/cdn-config/src/etcd_watcher.rs:164-306 | If each site of a map is as a load at its own revision has it, then after a batch the sites it parses an event of are as of the batch's end and the others as before |
| `WatchRuns.ConvergesIff` | crates/cdn-config/src/etcd_watcher.rs:144-315 | For any such map, cursor and payloads: what a watch still delivers makes it the newest load if and only if every site ends right, that is, its last parsed event still to come, or else its present entry, is what the newest load has |
| `WatchRuns.EndsRightIff` | crates/cdn-config/src/etcd_watcher.rs:144-315 | When payloads parse, a site ends right if and only if it was not missed or is configured alike at the cursor and at the revision the map has it at |
| `WatchRuns.HeardOfEndsRightIff` | crates/cdn-config/src/etcd_watcher.rs:89-97 | A site with a parsed event still to come ends right if and only if its current payload parses or what was parsed last is not served here |
| `WatchRuns.UnheardEndsRightIff` | crates/cdn-config/src/etcd_watcher.rs:89-97 | A site not heard of again whose current payload does not parse ends right if and only if the map does not have it, as after a load at the newest revision |
| `WatchRuns.EveryRun` | crates/cdn-config/src/etcd_watcher.rs:62-318 | After every interleaving of any writes, the steps of any number of reloads, batches and reconnects, each site of the live map is as a load, or the watch, saw it at a known revision |
| `WatchRuns.LiveMapFollowsEtcdIff` | crates/cdn-config/src/etcd_watcher.rs:62-318 | After every run, whatever was written, the rest of the watch leads to the newest contents if and only if every site ends right |
| `WatchRuns.MissedSitesDecide` | crates/cdn-config/src/etcd_watcher.rs:62-318 | When payloads parse: if and only if every site changed after the revision the map has it at, not later than the cursor and not since, is configured alike at both |
| `WatchRuns.StoreIsHarmlessIff` | crates/cdn-config/src/etcd_watcher.rs:69-117 | In any state, a reload's store leaves a map that will follow etcd if and only if the sites changed between its GET and the cursor, and not since, are configured alike at both |
| `WatchRuns.ReconnectIsHarmlessIff` | crates/cdn-config/src/etcd_watcher.rs:144-155 | A batch older than the load in place, then a reconnect: the map is still that load if and only if the batch's sites are configured alike at its end and in the load |
| `WatchRuns.ReconnectAfterStaleBatch` | crates/cdn-config/src/etcd_watcher.rs:144-155 | The same as a run on any log, after which nothing is left to deliver |
| `WatchRuns.StoreAfterNewerBatch` | crates/cdn-config/src/etcd_watcher.rs:69-117 | A write delivered between a reload's GET and its store, on any log: the map is the current one if and only if the write changed no configuration |
| `WatchRuns.LiveMapFollowsEtcd` | crates/cdn-config/src/etcd_watcher.rs:62-318 | In every run whose reloads are not stored behind the watch and whose reconnects do not skip past the map, a caught-up live map is what a full load at that revision builds, and the events still to come lead to the newest contents |
| `WatchRuns.DisorderlyReconnectLosesUpdates` | crates/cdn-config/src/etcd_watcher.rs:144-155 | A reload, a delayed older batch and a reconnect leave an old configuration served with nothing left to deliver |
| `WatchRuns.OverlappingReloadLosesUpdates` | crates/cdn-config/src/etcd_watcher.rs:69-117 | A batch between a reload's read and its store is undone for good |
| `WatchRuns.HostsFollowEtcd` | crates/cdn-config/src/live_config.rs:56-81 | After any run that leaves nothing to deliver and every site right, host matching is that search over etcd's own contents |
| `HashRing.VnodeKeysDiffer` | crates/cdn-proxy/src/balancer.rs:401-403 | Two virtual-node keys are equal only for the same origin and number, whatever the ids |
| `HashRing.SortByPoint` | crates/cdn-proxy/src/balancer.rs:406 | Sorted by point and a permutation of the input |
| `HashRing.BuildHashRing` | crates/cdn-proxy/src/balancer.rs:394-408 | The ring is sorted and holds exactly the virtual nodes, each under its origin's index |
| `HashRing.BinarySearch` | crates/cdn-proxy/src/balancer.rs:323-332 | An entry at the point, or the place that separates smaller from larger points |
| `HashRing.SelectIpHash` | crates/cdn-proxy/src/balancer.rs:310-334 | The chosen origin owns a virtual node nearest clockwise with wrap-around, or is the modulo choice when nobody has weight |
| `HashRing.NearestIsUnique` | crates/cdn-proxy/src/balancer.rs:322-333 | Without shared points the serving origin is determined |
| `HashRing.OnlyThatOriginMoves` | crates/cdn-proxy/src/balancer.rs:307-334 | Adding virtual nodes of one origin moves clients only to it |
| `HashRing.RaisingWeightAttracts` | crates/cdn-proxy/src/balancer.rs:399-405 | Raising an origin's weight moves clients only to it |
| `HashRing.WeightedRingIsConsistent` | crates/cdn-proxy/src/balancer.rs:307-334 | Removing any origin from a ring with weight leaves every client it did not serve where it was |
| `HashRing.ModuloReshuffles` | crates/cdn-proxy/src/balancer.rs:317-321 | With no weight and three or more candidates every removal moves some client it did not serve |
| `HashRing.ConsistentIff` | crates/cdn-proxy/src/balancer.rs:307-334 | The promise holds for every client if and only if some candidate has weight or there are at most two |
| `HashRing.CollisionFreeKeysShareNoPoints` | crates/cdn-proxy/src/balancer.rs:382-386 | A hash without collisions on the ring's keys gives no shared points |
| `RoundRobin.TotalWeight` | crates/cdn-proxy/src/balancer.rs:289 | The sum of the weights, wrapped at 2^32 |
| `RoundRobin.Locate` | crates/cdn-proxy/src/balancer.rs:297-304 | The first candidate whose cumulated weight, wrapped at 2^32, exceeds the target, or the last of all |
| `RoundRobin.SelectedIsChoice` | crates/cdn-proxy/src/balancer.rs:289-304 | While the weights' sum fits u32 the candidate selected is the owner of the counter's residue |
| `RoundRobin.DynamicBalancer.SelectRoundRobin` | crates/cdn-proxy/src/balancer.rs:284-305 | For any weights the candidate selected at the counter value read, which owns its residue while the sum fits u32, and the counter advanced by one with wrap |
| `RoundRobin.FairWindow` | crates/cdn-proxy/src/balancer.rs:284-305 | Any total-weight consecutive counter values that do not wrap, at any offset, choose each origin exactly weight times (once each if nobody has weight) |
| `RoundRobin.WrapIsUnfair` | crates/cdn-proxy/src/balancer.rs:295-296 | If the total does not divide 2^64 and two origins share it, a window across the wrap cheats one |
| `RoundRobin.AlwaysFairIff` | crates/cdn-proxy/src/balancer.rs:284-305 | Every window of consecutive counter values is fair if and only if the period divides 2^64 or one origin takes every pick |
| `RoundRobin.ThreeEqualOriginsAtTheWrap` | crates/cdn-proxy/src/balancer.rs:295-296 | Three origins of weight 1 are not always treated equally |
| `SharedCounter.GcdDivides` | crates/cdn-proxy/src/balancer.rs:295-296 | The divisor used divides both the stride and the period |
| `SharedCounter.GcdIsGreatest` | crates/cdn-proxy/src/balancer.rs:295-296 | And every common divisor of the two divides it |
| `SharedCounter.StrideIsDivisor` | crates/cdn-proxy/src/balancer.rs:295-296 | Over a period of its own steps a stride visits what the divisor it has in common with the period visits, that many times |
| `SharedCounter.FairToCallerIff` | crates/cdn-proxy/src/balancer.rs:284-305 | A caller that draws every s-th value of the shared counter is served each origin's share in every period of its own picks that does not cross the wrap if and only if gcd(s, period) divides every share |
| `SharedCounter.AlwaysFairToCallerIff` | crates/cdn-proxy/src/balancer.rs:284-305 | The same for every period of its own picks when the period divides 2^64 |
| `SharedCounter.OneCandidateOnly` | crates/cdn-proxy/src/balancer.rs:295-296 | A caller whose stride is a multiple of a period dividing 2^64 gets one origin for ever |
| `SharedCounter.AlternatingSites` | crates/cdn-proxy/src/main.rs:275 | Two sites with two equal origins each, taking turns, each keep to a single origin |
| `SharedCounter.AnySequenceIsPossible` | crates/cdn-proxy/src/balancer.rs:295-296 | From any counter value on, any sequence of origins with a share can be one caller's picks, with at most two periods between its draws, the wrap included |
| `AdaptiveWeight.OrderStatisticsMonotone` | crates/cdn-proxy/src/balancer.rs:455-460 | Raising every entry of a window raises each of its order statistics |
| `AdaptiveWeight.PercentileIsOrderStatistic` | crates/cdn-proxy/src/balancer.rs:455-460 | The percentile computed by sorting is the order statistic of its rank |
| `AdaptiveWeight.PercentileIsNearestRank` | crates/cdn-proxy/src/balancer.rs:455-460 | At least the share asked for lies up to the percentile, and less than it lies below |
| `AdaptiveWeight.Penalty` | crates/cdn-proxy/src/balancer.rs:444-452 | Between 1/10 and 1; 1 exactly up to the low threshold, 1/10 exactly beyond both |
| `AdaptiveWeight.PenaltyAntitone` | crates/cdn-proxy/src/balancer.rs:444-452 | A larger value never has a larger factor, for any thresholds |
| `AdaptiveWeight.PenaltyIsLinear` | crates/cdn-proxy/src/balancer.rs:444-452 | A fraction t of the way between the thresholds costs 0.9 * t |
| `AdaptiveWeight.MultiplierIsProduct` | crates/cdn-proxy/src/balancer.rs:418-441 | The multiplier is the factor owed by the 99th percentile, 1 below ten samples, times the factor owed by the share of errors |
| `AdaptiveWeight.MultiplierBounds` | crates/cdn-proxy/src/balancer.rs:417-441 | The multiplier is in [1/100, 1], 1 exactly if neither threshold is passed, 1/100 exactly if both are passed fourfold |
| `AdaptiveWeight.MultiplierAntitone` | crates/cdn-proxy/src/balancer.rs:418-441 | A pointwise slower window with at least the same errors never has a larger multiplier |
| `AdaptiveWeight.EffectiveWeightBounds` | crates/cdn-proxy/src/balancer.rs:124-146 | Between 1 and the static weight when that is at least 1; larger than it exactly for weight 0 with active statistics |
| `AdaptiveWeight.EffectiveWeightAntitone` | crates/cdn-proxy/src/balancer.rs:124-146 | A worse window never has a larger effective weight, whatever the thresholds |
| `AdaptiveWeight.EffectiveWeightIs` | crates/cdn-proxy/src/balancer.rs:124-146 | With adaptation on, a sample held and less than 61 s passed, the weight times the multiplier rounded down, but at least 1; the static weight otherwise |
| `AdaptiveWeight.HealthyKeepsWeight` | crates/cdn-proxy/src/balancer.rs:124-146 | A window past neither threshold leaves the weight as it is |
| `AdaptiveWeight.MultiplierReachesOneHundredth` | crates/cdn-proxy/src/balancer.rs:417-441 | Ten or more slow failures under the default thresholds give 1/100 |
| `AdaptiveWeight.KeysDiffer` | crates/cdn-proxy/src/balancer.rs:109 | Statistics keys of different origins differ if site ids hold no NUL |
| `AdaptiveWeight.OriginTracker.RecordResponse` | crates/cdn-proxy/src/balancer.rs:101-120 | The whole new map of statistics after one response |
| `AdaptiveWeight.WindowHoldsRecentSamples` | crates/cdn-proxy/src/balancer.rs:101-120 | After any responses a key's window is its own latest samples, as many as its first response's window size allows and at least one |
| `RateLimiter.Lookup` | crates/cdn-middleware/src/cc/state.rs:99-110 | The handle returned belongs to the key |
| `RateLimiter.BlockIp` | crates/cdn-middleware/src/cc/state.rs:74-85 | A ban of positive duration is in force at once |
| `RateLimiter.CcEngine.LookupInPlace` | crates/cdn-middleware/src/cc/state.rs:99-110 | The live counter of the key, or a new one with its own lifetime |
| `RateLimiter.CcEngine.IncrementInPlace` | crates/cdn-middleware/src/cc/state.rs:112 | The counter's new count, and no other counter changed |
| `RateLimiter.CcEngine.BlockIpInPlace` | crates/cdn-middleware/src/cc/state.rs:74-85 | The ban is stored unless a live one is |
| `RateLimiter.CcEngine.Check` | crates/cdn-middleware/src/cc/mod.rs:91-227 | An undisturbed check: banned exactly if a live ban exists, let through uncounted with a valid cookie under a challenge rule, otherwise allowed exactly up to the rate, else the rule's action, a ban stored exactly for Block |
| `RateLimiter.EveryRun` | crates/cdn-middleware/src/cc/state.rs:74-113 | For any interleaving counters of a key live one after another, requests meet a live counter, and each counter allowed exactly the smaller of its count and the rate |
| `RateLimiter.LifetimeBound` | crates/cdn-middleware/src/cc/mod.rs:145-169 | One counter lifetime allows exactly the smaller of count and rate |
| `RateBound.AtMostTwoCounters` | crates/cdn-middleware/src/cc/state.rs:99-113 | A closed interval of one window length meets at most two counters of a key |
| `RateBound.LimitsLookupsIff` | crates/cdn-middleware/src/cc/mod.rs:145-169 | All runs keep every such interval to 2 * rate allowed requests, dated by their lookup, if and only if the window is positive or the rate is 0 |
| `LagBound.LagBoundHolds` | crates/cdn-middleware/src/cc/mod.rs:145-169 | When each request is decided at most a given lag after its counter's life, an interval of one window sees at most (2 + lag / window, rounded up) * rate Allow results |
| `LagBound.LagBoundIsAttained` | crates/cdn-middleware/src/cc/state.rs:99-113 | For every positive rate and window and every lag some interval sees exactly that many |
| `LagBound.DecidesAtMostIff` | crates/cdn-middleware/src/cc/mod.rs:145-169 | A number bounds the Allow results of every such interval over all such runs if and only if it is at least that |
| `LagBound.LimitsDecisionsIff` | crates/cdn-middleware/src/cc/mod.rs:145-169 | So 2 * rate is kept if and only if the rate is 0, or the window is positive and the lag is 0 |
| `RateBound.BoundIsAttained` | crates/cdn-middleware/src/cc/state.rs:99-113 | For every positive rate and window some interval sees exactly 2 * rate, by either date |
| `RateLimiter.BanHolds` | crates/cdn-middleware/src/cc/mod.rs:91-98 | Until a stored ban expires it keeps its expiry, and no request of the client that had not passed its check by then is let through |
| `Bans.TurnedAwayIff` | crates/cdn-middleware/src/cc/state.rs:18-26 | In every run a ban check turns a request away if and only if it falls in a period that a blocking refusal of its client started and its rule's duration ends; periods do not overlap |
| `Bans.BanLastsExactly` | crates/cdn-middleware/src/cc/state.rs:74-93 | After a refusal at t that finds no ban on, a check at t' is turned away if and only if t' < t + duration, unless the client is banned anew |
| `Bans.CountOutcome` | crates/cdn-middleware/src/cc/mod.rs:145-227 | In every run a counting request is allowed if and only if its counter allowed fewer than the rate so far, and otherwise bans its client if and only if its rule blocks |
| `RateLimiter.ClearedRequestsIgnoreBans` | crates/cdn-middleware/src/cc/mod.rs:145-169 | A request past its check is decided the same whatever bans are stored |
| `TsDemux.ContainsIdrNalu` | crates/cdn-ingest/src/srt/demux.rs:378-403 | True if and only if a start code followed by a NAL unit of type 5 occurs anywhere |
| `NalUnits.KeyframeIffIdr` | crates/cdn-ingest/src/srt/demux.rs:378-403 | For every sequence of well-formed NAL units in Annex B form, with three- or four-byte start codes, a frame is a key frame if and only if one unit has type 5 |
| `TsDemux.TsDemuxer.ParsePatInPlace` | crates/cdn-ingest/src/srt/demux.rs:229-256 | The table's last program becomes the map table's pid; malformed tables change nothing |
| `TsDemux.TsDemuxer.ParsePmtInPlace` | crates/cdn-ingest/src/srt/demux.rs:258-295 | The table's last H.264 and AAC streams become the pids |
| `TsDemux.TsDemuxer.ExtractVideoFrame` | crates/cdn-ingest/src/srt/demux.rs:297-334 | The collected packet's frame and the remembered time, or nothing at all |
| `TsDemux.TsDemuxer.ExtractAudioFrame` | crates/cdn-ingest/src/srt/demux.rs:336-365 | The same for audio, with one time |
| `TsDemux.TsDemuxer.OnPacketInPlace` | crates/cdn-ingest/src/srt/demux.rs:167-223 | The whole effect of one transport packet |
| `TsDemux.TsDemuxer.PushDataInPlace` | crates/cdn-ingest/src/srt/demux.rs:157-227 | The scan with resynchronisation returns the specified frames and state for any bytes |
| `TsSplit.PushIsMet` | crates/cdn-ingest/src/srt/demux.rs:157-227 | Whatever the bytes, demuxing them is handling the packets the scan meets |
| `TsSplit.SamePacketsIff` | crates/cdn-ingest/src/srt/demux.rs:157-227 | For any bytes and any cut the two calls handle the packets of the single call if and only if a scan from the cut meets what the scan from the last stop before it meets |
| `TsSplit.SplitIsHarmless` | crates/cdn-ingest/src/srt/demux.rs:157-227 | Splitting any input where the scan stops changes neither frames nor final state |
| `TsSplit.CutLosesOnePacket` | crates/cdn-ingest/src/srt/demux.rs:161-227 | If the rest of the packet cut holds no sync byte, that packet is lost and no other |
| `TsSplit.CutOnSyncByteMisframes` | crates/cdn-ingest/src/srt/demux.rs:161-168 | If the cut falls on a sync byte, neither that packet nor the next is handled, but one made of both |
| `TsRoundTrip.AlignedCutIff` | crates/cdn-ingest/src/srt/demux.rs:157-227 | A cut is harmless for all aligned inputs of a length and all demuxer states if and only if it is between packets |
| `TsRoundTrip.CutNullPacketLosesNext` | crates/cdn-ingest/src/srt/demux.rs:161-168 | Cutting a null packet of sync bytes, which has no effect, loses the packet after it |
| `TsSplit.ChunksDoNotMatter` | crates/cdn-ingest/src/srt/demux.rs:157-227 | Aligned input gives the same frames and final state however it is divided into calls |
| `TsRoundTrip.TimestampRoundTrip` | crates/cdn-ingest/src/srt/demux.rs:368-376 | Every 33-bit timestamp encoded by the standard is parsed back |
| `TsRoundTrip.TsPacketParses` | crates/cdn-ingest/src/srt/demux.rs:167-189 | A standard packet, stuffed or full, gives back its pid, start flag and payload |
| `TsRoundTrip.PesRoundTrip` | crates/cdn-ingest/src/srt/demux.rs:297-365 | A standard PES packet gives back its payload, times and key-frame flag |
| `TsRoundTrip.TrackRoundTrip` | crates/cdn-ingest/src/srt/demux.rs:201-223 | Packetising a list of units and demuxing returns what was pending and all units but the last, in order |
| `TsRoundTrip.TracksAreIndependent` | crates/cdn-ingest/src/srt/demux.rs:201-223 | A track's frames depend on the packets of its own pid alone |
| `TsRoundTrip.MultiplexRoundTrip` | crates/cdn-ingest/src/srt/demux.rs:157-376 | Two tracks, and tables that tell nothing new, interleaved in any order and handed over in any aligned pieces come back, each in order with its timestamps, up to the unit still being collected |
| `TsTables.PatRoundTrip` | crates/cdn-ingest/src/srt/demux.rs:189-256 | The packets of a standard program table of any length set the map table's pid to that of the last program in the first packet, among the first 42 |
| `TsTables.EveryProgramReadIff` | crates/cdn-ingest/src/srt/demux.rs:189-256 | Tables of n programs are all read to the end if and only if n is at most 42 |
| `TsTables.PmtRoundTrip` | crates/cdn-ingest/src/srt/demux.rs:189-295 | The packets of a standard map table of any length, with any descriptors, set the pids to the last H.264 and AAC streams whose headers are complete in the first packet |
| `TsTables.WholeTableRead` | crates/cdn-ingest/src/srt/demux.rs:258-295 | A map table that fits one packet is read whole |
| `TsTables.TablesRead` | crates/cdn-ingest/src/srt/demux.rs:189-295 | A new demuxer that is sent both tables knows the announced pids and nothing else |
| `TsTables.RepeatedTablesAreNoNews` | crates/cdn-ingest/src/srt/demux.rs:189-295 | The packets of the announced tables, sent again at any time, leave the demuxer's pids as they are |
| `TsTables.StreamRoundTrip` | crates/cdn-ingest/src/srt/demux.rs:140-376 | From a new demuxer: tables, then two tracks and packets without news, repeated tables included, interleaved in any order, handed over in any aligned pieces, come back as the units of each announced track with their timestamps, up to the one still being collected |
| `Coalescing.CdnProxy.RequestFilter` | crates/cdn-proxy/src/proxy.rs:614-659 | Lead with a new entry if the key is free, otherwise remember its entry |
| `Coalescing.CdnProxy.NotifyWaiters` | crates/cdn-proxy/src/proxy.rs:1460-1462 | Exactly the listeners of the entry are woken |
| `Coalescing.CdnProxy.RemoveInPlace` | crates/cdn-proxy/src/proxy.rs:1458-1464 | The release block up to the removal: map, leader flag, and the entry still to be notified |
| `Coalescing.CdnProxy.NotifyInPlace` | crates/cdn-proxy/src/proxy.rs:1461 | The notification wakes exactly the listeners of the entry taken out |
| `Coalescing.CdnProxy.EndOfStreamCallback` | crates/cdn-proxy/src/proxy.rs:1458-1465 | Undisturbed, end of stream is a removal and its notification |
| `Coalescing.CdnProxy.FailToConnectCallback` | crates/cdn-proxy/src/proxy.rs:1865-1917 | Undisturbed, retries keep the lead and the final failure removes and notifies |
| `Coalescing.CdnProxy.LoggingCallback` | crates/cdn-proxy/src/proxy.rs:1744-1752 | Undisturbed, logging removes, notifies and finishes the request |
| `Coalescing.EveryRun` | crates/cdn-proxy/src/proxy.rs:614-659 | After every interleaving at most one request leads a key, leaders' keys are in the map, and the keys without a leader are exactly those whose leader forgot them |
| `Coalescing.AtMostOneLeader` | crates/cdn-proxy/src/proxy.rs:649-657 | Two leaders of one key are the same request |
| `Coalescing.MapIsLeadersIff` | crates/cdn-proxy/src/proxy.rs:1107-1109 | The map holds exactly the leaders' keys if and only if no leader's key was cleared |
| `Coalescing.FinishedFreeTheMap` | crates/cdn-proxy/src/proxy.rs:1744-1752 | When all requests are finished the map holds exactly the forgotten keys |
| `Coalescing.ForgottenForever` | crates/cdn-proxy/src/proxy.rs:1427-1428 | A forgotten key never leaves the map and is never led again |
| `Coalescing.EveryRunHandsOver` | crates/cdn-proxy/src/proxy.rs:1458-1465 | In every run an entry being notified is out of the map for good and one request notifies it |
| `Coalescing.StepPends` | crates/cdn-proxy/src/proxy.rs:1458-1465 | An entry stops being in the map or on its way to its notification exactly at its notification |
| `Coalescing.WokenIffNotified` | crates/cdn-proxy/src/proxy.rs:617-624 | A listener is woken if and only if its entry is notified after it began to listen, also if the entry had left the map before |
| `Coalescing.CanBeWokenIff` | crates/cdn-proxy/src/proxy.rs:617-624 | A listener can still be woken if and only if a request leads its entry's key or is about to notify the entry |
| `Coalescing.LateListenerIsNeverWoken` | crates/cdn-proxy/src/proxy.rs:618-624 | A notification between finding the entry and listening is missed for good; a removal alone is not |
| `Coalescing.EndFreesTheLeadersKey` | crates/cdn-proxy/src/proxy.rs:1458-1465 | The end of the stream, or of the request, frees the key of a leader that still knows it, and no other key |
| `Coalescing.ReleaseEnds` | crates/cdn-proxy/src/proxy.rs:1458-1465 | A releasing request stays with its notification until it is sent, whatever others do, and is then finished exactly at its last callback |
| `Coalescing.LastFailureFreesTheKey` | crates/cdn-proxy/src/proxy.rs:1865-1917 | Failed connections change nothing but the count until the retry limit, and free the key exactly there |
| `Followers.FirstLeadsOthersWait` | crates/cdn-proxy/src/proxy.rs:614-659 | The first request for a free key leads it and goes ahead; any other waits on its entry |
| `Followers.FollowerWaits` | crates/cdn-proxy/src/proxy.rs:614-635 | In every run a follower goes on waiting, whatever else happens, until its entry is notified or it times out |
| `Followers.LetGoIff` | crates/cdn-proxy/src/proxy.rs:618-635 | A listener is let go by its time-out at any time, by a wake-up once notified, and by nothing else |
| `TagIndex.TagKeysDiffer` | crates/cdn-cache/src/storage.rs:308 | Tag keys determine site and tag unless one site's id extends the other's by a colon |
| `TagIndex.MetaKeysDiffer` | crates/cdn-cache/src/storage.rs:297 | Metadata keys determine site and cache key |
| `TagIndex.CacheStorage.PutInPlace` | crates/cdn-cache/src/storage.rs:272-328 | Object, metadata and every tag's set after a write |
| `TagIndex.CacheStorage.DeleteInPlace` | crates/cdn-cache/src/storage.rs:331-362 | Object and metadata gone, the key out of its tags' sets |
| `TagIndex.CacheStorage.DeleteManyInPlace` | crates/cdn-cache/src/storage.rs:367-413 | Exactly these keys' objects and metadata gone, chunk by chunk, tag sets untouched |
| `TagIndex.CacheStorage.DeleteByTagInPlace` | crates/cdn-cache/src/storage.rs:449-470 | The members of the tag's set deleted and the set dropped; nothing for an empty set |
| `TagIndex.EveryRun` | crates/cdn-cache/src/storage.rs:272-470 | Over unambiguous site ids every sequence of operations keeps each stored entry's key in the set of each of its tags |
| `TagIndex.IndexedIff` | crates/cdn-cache/src/storage.rs:272-470 | All sequences of operations over a set of sites keep the index if and only if no site's id extends another's by a colon |
| `TagRuns.EveryRun` | crates/cdn-cache/src/storage.rs:272-470 | With the Redis calls of any operations interleaved in any way, a stored entry is in its tag's set, or an operation under way will add or delete it, or a purge dropped the set it had read before the entry was added |
| `TagRuns.UnindexedIffLost` | crates/cdn-cache/src/storage.rs:449-470 | When nothing is under way, a stored entry is missing from a tag's set if and only if a purge dropped the set after the entry was last added and had read it before |
| `TagRuns.ApartIsIndexed` | crates/cdn-cache/src/storage.rs:305-317 | If no key is added to a tag's set while the tag is being purged, every stored entry is in its tags' sets |
| `TagRuns.PutInsidePurgeIsLost` | crates/cdn-cache/src/storage.rs:449-470 | A write between a purge's SMEMBERS and its DEL ends stored, tagged and not in the set |
| `TagRuns.DeletionUnindexes` | crates/cdn-cache/src/storage.rs:331-362 | In every interleaving of calls a deletion that has ended has taken its key out of the sets of the tags the entry had when it looked, unless the key was added again since |
| `TagIndex.PurgeIsComplete` | crates/cdn-cache/src/storage.rs:449-470 | After any sequence of operations and a purge no entry of the site has the tag, and the objects of those that had it are gone |
| `TagIndex.PurgeRemovesMembers` | crates/cdn-cache/src/storage.rs:449-470 | A purge removes an entry if and only if it is the site's and its key is in the set |
| `TagIndex.StaleTagPurges` | crates/cdn-cache/src/storage.rs:305-317 | A key written again with another tag is removed by a purge of the old one |
| `TagContents.ObjectPathsDiffer` | crates/cdn-cache/src/key.rs:63-79 | An object path tells its key, and its site unless the name had to be replaced |
| `TagContents.ReadsLastWrite` | crates/cdn-cache/src/storage.rs:272-470 | After every run an entry holds the metadata and body of its last write, or neither if a deletion or purge removed it since; no operation on another entry changes it |
| `TagIndex.ForeignPurgeUnindexes` | crates/cdn-cache/src/storage.rs:449-470 | A purge by a site whose id is extended takes another site's entry out of the index |
| `RegexMemo.RegexCache.Insert` | crates/cdn-middleware/src/redirect/url.rs:22-32 | The eviction loop ends, the queue is the newest 256, and queue and map stay together |
| `RegexMemo.RegexCache.GetOrCompileLru` | crates/cdn-middleware/src/redirect/url.rs:11-40 | The result is what compiling afresh gives, and the queue moves the pattern to its end |
| `RegexMemo.RegexCache.GetOrCompileFifo` | crates/cdn-cache/src/strategy.rs:11-32 | The result is what compiling afresh gives, and a hit leaves the queue alone |
| `RegexMemo.QueueIsRecent` | crates/cdn-middleware/src/redirect/url.rs:11-40 | After any calls the queue is the 256 most recently used valid patterns in order |
| `RegexMemo.CachedIff` | crates/cdn-middleware/src/redirect/url.rs:11-40 | A pattern is cached if and only if it is valid, was used, and fewer than 256 distinct valid others were used since |
| `RegexMemo.CachedFifoIff` | crates/cdn-cache/src/strategy.rs:11-32 | Without promotion a pattern is cached if and only if it was inserted and fewer than 256 patterns were inserted since |
| `RegexMemo.HitDoesNotProtect` | crates/cdn-cache/src/strategy.rs:11-32 | In the version without promotion a full queue evicts the pattern just hit; with promotion it evicts the next oldest |

## Left out

- The fMP4 packager, codec parsing, regular expressions, hashes, JSON and `to_lowercase` are parameters or kept as the arguments they were called with.
- RTMP and SRT sockets, the proxy's other callbacks, DNS, TLS, metrics and logging.
- The query string of a blocking reload (`_HLS_msn`, `_HLS_part`) is taken as already parsed.
- A timescale of 0 (an AAC header with sample rate 0), which would make durations infinite.
- Preload hints: a segment can close before the part hinted at is listed; the agreement of playlist and server is about the other URIs.
- LiveServer.EveryPrintedUriIsServed: requires app and stream names without a slash, and sequence and part numbers that fit u64 and u32.
- LiveHistory.UriKeepsItsMeaning: one stream object; a stream removed and published again under the same name starts its numbers anew.
- WatchRuns.LiveMapFollowsEtcd: orderly runs and payloads that parse; the exact conditions for every run and any payloads are in `WatchRuns.LiveMapFollowsEtcdIff` and the lemmas about `EndsRight`.
- WatchRuns.EveryRun: a batch's store and its raising of the last revision are one step, since only the watching task reads that revision.
- The compaction of etcd's history, and version snapshots the watcher saves in the background.
- HashRing.SelectIpHash: the number of virtual nodes, weight times 40, is not wrapped at 2^32.
- RoundRobin.DynamicBalancer.SelectRoundRobin: a release build; a debug build stops when the u32 sum overflows.
- SharedCounter.FairToCallerIff: regular turns; windows across the wrap are judged only when the period divides 2^64.
- AdaptiveWeight.PercentileLatency: real arithmetic, so no rounding and no NaN.
- Weighted random and least-connections selection, health filtering and backups.
- RateLimiter.CcEngine.Check: one fixed rule per counter key; rule matching, how a challenge cookie is verified, administrative unblocking, capacity eviction, Redis synchronisation and the 64-bit wrap of a count are not modelled, and an expired cache entry counts as gone at once.
- TsDemux.TsDemuxer.PushDataInPlace: the section CRC and continuity counters are ignored, as in the code.
- Coalescing: the cache writes behind a release and what a woken waiter then finds in the cache.
- TagIndex.PurgeIsComplete: one operation at a time; what interleaving changes for the index is in `TagRuns`, where object-store calls are not modelled.
- TagIndex: time-to-live expiry, failing back ends, a missing Redis or object store, deletion counts and the object-store-only purge.
- Health counters, range slicing, header rules, redirects, image sizing and admin endpoints, which would add only short single-function members.
