# The seamless-switching edge cache, verified

The middleware receives media by 5G broadcast and from a CDN, and serves both to a local player through
one cache. This project models that core in Dafny and proves what a player, and the standards the core
follows, rely on:

- **the sliding window** of one seamless stream: playlists from either source are parsed, a prefix is merged,
  staged broadcast files are claimed, the oldest segments are evicted and the playlist text is regenerated;
- **the shared cache** and its periodic sweep by age and by size;
- **the choice of source** of a segment: broadcast before CDN before nothing;
- **the HLS texts**: line parsers, the quote-aware attribute scanner and the printers;
- **the assembly of a service**: SDP lines, source resolution in an announcement, the regenerated manifest.

## How it is built

| file | contents |
|---|---|
| `Wrappers.dfy`, `Ordering.dfy` | results and options; sorted sequences of numbers and names, smallest elements |
| `Text.dfy`, `Decimal.dfy` | lines, trimming, searching; numbers and fixed-point decimals as text |
| `MediaPlaylist.dfy`, `PlaylistLines.dfy`, `AttributeList.dfy`, `PrimaryPlaylist.dfy` | the formats, printed and read back, and line by line on texts that others have written |
| `Segments.dfy`, `Cache.dfy`, `Sweep.dfy` | segments, cache items, the sweep |
| `EdgeCache.dfy` | the whole stream as a value, `World`, and its steps |
| `Admission.dfy`, `ExpiryRules.dfy`, `Replies.dfy` | what a playlist brings in, what a sweep does to each kind of item, what a GET sends: on the source's own fields |
| `TopNumbers.dfy`, `WindowInvariants.dfy`, `CacheInvariants.dfy`, `FileInvariants.dfy` | what every step keeps |
| `Runs.dfy`, `SegmentIdentity.dfy`, `FileHistory.dfy`, `SweepHistory.dfy`, `PlaylistRequests.dfy`, `TargetDurations.dfy` | the promises over whole runs: window, cache and sweeps; which segment object; which broadcast file; which entries sweeps took; the playlist's own entry; the published target |
| `Endpoints.dfy`, `Routing.dfy`, `SeamlessStream.dfy` | CDN endpoints; where a request goes; the stream as an object, each handler proved to be a step |
| `ContentStreams.dfy`, `Services.dfy`, `Announcements.dfy` | configuration and assembly |

Code that works in place is a class with methods and loops; each method's contract ties its new state to a
function of the old one (`HandlePlaylist`, `Kept`, `Parse`, `Print`, `Add`, ...). The properties are then
proved about those functions, over any sequence of `Event`s: a broadcast file, a CDN playlist, a CDN segment,
completion of a broadcast file, the clock, a sweep, or a change that another stream makes to the shared cache.
A client request changes nothing by itself; its CDN request appears as the later CDN segment. The last six
fields of `World` are history; no step reads them. `Announcements` hands its streams to `Services` and leaves each
seamless stream in a state in which the run theorems start (`Announcements.SetupBase`).

## What comes out false, and when exactly it holds

- The printed manifest names its bandwidth `BANDWITH`, the parser looks for `BANDWIDTH`: bandwidth always
  reads back as 0 (`PrimaryPlaylist.RoundTrip`).
- The size limit is scaled in 32-bit arithmetic: 4096 megabytes give a limit of zero, and scaling is exact if
  and only if fewer are configured (`Cache.ScaledSizeIff`).
- The sweep's running total wraps at 2^32: it can delete a younger item and keep an older one behind it
  (`Sweep.OlderKeptAfterWrap`). It keeps the longest prefix in age order if and only if no total above the
  limit wraps back below it (`Sweep.LongestPrefixIff`).
- RFC 8216 section 6.2.2 forbids a decreasing MEDIA-SEQUENCE. A full window meets that for good; before that
  it goes down if and only if an older number arrives while there is room
  (`Runs.MediaSequenceDecreasesIff`, `Runs.MediaSequenceCanDecrease`).
- A player that reads the published playlist numbers the segments as the window does if and only if the
  window has no gap (`Runs.NumbersReadBackIff`, and a run that leaves one: `Runs.GapRenumbers`).
- The published target duration is that of the last playlist that parsed, from either source
  (`TargetDurations.PublishedTarget`), so it can be below a published duration, against RFC 8216 section 4.3.3.1:
  the rule holds if and only if that target covers what every number kept was first listed with
  (`TargetDurations.ObeysTargetIff`), and two texts that obey it can make a text that does not
  (`TargetDurations.TargetCanBeExceeded`).
- SDP text loses every line that ends in a carriage return, as RFC 4566 section 5 has them, silently: whatever
  the mix of line ends, it configures what its other lines configure (`ContentStreams.ReturnsDropLines`). Carriage
  returns are harmless if and only if no line sets an address, a port and type, or a session identifier
  (`ContentStreams.ReturnHarmlessIff`, `ContentStreams.ReturnsHarmlessIff`); any description of an address, a port
  and a type is complete without and empty with them (`ContentStreams.ReturnsLoseSession`).
- Broadcast is preferred over CDN only for files that arrive early: a segment is served by broadcast if and only
  if a file was delivered at its URI before the event that first listed its number, and the last such file is
  complete. A later one stays staged (`FileHistory.SegmentCarriesFileBeforeListing`; a run:
  `FileHistory.LateFileStaysStaged`).
- The published playlist itself can vanish: its cache entry is served if and only if at every sweep so far it and
  the items of age zero before it by name have fitted the limit, and once gone, or if no endpoint was ever set, it
  never comes (`PlaylistRequests.PlaylistServedIff`, `PlaylistRequests.PlaylistNeverReturns`). With the limit of
  zero the first sweep takes it (`PlaylistRequests.ZeroLimitDropsPlaylist`).
- A title behind a duration, which RFC 8216 section 4.3.2.1 allows, is harmless if and only if it has no colon; with
  one the duration is whatever stands behind the last colon (`PlaylistLines.TitleHarmlessIff`,
  `PlaylistLines.ColonTakes`). In a stream line of a primary playlist a colon in any value hides all attributes
  before it (`PrimaryPlaylist.ColonHidesAttributes`).
- The playlist directory of a CDN endpoint is that of its path if and only if the query contains no slash
  (`Endpoints.DirIgnoresQueryIff`).
- Printed durations keep six significant digits; they survive if and only if they need no more
  (`Decimal.DurationSurvivesIff`).

## Assumptions, stated where they are used

- `EdgeCache.Distinct`: among accepted listings, different sequence numbers have different URIs. It speaks of
  `AcceptedBy(c, es)`, which depends on the events alone.
- `EdgeCache.Spares`, for the agreement of cache and window: others (streams and services) neither cache under
  nor remove the name of a segment that is in the window at that moment. All other names, in the stream's
  directory too, are theirs.
- `EdgeCache.NewFile`, for the conservation of files: every delivered file is a new object.
- `EdgeCache.Dates` and `FileInvariants.DatedInv`, for the sweep: received times and the clock are not zero, and
  undated segments of other streams have no data.
- `EdgeCache.Apart` and `PlaylistRequests.Undisturbed`, for requests for the playlist itself: no accepted listing
  and nobody else uses its name.
- The stream's directory contains no newline, where published text is read back.
- `Sweep.NoWrap`, for the theorems about the size of the swept cache: no running total above the limit wraps
  back below it in 32 bits. It holds whenever the live items together have fewer than 2^32 bytes
  (`Sweep.NoWrapBelow4G`). The limit is itself a 32-bit number.
- The clock is read once per sweep, and completion of a broadcast file is never undone.
- What the URI library finds in an endpoint is a function of its text (`Endpoints.UriParser`), and may be nothing;
  so is whether the HTTP library makes a client for it.

## Model

| member | source | states |
|---|---|---|
| Runs.PublishedUrisResolve | src/seamless/SeamlessContentStream.cpp:135-146 | End to end, in every reachable state: the i-th URI of the published text, requested as printed, reaches the i-th window segment in ascending order and no other; the lookup misses exactly when a sweep removed that segment's entry, and the reply follows whenever the handler looks up at all. |
| SweepHistory.SweptIff | src/CacheManagement.cpp:29-57 | A segment counts as swept if and only if some sweep of the run found its entry in the cache and left it out. |
| Runs.CacheAgreesWithWindow | src/seamless/SeamlessContentStream.cpp:103-134 | In every reachable state each cached segment is in the window and cached under its own URI; without sweeps the cached segment names are exactly the window's URIs. |
| Runs.WindowIsLargestAccepted | src/seamless/SeamlessContentStream.cpp:103-134 | After any run the window's numbers are exactly the K largest ever accepted from either source, each with URI and duration of its first accepted listing. |
| SegmentIdentity.WindowHoldsFirstMade | src/seamless/SeamlessContentStream.cpp:103-134 | In every reachable state the window holds for each number the first segment object ever made for it, whatever later listings of the number brought. |
| SegmentIdentity.EvictedNeverReturns | src/seamless/SeamlessContentStream.cpp:130-134 | A number that has been accepted and is not in the window is in it at no later time. |
| SegmentIdentity.NumberKeepsObject | src/seamless/SeamlessContentStream.cpp:103-134 | A number that is in the window at two times of a run has the same object at both. |
| FileHistory.SegmentCarriesFileBeforeListing | src/seamless/SeamlessContentStream.cpp:113-117 | In every reachable state a window segment carries exactly the last broadcast file delivered at its URI before the event that first listed its number, is served by broadcast exactly when that file is complete, and what was delivered later is what is staged there. |
| FileHistory.FirstListedIs | src/seamless/SeamlessContentStream.cpp:103-105 | That event is the one before which the number was not accepted and after which it was. |
| FileHistory.LateFileStaysStaged | src/seamless/SeamlessContentStream.cpp:55 | A run in which a complete broadcast file comes one event after its segment was listed: it stays staged, and the segment is not served by broadcast. |
| FileHistory.SupersededIff | src/seamless/SeamlessContentStream.cpp:55 | A file is superseded if and only if some event delivered one at its location while it was staged. |
| PlaylistRequests.PlaylistServedIff | src/seamless/SeamlessContentStream.cpp:80-87 | A registered playlist is served from its current text if and only if at every sweep of the run it and the items of age zero up to its name, added in 32 bits, were within the limit; otherwise the request finds nothing. A path without a part is refused and one with the API's name answered by it before the lookup. |
| PlaylistRequests.PlaylistNeverReturns | src/seamless/SeamlessContentStream.cpp:135-146 | A playlist that is not in the cache, dropped or never registered, is found at no later time, unless its name is the API's. |
| PlaylistRequests.SweepKeepsPlaylistIff | src/CacheItems.h:117 | The same condition for one sweep: a generated playlist has age zero. |
| PlaylistRequests.ZeroLimitDropsPlaylist | src/CacheManagement.cpp:24-25 | With the limit that 4096 megabytes scale to, the first sweep drops the playlist. |
| Runs.RemovedAreOldest | src/seamless/SeamlessContentStream.cpp:130-134 | What one call removes or does not let in has smaller numbers than everything the window then holds. |
| Runs.MediaSequenceNeverDecreases | src/seamless/SeamlessContentStream.cpp:130-146 | Once K or more different numbers have been accepted, the MEDIA-SEQUENCE a player reads never decreases over the rest of any run (RFC 8216 section 6.2.2). |
| Runs.FullIffEnoughAccepted | src/seamless/SeamlessContentStream.cpp:103-134 | The window is full if and only if the run has brought K different numbers, and otherwise holds all of them. |
| Runs.MediaSequenceCanDecrease | src/seamless/SeamlessContentStream.cpp:103-146 | Two playlist texts after which a new stream with K of two or more publishes the line `#EXT-X-MEDIA-SEQUENCE:5` and then `#EXT-X-MEDIA-SEQUENCE:3`. |
| Runs.PublishedSequence | src/HlsMediaPlaylist.cpp:83 | The fourth line of the published text is the smallest number in the window. |
| Runs.MediaSequenceDecreasesIff | src/seamless/SeamlessContentStream.cpp:103-134 | One call lowers the smallest number if and only if it brings an older one and fewer than K numbers are at or above the smallest. |
| Runs.NumbersReadBackIff | src/HlsMediaPlaylist.cpp:57-68 | In every reachable state with something accepted, reading the published text gives every segment its own number if and only if the window is an interval. |
| Runs.GapRenumbers | src/HlsMediaPlaylist.cpp:57-68 | A run that leaves the window {3, 5}, whose second segment reads back as number 4. |
| TargetDurations.PublishedTarget | src/seamless/SeamlessContentStream.cpp:136-137 | The target duration that reads back is that of the last playlist that parsed, from either source. |
| TargetDurations.ObeysTargetIff | src/seamless/SeamlessContentStream.cpp:136-146 | No published duration, rounded to seconds, exceeds the published target if and only if that target covers the duration that each number kept was first listed with, to six digits. |
| TargetDurations.TargetCanBeExceeded | src/seamless/SeamlessContentStream.cpp:136-146 | Two playlist texts that both keep the rule, after which the published text does not. |
| Runs.AdjoiningPlaylistsKeepNumbers | src/seamless/SeamlessContentStream.cpp:103-146 | If every accepted prefix is an interval that overlaps or abuts the window, the window stays an interval over the run and every number reads back. |
| Runs.PublishedReadsBack | src/seamless/SeamlessContentStream.cpp:135-146 | In every reachable state with something accepted, the published text parses to the whole window in ascending order, from its smallest number on, one slash before each URI. |
| Runs.SweptCacheWithinLimit | src/CacheManagement.cpp:48-56 | After a sweep in any reachable state the bytes of the whole cache, undated items included, are within the limit. |
| Runs.SecondSweepOnlyExpires | src/CacheManagement.cpp:29-57 | A later second sweep removes exactly what has expired since, although generated playlists change place in the order; at the same time it removes nothing. |
| Runs.BroadcastFilesConserved | src/seamless/SeamlessContentStream.cpp:44-57 | Over any run every delivered segment file is staged, attached to exactly one segment at its own URI, or superseded, and only one of these; there are no others. |
| Runs.PlaylistClaimsStagedFiles | src/seamless/SeamlessContentStream.cpp:113-117 | A playlist call attaches to each new segment the file staged under its URI, and unstages the files of listings whose number was not in the window, and no others. |
| Runs.FetchedSegmentServes | src/seamless/Segment.cpp:36-47 | A CDN answer dates the segment and makes it serve that answer, unless its complete broadcast file stays preferred; no other segment changes. |
| Replies.SegmentSends | src/RestHandler.cpp:186-192 | A GET of a segment sends the content of its complete broadcast file, else that of the CDN's answer, as many bytes as the length says in 32 bits, with its origin; else it finds nothing. |
| Replies.OtherSegmentSends | src/RestHandler.cpp:186-192 | The same for another stream's segment. |
| Replies.TextSends | src/RestHandler.cpp:184-197 | Files, playlists and manifests are sent as they are, with their origin; what is not cached is not found. |
| Replies.OtherRoutes | src/RestHandler.cpp:89-92 | No part: not found; the API's name: the API answers; neither asks the CDN. |
| Replies.AsksCdnIff | src/seamless/Segment.cpp:36-61 | The CDN is asked for a location if and only if it is that of a cached segment with a client and without complete broadcast file or CDN file. |
| Runs.MissThenFetched | src/seamless/Segment.cpp:58-60 | A request that finds a segment without data sends nothing and asks the CDN; after the answer the same request is served from it. |
| Segments.RankOrder | src/seamless/Segment.cpp:49-61 | The order of the sources: unavailable, CDN, broadcast. |
| Runs.SourcesOnlyRise | src/seamless/Segment.cpp:75-84 | Over any run no segment's source moves down the order broadcast, CDN, unavailable. |
| Admission.BroadcastAccepted | src/seamless/SeamlessContentStream.cpp:96-128 | A broadcast playlist that parses adds exactly its segments to what has been accepted; one that does not changes nothing. |
| Admission.CdnAccepted | src/seamless/SeamlessContentStream.cpp:96-128 | Of a CDN playlist of n segments exactly the first n - t + 2 are accepted when 3 <= t <= n for the truncation t, and all of them otherwise. |
| Admission.TruncationHoldsBackLast | src/seamless/SeamlessContentStream.cpp:96-128 | Six segments and a truncation of four: the first four are accepted. |
| Admission.OthersAcceptNothing | src/seamless/SeamlessContentStream.cpp:44-57 | Every other event accepts nothing. |
| Admission.SegmentsStarted | src/seamless/SeamlessContentStream.cpp:106-117 | In every reachable state a segment has the stream's client, and until a CDN answer the date of its broadcast file, or none. |
| Runs.AdmittedPrefix | src/seamless/SeamlessContentStream.cpp:96-128 | A broadcast playlist is admitted whole; a CDN playlist of n segments loses all but two of the truncated ones, and nothing when the unsigned count wraps. |
| Runs.RunHistory | src/seamless/SeamlessContentStream.cpp:44-57 | What a run has accepted and delivered is a function of its events alone. |
| Runs.EndpointStartsRun | src/seamless/SeamlessContentStream.cpp:80-87 | Registering the playlist under any number of paths keeps a state in which the run theorems start, and adds exactly those entries. |
| CacheInvariants.StepKeepsCache | src/seamless/SeamlessContentStream.cpp:103-134 | Every step keeps the agreement of cache and window. |
| WindowInvariants.MergeEvictKeepsWindow | src/seamless/SeamlessContentStream.cpp:103-134 | Merging and evicting leaves the largest of old and new numbers, and keeps first listings in place. |
| WindowInvariants.MergeClaims | src/seamless/SeamlessContentStream.cpp:113-117 | The merge loop claims for each new number the file that was staged under its URI. |
| FileInvariants.StepKeepsFiles | src/seamless/SeamlessContentStream.cpp:44-57 | Every step conserves broadcast files. |
| FileInvariants.StepKeepsDates | src/seamless/Segment.h:41 | Every step keeps undated segments without data. |
| FileInvariants.StepRaisesSources | src/seamless/Segment.cpp:75-84 | No step lowers a segment's source or takes its files away. |
| Endpoints.PathOfParts | src/seamless/SeamlessContentStream.cpp:63-67 | The playlist path is the path without its leading slash, and the query after a question mark. |
| Endpoints.DirOfParts | src/seamless/SeamlessContentStream.cpp:69-70 | The directory is what stands before the name, with its slash, or nothing. |
| Endpoints.DirIgnoresQueryIff | src/seamless/SeamlessContentStream.cpp:63-70 | The playlist directory is that of the endpoint's path if and only if the query has no slash. |
| SeamlessStream.SeamlessContentStream.constructor | src/seamless/SeamlessContentStream.cpp:28-36 | A new stream has an empty window, no staged files and no path, and shows the cache's items as those of others. |
| SeamlessStream.SeamlessContentStream.SplitEndpoint | src/seamless/SeamlessContentStream.cpp:63-70 | Playlist path and directory of an endpoint. |
| SeamlessStream.SeamlessContentStream.SetCdnEndpoint | src/seamless/SeamlessContentStream.cpp:59-88 | Sets path, directory and the base of the client and adds the playlist to the cache, leaving everything else; a text that is no URI throws and changes nothing, a URI without a client throws when path and directory are set. |
| SeamlessStream.SeamlessContentStream.MakeSegment | src/seamless/SeamlessContentStream.cpp:106-117 | The new segment object: client if there is one, staged file if there is one, which is then no longer staged. |
| SeamlessStream.SeamlessContentStream.MergeListing | src/seamless/SeamlessContentStream.cpp:105-124 | The loop body does to window, staged files and cache what the step function says. |
| SeamlessStream.SeamlessContentStream.MergeListings | src/seamless/SeamlessContentStream.cpp:96-128 | The loop with its late break merges exactly the admitted prefix. |
| SeamlessStream.SeamlessContentStream.EvictOldest | src/seamless/SeamlessContentStream.cpp:131-133 | Takes the smallest number out of the window and its URI out of the cache. |
| SeamlessStream.SeamlessContentStream.EvictAll | src/seamless/SeamlessContentStream.cpp:130-134 | The loop evicts until at most K are left, K converted to unsigned. |
| SeamlessStream.SeamlessContentStream.CopyWindow | src/seamless/SeamlessContentStream.cpp:138-145 | The playlist object receives the window in ascending order. |
| SeamlessStream.SeamlessContentStream.Regenerate | src/seamless/SeamlessContentStream.cpp:135-146 | The text is the print of the window with the parsed target duration. |
| SeamlessStream.SeamlessContentStream.HandlePlaylist | src/seamless/SeamlessContentStream.cpp:91-147 | The handler is the playlist step; it throws exactly when the text does not parse, and then changes nothing. |
| SeamlessStream.SeamlessContentStream.FluteFileReceived | src/seamless/SeamlessContentStream.cpp:44-57 | The handler is the broadcast-file step: playlist, ignored manifest or staged segment; it throws exactly when a playlist does not parse. |
| SeamlessStream.SeamlessContentStream.TickHandler | src/seamless/SeamlessContentStream.cpp:149-162 | While the stream runs, the client's base is asked for the playlist path, if there is a client, and the timer set again; after that, neither. |
| SeamlessStream.SeamlessContentStream.Stop | src/seamless/SeamlessContentStream.cpp:38-42 | The stream no longer runs. |
| Routing.RouteOfParts | src/RestHandler.cpp:82-92 | A target under the API's name goes to the API, one under any other first part to the cache, with or without a query. |
| Routing.EscapeTexts | src/RestHandler.cpp:82 | `%2F` and `%2f` are a slash, `%41` is `A`, and `%zz` is no escape. |
| Routing.NoParts | src/RestHandler.cpp:89-90 | A target without a part is refused, with or without a query. |
| Routing.EscapeDecoded | src/RestHandler.cpp:82 | An escape is decoded to one character. |
| Routing.PlainRoute | src/RestHandler.cpp:82-92 | Without escapes, query and fragment: a request is refused if and only if it has only slashes, and reaches the cache if and only if it has a part and the first is not the API's name. |
| SeamlessStream.SeamlessContentStream.StageFile | src/seamless/SeamlessContentStream.cpp:55 | The file is staged under its location and supersedes what was there. |
| SeamlessStream.SeamlessContentStream.SegmentFetched | src/seamless/Segment.cpp:36-47 | The completion of a CDN request is the CDN-segment step. |
| SeamlessStream.SeamlessContentStream.CheckCache | src/CacheManagement.cpp:29-57 | The periodic check of the shared cache is the sweep step. |
| SeamlessStream.SeamlessContentStream.HandleGet | src/RestHandler.cpp:82-196 | A target without a part is refused and the API's is left to it; otherwise the reply is the buffer, length and origin of the entry whose name is the target without its first character; a CDN request for its location goes out exactly for a segment with a client and without data. |
| ExpiryRules.SegmentAges | src/CacheItems.h:98 | A segment whose data were received longer ago than the limit goes, one without a date stays. |
| ExpiryRules.FileAges | src/CacheItems.h:60 | The same for a file, by its own date. |
| ExpiryRules.PlaylistsAgeless | src/CacheItems.h:117 | A playlist never goes for its age. |
| ExpiryRules.BytesSeen | src/CacheItems.h:78-115 | The bytes that the size pass adds for a file, a playlist and a segment, in 32 bits. |
| ExpiryRules.AloneStaysIff | src/CacheManagement.cpp:49-56 | An item alone in the cache and not too old stays if and only if its own bytes are within the limit. |
| Sweep.AgeOrdered | src/CacheManagement.cpp:31-42 | The multimap holds exactly the dated unexpired items, once each, by age and within one age by name. |
| Sweep.VisitedOnce | src/CacheManagement.cpp:49-50 | What the second loop looks up is still in the map, so the lookup creates nothing. |
| Sweep.KeptExactly | src/CacheManagement.cpp:31-56 | When no total wraps below the limit, the sweep keeps exactly the undated items and the longest prefix of the live items in age order that fits. |
| Sweep.LiveKeptIff | src/CacheManagement.cpp:48-56 | Whatever the sizes: a live item stays if and only if its bytes and those of all live items before it by age and name, added in 32 bits, are within the limit. |
| Sweep.OldestGoFirst | src/CacheManagement.cpp:48-56 | When no total wraps below the limit, nothing is removed while an older dated item stays. |
| Sweep.LongestPrefixIff | src/CacheManagement.cpp:48-56 | The longest fitting prefix is what stays if and only if no running total above the limit wraps below it. |
| Sweep.NoWrapBelow4G | src/CacheManagement.cpp:48-56 | No total wraps while the live items together stay below 2^32 bytes. |
| Sweep.KeepsLongestPrefixBelow4G | src/CacheManagement.cpp:48-56 | So the longest prefix stays whenever the live items together stay below 2^32 bytes. |
| Sweep.OlderKeptAfterWrap | src/CacheManagement.cpp:48-56 | A cache of two large items in which the younger goes and the older stays. |
| Sweep.SweptCacheFits | src/CacheManagement.cpp:48-56 | When no total wraps below the limit, what stays fits it, undated items included, provided those are empty. |
| Sweep.FittingCacheLosesOnlyExpired | src/CacheManagement.cpp:31-56 | When the live items fit, in whatever order, exactly the expired ones go. |
| Sweep.SecondSweep | src/CacheManagement.cpp:31-56 | A second sweep, with any new dates and the same lengths, removes exactly the expired items. |
| Cache.ScaledSizeIff | src/CacheManagement.cpp:24-25 | The limit in bytes is exact if and only if fewer than 4096 megabytes are configured; 4096 give zero. |
| Cache.CacheManagement.constructor | src/CacheManagement.cpp:21-27 | An empty cache with the scaled limit. |
| Cache.CacheManagement.AddItem | src/CacheManagement.h:30-32 | The item replaces whatever was filed under its location. |
| Cache.CacheManagement.RemoveItem | src/CacheManagement.h:33 | Only the entry at the location goes. |
| Cache.CacheManagement.CheckFileExpiryAndCacheSize | src/CacheManagement.cpp:29-57 | The two loops leave exactly the items the sweep keeps. |
| Cache.EraseExpired | src/CacheManagement.cpp:31-47 | The first loop erases exactly the expired items and files the other dated ones in age order. |
| Cache.EraseOverBudget | src/CacheManagement.cpp:48-56 | The second loop erases exactly the items at which the wrapped total exceeds the limit. |
| Segments.AccessorsAgree | src/seamless/Segment.cpp:49-84 | There is a buffer exactly when there is a source, and its length is that of the same file. |
| Segments.Segment.Buffer | src/seamless/Segment.cpp:49-62 | The buffer of the chosen file; exactly when there is none and there is a client, the segment's location is requested. |
| Segments.Segment.ContentLength | src/seamless/Segment.cpp:64-73 | The 32-bit length of the chosen file. |
| Segments.Segment.DataSource | src/seamless/Segment.cpp:75-84 | The source of the chosen file. |
| Segments.Segment.CdnFileReceived | src/seamless/Segment.cpp:41-45 | The answer becomes the CDN file and dates the segment; nothing else changes. |
| Segments.Segment.FetchFromCdn | src/seamless/Segment.cpp:36-47 | The segment's location is requested from the client's base, exactly when there is a client. |
| Segments.Segment.SetFluteFile | src/seamless/Segment.h:41 | The broadcast file is attached and dates the segment. |
| MediaPlaylist.RoundTrip | src/HlsMediaPlaylist.cpp:74-90 | Printing and parsing any non-empty list of trimmed one-line URIs gives the same target duration, durations to six digits, URIs after one slash (even those that start with `#`), numbered from the first number. |
| MediaPlaylist.NumbersKeptIff | src/HlsMediaPlaylist.cpp:57-68 | Original numbers come back if and only if they were consecutive. |
| MediaPlaylist.ParsedUris | src/HlsMediaPlaylist.cpp:65-68 | Every listing parsed from any text has a trimmed, non-empty, one-line URI that is no comment. |
| PlaylistLines.WholeDurationLine | src/HlsMediaPlaylist.cpp:61-64 | `#EXTINF:`, digits, and nothing or a comma with any title without a colon: the duration is that number of seconds. |
| PlaylistLines.DurationLine | src/HlsMediaPlaylist.cpp:61-64 | The same with up to six fraction digits. |
| PlaylistLines.NineSeconds | src/HlsMediaPlaylist.cpp:61-64 | `#EXTINF:9,`, `#EXTINF:9.5,a title` and `#EXTINF:9,a:b` read as 9, 9.5 and 0 seconds. |
| PlaylistLines.TitleHarmlessIff | src/HlsMediaPlaylist.cpp:44-64 | A title leaves every number before it alone if and only if it has no colon. |
| PlaylistLines.ColonTakes | src/HlsMediaPlaylist.cpp:44-64 | With a colon, what stands behind the last one is read instead. |
| PlaylistLines.IntegerLines | src/HlsMediaPlaylist.cpp:46-60 | Target duration, media sequence and version are the digits behind the colon, whatever follows them; a second version throws. |
| PlaylistLines.AtoiReads | src/HlsMediaPlaylist.cpp:51-59 | Digits with or without a sign, up to the first other character. |
| PlaylistLines.AtoiSkipsBlanks | src/HlsMediaPlaylist.cpp:51-59 | Blanks before a number do not matter. |
| PlaylistLines.AtoiWithoutDigits | src/HlsMediaPlaylist.cpp:51-59 | No number: zero. |
| MediaPlaylist.UriLineReads | src/HlsMediaPlaylist.cpp:67-69 | A URI becomes the next segment, with the running number and the last duration. |
| PlaylistLines.ReturnIgnored | src/HlsMediaPlaylist.cpp:34 | A carriage return at the end of a line makes no difference. |
| PlaylistLines.ReturnedTextReads | src/HlsMediaPlaylist.cpp:32-34 | Nor do carriage returns at the ends of all lines. |
| PlaylistLines.PaddingIgnored | src/HlsMediaPlaylist.cpp:34 | Nor blanks around a line. |
| PlaylistLines.BlankIgnored | src/HlsMediaPlaylist.cpp:67 | A blank line changes nothing. |
| PlaylistLines.CommentIgnored | src/HlsMediaPlaylist.cpp:65-66 | A comment, or a tag that is none of the four, changes nothing. |
| PlaylistLines.HeaderDemanded | src/HlsMediaPlaylist.cpp:36-42 | A text whose first line is not `#EXTM3U` throws. |
| PlaylistLines.HeaderAccepted | src/HlsMediaPlaylist.cpp:36-42 | That line is accepted, with or without a carriage return. |
| PlaylistLines.NumberedFromZero | src/HlsMediaPlaylist.cpp:28-70 | Without a media sequence line the segments are numbered from zero. |
| PlaylistLines.DurationsUnset | src/HlsMediaPlaylist.cpp:28-70 | Without a duration line every segment lasts minus one second. |
| PlaylistLines.HeadUnset | src/HlsMediaPlaylist.cpp:28-70 | Without a target line the field keeps what it held before; without a version line the version is -1. |
| PlaylistLines.SecondVersionThrows | src/HlsMediaPlaylist.cpp:46-49 | Two version lines throw, when the first gives a number. |
| TargetDurations.OnePrinted | src/HlsMediaPlaylist.cpp:74-90 | The six lines printed for one segment. |
| MediaPlaylist.HlsMediaPlaylist.ReadLine | src/HlsMediaPlaylist.cpp:34-69 | The body of the parsing loop: numbering, carried durations, both exceptions. |
| MediaPlaylist.HlsMediaPlaylist.Read | src/HlsMediaPlaylist.cpp:24-71 | The parsing loop over the lines computes `Parse`, and throws when it fails. |
| MediaPlaylist.HlsMediaPlaylist.AddSegment | src/HlsMediaPlaylist.h:36 | Appends the segment. |
| MediaPlaylist.HlsMediaPlaylist.ToString | src/HlsMediaPlaylist.cpp:74-90 | The printing loop computes `Print`. |
| AttributeList.ParametersOfAnyText | src/HlsPrimaryPlaylist.cpp:86-113 | For every text there is one pair more than unquoted commas, and keys and values in order are the text without quotes, equals signs and unquoted commas. |
| AttributeList.FourAttributes | src/HlsPrimaryPlaylist.cpp:86-113 | Four printed attributes scan back to their four pairs, commas inside quotes included. |
| AttributeList.FirstEqualsDivides | src/HlsPrimaryPlaylist.cpp:101-110 | The first equals sign divides key and value, quotes and further ones are dropped from the value. |
| AttributeList.KeyAlone | src/HlsPrimaryPlaylist.cpp:104-111 | Without an equals sign there is a key and no value. |
| AttributeList.ParseParameters | src/HlsPrimaryPlaylist.cpp:86-113 | The character loop computes the scanner's function. |
| PrimaryPlaylist.RoundTrip | src/HlsPrimaryPlaylist.cpp:115-130 | Printing and parsing well-formed streams gives them back in order with URI, resolution, codecs and thousandths of the frame rate, and bandwidth 0. |
| PrimaryPlaylist.ForeignInfoReads | src/HlsPrimaryPlaylist.cpp:57-75 | A stream line with `BANDWIDTH`, resolution, frame rate and codecs sets all four. |
| PrimaryPlaylist.OneAttributeSets | src/HlsPrimaryPlaylist.cpp:61-74 | Each of the four keys sets its own field, in any order; other keys set nothing. |
| PrimaryPlaylist.ColonHidesAttributes | src/HlsPrimaryPlaylist.cpp:48-60 | Only the attributes behind the last colon of a stream line are read. |
| PrimaryPlaylist.UriTakesAttributes | src/HlsPrimaryPlaylist.cpp:78-82 | A URI becomes a stream with the attributes read before it, which the next one does not get. |
| PrimaryPlaylist.ReturnIgnored | src/HlsPrimaryPlaylist.cpp:38 | A carriage return at the end of a line makes no difference. |
| PrimaryPlaylist.BlankIgnored | src/HlsPrimaryPlaylist.cpp:78 | A blank line changes nothing. |
| PrimaryPlaylist.CommentIgnored | src/HlsPrimaryPlaylist.cpp:76-77 | Nor does a comment or an unknown tag. |
| PrimaryPlaylist.HeaderDemanded | src/HlsPrimaryPlaylist.cpp:40-46 | A text whose first line is not `#EXTM3U` throws. |
| PrimaryPlaylist.VersionAgain | src/HlsPrimaryPlaylist.cpp:50-53 | A version line after one that gave a number throws. |
| PrimaryPlaylist.PrintedStream | src/HlsPrimaryPlaylist.cpp:115-130 | The four lines printed for one stream. |
| PrimaryPlaylist.InfoReads | src/HlsPrimaryPlaylist.cpp:123-126 | The printed attribute list sets every attribute but the bandwidth. |
| PrimaryPlaylist.HlsPrimaryPlaylist.AssignParameters | src/HlsPrimaryPlaylist.cpp:61-74 | The attribute loop: later values win, unknown keys are skipped. |
| PrimaryPlaylist.HlsPrimaryPlaylist.ReadLine | src/HlsPrimaryPlaylist.cpp:38-83 | The body of the parsing loop: attributes carried to the next URI and then reset, both exceptions. |
| PrimaryPlaylist.HlsPrimaryPlaylist.Read | src/HlsPrimaryPlaylist.cpp:25-84 | The parsing loop computes `Parse`, and throws when it fails. |
| PrimaryPlaylist.HlsPrimaryPlaylist.ToString | src/HlsPrimaryPlaylist.cpp:115-130 | The printing loop computes `Print`. |
| Text.LinesOfUnlines | src/HlsMediaPlaylist.cpp:32 | Splitting newline-terminated lines gives the lines back. |
| Decimal.IntTextValue | src/HlsMediaPlaylist.cpp:82-83 | A printed number reads back as itself, negative ones included. |
| Text.LinesOfOpenText | src/HlsMediaPlaylist.cpp:32 | A text that does not end in a newline has its rest as the last line. |
| Text.TrimOf | src/HlsMediaPlaylist.cpp:34 | Exactly the blanks on both sides of a line go. |
| Ordering.LexLeIff | src/Service.cpp:76 | Names are ordered as prefixes first, else by the first character that differs. |
| Decimal.NatTextDigits | src/HlsMediaPlaylist.cpp:82-83 | A printed number is its decimal digits. |
| Decimal.IntTextDigits | src/HlsMediaPlaylist.cpp:82-83 | A negative one has a minus sign before them. |
| Decimal.DigitsValueSnoc | src/HlsMediaPlaylist.cpp:51-59 | Reading digits counts in tens. |
| Decimal.RoundsToNearest | src/HlsMediaPlaylist.cpp:86 | Rounding gives the nearest multiple of the last place, of two the even one. |
| Decimal.SixSignificant | src/HlsMediaPlaylist.cpp:86 | That place leaves six digits, or all millionths below a second. |
| Decimal.WholeSecondsText | src/HlsMediaPlaylist.cpp:86 | Whole seconds below a million are printed as their digits. |
| Decimal.DurationTexts | src/HlsMediaPlaylist.cpp:86 | Durations as printed: `9.009`, `0.0001`, `1.23457e+06`, `5e-05`, `1e-06`. |
| Decimal.FrameRateTexts | src/HlsPrimaryPlaylist.cpp:125 | Frame rates as printed: `25.000`, `29.970`. |
| Decimal.ExponentsRead | src/HlsMediaPlaylist.cpp:61-64 | A scientific number as read: its exponent moves the point. |
| Decimal.GeneralTextValue | src/HlsMediaPlaylist.cpp:86 | A printed duration, in decimal or scientific notation, reads back rounded to six significant digits. |
| Decimal.DurationSurvivesIff | src/HlsMediaPlaylist.cpp:86 | A duration survives printing and reading if and only if it needs no more than six significant digits. |
| Decimal.Fixed3TextValue | src/HlsPrimaryPlaylist.cpp:125 | A printed frame rate reads back rounded to thousandths. |
| ContentStreams.ContentStream.ConfigureFromLine | src/ContentStream.cpp:43-86 | One SDP line sets address, port and type, or session identifier, or nothing; a bad session identifier throws. |
| ContentStreams.ContentStream.Configure5gbcDeliveryFromSdp | src/ContentStream.cpp:40-95 | The loop folds all lines into the stored parameters and answers whether type, address and port are then known. |
| ContentStreams.ContentStream.ReadMasterManifest | src/ContentStream.cpp:136-146 | The playlist path of a manifest with exactly one stream; otherwise unchanged. |
| ContentStreams.SdpKeepsParameters | src/ContentStream.cpp:52-86 | No further line or text makes known parameters unknown. |
| ContentStreams.MediaLineOfThree | src/ContentStream.cpp:60-75 | `m=application`, port, type and format set port and type, the format is not used. |
| ContentStreams.PortThenType | src/ContentStream.cpp:60-75 | `m=application 5000 FLUTE/UDP 0`. |
| ContentStreams.AddressWithTail | src/ContentStream.cpp:52-59 | An address ends before whatever is neither digit nor dot. |
| ContentStreams.TsiLine | src/ContentStream.cpp:76-84 | `a=flute-tsi:` and digits set the identifier, or throw beyond 64 bits. |
| ContentStreams.TsiSeven | src/ContentStream.cpp:76-84 | `a=flute-tsi:7`. |
| ContentStreams.TsiWithoutDigits | src/ContentStream.cpp:81 | Without a number it throws. |
| ContentStreams.OtherLines | src/ContentStream.cpp:44-76 | Lines of any other form change nothing. |
| ContentStreams.PathOfManifest | src/ContentStream.cpp:136-146 | A manifest with exactly one stream gives the path, for HLS only. |
| ContentStreams.ReceiverIs | src/ContentStream.cpp:121-134 | A receiver is made for `FLUTE/UDP` only, for the stored address, port and identifier. |
| ContentStreams.ReturnsDropLines | src/ContentStream.cpp:43-46 | A text configures what its lines without a carriage return at the end configure. |
| ContentStreams.CarriageReturnsConfigureNothing | src/ContentStream.cpp:43-46 | A text whose every line ends in a carriage return configures nothing. |
| ContentStreams.ReturnHarmlessIff | src/ContentStream.cpp:43-86 | A carriage return at the end of a line makes no difference to any session if and only if the line sets no address, no port and type, and no session identifier. |
| ContentStreams.ReturnsHarmlessIff | src/ContentStream.cpp:43-86 | Carriage returns throughout a text make no difference to any session if and only if none of its lines sets anything. |
| ContentStreams.ReturnsLeaveSession | src/ContentStream.cpp:43-46 | A text with carriage returns throughout leaves every session as it was. |
| ContentStreams.ReturnsLoseSession | src/ContentStream.cpp:40-95 | Any description of an address, a port and a type yields them with line feeds, complete, and nothing with carriage returns. |
| ContentStreams.ReturnsCanLoseSession | src/ContentStream.cpp:40-95 | One such description, spelled out. |
| ContentStreams.ContentStream.Start | src/ContentStream.cpp:121-134 | A FLUTE stream gets a receiver for its address, port and session identifier. |
| Services.ManifestOfAdds | src/Service.cpp:56-87 | After any adds under a master manifest that lists their paths, the manifest prints the added paths in ascending order, each after a slash with the attributes of its last master entry. |
| Services.ManifestDependsOnPathsOnly | src/Service.cpp:56-87 | Order, repetition and earlier attributes of the added streams do not change the manifest. |
| Services.PublishedManifestReadsBack | src/Service.cpp:73-86 | A player reading the manifest finds the added paths in ascending order, one slash away from their names in the cache. |
| Services.AddedStreams | src/Service.cpp:56-70 | The stream map holds exactly the added paths, each with its last master entry's attributes. |
| Services.MatchedIsLastEntry | src/Service.cpp:60-68 | The matching loop takes the attributes of the last entry for the path. |
| Services.UnlistedKeeps | src/Service.cpp:60-68 | A stream that the master manifest does not list keeps what it has. |
| Services.Service.ReadMasterManifest | src/Service.cpp:36-54 | The parsed entries are kept and the manifest is cached under a name that depends on the protocol; nothing changes when parsing throws. |
| Services.Service.MatchAttributes | src/Service.cpp:59-69 | The loop over the master manifest leaves the matched attributes in the stream. |
| Services.Service.PrintManifest | src/Service.cpp:75-86 | The loop over the stream map prints its entries in path order. |
| Services.Service.RecreateManifest | src/Service.cpp:73-86 | The manifest becomes the print of the current streams; no stream changes. |
| Services.Service.AddAndStartContentStream | src/Service.cpp:56-90 | The stream is filed and started; for HLS the call is one `Add`, for DASH the manifest is the text received, otherwise it stays. |
| Services.Service.MatchAndFile | src/Service.cpp:59-70 | Matching and filing change the stream map at the stream's path and nowhere else. |
| Announcements.StartedHaveSource | src/ServiceAnnouncement.cpp:484-566 | In any announcement every started stream has complete broadcast parameters or a CDN client; client, playlist path and registered paths are those of the base when it is not broadcast, else those the identicalContent groups decide, and without seamless switching the path is the manifest's. |
| Announcements.AnnouncedManifest | src/ServiceAnnouncement.cpp:486-565 | The service's manifest after an announcement lists exactly the paths of the started streams, ascending, with the attributes of their last master entries. |
| Announcements.StartedAreResolved | src/ServiceAnnouncement.cpp:486-565 | Every started stream is the resolution of one of the base patterns. |
| Announcements.PlainStartsDescribed | src/ServiceAnnouncement.cpp:562-564 | Without seamless switching and without an exception exactly the bases whose matching descriptions give an address and a port are started, in order. |
| Announcements.DescriptionIff | src/ServiceAnnouncement.cpp:504-521 | The descriptions that apply to a base are the contents of the items with the SDP content type and the URI that a delivery method of that base names. |
| Announcements.ItemOrder | src/ServiceAnnouncement.cpp:514-522 | In the order of the items. |
| Announcements.MethodOrder | src/ServiceAnnouncement.cpp:504-524 | And of the delivery methods. |
| Announcements.ManifestPathIs | src/ServiceAnnouncement.cpp:514-517 | The playlist path before any endpoint is that of the last item filed under the base that is a manifest with exactly one stream; for other protocols it is empty. |
| Announcements.PairsIff | src/ServiceAnnouncement.cpp:541-555 | A group names an endpoint if and only if it has the base and its last other base is not empty. |
| Announcements.EndpointSets | src/seamless/SeamlessContentStream.cpp:59-88 | An endpoint sets client, path and one more cache entry from the parts of its URI. |
| Announcements.SeamlessStartsAll | src/ServiceAnnouncement.cpp:528-564 | With seamless switching every base pattern is started, in order. |
| Announcements.BroadcastIffDescribed | src/ServiceAnnouncement.cpp:502-524 | The repeatedly overwritten flag is: some description matched, and all that matched, folded in order, are complete. |
| Announcements.AvailableMeansAddressAndPort | src/ServiceAnnouncement.cpp:502-524 | Which is the same as knowing an address and a port. |
| Announcements.IdenticalIs | src/ServiceAnnouncement.cpp:535-558 | The search throws if and only if some group that pairs the base names no URI or one without a client; client and path are those of the last pairing group, and every pairing group registers the playlist. |
| Announcements.OtherIsLast | src/ServiceAnnouncement.cpp:541-553 | And is the last base in that group that differs. |
| Announcements.SearchItem | src/ServiceAnnouncement.cpp:515-521 | Body of the item loop: playlist path first, then the session description, which overwrites the flag. |
| Announcements.SearchItems | src/ServiceAnnouncement.cpp:514-522 | The item loop. |
| Announcements.SearchBroadcast | src/ServiceAnnouncement.cpp:502-524 | The loop over the delivery methods. |
| Announcements.SearchGroup | src/ServiceAnnouncement.cpp:541-553 | The loop over one identicalContent group finds whether the base is in it and its last other base. |
| Announcements.SearchIdentical | src/ServiceAnnouncement.cpp:535-558 | The loop over the groups leaves the deciding endpoint in the stream and the playlist in the cache under the path of each. |
| Announcements.FindEndpoints | src/ServiceAnnouncement.cpp:528-560 | The endpoints of a seamless stream: the base itself, or the search. |
| Announcements.SetupBase | src/ServiceAnnouncement.cpp:489-564 | One base pattern: the stream object is its resolution, and whether it is started; a seamless one is a new stream with its playlist registered under the paths of its endpoints. |
| Announcements.StartBase | src/ServiceAnnouncement.cpp:486-565 | The loop body hands the resolved stream to the service, if it has a source. |
| Announcements.SetupByAlternativeContentElement | src/ServiceAnnouncement.cpp:484-566 | The outer loop hands the resolved streams to the service in order, up to the first exception; they are filed under their playlist paths, and the service's state is that of adding them. |

## Left out

- HTTP listener, REST clients, CDN transport, configuration files, logging, `main` and timers: plumbing; ticks and completed requests are events.
- LibFlute, gmime, tinyxml2, gzip and URI parsing: not visible here; files, XML trees and the splitting of an endpoint are inputs, and file completion is a set of file identities.
- Threads: every handler is atomic. A raw buffer pointer that outlives its file is not modelled.
- The clock can be read twice within one sweep by a generated playlist's age; here it is read once.
- Decimal.GeneralTextValue: a double is a whole number of millionths; binary rounding, infinities, NaN and hexadecimal text are not modelled, and digits beyond millionths are dropped on reading.
- Decimal.DurationSurvivesIff: the same.
- Decimal.Fixed3TextValue: the same; ties round to even in decimal.
- Overflow of `int` in sequence numbers and in `atoi`: sequence numbers are unbounded.
- Cache.CacheManagement.CheckFileExpiryAndCacheSize: the loops work on the set of names and on values read from the items once at the start, and the map is written back at the end; nothing can change an item in between.
- Services.Service.PrintManifest: reads the streams' attributes once before the loop.
- SeamlessStream.SeamlessContentStream.CheckCache: requires that other streams' items are in the state `World` records for them (`OthersShown`); the same holds for `HandleGet`.
- SeamlessStream.SeamlessContentStream.SetCdnEndpoint: the text that `cdn_endpoint()` reports is not kept; it is the client's base and the playlist path.
- ContentStreams.ContentStream.Start: the receiver thread is not modelled, only what it listens to.
- Announcements.SetupByAlternativeContentElement: missing XML elements, which crash, are not modelled.
- PrimaryPlaylist.RoundTrip: needs resolution and codecs without colon, quote, equals sign and newline, and a resolution without comma; the format has no escapes for them.
- Runs.PublishedUrisResolve: two streams that both list segments under one URI are outside `Spares`; for a URI that begins with the API's name the lookup is stated and the reply is the API's.
- SeamlessStream.SeamlessContentStream.HandleGet: what the API answers, and escapes that make more than one byte of a character, are not modelled.
- What the API answers, bearer tokens and JSON listings: single branches.
- `ContentStream::flute_file_received` and `flute_info`: files that plain streams cache appear as another stream's items.
- `_setupBy5GMagConfig` and `_setupBy5GMagLegacyFormat`: tree walks of the same kind as the modelled one.
- Envelope dates, TMGI prefix, MIME type to protocol, `DashManifest`: easy members; a DASH manifest is the text received.
- `CachedManifest`: behaves as `CachedPlaylist` and is never created.
