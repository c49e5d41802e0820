# xdl media crawl, checkpoint store and helpers — a Dafny model

xdl is a command-line downloader for the media timeline of a user on X. This project models its
core logic and proves properties of the model.

- **The crawl.** `GetMediaLinksForUser` requests the user's media timeline page by page, one
  cursor after the other. It extracts the media descriptors of every page (`fold`, `walk`,
  `gather`, `best`, `mid`, `midFrom`, `norm`) and finds the next cursor (`next`, `bottom`,
  `anyc`). Each page is merged into an accumulator keyed by URL, where the first record of a URL
  wins. The crawl stops on one of six end reasons, and the media come back sorted by URL.
- **The checkpoint store.** A class holding the items of a download run, with their positions,
  URLs, kinds, statuses and sizes. A URL index derived from the items is kept in step with them.
- **Section pacing.** `DeriveSectionBehavior` builds a fixed byte layout of seed, user, section
  and secret, hashes it, and reads six fixed 4-byte windows of the digest into bounded fields.
- **Configuration rules.** Network defaulting, the request timeout, GraphQL endpoints, feature
  sets, the `Cookie` header, browser-cookie import, loading with fallback paths, and the
  argument checks of saving.
- **File naming helpers.** `SanitizeFilename`, the name `SaveTimestamped` composes, `randHex`,
  and the answer test of `PromptYesNoDefaultYes`.

Each module sits in its own file:

| file | module | models |
|---|---|---|
| `wrappers.dfy` | `Wrappers` | `Option` and `Result` (Go's `(value, error)` pairs) |
| `strings.dfy` | `Strings` | the `strings` functions the core uses |
| `json.dfy` | `Json` | decoded JSON; `str` |
| `urls.dfy` | `Urls` | a simplified `net/url` and `path.Base` |
| `extractor.dfy` | `MediaExtractor` | media extraction from a page |
| `cursors.dfy` | `Cursors` | the next-cursor search |
| `ordering.dfy` | `Ordering` | `sort.Strings` of the accumulator's keys |
| `scraper.dfy` | `Scraper` | the crawl loop, its merge and its end reasons |
| `checkpoints.dfy` | `Checkpoints` | `internal/downloader/state.go` |
| `behavior.dfy` | `Behavior` | `internal/runtime/behavior.go` |
| `config.dfy` | `Config` | the rules of `internal/config/config.go` |
| `utils.dfy` | `Utils` | the helpers of `internal/utils/utils.go` |

The outside world enters as parameters:

- The crawl's HTTP request is `fetch(pg, cursor)`. It says what requesting page `pg` with that
  cursor ends in: a request that cannot be built, a failed transport or status, a body that is
  not JSON, or a decoded page.
- The page sequence the crawl merged is returned as a ghost trace. The contracts speak about
  that trace.
- SHA-512 is a parameter `hash` onto 64-byte digests.
- Clock readings, random bytes, file reads and writes, and JSON marshalling are parameters:
  either the value they produce, or the error they end in.
- Go's nil receivers are nullable references, for example `Checkpoint?` and
  `EssentialsConfig?`.

## Model

| member | source | states |
|---|---|---|
| Scraper.GetMediaLinksForUser | internal/scraper/media.go:27-199 | A nil client or config, an empty user id and a failed endpoint lookup return their errors before any request. A request that cannot be built returns "build request: " and the reason. Every other ending, `http_error` and `parse_error` included, succeeds. The output is exactly the accumulator's records, one per URL, strictly ascending by URL. The crawl facts of `Crawl` hold. |
| Scraper.Crawl | internal/scraper/media.go:40-176 | Its returns satisfy `Reported` and `Crawled`: sent cursors are all distinct, and all after the first are non-empty. There are at most 200 of them. Each cursor is the `next` of the page before it. The trace is exactly the fold of every decoded page, and the accumulator is their first-wins merge. The end reason is exactly the one the termination order gives: transport, parse, stagnation (checked before the cursor), missing cursor, repeated cursor, page limit. A request that cannot be built is reported with its reason, and no end reason. |
| Scraper.Stop | internal/scraper/media.go:150-172 | After a decoded page the crawl stops with `no_progress` exactly when the stagnation count reached 3. Otherwise it stops with `no_next_cursor` exactly when there is no next cursor, then with `repeat_cursor` exactly when the cursor was seen, then with `max_pages` exactly when the page counter reached 200. It goes on exactly when none of these hold, with the page's `next` cursor. |
| Scraper.ContinueStep | internal/scraper/media.go:116-176 | A decoded page that ends nothing keeps the loop's facts for the next request: distinct cursors, the chain of `next` cursors, one fold output per page, the merge, and every stagnation prefix below the limit. |
| Scraper.DecodedExit | internal/scraper/media.go:116-172 | Stopping after a decoded page returns values that meet `Crawled`, with the end reason `Stop` chose. |
| Scraper.FailedExit | internal/scraper/media.go:84-114 | A transport failure or an undecodable page ends the crawl with `http_error` or `parse_error`, and the pages read before it. |
| Scraper.BuildExit | internal/scraper/media.go:76-79 | A request that cannot be built ends the crawl with its reason and no end reason. Every earlier page was decoded. |
| Scraper.SortedMedia | internal/scraper/media.go:182-191 | The output lists every accumulated record exactly once, in ascending URL order. |
| Scraper.MergePage | internal/scraper/media.go:116-125 | Merging a page inserts its records for unseen URLs only. The image and video counters grow by exactly the number of newly inserted URLs of that kind. |
| Scraper.MergeLookup | internal/scraper/media.go:116-120 | After a merge, a URL already present keeps its record. A new URL gets the first record of the page with that URL. |
| Scraper.MergeAllFirstWins | internal/scraper/media.go:116-120 | Across all pages, the record kept for a URL is the first one with that URL in page order. A URL is absent exactly when no page has it. |
| Scraper.MergeAllKeyed | internal/scraper/media.go:116-120 | Every record of the accumulator is filed under its own URL. |
| Scraper.MergeGrows | internal/scraper/media.go:116-120 | Merging never removes or changes an accumulated entry. |
| Scraper.NewOfKindInsert | internal/scraper/media.go:117-124 | Inserting a record under a new URL adds one to the count of new URLs of its kind, and nothing to the other kind. |
| Scraper.StagnationCountsIdlePages | internal/scraper/media.go:127-132 | The stagnation counter equals the number of trailing pages that added no new URL. |
| Scraper.StagnationStep | internal/scraper/media.go:127-132 | One more page adds one to the counter when it adds no URL, and resets it to 0 otherwise. |
| Scraper.NoProgressAfterThreeIdle | internal/scraper/media.go:127-154 | A crawl that ends with `no_progress` has read at least three pages, and its last three pages each added nothing. |
| Scraper.PageLimit | internal/scraper/media.go:169-172 | A crawl whose 200th page is decoded, not stagnant, and names a fresh cursor ends with `max_pages`. |
| Cursors.NextPrefersBottom | internal/scraper/media.go:370-379 | `next` returns a bottom cursor whenever the page holds one. Only otherwise does it return `anyc`'s cursor. It is empty exactly when the page holds neither. |
| Cursors.BottomCorrect | internal/scraper/media.go:381-402 | `bottom` yields a value only when it is a `cursorType: Bottom` value in the page. It yields one whenever such a value exists. |
| Cursors.OwnCursorCorrect | internal/scraper/media.go:407-413 | At one object, the value found is a non-empty string under a key containing "cursor". None is found only when no such key holds a non-empty string. |
| Cursors.AnyCursorCorrect | internal/scraper/media.go:404-427 | `anyc` yields a value only when a cursor-named key holds it in the page. It yields one whenever such a key exists. |
| Json.StrAt | internal/scraper/media.go:429-434 | A key holding the string t gives t. A key holding anything else, or an absent key, gives "". A non-empty result is therefore the stored string. |
| Json.StrAtField | internal/scraper/media.go:429-434 | With unique keys, the result is `str` of the value of the field with that name. |
| MediaExtractor.MidFrom | internal/scraper/media.go:356-368 | An empty or unparsable URL gives "". Otherwise the result is the stem of the path's base name: the text before its first '.', with white space trimmed. So it holds no '.' and has no white space at either end. |
| MediaExtractor.MidFromName | internal/scraper/media.go:356-368 | For a parsed URL whose path ends in "/" and a file name, the result is that name up to its first '.', trimmed. |
| MediaExtractor.IdPrecedence | internal/scraper/media.go:256-293 | The id is `id_str`, else `media_key`, else a positive numeric `id` spelled in decimal, else the URL's file stem. It is empty (the descriptor skipped) exactly when all four are. |
| MediaExtractor.FormatIntRoundTrip | internal/scraper/media.go:290 | The decimal spelling of a number reads back as the number. |
| MediaExtractor.Norm | internal/scraper/media.go:295-305 | "" stays "". An unparsable URL stays unchanged. A URL whose host does not contain "twimg.com" stays unchanged. |
| MediaExtractor.NormCdn | internal/scraper/media.go:306-314 | A CDN URL re-parses to the same URL with a lower-cased scheme. Its query then holds exactly the original `format` value and `name=orig`, and no other key. |
| MediaExtractor.NormIdempotent | internal/scraper/media.go:295-315 | Normalising twice is normalising once. |
| MediaExtractor.Best | internal/scraper/media.go:317-354 | The variant loop computes the choice `BestChoice` characterises. |
| MediaExtractor.BestChoice | internal/scraper/media.go:317-354 | The chosen URL belongs to the first qualifying variant (`video/mp4`, non-empty URL) with maximal bitrate, where a missing bitrate counts as 0. The result is ("", 0) exactly when no qualifying variant has a bitrate of 0 or more, since a negative declared bitrate never beats the starting -1. |
| MediaExtractor.BestNonNegative | internal/scraper/media.go:317-354 | A chosen URL always comes with a bitrate of 0 or more. |
| MediaExtractor.Gather | internal/scraper/media.go:241-280 | The in-place loop over the `media` array yields the aggregation `GatherFrom` defines. |
| MediaExtractor.GatherFromWellFormed | internal/scraper/media.go:255-278 | The aggregation never holds an empty id or an empty URL. A photo has bitrate 0 and a video a non-negative bitrate. |
| MediaExtractor.GatherFromFrame | internal/scraper/media.go:255-278 | An id that no descriptor of the array writes keeps its entry, or its absence. |
| MediaExtractor.LastPhotoWins | internal/scraper/media.go:264-269 | Within one array, the last photo written under an id is what remains, unconditionally. |
| MediaExtractor.VideoKeepsMax | internal/scraper/media.go:270-277 | With no photo under the id, the stored bitrate never decreases. It ends at least as high as every video written under that id, since replacement needs a strictly higher bitrate. |
| MediaExtractor.Walk | internal/scraper/media.go:222-239 | The recursive in-place walk yields the aggregation `WalkSpec` defines: at each object its "legacy" media, then its own media, then its members; at each array its items. |
| MediaExtractor.WalkOwn | internal/scraper/media.go:225-230 | At one object the walk gathers the "legacy" media first and then, when "extended_entities" is present, the object's own. |
| MediaExtractor.WalkWellFormed | internal/scraper/media.go:222-239 | Walking a page keeps the aggregation well formed. |
| MediaExtractor.OwnWellFormed | internal/scraper/media.go:225-230 | The gathering at one object keeps the aggregation well formed. |
| MediaExtractor.Fold | internal/scraper/media.go:202-214 | The output has one record per aggregated id: each record occurs exactly as many times as there are ids holding it, so the length is the number of ids and nothing else appears. |
| MediaExtractor.PageMediaWellFormed | internal/scraper/media.go:202-214 | Every media record of a page has a non-empty URL and the kind "image" or "video". |
| Ordering.SortedKeys | internal/scraper/media.go:183-187 | The result is the map's keys, each once, in strictly ascending byte order. |
| Ordering.Insert | internal/scraper/media.go:187 | Inserting into an ascending sequence keeps it ascending, and adds exactly the new key. |
| Ordering.SortedDistinct | internal/scraper/media.go:187 | A strictly ascending sequence has no repeated key. |
| Strings.LessTotal | internal/scraper/media.go:187 | Byte order compares any two distinct strings. |
| Strings.LessTransitive | internal/scraper/media.go:187 | Byte order is transitive. |
| Checkpoints.Checkpoint.NewCheckpoint | internal/downloader/state.go:43-59 | There is one item per media entry: its position as index, URL and type copied, status pending, size 0. The version is 1, both timestamps are the given time, and the index is built and agrees with the items. |
| Checkpoints.Checkpoint.Ix | internal/downloader/state.go:61-68 | The index is rebuilt from the items, and nothing else changes. |
| Checkpoints.UrlIndexLast | internal/downloader/state.go:61-68 | The index has exactly the non-empty URLs of the items as keys. Each key maps to the position of the URL's last occurrence. |
| Checkpoints.Checkpoint.Touch | internal/downloader/state.go:70-72 | The update time becomes the given time, and nothing else changes. |
| Checkpoints.MarkByIndex | internal/downloader/state.go:74-88 | A nil checkpoint or an index out of range changes nothing, not even the update time. Otherwise only that item changes: it takes the status, and the size only when it is not negative. The length and order of the items stay, the update time is refreshed, and a valid index stays valid. |
| Checkpoints.MarkedKeepsUrls | internal/downloader/state.go:81-86 | Marking an item leaves the URL index as it was. |
| Checkpoints.MarkByURL | internal/downloader/state.go:90-102 | An empty URL, or one absent from the (rebuilt when missing) index, is a no-op. Otherwise it is marking at the index of the URL's last occurrence. |
| Checkpoints.MarkByURLTarget | internal/downloader/state.go:90-102 | The index consulted, kept or rebuilt, sends a URL to its last occurrence in the items. |
| Checkpoints.PendingItems | internal/downloader/state.go:104-115 | The result is the pending items in their original order, and the checkpoint is unchanged. |
| Checkpoints.PendingOfMembers | internal/downloader/state.go:104-115 | The query holds exactly the items with status pending. Its length is the number of pending items. |
| Checkpoints.PendingOfConcat | internal/downloader/state.go:104-115 | The query distributes over concatenation, which makes it an order-preserving filter. |
| Checkpoints.CompletedCount | internal/downloader/state.go:117-132 | The three counts are the numbers of done, skipped and failed items, and zero for a nil checkpoint. |
| Checkpoints.CountsCoverItems | internal/downloader/state.go:104-132 | The three counts plus the pending count are at most the number of items. They equal it when every status is one of the four constants. |
| Checkpoints.Save | internal/downloader/state.go:134-151 | A nil checkpoint or an empty path fails before any write, with its own message, and the checkpoint unchanged. Otherwise the update time is refreshed and then the refreshed record is persisted. |
| Checkpoints.FixVersion | internal/downloader/state.go:165-167 | A version of 0 or less becomes 1, and any other version is kept. |
| Checkpoints.LoadCheckpoint | internal/downloader/state.go:153-170 | An empty path and a decoding error fail. Otherwise the result is a fresh checkpoint holding the decoded record with its version fixed, and the index rebuilt. |
| Checkpoints.Checkpoint.FromRecord | internal/downloader/state.go:161-164 | A decoded record becomes a checkpoint holding exactly that record, with no index yet. |
| Behavior.SectionBytesAt | internal/runtime/behavior.go:38-49 | The preimage is the run seed, "\|user:", the user name, "\|section:", the eight big-endian bytes of the section index, and the secret part. Each piece sits at its fixed offset. |
| Behavior.SecretOptional | internal/runtime/behavior.go:46-49 | Without a secret the preimage ends with the section bytes. A non-empty secret is appended after "\|secret:". |
| Behavior.SectionsDiffer | internal/runtime/behavior.go:38-44 | Two different section indexes of one run and user give different preimages. |
| Behavior.BE64RoundTrip | internal/runtime/behavior.go:42-43 | The eight bytes written read back as the number. |
| Behavior.Uint64 | internal/runtime/behavior.go:43 | A non-negative index is kept. A negative one wraps to two's complement modulo 2^64. |
| Behavior.TakeUint | internal/runtime/behavior.go:53-59 | The window's big-endian value modulo `max` is below `max`, and it is 0 when `max` is 0. |
| Behavior.TakeFloat01 | internal/runtime/behavior.go:61-64 | The window's fraction of `MaxUint32` lies in [0, 1], both ends included. |
| Behavior.DeriveSectionBehavior | internal/runtime/behavior.go:28-92 | Whatever the digest, the fields stay in range, the float ones over exact reals: the base delay in [300, 1199] ms in whole milliseconds, jitter in [0.2, 0.6], a burst every 15 to 59 requests, a burst extra in [2000, 6999] ms, a fake-request probability in [0, 0.15], and a shuffle width of 1 to 4. |
| Behavior.ProfileRanges | internal/runtime/behavior.go:66-91 | The same ranges hold for the profile of any 64-byte digest. |
| Behavior.FieldsReadOwnWindows | internal/runtime/behavior.go:66-82 | Each field depends only on its own window at offset 0, 4, 8, 12, 16 or 20. |
| Config.EssentialsConfig.FromDecoded | internal/config/config.go:88-98 | A loaded configuration is the decoded file with its network normalised. |
| Config.NormalizeNetwork | internal/config/config.go:101-106 | "https://x.com" when the network is blank after trimming, and the input unchanged otherwise. |
| Config.HTTPTimeout | internal/config/config.go:108-116 | 15 s for a nil config or a timeout of 0 or less. Otherwise the timeout in seconds. |
| Config.WrapInt64 | internal/config/config.go:115 | `int64` arithmetic wraps into the 64-bit range, and keeps every value already in it. |
| Config.GraphQLURL | internal/config/config.go:118-131 | A nil config, missing operations, a missing key and a blank path fail with their messages. Otherwise the result is the network without trailing slashes, "/i/api/graphql/", and the path. |
| Config.GraphQLURLShape | internal/config/config.go:118-131 | Exactly one slash separates the network from "i/api/graphql", and the network part is a prefix of the configured network. |
| Config.FeatureSource | internal/config/config.go:148-157 | "user_media" selects the media features, and every other key the user features. |
| Config.FeatureJSONForAsWritten | internal/config/config.go:133-146 | A nil config gives "{}". A non-nil config hands the selected set to the marshaller, even a nil one. |
| Config.NilFeaturesGiveNull | internal/config/config.go:137-140 | As written, a nil media feature set is sent as "null", not "{}". |
| Config.FeatureJSONFor | internal/config/config.go:133-146 | A nil config or nil set gives "{}". A marshalling error gives "{}" with the error. Otherwise the result is the marshalled set. |
| Config.FeatureJSONForAgrees | internal/config/config.go:133-146 | The written and intended versions agree whenever the selected set is present. |
| Config.EssentialsConfig.BuildCookieHeader | internal/config/config.go:206-221 | The header joins the non-empty cookies with "; " in the order guest_id, auth_token, ct0. |
| Config.CookieHeaderShape | internal/config/config.go:206-221 | The header is "" exactly when all three cookies are empty. For each of the seven other combinations, it lists the set ones as `name=value` in the order guest_id, auth_token, ct0, separated by "; ". |
| Config.EssentialsConfig.ApplyBrowserCookies | internal/config/config.go:258-266 | Only the auth cookies change, and they change as the cookie list applied in order prescribes. Every other part of the configuration stays. |
| Config.EssentialsConfig.AssignCookieValue | internal/config/config.go:272-281 | The name, compared case-insensitively, selects which of the three cookies takes the value. Any other name changes nothing. |
| Config.ApplySlot | internal/config/config.go:258-281 | One cookie sets an auth slot to its value exactly when it is a site cookie with that name, compared case-insensitively. Otherwise the slot keeps its value. |
| Config.LastMatchWins | internal/config/config.go:258-281 | The last matching site cookie with an auth name decides that slot's value. |
| Config.NoMatchKeeps | internal/config/config.go:258-281 | A slot that no site cookie names keeps its value. |
| Config.IgnoredCookie | internal/config/config.go:259-280 | A cookie whose trimmed, lower-cased domain lacks "x.com", or whose name is none of the three, changes nothing. |
| Config.LoadEssentialsWithFallback | internal/config/config.go:69-86 | The loop returns what `FirstLoad` defines. A success is a fresh configuration built from the first file that loads. |
| Config.FirstLoadSucceedsIff | internal/config/config.go:69-86 | Loading succeeds exactly when some non-blank path loads. |
| Config.FirstLoadFirst | internal/config/config.go:71-81 | Blank paths are skipped, and the first non-blank path that loads wins. |
| Config.FirstLoadLastError | internal/config/config.go:76-85 | When every tried path fails, the error is the last one's. |
| Config.FirstLoadNoneTried | internal/config/config.go:82-85 | When every path is blank, the error is "no essentials.json found". |
| Config.SaveEssentials | internal/config/config.go:283-301 | A nil config and a blank path fail before anything is written. Otherwise the configuration is persisted to the path. |
| Utils.Replace | internal/utils/utils.go:24-34 | Each forbidden character becomes '_', and the length stays. |
| Utils.SanitizeFilenameSafe | internal/utils/utils.go:80-90 | An empty name, or a base blank after replacement, gives "file". The result never holds `/ \ : * ? " < > \|` and never ends in '.' or ' '. |
| Utils.FinishSafe | internal/utils/utils.go:85-89 | Trimming a clean base: the empty base gives "file", no forbidden character appears, and no '.' or ' ' is left at the end. |
| Utils.SanitizeCanBeEmpty | internal/utils/utils.go:85-89 | The result can still be empty: "..." sanitises to "". |
| Utils.Extension | internal/utils/utils.go:170-173 | One leading '.' is dropped, "bin" when nothing is left, never empty. |
| Utils.SanitizedNoSlash | internal/utils/utils.go:80-90 | A sanitised name never holds '/'. |
| Utils.NameNoSlash | internal/utils/utils.go:167-175 | With no '/' in the timestamp, suffix or extension, the composed name is non-empty and holds no '/'. |
| Utils.NameStaysInDir | internal/utils/utils.go:167-175 | With no '/' in the timestamp, suffix or extension, the composed name holds no '/', and the joined path's base name is that name. |
| Utils.SaveTimestamped | internal/utils/utils.go:160-181 | An empty directory fails with "empty baseDir". A directory or write error is returned. Otherwise the result is the directory joined with prefix, timestamp, suffix and extension. |
| Utils.RandHex | internal/utils/utils.go:212-219 | The result has two lower-case hex digits per random byte, and it decodes back to the bytes. |
| Utils.HexRoundTrip | internal/utils/utils.go:219 | Hex encoding is undone by hex decoding. |
| Utils.AnswerIgnoresCase | internal/utils/utils.go:208-209 | The answer does not depend on letter case. |
| Utils.BlankLineIsYes | internal/utils/utils.go:208-209 | An empty or all-blank line, such as a bare Enter, answers yes. |

## Left out

- Transport and pacing are `fetch`: request URLs, query escaping, headers (`BuildRequestHeaders`), `httpx.DoRequestWithOptions` and the limiter's sleep. Their code is not part of this model.
- Scraper.Crawl: what the request for a page ends in depends only on the page number and the cursor. The feature JSON and variables are fixed for a run, so they are folded into `fetch`.
- Scraper.GetMediaLinksForUser: the debug dumps, log lines and progress printing of the loop are left out. They are output only and do not affect the result.
- JSON encoding and decoding of pages, checkpoints and configuration files are not modelled. The model starts from decoded values, and marshalling is a parameter.
- JSON numbers are integers. So a fractional `bitrate` or `id` from `float64`, the truncation `int64(f)` (a `0 < id < 1` becoming "0"), and float precision are not modelled.
- Go's map iteration order is random. Objects are modelled as their member sequence walked in order. The model makes no claim about which matching cursor or descriptor in different branches wins, and `Fold`'s output order is left unspecified.
- `url.Parse`, `URL.String` and `url.Values.Encode` are simplified: a URL is split into scheme, the text up to the query, raw query and fragment, with no percent-unescaping or re-escaping. An invalid percent-escape is therefore accepted, and `String` writes every part back as it was read. An opaque reference (a scheme with no '/' after it) is represented, with an empty path. The host drops user information up to the last '@', and the port is kept. A string is rejected only for a control character, a leading ':', or a colon in the first segment of a reference without a scheme.
- Urls.Parse: a control character in the fragment is rejected by the model, while Go cuts the fragment off before its control-byte check and accepts it. So for "https://pbs.twimg.com/media/a.jpg#\x01" the model's `Norm` returns the URL unchanged and `MidFrom` gives "", where Go rewrites the URL and gives "a". A faithful fragment would also need `String`'s escaping of it.
- `path.Base` and `filepath.Base` use Unix semantics. `filepath.Join` is modelled for a clean directory and a separator-free name as `JoinPath`, with no `Clean`.
- `strings.ToLower` is exact for ASCII, the Kelvin sign and U+0130. Other non-ASCII letters are left unchanged, and the core only compares the result against ASCII literals.
- Clock readings (`time.Now` in `touch`, `NewCheckpoint` and `SaveTimestamped`) and `crypto/rand` bytes are parameters. `randHex`'s fallback to the clock when the random source fails is not modelled.
- SHA-512 is the parameter `hash`. The user name enters the preimage as its UTF-8 bytes.
- Behavior.DeriveSectionBehavior: the float fields of `SectionBehavior` are exact reals, and their bounds are proved of exact reals only. Go's `float64` arithmetic can step outside them. At a window of `MaxUint32`, `takeFloat01` is exactly 1.0, and `0.2 + 1.0*0.4` is the midpoint of two `float64` values, which rounds to even as 0.6000000000000001, one unit in the last place above 0.6. The probability bound 0.15 (`1.0*0.15`) is met exactly.
- Config.HTTPTimeout: the contract states the value only for timeouts up to 9,223,372,036 seconds. Above that, the body wraps like Go's `int64` product, and no contract covers those values.
- File system effects are not modelled: `EnsureDir`, `SaveToFile`, `os.ReadFile` and the atomic write of `SaveEssentials`. Each is folded into a parameter that returns its error.
- Checkpoints: `Items` is an exported field. Code outside the package could change it and leave the index stale. The class invariant covers only changes made through the modelled operations.
- Nil and empty slices are not distinguished: `PendingItems` of a nil checkpoint is the empty sequence.
- `BrowserCookie` carries `path` and `secure` as declared, but nothing in the core reads them, so no contract mentions them.

## Findings

| source | as written | input that shows it | evidently intended | confidence | as-written member | corrected member |
|---|---|---|---|---|---|---|
| internal/config/config.go:137-140 | `featureSource` returns the feature map as `any`. A nil `map[string]any` inside an `any` is not `nil`, so the `src == nil` test never holds and a nil set is marshalled. | A configuration whose `features.media` is absent, with key "user_media", yields "null" | "{}" for a nil feature set, as the nil test means | not executed | Config.FeatureJSONForAsWritten (Config.NilFeaturesGiveNull) | Config.FeatureJSONFor (Config.FeatureJSONForAgrees) |
