# EcoSci in Dafny

EcoSci is a browser application for field scientists. It offers:

- a chat with an AI research assistant. The assistant streams its replies, may cite web sources and offers follow-up suggestions;
- a gallery of the images gathered in a chat, with a lightbox;
- a gamified researcher profile: XP, levels, ranks, login streaks and badges;
- a community feed where captures from the 3D phenotyping lab are published and liked;
- the phenotyping viewer itself. It turns an image into a coloured point cloud.

This project models the application's logic in Dafny and proves properties of it. The layout is one module per source file:

| module | source | form |
|---|---|---|
| `App` | App.tsx | state updates as functions; `AppState` class for the send, delete and image-click handlers; loops for the gallery scan and the reply stream |
| `PhenotypingViewer` | components/PhenotypingViewer.tsx | `Viewer`, `Geometry` and `Material` classes; the point-building and recolouring loops over `array<real>` buffers |
| `Markdown` | utils/markdown.tsx | block parser as a `while` loop, proved equal to a recursive specification; pure inline and table rendering |
| `Gemini` | services/geminiService.ts | request building and the stream loop as methods against functions; the `|||` suggestion split |
| `Community` | components/CommunityBench.tsx | search, likes and publishing as functions |
| `FieldJournal` | components/FieldJournal.tsx | rank lookup, the progress bar, profile editing, the id card and badge cards |
| `LevelUpModal` | components/LevelUpModal.tsx | the announced rank |
| `ImageModal` | components/ImageModal.tsx | cyclic navigation, key dispatch, caption, download name |
| `InputArea` | components/InputArea.tsx | the send guard, keyboard sending, attachment editing |
| `MessageBubble` | components/MessageBubble.tsx | the source list and its truncation, voice choice, speech toggle, suggestions |
| `GalleryView` | components/GalleryView.tsx | newest-first tiles and tile clicks |
| `Sidebar` | components/Sidebar.tsx | in-place insertion sort of the sessions by recency; list rows, highlight and navigation |

Supporting modules:

- `Types` gives the records of types.ts as datatypes.
- `Constants` gives the tables of constants.ts: badges, ranks and daily challenges.
- `Wrappers` gives `Option`, which stands for `undefined`/`null`.
- `Seqs` and `Strings` give the JavaScript array and string operations the code relies on:

  - `filter`, `slice`, `reverse`, `find`/`findIndex`, `flatMap`;
  - `trim` with the ECMAScript whitespace set;
  - `includes`, `startsWith`, `split`/`join` on one character;
  - `toLowerCase`, `padStart`, `toString`.

Some JavaScript behaviour is written out explicitly:

- `%` takes the sign of the dividend (`ImageModal.JsRem`).
- A remainder by zero items gives `NaN` (`ImageModal.Next`).
- `/\s+/g` is replaced by a hyphen per whitespace run.
- `split(',')[1]` is the part between the first and second comma (`InputArea.Payload` proves it).
- An absent `isLiked` counts as false.
- A division by zero in the progress bar gives `None`.

Inputs stand in for the world outside:

- Clocks, generated ids, the day gap since the last login, the hour and the day of the month are parameters.
- So is the viewport width, and whether the API key is present.
- The network reply is given as a sequence of chunks, or as a reply value.
- A canvas readback is its RGBA byte sequence.

The model follows the code as written where it behaves in ways a reader may not expect:

- On a new day the login bonus adds 50 XP directly, without recomputing the level (App.tsx:159-164, `App.Login`).
- The voice test `toLowerCase().includes('male')` also accepts names containing `female` (`MessageBubble.FemaleContainsMale`).
- A markdown image `![a](u.png)` is matched by both gallery scans, so it appears twice in the gallery (App.tsx:89-111).
- The recolouring effect depends on `renderMode` and `pointsCount`. So after a second image load with the same point count, the colours stay RGB even in another mode (`PhenotypingViewer.Viewer.LoadImage`).
- Negative XP has no current band. The progress formula then divides by zero (`FieldJournal.ProgressRange`).

## Model

| member | source | states |
|---|---|---|
| Constants.RanksAreAscending | constants.ts:85-91 | the rank table starts at 0 XP and its thresholds strictly increase |
| App.KnownBadge | App.tsx:184 | the badge table entry with the given id, or none exactly when no entry has that id |
| App.UnlockBadge | App.tsx:181-192 | only the badge list changes; a held or unknown badge changes nothing; otherwise the table's badge is appended with the unlock time, so the held set gains exactly that id |
| App.UnlockIdempotent | App.tsx:183 | unlocking the same badge twice is the same as unlocking it once |
| App.AddXp | App.tsx:194-210 | adds the amount to XP, sets the level to floor(xp/300)+1 and raises the level-up flag exactly when the level grew |
| App.LevelBand | App.tsx:198 | the level's band holds the XP: 300·(level−1) ≤ xp < 300·level; level ≥ 1 for xp ≥ 0 |
| App.LevelMonotone | App.tsx:198 | more XP never gives a lower level |
| App.LevelUpIffNextBand | App.tsx:200-202 | for a consistent profile the dialog opens exactly when the new XP reaches 300·level |
| App.NextStreak | App.tsx:155-157 | a one-day gap extends the streak, a longer gap resets it to 1, no gap keeps it |
| App.Login | App.tsx:148-168 | same day: nothing changes; new day: date recorded, streak updated, XP +50 with the level untouched, other fields kept, and `streak_3` earned exactly at a streak of 3 or more |
| App.DailyMission | App.tsx:144-145 | the challenge at day-of-month mod 7, one of the table's challenges |
| App.UnlockIf | App.tsx:288-291 | a conditional unlock: the held set gains the id only when the condition holds and the badge exists |
| App.MomentBadges | App.tsx:288-291 | the held set gains exactly publisher for "report", bioblitz for "bio-blitz", night_owl for 22–4 h and early_bird for 5–8 h |
| App.CountBadges | App.tsx:297-299 | with uploads, the held set gains shutterbug at a count of 10 or more and taxonomist at 5 or more |
| App.RecordUploads | App.tsx:294-302 | the observation count grows by the number of uploads and novice_observer is earned when there is at least one |
| App.Gamify | App.tsx:283-305 | a system start changes nothing; otherwise count, XP (+10, +60 with uploads), level and level-up flag as described, other fields kept |
| App.GamifyBadges | App.tsx:283-305 | after a send the held badges are exactly those held before plus those the send earns |
| App.AllSendBadgesKnown | App.tsx:288-302 | every badge id the send awards is in the badge table |
| App.FindSession | App.tsx:68-71 | the session with the id, or none exactly when no session has it |
| App.EnsureActiveChat | App.tsx:264-277 | with no current chat a "Community Bench Analysis" session is prepended and becomes active; otherwise nothing changes |
| App.WithContext | App.tsx:331 | the context message starts with the system-context opening and ends with the labelled question |
| App.TextToSend | App.tsx:317-332 | a system start or a message without community interest is sent as typed; otherwise it is wrapped with the context |
| App.MapSession | App.tsx:343-352 | the update reaches exactly the sessions with the id |
| App.AppendTurn | App.tsx:343-352 | the active session gets the user message and the empty bot message appended and its time updated; all other sessions are unchanged |
| App.MapMessage | App.tsx:363-373 | the update reaches exactly the messages with the id |
| App.ApplyUpdateOverwrites | App.tsx:361-377 | a later stream update overwrites an earlier one completely |
| App.ApplyUpdatesLastWins | App.tsx:360-378 | after a stream, the bot message shows the last update alone |
| App.WithConnectionError | App.tsx:398 | the error note is appended, after a blank line when the text is not empty |
| App.DeleteChat | App.tsx:253-261 | the session is filtered out; if it was current, the first remaining session (or none) becomes current and loading stops; otherwise the current chat is kept |
| App.DeleteKeepsOrder | App.tsx:255 | the remaining sessions keep their order and every other session survives |
| App.MatchesAreMatches | App.tsx:89-91 | each match found by the regex scan is a match of the pattern at its position |
| App.MatchesFirstIsLeftmost | App.tsx:91 | no match starts between the scan start and the first match |
| App.MatchesLeaveNoGap | App.tsx:91 | no match starts between two consecutive matches found |
| App.ScanFound | App.tsx:91 | every match of an `exec` loop is what one `exec` call returned from a position at or after the start |
| App.ScanNext | App.tsx:91 | each `exec` call after the first resumes at the end of the previous match |
| App.ScanLast | App.tsx:91 | the loop ends only when the search after the last match finds no further match |
| App.MatchesOrdered | App.tsx:91 | consecutive matches do not overlap and come in text order |
| App.MatchesNone | App.tsx:91 | an empty scan means no match anywhere after the start |
| App.MatchesStep | App.tsx:91 | the scan is the first match followed by the scan from its end |
| App.MatchesDone | App.tsx:91 | with no match left the scan is empty |
| App.AttachmentItems | App.tsx:77-87 | one gallery item per attachment, in order: its source is the attachment's data URL, its alt "User Upload", it is marked as the user's, and it carries the message's id and timestamp |
| App.ImageItems | App.tsx:89-99 | one item per image match, in order: its URL as source, its alt text or "Scientific Illustration", not an upload, with the message id and time |
| App.ReplyLayout | App.tsx:88-111 | a non-empty reply's items are its uploads, then its image items, then its image-link items |
| App.ReplyImageItems | App.tsx:89-99 | the reply item after the uploads at position k comes from the k-th image match, a real match of the image pattern, with its URL and its alt text or "Scientific Illustration" |
| App.ReplyLinkItems | App.tsx:100-111 | every reply item after the image items links to an image, has alt text (its own or "Image") and is not an upload |
| App.LinkItems | App.tsx:100-111 | at most one item per link match; each has an image-extension source, text or "Image" as alt, is not an upload and carries the message id and time |
| App.LinkItemsFromMatches | App.tsx:100-111 | every link item is built from one of the link matches |
| App.GalleryAppend | App.tsx:76-113 | the gallery of a concatenation of messages is the concatenation of their galleries |
| App.UserMessageItems | App.tsx:77-88 | a user message contributes exactly its attachments, as data URLs marked as uploads |
| App.AllGalleryItems | App.tsx:73-115 | the loop over the current chat's messages yields the gallery specification |
| App.ItemsOfMessage | App.tsx:76-112 | one message yields uploads, then images, then image links |
| App.UploadItems | App.tsx:77-87 | the attachment loop yields the attachment items in order |
| App.ExecAll | App.tsx:91 | the `exec` loop collects exactly the scan's matches |
| App.ScanImages | App.tsx:89-99 | the image loop yields the image items of all image matches |
| App.ScanImageLinks | App.tsx:100-111 | the link loop yields the items of the link matches with image extensions |
| App.CollectImages | App.tsx:92-98 | the image loop body, run over the matches found, yields exactly their image items in order |
| App.CollectImageLinks | App.tsx:101-110 | the link loop body, run over the matches found, yields exactly the items of those with image extensions |
| App.LinkItemsAppend | App.tsx:101-110 | a new link match adds an item exactly when its URL has an image extension |
| App.HandleImageClick | App.tsx:212-215 | the first item with the same source is opened; an unknown source keeps the lightbox index |
| App.StreamReply | App.tsx:360-378 | applying each update as it arrives gives the specified sessions |
| App.ExchangeTurn | App.tsx:343-408 | the turn is appended; the outcome is a refusal without a key, otherwise the request built from the history with the stream's text and updates, marked as failed when the stream breaks; the chats are then settled: updates applied, then the error note and a new timestamp whenever the call threw |
| App.AppState.SendTurn | App.tsx:354-408 | loading is on for the exchange and off after it; chats and outcome as the exchange gives; nothing else changes |
| App.ApplyUpdatesBotText | App.tsx:360-378 | the model message keeps its place and id through a stream and ends showing the last update's text, or its own when there was none |
| App.MarkBotText | App.tsx:391-402 | the error note goes on the model message's text and the active chat is stamped |
| App.FailedReplyText | App.tsx:391-402 | after a stream broken off, the placeholder reads the display text received so far followed by the error note, and the chat is stamped |
| App.MissingKeyReplyText | App.tsx:391-402 | after a refused send, the placeholder reads only the error note, and the chat is stamped |
| App.AppState.constructor | App.tsx:50-62 | the initial state: no current chat, chat view, not loading, no dialog, lightbox closed |
| App.AppState.HandleSendMessage | App.tsx:263-409 | the whole send: active chat opened if needed, chat view, gamified profile and level-up flag, appended turn, outcome refused, streamed or broken off, the updates applied and the error note added whenever the call threw, loading off, lightbox untouched |
| App.AppState.AwardSend | App.tsx:283-305 | the profile and level-up flag become the gamification result and nothing else changes |
| App.AppState.HandleDeleteChat | App.tsx:253-261 | sessions and current chat as `DeleteChat` gives; loading ends only when the current chat was deleted; nothing else changes |
| App.AppState.OnImageClick | App.tsx:212-215 | the lightbox index as `HandleImageClick` gives over the current chat's gallery; nothing else changes |
| PhenotypingViewer.BufferSizes | components/PhenotypingViewer.tsx:132-144 | 90000 points; three slots each for positions and colours, one for sizes and depths |
| PhenotypingViewer.VisibleIffAlphaAtLeast26 | components/PhenotypingViewer.tsx:155-161 | a pixel is visible exactly when its alpha byte is at least 26 |
| PhenotypingViewer.GridBounds | components/PhenotypingViewer.tsx:149-150 | grid coordinates lie in the centred unit square |
| PhenotypingViewer.PixelBounds | components/PhenotypingViewer.tsx:152-177 | luminance in [0, 1], depth in [0, 0.5], point size in [0.02, 0.06] |
| PhenotypingViewer.ChannelBounds | components/PhenotypingViewer.tsx:152-155 | a byte over 255 lies in [0, 1] |
| PhenotypingViewer.VisiblePoint | components/PhenotypingViewer.tsx:161-177 | a visible pixel's position, colour, depth and size slots |
| PhenotypingViewer.HiddenPoint | components/PhenotypingViewer.tsx:178-182 | a hidden pixel sits at the 99999 sentinel with zero colour, depth and size |
| PhenotypingViewer.DepthsInRange | components/PhenotypingViewer.tsx:159-174 | every stored depth lies in [0, 0.5] |
| PhenotypingViewer.BuildPointCloud | components/PhenotypingViewer.tsx:138-183 | fresh buffers holding exactly the specified cloud; the live colour buffer is distinct from the others |
| PhenotypingViewer.StorePoint | components/PhenotypingViewer.tsx:148-182 | one loop iteration writes point i's slots and nothing else |
| PhenotypingViewer.StoreVisiblePoint | components/PhenotypingViewer.tsx:161-177 | the visible branch's writes |
| PhenotypingViewer.StoreCoordinates | components/PhenotypingViewer.tsx:162-164 | the position triple of point i |
| PhenotypingViewer.StoreColor | components/PhenotypingViewer.tsx:166-172 | the colour triple of point i |
| PhenotypingViewer.StoreShading | components/PhenotypingViewer.tsx:157-177 | the depth and size slots of a visible point i, and no other slot |
| PhenotypingViewer.SlotsOfVisiblePoint | components/PhenotypingViewer.tsx:161-172 | the slot specification at a visible point's three slots |
| PhenotypingViewer.SlotsOfHiddenPoint | components/PhenotypingViewer.tsx:178-182 | the slot specification at a hidden point's three slots |
| PhenotypingViewer.HeatmapInUnitCube | components/PhenotypingViewer.tsx:28-35 | every heatmap channel lies in [0, 1] |
| PhenotypingViewer.HeatmapSamples | components/PhenotypingViewer.tsx:31-33 | the gradient at 0, 0.5 and 1 |
| PhenotypingViewer.HeatmapParameterClamps | components/PhenotypingViewer.tsx:52 | the parameter is twice the depth, clamped to [0, 1] |
| PhenotypingViewer.RecoloredSlots | components/PhenotypingViewer.tsx:45-63 | recolouring rewrites exactly the first 3·count slots: RGB copies the original, X-ray writes 0.8, the heatmap stays in [0, 1] |
| PhenotypingViewer.RecoloredLastModeWins | components/PhenotypingViewer.tsx:45-63 | the last mode applied decides the colours |
| PhenotypingViewer.RgbRestoresOriginal | components/PhenotypingViewer.tsx:46-49 | RGB over the whole cloud restores the original colours |
| PhenotypingViewer.MaterialForMode | components/PhenotypingViewer.tsx:67-76 | only X-ray uses additive blending, at opacity 0.3; the other modes use 1.0 |
| PhenotypingViewer.Geometry.constructor | components/PhenotypingViewer.tsx:188-190 | the geometry holds the three buffers |
| PhenotypingViewer.Material.constructor | components/PhenotypingViewer.tsx:192-196 | a new material: normal blending, opacity 1.0 |
| PhenotypingViewer.Viewer.constructor | components/PhenotypingViewer.tsx:22-25 | initial state: nothing loaded, no points, RGB, loading, auto-rotating |
| PhenotypingViewer.Viewer.UpdateColors | components/PhenotypingViewer.tsx:37-78 | without a cloud nothing happens; otherwise the colours become the recolouring for the mode and the material follows it; no other buffer changes |
| PhenotypingViewer.Viewer.SetRenderMode | components/PhenotypingViewer.tsx:80-82 | the mode is set and the colours are recomputed when it changed |
| PhenotypingViewer.Viewer.ToggleAutoRotate | components/PhenotypingViewer.tsx:309 | flips auto-rotation and nothing else |
| PhenotypingViewer.Viewer.LoadImage | components/PhenotypingViewer.tsx:120-233 | fresh buffers with the cloud of the readback, loading ends; the colours follow the mode only if the point count changed |
| PhenotypingViewer.Viewer.InstallCloud | components/PhenotypingViewer.tsx:132-233 | fresh geometry and material holding the cloud of the readback, normal blending at opacity 1, the point count set and loading ended, mode and rotation kept |
| PhenotypingViewer.RecolorPoint | components/PhenotypingViewer.tsx:45-62 | point i's three colour slots take the mode's values; no other slot changes |
| Markdown.LeadingHashes | utils/markdown.tsx:164 | the length of the leading `#` run |
| Markdown.LeadingDigits | utils/markdown.tsx:174 | the length of the leading digit run |
| Markdown.LineLength | utils/markdown.tsx:164 | the length of the prefix before the first line terminator |
| Markdown.NumberedMarker | utils/markdown.tsx:174 | a `digits. ` marker's length |
| Markdown.FenceEnd | utils/markdown.tsx:140 | the first fence at or after j, or the end |
| Markdown.TableEnd | utils/markdown.tsx:158 | the first non-row line at or after j, or the end |
| Markdown.Step | utils/markdown.tsx:137-181 | one block step always advances the cursor; only a code block can step past the end |
| Markdown.ParseFrom | utils/markdown.tsx:133-182 | the block ranges tile the lines from the cursor to the end, in order |
| Markdown.RenderBlocks | utils/markdown.tsx:128-184 | the parsing loop yields the specified blocks |
| Markdown.RenderLines | utils/markdown.tsx:131-184 | the parsing loop over the split lines yields the specified blocks |
| Markdown.NextBlock | utils/markdown.tsx:134-181 | one loop pass is one specified step |
| Markdown.CollectCode | utils/markdown.tsx:139-141 | the code loop collects the lines up to the next fence |
| Markdown.CollectTable | utils/markdown.tsx:157-158 | the table loop collects the run of row lines |
| Markdown.RenderEmptyIff | utils/markdown.tsx:128 | nothing is rendered exactly for empty content |
| Markdown.SpansOrdered | utils/markdown.tsx:133-182 | earlier blocks cover earlier lines |
| Markdown.EachLineInSomeBlock | utils/markdown.tsx:133-182 | every line belongs to a block |
| Markdown.EachLineInAtMostOneBlock | utils/markdown.tsx:133-182 | no line belongs to two blocks |
| Markdown.CodeBlockContents | utils/markdown.tsx:137-147 | a code block holds the lines strictly between its fences, or runs to the end without a closing fence |
| Markdown.StarRuleIsNotBullet | utils/markdown.tsx:150-154 | `***` is a rule, never a list item |
| Markdown.TableBlock | utils/markdown.tsx:156-161 | a table starts exactly at a row whose successor contains `---` and takes the maximal run of rows |
| Markdown.HeadingBlock | utils/markdown.tsx:163-171 | a `#` line is a heading whose level counts its `#` run |
| Markdown.SpacerIffBlank | utils/markdown.tsx:179 | a blank line is a spacer, and only such a line |
| Markdown.BulletMarkers | utils/markdown.tsx:174-175 | the `- `, `* ` and `12. ` markers are removed from the item |
| Markdown.ParagraphKeepsRawLine | utils/markdown.tsx:180 | any other line is a paragraph of the raw line |
| Markdown.TrimAll | utils/markdown.tsx:107 | each cell is shown trimmed |
| Markdown.Cells | utils/markdown.tsx:97-98 | a row's cells are non-blank and hold no `|` |
| Markdown.CellsOfRow | utils/markdown.tsx:97-98 | a row written as `|`, the cells joined by `|`, then `|` gives back exactly those cells, when each is trimmed, non-blank and free of `|` |
| Markdown.SplitOfRow | utils/markdown.tsx:97-98 | splitting such a row on `|` gives an empty piece, the cells, then an empty piece |
| Markdown.EmptyRowHasNoCells | utils/markdown.tsx:97-98 | the row `||` has no cells |
| Markdown.TableRenderer | utils/markdown.tsx:95-98 | nothing for fewer than two rows; otherwise headers from row 0 and data from row 2 on |
| Markdown.CloseBracket | utils/markdown.tsx:69 | the lazy text group ends at the first `](` on the line |
| Markdown.CloseParen | utils/markdown.tsx:69 | the lazy URL group ends at the first `)` on the line |
| Markdown.MatchAt | utils/markdown.tsx:69 | a match at p spells out the link syntax, with the text and the URL on one line |
| Markdown.FirstMatchFrom | utils/markdown.tsx:69 | the leftmost match at or after p |
| Markdown.NoMatchFrom | utils/markdown.tsx:69 | when a search finds nothing, no position from its start to the end of the text starts a match |
| Markdown.SliceInner | utils/markdown.tsx:88-90 | `slice(n, -n)`: the middle, or empty when too short |
| Markdown.ParseInline | utils/markdown.tsx:64-92 | empty tokens are dropped and the others classified in order |
| Markdown.MatchOfLinkSyntax | utils/markdown.tsx:69-75 | the matcher recovers the text and the URL of a well-formed link |
| Markdown.LinkTokenClassified | utils/markdown.tsx:74-84 | a link token is an image preview exactly for an image URL, else a link |
| Markdown.ImageTokenClassified | utils/markdown.tsx:68-70 | an image token is a preview of its source with its alt text |
| Markdown.MarkerTokens | utils/markdown.tsx:88-90 | bold and code tokens lose their markers |
| Markdown.ImageExtensionExamples | utils/markdown.tsx:80 | the extension test ignores case and accepts a query string |
| Markdown.RenderedStatus | utils/markdown.tsx:15-19 | a likely HTML page is forced into the error state |
| Markdown.ClickTarget | utils/markdown.tsx:25 | a click opens the lightbox only for a loaded preview with a handler |
| Markdown.HtmlPreviewNeverOpens | utils/markdown.tsx:15-25 | a likely HTML page never opens the lightbox |
| Gemini.AttachmentParts | services/geminiService.ts:16-24 | one inline-data part per attachment, in order |
| Gemini.MapMessagesToContent | services/geminiService.ts:6-32 | one entry per message, in order |
| Gemini.BuildParts | services/geminiService.ts:8-30 | the parts loop yields the specified parts |
| Gemini.PartsRoundTrip | services/geminiService.ts:6-32 | an entry gives back the message's text and attachments; the role is `user` exactly for user messages |
| Gemini.RequestContents | services/geminiService.ts:48-64 | the history's entries, then the new turn with its text part first and the attachments after |
| Gemini.BuildRequest | services/geminiService.ts:48-64 | the request-building code yields the specified request |
| Gemini.SuggestionsOf | services/geminiService.ts:92-96 | at most three non-blank one-line suggestions |
| Gemini.AsOptional | services/geminiService.ts:99 | an empty list is passed on as absent |
| Gemini.DisplayHidesDelimiter | services/geminiService.ts:91-94 | the shown text never contains the delimiter once it has arrived |
| Gemini.DelimitedReply | services/geminiService.ts:91-97 | body, delimiter and block split back into the trimmed body and the block's first three lines |
| Gemini.SuggestionLinesRoundTrip | services/geminiService.ts:96 | up to three suggestion lines, one per line, come back exactly |
| Gemini.Updates | services/geminiService.ts:80-101 | one update per non-empty chunk |
| Gemini.Stream | services/geminiService.ts:76-101 | the stream loop accumulates the full text and sends the specified updates |
| Gemini.EmptyChunkIgnored | services/geminiService.ts:82 | an empty chunk adds no text, no update and no metadata |
| Gemini.DelimiterPersists | services/geminiService.ts:83-97 | once the delimiter has arrived it stays in the text |
| Gemini.FullTextAppend | services/geminiService.ts:80-83 | the text accumulated over two runs of chunks is the first run's text followed by the second's |
| Gemini.SendMessage | services/geminiService.ts:40-104 | refused exactly when the key is missing; otherwise the specified request with the streamed text and updates, as a failure when the stream breaks off after the chunks received |
| Gemini.LastUpdateShowsText | services/geminiService.ts:80-99 | there is no update exactly when no text arrived; otherwise the last update shows the display text of everything received |
| Gemini.TitleRequest | services/geminiService.ts:114-122 | exactly the entries of the last four messages (all of them when fewer), then the title instruction |
| Gemini.ChatTitle | services/geminiService.ts:109-127 | never empty: the trimmed reply, "New Investigation" without a key, or the fallback title |
| Gemini.InitialSuggestions | services/geminiService.ts:131-147 | at most four non-blank reply lines in order; none without a key or on a failed call |
| Community.FilteredPosts | components/CommunityBench.tsx:27-36 | every post for an empty query; otherwise exactly the posts whose title, author, description or a tag contains the query, ignoring case |
| Community.FilteredIsSubsequence | components/CommunityBench.tsx:30-35 | search keeps the feed's order |
| Community.ToggleLike | components/CommunityBench.tsx:56-60 | the flag flips and the count moves by one in that direction; nothing else changes |
| Community.HandleLike | components/CommunityBench.tsx:53-64 | only posts with the id are toggled |
| Community.LikeTwiceRestores | components/CommunityBench.tsx:56-59 | liking twice restores every count and liked state, and every post whose flag was set |
| Community.NewPost | components/CommunityBench.tsx:69-82 | the new post's fields, with the default description for an empty one |
| Community.HandlePublish | components/CommunityBench.tsx:66-89 | no image or no title: nothing happens; otherwise the post is prepended, the modal closes, the feed tab opens and the form is cleared |
| Community.PublishOnce | components/CommunityBench.tsx:66-89 | one post is added and an immediate second publish does nothing |
| Community.PublishedPostIsFound | components/CommunityBench.tsx:84 | a search for the new title finds the new post |
| FieldJournal.RankOfIsLastReached | components/FieldJournal.tsx:25 | the reversed search picks the last reached threshold, else the first rank |
| FieldJournal.RankIndex | components/FieldJournal.tsx:25 | the rank's position is the number of reached thresholds less one |
| FieldJournal.RankMonotone | components/FieldJournal.tsx:25 | more XP never shows a lower rank |
| FieldJournal.NextRank | components/FieldJournal.tsx:26 | the next rank has a threshold above the XP; none exactly when all thresholds are reached |
| FieldJournal.RankLadder | components/FieldJournal.tsx:25-26 | no next rank exactly at 2500 XP or more; the current rank is reached and below the next |
| FieldJournal.BandShare | components/FieldJournal.tsx:29-31 | none exactly for an empty band; inside the band the share lies in [0, 100) |
| FieldJournal.ProgressRange | components/FieldJournal.tsx:29-31 | defined exactly for xp ≥ 0; 100 at the top rank, otherwise in [0, 100) |
| FieldJournal.XpLeft | components/FieldJournal.tsx:133 | a positive amount that reaches the next rank exactly |
| FieldJournal.HandleSave | components/FieldJournal.tsx:33-43 | only name, bio and specialization change, and only with a callback; editing ends |
| FieldJournal.SaveUnchangedIsIdentity | components/FieldJournal.tsx:33-43 | saving the unchanged form hands back the same profile |
| FieldJournal.ResearcherId | components/FieldJournal.tsx:59 | the level's digits, preceded by zeros up to four characters and nothing else |
| FieldJournal.ResearcherIdValue | components/FieldJournal.tsx:59 | for a level of zero or more, all digits, and they read back as the level |
| Strings.NatToStringValue | components/FieldJournal.tsx:59 | the digits of a number read back as the number, with no leading zero except for 0 |
| Strings.LeadingZerosValue | components/FieldJournal.tsx:59 | zeros put in front of digits do not change their value |
| Strings.ZerosValue | components/FieldJournal.tsx:59 | a string of zeros reads as 0 |
| FieldJournal.ResearcherIdExamples | components/FieldJournal.tsx:59 | levels 1 and 42 are padded to 0001 and 0042 |
| FieldJournal.ResearcherIdUnpadded | components/FieldJournal.tsx:59 | a five-digit level such as 12345 is shown unpadded |
| FieldJournal.BadgeCards | components/FieldJournal.tsx:164-165 | one card per table badge, unlocked exactly when the profile holds its id |
| FieldJournal.BadgeCounter | components/FieldJournal.tsx:143 | the number of badges held over the number in the table, which is eight |
| FieldJournal.UnlockShowsCard | components/FieldJournal.tsx:165 | unlocking a badge shows its card as unlocked and changes no other card |
| FieldJournal.DistinctBadgeIds | constants.ts:74-83 | the badge table's ids are distinct |
| LevelUpModal.Announce | components/LevelUpModal.tsx:11-40 | the level and XP as given and the same rank as the journal's current rank |
| LevelUpModal.AnnouncedRankMonotone | components/LevelUpModal.tsx:12 | the announced rank never goes down as XP grows |
| LevelUpModal.LevelUpNeverDemotes | components/LevelUpModal.tsx:12 | after an award that opens the dialog, the rank is at least the rank before |
| ImageModal.JsRem | components/ImageModal.tsx:32 | the remainder's range: [0, n) for a non-negative dividend |
| ImageModal.Next | components/ImageModal.tsx:31-33 | NaN for no items; stays inside [0, n) |
| ImageModal.Prev | components/ImageModal.tsx:35-37 | NaN for no items; stays inside [0, n) |
| ImageModal.NextWraps | components/ImageModal.tsx:31-37 | next and previous step by one and wrap at the ends |
| ImageModal.NextPrevInverse | components/ImageModal.tsx:31-37 | previous undoes next and next undoes previous |
| ImageModal.NextTimesAdvance | components/ImageModal.tsx:31-33 | k steps forward before the end land on i + k |
| ImageModal.NextTimesAdd | components/ImageModal.tsx:31-33 | k steps then j steps are k + j steps |
| ImageModal.FullCycle | components/ImageModal.tsx:31-33 | n steps forward return to the start |
| ImageModal.HandleKey | components/ImageModal.tsx:22-26 | right arrow is next, left arrow previous, Escape closes, anything else does nothing |
| ImageModal.Current | components/ImageModal.tsx:13 | an item is shown exactly for an index inside the gallery |
| ImageModal.NavigationStaysVisible | components/ImageModal.tsx:13-37 | any key keeps a shown item shown |
| ImageModal.Caption | components/ImageModal.tsx:98-108 | the alt text or "Scientific Observation", and who provided the image |
| ImageModal.HyphenateWhitespace | components/ImageModal.tsx:46 | no whitespace left, never longer, empty only for empty input |
| ImageModal.HyphenateIdentity | components/ImageModal.tsx:46 | text without whitespace is left unchanged |
| ImageModal.HyphenateKeepAll | components/ImageModal.tsx:46 | a whitespace-free prefix is copied unchanged, whatever follows it |
| ImageModal.DownloadName | components/ImageModal.tsx:46 | `ecosci-` + the lowercased, hyphenated alt text + `.jpg`, `ecosci-image.jpg` for no alt text, no whitespace |
| ImageModal.FileNameShape | components/ImageModal.tsx:46 | a whitespace-free stem between prefix and suffix gives a whitespace-free name with both |
| ImageModal.RunBecomesHyphen | components/ImageModal.tsx:46 | a maximal whitespace run becomes exactly one hyphen |
| InputArea.HandleSend | components/InputArea.tsx:23-32 | sends exactly when there is content and no reply is loading, then clears the composer; otherwise nothing changes |
| InputArea.DisabledIffRefused | components/InputArea.tsx:135 | the button is disabled exactly when the handler refuses |
| InputArea.NoDoubleSend | components/InputArea.tsx:23-27 | a send cannot be repeated immediately |
| InputArea.HandleKeyDown | components/InputArea.tsx:16-21 | Enter without Shift sends; every other key types |
| InputArea.RemoveAttachment | components/InputArea.tsx:64-66 | exactly index k goes and the others keep their order |
| InputArea.Payload | components/InputArea.tsx:43 | none exactly when the URL has no comma; otherwise the text that starts just after the first comma and runs to the next comma or the end, with no comma in it |
| InputArea.SecondPiece | components/InputArea.tsx:43 | the second piece of `split(',')` starts just after the first comma and ends at the next comma or the end |
| InputArea.AppendFiles | components/InputArea.tsx:54-55 | new files go after the existing attachments, in file order |
| InputArea.PayloadOfDataUrl | components/InputArea.tsx:43 | reading back a data URL recovers the upload's data |
| MessageBubble.WebSources | components/MessageBubble.tsx:20 | exactly the chunks' web parts; all of them in order when every chunk has one |
| MessageBubble.WebSourcesAppend | components/MessageBubble.tsx:20 | the sources keep the chunks' order |
| MessageBubble.AllSources | components/MessageBubble.tsx:20 | no sources without metadata |
| MessageBubble.DisplayedSources | components/MessageBubble.tsx:22 | collapsed: the first min(3, n) sources; expanded: all |
| MessageBubble.MoreButton | components/MessageBubble.tsx:187-193 | shown exactly for more than three sources while collapsed, announcing n − 3 |
| MessageBubble.CollapsedAccountsForAll | components/MessageBubble.tsx:22-23 | the listed sources and the button's count add up to all sources |
| MessageBubble.Panel | components/MessageBubble.tsx:153-193 | shown exactly for a model message with sources, with the header count, the listed sources and the button |
| MessageBubble.ExpandListsAll | components/MessageBubble.tsx:187-193 | expanding lists every source and removes the button |
| MessageBubble.ChooseVoice | components/MessageBubble.tsx:55-58 | the first voice that passes the test; none exactly when no voice passes |
| MessageBubble.FemaleContainsMale | components/MessageBubble.tsx:57 | a name containing "female" passes the "male" test |
| MessageBubble.FemaleVoiceChosen | components/MessageBubble.tsx:56-58 | an English female voice listed first is chosen |
| MessageBubble.HandleSpeak | components/MessageBubble.tsx:45-68 | while speaking: cancel and clear the flag; otherwise speak the text, with a voice exactly when one passes the test, and set the flag |
| MessageBubble.SpeakTwiceStops | components/MessageBubble.tsx:45-50 | a second press stops the reading |
| MessageBubble.ShownSuggestions | components/MessageBubble.tsx:201 | the suggestions, shown exactly for a finished model message with a non-empty list |
| MessageBubble.UserMessageIsPlain | components/MessageBubble.tsx:153-201 | a user message shows neither suggestions nor sources |
| GalleryView.DisplayItems | components/GalleryView.tsx:12 | same length, and element k is item n−1−k |
| GalleryView.DisplayReversesBack | components/GalleryView.tsx:12 | reversing the display order gives back the collection order |
| GalleryView.Render | components/GalleryView.tsx:14-31 | the placeholder exactly for no items; otherwise the count is the number of items |
| GalleryView.ClickTile | components/GalleryView.tsx:35-39 | tile k reports the source of item n−1−k |
| GalleryView.ClickOpensLightbox | components/GalleryView.tsx:39 | a tile click opens the first item with that source, never one after the clicked item |
| GalleryView.ClickOpensClickedImage | components/GalleryView.tsx:35-39 | with distinct sources the clicked image itself opens |
| Sidebar.SortByRecency | components/Sidebar.tsx:133 | the caller's array is reordered in place: newest first, a permutation of the sessions |
| Sidebar.InsertAt | components/Sidebar.tsx:133 | one insertion step extends the newest-first prefix and keeps the same sessions |
| Sidebar.RowsOf | components/Sidebar.tsx:133-147 | one row per session, highlighted exactly when its id is the current chat |
| Sidebar.RenderList | components/Sidebar.tsx:128-158 | the empty message exactly for no sessions; otherwise the sorted sessions' rows |
| Sidebar.OneHighlight | components/Sidebar.tsx:141 | with distinct ids at most one row is highlighted, one when the current chat is listed, none without one |
| Sidebar.Target | components/Sidebar.tsx:58-92 | the buttons open the chat, gallery and journal views |
| Sidebar.OpenAfterTap | components/Sidebar.tsx:58 | a tap closes the sidebar below 768 pixels, and otherwise leaves it as it was |
| Sidebar.Navigate | components/Sidebar.tsx:58-92 | the button's view becomes current; the sidebar ends closed exactly when narrow or already closed |
| Sidebar.SelectRow | components/Sidebar.tsx:136-139 | a row selects its chat; the sidebar closes only when narrow |
| Sidebar.TargetsDistinct | components/Sidebar.tsx:58-92 | the three buttons lead to three different views |

## Left out

- three.js and WebGL are not modelled: scene, camera, renderer, orbit controls, shaders, texture loading, the animation loop and its auto-rotation step, teardown and `toDataURL` screenshots. These are GPU library calls and frame scheduling.
- Canvas decode and resampling (`drawImage`, `getImageData`) are left out: the RGBA byte sequence is the model's input.
- Float32 rounding is left out: buffers hold `real`, since the formulas are exact rationals.
- The network and AI calls are inputs: the reply stream is a chunk sequence and a flag for whether it then breaks off, the title and suggestion replies are reply values, and the key's presence is a flag.
- `localStorage` persistence and JSON, the `setTimeout` steps, the `AbortController` (so the early return of an aborted call, which skips the error note, is not modelled), and the async ordering of React state updates are left out. A send's steps are applied in program order.
- The title-regeneration timeout after a send is left out. It depends on `localStorage` and a timer.
- `handleStartMission`, `initNewChat` and the MissionSelector component are left out. They open a chat with a mission prompt, which is presentation plus a timed send.
- The community context in a sent message is a string parameter: the JSON rendering of the posts is not modelled.
- Wall-clock reads and `Math.abs`/`Math.ceil` date arithmetic are left out. The day gap, the hour, the day of month and timestamps are integer inputs.
- The browser APIs are left out: `FileReader`, clipboard copy, `speechSynthesis` playback and its end and error events, Blob/anchor downloads, `fetch`, `window.open`, the textarea auto-resize and `preventDefault`.
- The JSX and DOM output is reduced to the values it shows: class names, icons and layout are left out.
- The JavaScript regex engine is not modelled. Inline tokens are classified as given, with no `split` by regex. The `exec` scan is a hand-written scanner for the two link patterns.
- `toLowerCase` is modelled on ASCII letters only.
- Strings are sequences of Unicode characters, while JavaScript lengths and indices count UTF-16 code units. The markers, separators, padding and whitespace the modelled code looks for are all single code units, and `padStart` pads a decimal numeral, so no modelled operation depends on the difference.
- InputArea.ReadAttachment: a data URL without a comma stores "" as the data, where the source stores `undefined`.
- Sidebar.SortByRecency: sorts a separate array of the sessions; the in-place reordering of the app's own `sessions` state by `sessions.sort(...)` is not carried into `App.DeleteChat`, so after deleting the current chat the model opens the first session in the order the state holds them, not in the order a rendered sidebar would have left them.
- Sidebar.SortByRecency: does not state that the sort is stable (sessions with equal `updatedAt` keep their relative order), although insertion sort is.
- Sidebar.RenderList: the sort happens while drawing, inside `map`; how often React draws is not modelled.
- GalleryView.Render: the per-tile alt text, source label and date are not modelled.
- MessageBubble.HandleSpeak: the reset of the flag by the utterance's end and error events is not modelled (browser callbacks).
