# Music player of a Discord bot, modelled in Dafny

This project models the core of a Discord bot that plays YouTube audio in a
voice channel. It covers four pieces:

- **The player** (`Player.MusicPlayer`, src/musicPlayer.ts): the playlist, the
  index of the current song (-1 when idle), and whether the player is ready.
  It also keeps the loading queue of videos being resolved, the stream
  dispatcher as two flags (exists, paused), and the two five-minute disconnect
  timers. Its operations are adding, playing, removing, pausing, resuming,
  skipping and disposing. The dispatcher's `finish` and `error` handlers and
  the saved-playlist operations (search, save, load) are modelled too.
- **The earlier draft of the same class** (`PlayerDraft.MusicPlayer`,
  src/musicPlayerNew.ts). It keeps its differences: no loading queue,
  durations stored as text, a `playSong` that leaves the playlist-end timer
  armed, and a `disconnect` handler that disposes unconditionally. Without
  the loading queue, two adds of one video that overlap both pass the
  playlist scan and the video is appended twice
  (`PlayerDraft.OverlappingAddsDuplicate`).
- **The stream-link rules** both classes share (`StreamLink`). A stored link
  expires 40 seconds before the `expire` value its URL declares, or 21500
  seconds after it was resolved. It is resolved again exactly when no expiry
  is stored or the stored one has passed.
- **The message entry point** (`Command`, src/command.ts) and the string
  helpers of src/util.ts (`Util`). The entry point applies the guard,
  collapses whitespace, and picks a command and then a sub-command by exact or
  unique-prefix match. The helpers split at the first space and print a
  duration as `[H]H:MM:SS`.

## How the model is built

- **Operations are split at their awaits.** Where an operation awaits and
  then reads the player again, each synchronous stretch is its own method,
  and the method named after the operation composes them for the case where
  nothing runs in between:
  - `addSong`, in both versions: `BeginAddSong` runs the checks (and, in the
    final class, pushes into the loading queue); `CompleteAddSong` stores the
    resolver's answer in the playlist as it is by then;
  - `checkDownloadLinkValidity`, in both versions: `BeginLinkCheck` decides
    whether to re-resolve; `CompleteLinkCheck` writes the renewed link into
    the entry at the index as it is by then;
  - `createStreamDispatcher`, in both versions: after the link check,
    `StartStream` reads the index again;
  - `savePlaylist`: `BeginSavePlaylist` checks the playlist and the name;
    `CompleteSavePlaylist` builds the song insert from the playlist as it is
    after the two database awaits.

  Event callbacks (`finish`, `error`, `disconnect`, the timers) are one
  method each. The scenarios at the end of player.dfy and player_draft.dfy
  put the halves together in orders the composed methods cannot show:
  `Player.OverlappingAdds`, `Player.RemovalDuringLinkCheck`,
  `Player.SaveAfterDispose` and `PlayerDraft.OverlappingAddsDuplicate`.
- **Outside results are inputs.** Whatever an awaited call produces becomes a
  parameter:
  - the resolver's answer (`Resolution`);
  - the current UNIX time `now`;
  - the database rows;
  - whether a human is in the voice channel;
  - the voice-join error.
- **The dispatcher is two flags.** `skip`, `removeSong` and a reload of a
  ready player ask it to end, which the model returns as a boolean. The
  resulting `finish` event is the separate method `OnTrackFinish`.
- **A timer is `Cleared` or `Armed(delayMs)`.** The constructor's no-op 1 ms
  timers count as `Cleared`.
- **JavaScript behaviour is written out:**
  - `splice(indexOf(x), 1)` removes the last element when `x` is missing
    (`Sequences.SpliceIndexOf`);
  - `\s` is the full ECMAScript whitespace set;
  - `toLowerCase` is modelled on ASCII letters;
  - `String.prototype.length` counts UTF-16 code units (`Player.Utf16Length`);
  - `charAt(0)` of an empty text is the empty text.

The model follows the code as written, including where it does less than one might expect:

- `removeSong` moves the index back only when the current entry itself is
  removed, never for an earlier one. It always asks the dispatcher to end.
  The scenario `Player.RemovingAnEarlierEntrySkipsOne` shows the effect: the
  old next song is never played.
- Arming a disconnect timer does not cancel one already pending. The model
  keeps only the latest.
- A voice-join timeout is retried without a bound.
- The draft's playlist-end timer survives a new song
  (`PlayerDraft.IdleTimerSurvivesNewSong`).
- The link check resolves the video of the entry that was current when it
  began, but writes the new link into the entry current when the answer
  arrives. If the playing entry is removed meanwhile, the entry before it
  gets the removed video's link and is streamed with it
  (`Player.RemovalDuringLinkCheck`).
- `savePlaylist` checks for an empty playlist before its awaits and builds
  the song insert after them. A player disposed in between saves the
  playlist row and then sends `INSERT INTO playlist_song VALUES;`
  (`Player.SaveAfterDispose`).

`splitAfterFirstSpace` is written twice in the source, identically, at
src/command.ts:398-411 and src/util.ts:12-26. Both are modelled by
`Util.SplitAfterFirstSpace`.

## Model

| member | source | states |
|---|---|---|
| Sequences.RemoveAt | src/musicPlayer.ts:311 | `splice(p, 1)` removes exactly element p: earlier elements stay in place, later ones move one left, and the multiset loses just that element |
| Sequences.IndexOf | src/musicPlayer.ts:208 | `indexOf` is -1 exactly when the value is absent, and otherwise the first position that holds it |
| Sequences.SpliceIndexOf | src/musicPlayer.ts:208 | `splice(indexOf(x), 1)` removes the first occurrence of x when x is present (the element at `IndexOf`, keeping the order of the rest); when x is absent it removes the last element, or nothing from an empty queue |
| Sequences.SpliceAfterPush | src/musicPlayer.ts:146-208 | pushing an id that is not queued and then splicing it out restores the loading queue exactly |
| Sequences.PushKeepsNoDuplicates | src/musicPlayer.ts:146-147 | the push guarded by `includes` keeps the queue free of duplicates |
| Sequences.RemoveAtKeepsNoDuplicates | src/musicPlayer.ts:208 | removing one element never creates a duplicate |
| Sequences.SpliceIndexOfKeepsNoDuplicates | src/musicPlayer.ts:208 | the splice that ends an add keeps the loading queue free of duplicates |
| Util.SplitAfterFirstSpace | src/util.ts:12-26 | with a space in the input, `beforeSpace` has no space and `beforeSpace + " " + afterSpace` is the input; without one, the result is (input, "") |
| Util.SplitIsUnique | src/command.ts:398-411 | the split is the only decomposition into a space-free head, one space and a tail |
| Util.NatToString | src/util.ts:43-45 | `toString` of a non-negative integer is non-empty and all digits, one digit exactly below 10, with a leading '0' only for 0 |
| Util.ParseNatToString | src/util.ts:43-45 | the printed digits read back as the number |
| Util.PadTwo | src/util.ts:44-52 | no contract of its own: the `toString()` of a field with a '0' put in front of a single digit; `Util.PadTwoBelowSixty` states what it gives for a field below 60 |
| Util.PrettyPrintDuration | src/util.ts:42-63 | no contract of its own: the hours unpadded above 9 and padded to two digits from 1 to 9, left out at 0, then the padded minutes and seconds; its shape and its round trip are the two lemmas below |
| Util.PadTwoBelowSixty | src/util.ts:44-52 | a minutes or seconds field below 60 is printed as exactly two digits that read back as its value |
| Util.PrettyPrintDurationShape | src/util.ts:42-63 | the output ends in MM:SS with two-digit fields whose values are the minutes and seconds (both below 60); the output is the 5-character MM:SS form exactly when the hour count is 0; a one-digit hour count gets a leading '0'; a longer one is printed unpadded |
| Util.PrettyPrintDurationRoundTrip | src/util.ts:43-62 | hours·3600 + minutes·60 + seconds, read back from the output, is the input duration |
| StreamLink.LinkExpiration | src/musicPlayer.ts:761-775 | the stored expiry is the URL's `expire` value minus 40, or `now + 21500` when the URL declares none |
| StreamLink.NeedsRefresh | src/musicPlayer.ts:881-884 | no contract of its own: the link must be resolved again when no expiry is stored or the stored one is strictly before `now`; `StreamLink.DeclaredExpiryKeepsMargin` and `StreamLink.DefaultExpiryLifetime` state what that means for a freshly resolved link |
| StreamLink.CheckLink | src/musicPlayer.ts:880-900 | the link is kept exactly when an expiry is stored and it has not passed; a playable re-resolution replaces the link; a re-resolution that is not playable fails as "unavailable"; a resolver error fails with its own reason |
| StreamLink.DeclaredExpiryKeepsMargin | src/musicPlayer.ts:764-765 | a link with a declared expiry is used exactly while at least 40 seconds remain before that expiry |
| StreamLink.DefaultExpiryLifetime | src/musicPlayer.ts:766-773 | a link without a declared expiry is used for exactly 21500 seconds after it was resolved |
| StreamLink.ThirtySecondsLeftIsStale | src/musicPlayer.ts:881-884 | a link 30 seconds before its declared expiry is never kept; it is resolved again |
| StreamLink.RefreshedLinkIsKept | src/musicPlayer.ts:885-891 | after a successful refresh whose new link is not already inside the margin, a second check in the same second keeps the link |
| Player.TotalDuration | src/musicPlayer.ts:337-339 | no contract of its own: the sum of the entries' durations; the two lemmas below state how it adds up and bounds each entry, and `ShowPlaylistSongs` proves its loop computes it |
| Player.TotalDurationAppend | src/musicPlayer.ts:337-339 | the duration total of a concatenation is the sum of the two totals |
| Player.TotalDurationBoundsEach | src/musicPlayer.ts:337-339 | no entry lasts longer than the playlist total |
| Player.FirstNamed | src/musicPlayer.ts:916-921 | the scan returns the first row named exactly like the request, or reports that none is |
| Player.SearchSavedPlaylistsByName | src/musicPlayer.ts:907-927 | when some row has exactly the requested name, the result is that first such row alone; otherwise it is every row the pattern matched |
| Player.SearchFindsIffRows | src/musicPlayer.ts:923-926 | the search result is empty exactly when the pattern matched no row |
| Player.LoadedTracks | src/musicPlayer.ts:635-646 | the entries built from the songs whose resolution succeeded, never more than there are songs; `Player.AllResolvedLoadsInOrder` and `Player.PartitionSizes` state their order and count |
| Player.FailedPositions | src/musicPlayer.ts:647-664 | the failure lines are exactly the positions whose resolution failed, in increasing order |
| Player.PartitionSizes | src/musicPlayer.ts:635-667 | every saved song is either loaded or listed as failed: the two counts add up to the number of songs |
| Player.AllResolvedLoadsInOrder | src/musicPlayer.ts:635-646 | when every song resolves, the new playlist has one entry per saved song, in the saved order, added by the saved user |
| Player.PartitionSongs | src/musicPlayer.ts:635-665 | the loop builds exactly the loaded entries and the failed positions |
| Player.Utf16Length | src/musicPlayer.ts:509 | the JavaScript length of a name lies between its character count and twice that |
| Player.ValidPlaylistName | src/musicPlayer.ts:509 | no contract of its own: a name is accepted with 3 to 50 UTF-16 code units, counted by `Player.Utf16Length` |
| Player.SongInsertQuery | src/musicPlayer.ts:521-534 | no contract of its own: the insert head, the tuples `($3k+1, $3k+2, $3k+3)` for k from 0 to n-1 joined by commas, and ';'; `Player.BuildSongInsert` proves the loop builds it |
| Player.QueryAfterStep | src/musicPlayer.ts:525-526 | each turn of the loop appends the next tuple of three placeholders and a comma |
| Player.CutTrailingComma | src/musicPlayer.ts:534 | cutting the final comma and adding ';' gives the insert with the tuples joined by commas |
| Player.SongInsertStep | src/musicPlayer.ts:524-531 | a turn of the loop, whose tuple is built from the counter, extends the query text and the parameters by exactly the next song |
| Player.FinishSongInsert | src/musicPlayer.ts:534 | replacing the last character by ';' gives the insert for the songs, or the malformed insert without tuples when there were none |
| Player.SongParams | src/musicPlayer.ts:527-531 | there are three parameters per song, in playlist order: playlist id, video id, adder |
| Player.BuildSongInsert | src/musicPlayer.ts:521-534 | the counter loop builds `INSERT INTO playlist_song VALUES ($1, $2, $3),…,($3n-2, $3n-1, $3n);` with consecutive placeholders and the matching parameters; with no song it leaves `INSERT INTO playlist_song VALUES;` |
| Player.MusicPlayer.constructor | src/musicPlayer.ts:106-116 | a new player is empty, idle, not ready, with an empty loading queue, no dispatcher and no pending timer |
| Player.MusicPlayer.FinishCreation | src/musicPlayer.ts:122-127 | after the first add, the player becomes ready only if the playlist is non-empty |
| Player.MusicPlayer.AlreadyExists | src/musicPlayer.ts:743-750 | the scan answers true exactly when some entry holds the video |
| Player.MusicPlayer.BeginAddSong | src/musicPlayer.ts:142-147 | the checks run in the source's order: invalid link, then already in the playlist, then already loading; each rejection leaves the queue unchanged; otherwise the id is pushed onto the queue |
| Player.MusicPlayer.CompleteAddSong | src/musicPlayer.ts:149-208 | a playable answer appends exactly one entry and reports its 1-based position; playback of the last index starts only if the player was idle; one occurrence of the id leaves the loading queue; other answers leave the playlist unchanged and report the reason |
| Player.MusicPlayer.AddSong | src/musicPlayer.ts:142-218 | the loading queue ends as it started; the playlist grows by one entry exactly when the link is valid and the video is new, not loading and playable; an id already present is rejected and changes nothing |
| Player.MusicPlayer.PlaySong | src/musicPlayer.ts:224-227 | an existing position becomes current and the playlist-end timer is cleared; any other position makes the player idle and arms the 300000 ms timer |
| Player.MusicPlayer.OnVoiceJoinFailed | src/musicPlayer.ts:249-262 | only a connection timeout plays the same position again; other errors change nothing |
| Player.MusicPlayer.CheckDownloadLinkValidity | src/musicPlayer.ts:880-900 | when nothing runs during the re-resolution, the result is `CheckLink` on the current entry's expiry; a renewed link overwrites both link fields of that entry only; otherwise the playlist is unchanged |
| Player.MusicPlayer.BeginLinkCheck | src/musicPlayer.ts:881-884 | the check re-resolves exactly when the current entry has no stored expiry or an expiry before `now`; nothing changes |
| Player.MusicPlayer.CompleteLinkCheck | src/musicPlayer.ts:885-897 | a playable answer overwrites both link fields of the entry at the index as it is now, with the expiry computed at the answer's time; with no entry at that index the write throws and is reported as a failure; an answer that is not playable fails as "unavailable", a resolver error with its own reason, and neither changes the playlist |
| Player.MusicPlayer.CreateStreamDispatcher | src/musicPlayer.ts:802-874 | when nothing runs during the link check: with a usable link, a new unpaused dispatcher exists and the index stays; when the link cannot be renewed, the next position is played; with no entry at the index nothing changes |
| Player.MusicPlayer.StartStream | src/musicPlayer.ts:804-873 | after the link check, on the index as it is by then: a failed link plays the position after it; a usable link gets a new unpaused dispatcher when the index holds an entry, and otherwise reading the link throws and nothing changes |
| Player.MusicPlayer.OnTrackFinish | src/musicPlayer.ts:833-846 | the current entry's link fields are reset, only if that entry exists; then the next position is played |
| Player.MusicPlayer.OnTrackError | src/musicPlayer.ts:848-861 | with an entry at the index its link fields are reset and the next position is played; with none the handler fails before changing anything |
| Player.MusicPlayer.RemoveSong | src/musicPlayer.ts:309-327 | an existing position is removed and the others keep their order; the index moves back only when it pointed at the removed entry; an out-of-range number or NaN changes nothing and gets its own reply |
| Player.MusicPlayer.Pause | src/musicPlayer.ts:278-283 | pausing acts only on an existing, playing dispatcher; afterwards pause has nothing to do, so a repeated call is a no-op |
| Player.MusicPlayer.Unpause | src/musicPlayer.ts:288-293 | resuming acts only on a paused dispatcher; afterwards it has nothing to do |
| Player.MusicPlayer.Skip | src/musicPlayer.ts:298-303 | the dispatcher is asked to end exactly when the player is not idle; nothing else changes |
| Player.MusicPlayer.Dispose | src/musicPlayer.ts:973-988 | the player is left not ready, with an empty playlist, idle, and with both timers cleared |
| Player.MusicPlayer.OnDisconnect | src/musicPlayer.ts:786-790 | a disconnect disposes only a ready player and leaves any other unchanged |
| Player.MusicPlayer.CheckOnCurrentVoiceChannelUsers | src/musicPlayer.ts:727-736 | with no human in the channel the 300000 ms empty-channel timer is armed; with one present it is cleared |
| Player.MusicPlayer.OnEmptyChannelTimeout | src/musicPlayer.ts:729-732 | the empty-channel timer disposes the player |
| Player.MusicPlayer.ShowPlaylistSongs | src/musicPlayer.ts:334-369 | an empty playlist gets the "empty" reply; otherwise there is one line per entry, numbered from 1, with exactly the current entry marked; the footer holds the song count and the total duration |
| Player.MusicPlayer.BeginSavePlaylist | src/musicPlayer.ts:508-509 | an empty playlist is refused first, then a name outside 3 to 50 UTF-16 units; the save goes on exactly when neither applies; nothing changes |
| Player.MusicPlayer.CompleteSavePlaylist | src/musicPlayer.ts:514-534 | a name already taken is refused; otherwise the playlist row gets [name, creator], and the song insert and its parameters are built from the playlist as it is now, which gives the statement with no values for an empty one |
| Player.MusicPlayer.SavePlaylist | src/musicPlayer.ts:507-548 | when nothing runs during its awaits, the checks run in order: an empty playlist, then 3 to 50 UTF-16 units, then a name already taken; a save inserts the playlist row with [name, creator] and the song insert built by `BuildSongInsert`; the player itself is unchanged |
| Player.MusicPlayer.LoadSavedPlaylist | src/musicPlayer.ts:602-714 | an empty name, no match or several matches leave the player unchanged and get their own reply; when every song fails (including an empty saved playlist) nothing changes; otherwise the loaded entries replace the playlist; a ready player goes idle and asks the dispatcher to end; a player that is not ready becomes ready and plays position 0 |
| PlayerDraft.AlreadyExists | src/musicPlayerNew.ts:308-315 | the draft's scan is true exactly when some entry holds the video |
| PlayerDraft.ReportedReason | src/musicPlayerNew.ts:174-185 | the draft reports private and unavailable videos by name; a missing player config falls into the generic failure |
| PlayerDraft.MusicPlayer.constructor | src/musicPlayerNew.ts:100-109 | a new draft player is empty, idle, not ready, with no dispatcher and no pending timer |
| PlayerDraft.MusicPlayer.FinishCreation | src/musicPlayerNew.ts:114-118 | the draft marks itself ready after its first add, whatever the add did |
| PlayerDraft.MusicPlayer.PlaySong | src/musicPlayerNew.ts:199-245 | an existing position becomes current and the playlist-end timer is left as it was; any other position makes the player idle and arms the 300000 ms timer |
| PlayerDraft.MusicPlayer.BeginAddSong | src/musicPlayerNew.ts:131-132 | an invalid link is refused first, then a video already in the playlist; the resolver is asked exactly when neither applies; nothing changes, and nothing records that the video is being resolved |
| PlayerDraft.MusicPlayer.CompleteAddSong | src/musicPlayerNew.ts:134-186 | a playable answer is pushed onto the playlist as it is now, without a second scan, with its 1-based position; playback of the last index starts only if the player is idle, leaving the playlist-end timer as it was; other answers change nothing and report `ReportedReason` |
| PlayerDraft.MusicPlayer.AddSong | src/musicPlayerNew.ts:130-193 | when nothing runs while the resolver is asked, an invalid link or an id already present is rejected and changes nothing; a playable answer appends one entry whose duration is the length as decimal text; playback of the last index starts only if the player was idle; failures report `ReportedReason` |
| PlayerDraft.MusicPlayer.OnVoiceJoinFailed | src/musicPlayerNew.ts:222-235 | only a connection timeout plays the same position again |
| PlayerDraft.MusicPlayer.CheckDownloadLinkValidity | src/musicPlayerNew.ts:443-463 | when nothing runs during the re-resolution, the result is `CheckLink` on the current entry's expiry; only a renewed link overwrites that entry |
| PlayerDraft.MusicPlayer.BeginLinkCheck | src/musicPlayerNew.ts:444-447 | the draft re-resolves exactly when the current entry has no stored expiry or one before `now` |
| PlayerDraft.MusicPlayer.CompleteLinkCheck | src/musicPlayerNew.ts:448-460 | a playable answer overwrites the entry at the index as it is now; with no entry there the write throws and is reported as a failure; other answers fail without a change |
| PlayerDraft.MusicPlayer.CreateStreamDispatcher | src/musicPlayerNew.ts:365-437 | when nothing runs during the link check: with a usable link an unpaused dispatcher exists; otherwise the next position is played, and when it is in range the idle timer is left as it was (it is not cleared); with no entry at the index nothing changes |
| PlayerDraft.MusicPlayer.StartStream | src/musicPlayerNew.ts:367-436 | after the link check, on the index as it is by then: a failed link plays the next position, keeping the idle timer when that position is in range; a usable one gets an unpaused dispatcher when the index holds an entry, and otherwise nothing changes |
| PlayerDraft.MusicPlayer.OnTrackFinish | src/musicPlayerNew.ts:396-409 | the current entry's link fields are reset, only if it exists; then the next position is played, and when it is in range the idle timer is left as it was |
| PlayerDraft.MusicPlayer.OnTrackError | src/musicPlayerNew.ts:411-424 | the handler is unguarded: it resets the current entry's links and plays the next position when the entry exists, keeping the idle timer when that position is in range, and fails before any change when it does not |
| PlayerDraft.MusicPlayer.RemoveSong | src/musicPlayerNew.ts:282-301 | an existing position is removed and the others keep their order; the index moves back only for the current entry; invalid input changes nothing |
| PlayerDraft.MusicPlayer.Pause | src/musicPlayerNew.ts:251-256 | pausing acts only on a playing dispatcher; a repeated call is a no-op |
| PlayerDraft.MusicPlayer.Unpause | src/musicPlayerNew.ts:261-266 | resuming acts only on a paused dispatcher; a repeated call is a no-op |
| PlayerDraft.MusicPlayer.Skip | src/musicPlayerNew.ts:271-276 | the dispatcher is asked to end exactly when the player is not idle; an idle skip is a no-op |
| PlayerDraft.MusicPlayer.Dispose | src/musicPlayerNew.ts:501-516 | the draft is left not ready, with an empty playlist, idle, and with both timers cleared |
| PlayerDraft.MusicPlayer.OnDisconnect | src/musicPlayerNew.ts:351-353 | the draft disposes on every disconnect, ready or not |
| Command.SkipWhitespace | src/command.ts:84 | dropping leading whitespace keeps the non-whitespace text and leaves no whitespace at the front |
| Command.CollapseWhitespace | src/command.ts:84 | after `replace(/\s+/g, ' ')` whitespace appears only as single plain spaces; the non-whitespace text is unchanged; the result is empty exactly when the input is; `Command.CollapseRun` states that a run between two words becomes one space |
| Command.SkipRun | src/command.ts:84 | skipping a whitespace run stops exactly at the first character after it |
| Command.CollapseRun | src/command.ts:84 | a whitespace run between two words, or at either end, becomes exactly one space, and the text on each side is collapsed on its own |
| Command.CollapseKeepsNormalised | src/command.ts:84 | the rewrite leaves already collapsed text as it is |
| Command.CollapseIdempotent | src/command.ts:84 | collapsing twice is the same as collapsing once |
| Command.ToLower | src/command.ts:87 | lower-casing keeps the length, leaves no ASCII capital in the result and keeps every character that is not one |
| Command.ToLowerMatchesName | src/command.ts:87-91 | a token lower-cases to a command name without capitals exactly when it has the name's length and spells it up to ASCII case, which is what makes command names case-insensitive |
| Command.FirstExact | src/command.ts:90-93 | the scan stops at the first name equal to the token, and reports when there is none |
| Command.PrefixMatches | src/command.ts:94-97 | the collected indices are exactly the names starting with the token, each once, in table order |
| Command.Candidates | src/command.ts:89-99 | every candidate is an index of the table whose name starts with the token: the first exact match alone, or else all prefix matches |
| Command.MatchNames | src/command.ts:89-99 | the matching loop returns the first exact match alone, discarding earlier prefix matches, and otherwise every prefix match in table order |
| Command.ExactMatchSelectsOne | src/command.ts:90-93 | an exact name beats every prefix match, before or after it in the table |
| Command.NoExactMatchKeepsPrefixMatches | src/command.ts:94-97 | without an exact name, the candidates are exactly the prefix matches, each once, in table order |
| Command.CharAt0 | src/command.ts:81 | `charAt(0)` is the first character, or the empty text for an empty message |
| Command.Accepts | src/command.ts:81-83 | no contract of its own: the guard, first character equal to the prefix, author not a bot, channel in the allow-list; `Command.OnlyAcceptedMessagesAreHandled` states that it decides whether a message is acted on |
| Command.DispatchSubCommand | src/command.ts:102-132 | no contract of its own: the unique sub-command gets the text after its token, anything else sends the second token to the parent; `Command.SubCommandRule` states the rule |
| Command.DispatchCommand | src/command.ts:85-154 | no contract of its own: a unique command candidate runs, or passes on to its sub-commands, and anything else is the error reply listing the candidates; `Command.RunsOnlyOnUniqueCandidate` states the rule |
| Command.Dispatch | src/command.ts:80-154 | no contract of its own: the guard, then the command match on the collapsed line without its prefix character; `Command.OnMessage` is proved to compute it |
| Command.OnMessage | src/command.ts:80-159 | the handler does what `Dispatch` states: guard, whitespace collapse, prefix drop, command match, then sub-command match |
| Command.OnlyAcceptedMessagesAreHandled | src/command.ts:81-83 | a message is acted on exactly when it starts with the prefix, is not from a bot and is in an allowed channel |
| Command.NeverIgnoredOnceAccepted | src/command.ts:85-154 | once past the guard, matching always ends in a handler call or the error reply |
| Command.AcceptedStartsWithPrefix | src/command.ts:81 | with a one-character prefix, an accepted message is non-empty and starts with that character |
| Command.RunsOnlyOnUniqueCandidate | src/command.ts:101-154 | a command runs exactly when one candidate remains; otherwise the reply lists every candidate by name, in table order |
| Command.SubCommandRule | src/command.ts:102-132 | a unique sub-command runs with the text after its own token; any other second token goes to the parent command alone |
| Command.CommandTableNames | src/command.ts:30-74 | the table's names, in order |
| Command.CommandTableExactTokens | src/command.ts:90-93 | on the real table "p" selects only `p`, although play, pause and playlist start with it; "play" selects only `play`, not playlist |
| Command.CommandTableFoldsCase | src/command.ts:87 | "PAUSE" is lower-cased before matching and reaches `pause` |

## Left out

- Discord I/O is not modelled: message text, embeds, colours, the reply sent
  for each outcome, voice join and leave, and the dispatcher's internals. The
  dispatcher is the two flags; a reply is the outcome value a method returns.
- The video resolver (`ytdl.getInfo`, `validateURL`, `getVideoID`,
  `chooseFormat`), URL parsing and `parseInt` are not modelled. The model
  takes an optional video id (None for a link that does not validate), a
  `Resolution`, and the `expire` value as an optional integer.
- The ffmpeg process and its arguments are process plumbing and are left out.
- The database (src/db.ts) is left out. Query results are inputs: the
  name-lookup answer, the new playlist id, the matched rows and the saved
  songs. The name pattern (`ILIKE '%name%'`) and the case-insensitive name
  check are therefore not modelled.
- `Promise.allSettled` and the `lockMusicPlayerCreation` lock are left out;
  they are concurrency. The constructor models the state it sets, and
  `FinishCreation` its continuation when the lock is free.
- Timers do not fire on their own. The empty-channel callback is
  `OnEmptyChannelTimeout`. The playlist-end callback only disconnects the
  voice connection, whose `disconnect` handler is `OnDisconnect`.
- A second re-armed timer does not cancel the first in the source; the model
  keeps only the latest one.
- `Discord.Util.escapeMarkdown` is a library call whose code is not part of
  this model. Titles are stored as the resolver gives them.
- `Player.MusicPlayer.CheckDownloadLinkValidity`,
  `Player.MusicPlayer.CreateStreamDispatcher`, `Player.MusicPlayer.SavePlaylist`
  and `Player.MusicPlayer.AddSong` (and the draft's `AddSong`,
  `CheckDownloadLinkValidity` and `CreateStreamDispatcher`) state the case
  where nothing runs during their awaits. The interleavings are captured by
  their two halves, which the scenarios combine.
- `StreamLink.CheckLink` and the composed `CheckDownloadLinkValidity` use one
  time for the staleness test and for the expiry of a renewed link. The
  source reads the clock again after the resolver answers, which
  `CompleteLinkCheck` takes as its own `renewedAt` parameter.
- `Player.MusicPlayer.RemoveSong`, `Player.MusicPlayer.Skip`,
  `Player.MusicPlayer.LoadSavedPlaylist`, `PlayerDraft.MusicPlayer.RemoveSong`,
  `PlayerDraft.MusicPlayer.Skip`: when no dispatcher was ever created, the
  source's `end()` throws after the state change. The model states the
  state change and the end request, not the exception.
- Non-integer and NaN durations are excluded; durations are natural numbers.
- `Command.ToLower` folds ASCII capitals only; `toLowerCase` also folds
  other alphabets, which the command names do not use.
- `Command.CharAt0` and `Command.DropFirst` work on characters, while
  `charAt(0)` and `substring(1)` work on UTF-16 code units. They agree when
  the prefix is below U+10000. With a prefix outside that range (an emoji,
  say) the source compares one surrogate half against it and ignores every
  message, while the model would accept messages that start with it.
- The getters `paused` and `currentVoiceChannel` and `updateVoiceChannel`
  only read or replace Discord objects, so they are left out.
- The static display and delete operations (`showSavedPlaylists`,
  `showSavedPlaylistSongs`, `deleteSavedPlaylist`) are also left out. They
  format database rows into messages and use the same
  `SearchSavedPlaylistsByName` that is modelled.
- The command handlers beyond matching and splitting are left out.
  src/bot.ts is not part of this model.
