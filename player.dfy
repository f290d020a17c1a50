/**
 * The music player of one guild, `MusicPlayer` in src/musicPlayer.ts: the
 * playlist, the index of the song being played (-1 when idle), the loading
 * queue of videos being resolved, the Discord stream dispatcher reduced to
 * two flags, and the two five-minute disconnect timers.
 *
 * An operation that awaits and then reads the player again is split at the
 * await into the stretches before and after it (`BeginAddSong` and
 * `CompleteAddSong`, say), and the method named after the operation composes
 * them for the case where nothing else runs in between. What an awaited call
 * produced (the resolver's answer, database rows, the current time) is a
 * parameter.
 */
module Player {
  import opened Optional
  import opened Playback
  import opened Sequences
  import opened StreamLink
  import opened Util

  /** One playlist entry. */
  datatype Track = Track(
    videoId: string,
    downloadLink: Option<string>,
    linkExpiration: Option<int>,
    title: string,
    duration: nat,
    addedBy: string)

  /** The entry pushed for a resolved video, with the link `getBestQualityDownloadFormat` picks. */
  function TrackFromInfo(info: VideoInfo, addedBy: string, now: int): Track
  {
    Track(info.videoId, Some(info.audioUrl), Some(LinkExpiration(info.expireParam, now)),
          info.title, info.lengthSeconds, addedBy)
  }

  /** Both link fields set to null, as the dispatcher handlers do for a finished entry. */
  function WithoutLink(t: Track): Track
  {
    t.(downloadLink := None, linkExpiration := None)
  }

  /** Both link fields overwritten with a freshly resolved link. */
  function WithLink(t: Track, url: string, expiration: int): Track
  {
    t.(downloadLink := Some(url), linkExpiration := Some(expiration))
  }

  /** Some entry of the playlist holds this video. */
  predicate ContainsVideo(playList: seq<Track>, videoId: string)
  {
    exists i :: 0 <= i < |playList| && playList[i].videoId == videoId
  }

  /** The reply `addSong` sends. */
  datatype AddOutcome =
    | InvalidLink
    | AlreadyInPlaylist
    | AlreadyLoading
    | NotPlayable
    | ResolveFailed(reason: FailureReason)
    | Added(position: nat)   // the 1-based position shown to the user

  /** One line of the playlist listing; `number` is 1-based. */
  datatype SongLine = SongLine(number: nat, title: string, duration: string, addedBy: string, isCurrent: bool)

  /** The listing `showPlaylistSongs` sends: its lines and its footer figures. */
  datatype PlaylistView = PlaylistView(lines: seq<SongLine>, songCount: nat, totalDuration: nat)

  /** The line for entry `i`, marked when it is the current entry. */
  function LineFor(playList: seq<Track>, current: int, i: nat): SongLine
    requires i < |playList|
  {
    SongLine(i + 1, playList[i].title, PrettyPrintDuration(playList[i].duration), playList[i].addedBy, i == current)
  }

  /** The sum of the durations of the entries. */
  function TotalDuration(playList: seq<Track>): nat
  {
    if |playList| == 0 then 0
    else TotalDuration(playList[..|playList| - 1]) + playList[|playList| - 1].duration
  }

  /** The total of a concatenation is the sum of the totals. */
  lemma {:induction false} TotalDurationAppend(a: seq<Track>, b: seq<Track>)
    ensures TotalDuration(a + b) == TotalDuration(a) + TotalDuration(b)
    decreases |b|
  {
    if |b| == 0 {
      assert a + b == a;
    } else {
      var n := |b| - 1;
      assert (a + b)[..|a + b| - 1] == a + b[..n];
      assert (a + b)[|a + b| - 1] == b[n];
      TotalDurationAppend(a, b[..n]);
    }
  }

  /** No single entry lasts longer than the whole playlist. */
  lemma {:induction false} TotalDurationBoundsEach(playList: seq<Track>, i: nat)
    requires i < |playList|
    ensures playList[i].duration <= TotalDuration(playList)
  {
    assert playList == playList[..i] + [playList[i]] + playList[i + 1..];
    TotalDurationAppend(playList[..i] + [playList[i]], playList[i + 1..]);
    TotalDurationAppend(playList[..i], [playList[i]]);
    assert TotalDuration([playList[i]]) == playList[i].duration by {
      assert [playList[i]][..0] == [];
    }
  }

  // ---------------------------------------------------------------- saved playlists

  /** A row of the `playlist` table. */
  datatype SavedPlaylist = SavedPlaylist(playlistId: string, playlistName: string, createdBy: string)

  /** A row of the `playlist_song` table. */
  datatype SavedSong = SavedSong(videoId: string, addedBy: string)

  /** The first row at or after `from` whose name is exactly `name`. */
  function FirstNamed(rows: seq<SavedPlaylist>, name: string, from: nat): (r: Option<nat>)
    requires from <= |rows|
    ensures r.Some? ==> from <= r.value < |rows| && rows[r.value].playlistName == name
    ensures r.Some? ==> forall j :: from <= j < r.value ==> rows[j].playlistName != name
    ensures r.None? ==> forall j :: from <= j < |rows| ==> rows[j].playlistName != name
    decreases |rows| - from
  {
    if from == |rows| then None
    else if rows[from].playlistName == name then Some(from)
    else FirstNamed(rows, name, from + 1)
  }

  /**
   * `searchSavedPlaylistsByName` on the rows the name pattern matched: the first
   * row named exactly like the request, alone, and otherwise every row.
   */
  function SearchSavedPlaylistsByName(rows: seq<SavedPlaylist>, name: string): (r: seq<SavedPlaylist>)
    ensures (exists i :: 0 <= i < |rows| && rows[i].playlistName == name) ==>
      exists k :: 0 <= k < |rows| && r == [rows[k]] && rows[k].playlistName == name
        && forall j :: 0 <= j < k ==> rows[j].playlistName != name
    ensures (forall i :: 0 <= i < |rows| ==> rows[i].playlistName != name) ==> r == rows
  {
    match FirstNamed(rows, name, 0)
    case Some(k) => [rows[k]]
    case None => rows
  }

  /** The search finds something exactly when the pattern matched some row. */
  lemma SearchFindsIffRows(rows: seq<SavedPlaylist>, name: string)
    ensures |SearchSavedPlaylistsByName(rows, name)| == 0 <==> |rows| == 0
  {
    if FirstNamed(rows, name, 0).Some? {
      assert rows[FirstNamed(rows, name, 0).value].playlistName == name;
    }
  }

  /**
   * The entries `loadSavedPlaylist` builds from the songs whose resolution
   * succeeded, in the saved order. Playability is not checked here.
   */
  function LoadedTracks(songs: seq<SavedSong>, results: seq<Resolution>, now: int): (r: seq<Track>)
    requires |results| == |songs|
    ensures |r| <= |songs|
  {
    if |songs| == 0 then []
    else
      var n := |songs| - 1;
      LoadedTracks(songs[..n], results[..n], now)
        + (if results[n].Resolved? then [TrackFromInfo(results[n].info, songs[n].addedBy, now)] else [])
  }

  /** The positions of the songs whose resolution failed, in increasing order. */
  function FailedPositions(results: seq<Resolution>): (r: seq<nat>)
    ensures forall i :: 0 <= i < |r| ==> r[i] < |results| && results[r[i]].Failed?
    ensures forall k :: 0 <= k < |results| && results[k].Failed? ==> k in r
    ensures forall i, j :: 0 <= i < j < |r| ==> r[i] < r[j]
  {
    if |results| == 0 then []
    else
      var n := |results| - 1;
      FailedPositions(results[..n]) + (if results[n].Failed? then [n] else [])
  }

  /** Every saved song is either loaded or listed as failed, never both. */
  lemma {:induction false} PartitionSizes(songs: seq<SavedSong>, results: seq<Resolution>, now: int)
    requires |results| == |songs|
    ensures |LoadedTracks(songs, results, now)| + |FailedPositions(results)| == |songs|
  {
    if |songs| > 0 {
      var n := |songs| - 1;
      PartitionSizes(songs[..n], results[..n], now);
    }
  }

  /** When every song resolves, the loaded playlist is the saved one, entry by entry. */
  lemma {:induction false} AllResolvedLoadsInOrder(songs: seq<SavedSong>, results: seq<Resolution>, now: int)
    requires |results| == |songs|
    requires forall i :: 0 <= i < |results| ==> results[i].Resolved?
    ensures var r := LoadedTracks(songs, results, now);
      |r| == |songs| && forall i :: 0 <= i < |r| ==> r[i] == TrackFromInfo(results[i].info, songs[i].addedBy, now)
  {
    if |songs| > 0 {
      var n := |songs| - 1;
      AllResolvedLoadsInOrder(songs[..n], results[..n], now);
    }
  }

  /**
   * The loop of `loadSavedPlaylist` that sorts the settled resolutions into new
   * entries and failure lines.
   */
  method PartitionSongs(songs: seq<SavedSong>, results: seq<Resolution>, now: int)
    returns (loaded: seq<Track>, failed: seq<nat>)
    requires |results| == |songs|
    ensures loaded == LoadedTracks(songs, results, now)
    ensures failed == FailedPositions(results)
  {
    loaded := [];
    failed := [];
    var i := 0;
    while i < |results|
      invariant 0 <= i <= |results|
      invariant loaded == LoadedTracks(songs[..i], results[..i], now)
      invariant failed == FailedPositions(results[..i])
    {
      assert songs[..i + 1][..i] == songs[..i];
      assert results[..i + 1][..i] == results[..i];
      if results[i].Resolved? {
        loaded := loaded + [TrackFromInfo(results[i].info, songs[i].addedBy, now)];
      } else {
        failed := failed + [i];
      }
      i := i + 1;
    }
    assert songs[..i] == songs;
    assert results[..i] == results;
  }

  /** What `loadSavedPlaylist` reports. */
  datatype LoadOutcome =
    | EmptyName
    | NotFound
    | Ambiguous(names: seq<string>)
    | NothingLoaded
    | Loaded(count: nat, failedPositions: seq<nat>)

  /** The names the ambiguity reply lists. */
  function PlaylistNames(rows: seq<SavedPlaylist>): (r: seq<string>)
    ensures |r| == |rows| && forall i :: 0 <= i < |rows| ==> r[i] == rows[i].playlistName
  {
    seq(|rows|, i requires 0 <= i < |rows| => rows[i].playlistName)
  }

  /** The length of a JavaScript string: UTF-16 code units, two for a character beyond U+FFFF. */
  function Utf16Length(s: string): (r: nat)
    ensures |s| <= r <= 2 * |s|
  {
    if |s| == 0 then 0
    else Utf16Length(s[..|s| - 1]) + (if s[|s| - 1] as int >= 0x1_0000 then 2 else 1)
  }

  /** A playlist name is accepted with 3 to 50 UTF-16 code units. */
  predicate ValidPlaylistName(name: string)
  {
    3 <= Utf16Length(name) <= 50
  }

  /** The fixed start of the song insert. */
  const SongInsertHead: string := "INSERT INTO playlist_song VALUES "

  /**
   * What the loop leaves for no song at all: the head with its last character,
   * the space, cut off. The database refuses this statement.
   */
  const EmptySongInsert: string := "INSERT INTO playlist_song VALUES;"

  /** A numbered query placeholder, `$n`. */
  function Placeholder(n: nat): string
  {
    "$" + NatToString(n)
  }

  /** The values tuple of the `k`-th song (from 0): placeholders 3k+1, 3k+2 and 3k+3. */
  function PlaceholderGroup(k: nat): string
  {
    "(" + Placeholder(3 * k + 1) + ", " + Placeholder(3 * k + 2) + ", " + Placeholder(3 * k + 3) + ")"
  }

  /** The tuples of `n` songs, separated by commas. */
  function JoinedGroups(n: nat): string
    requires n >= 1
  {
    if n == 1 then PlaceholderGroup(0) else JoinedGroups(n - 1) + "," + PlaceholderGroup(n - 1)
  }

  /** The whole song insert for `n` songs. */
  function SongInsertQuery(n: nat): string
    requires n >= 1
  {
    SongInsertHead + JoinedGroups(n) + ";"
  }

  /** The query text after `i` turns of the loop: every tuple so far, each followed by a comma. */
  function QueryAfter(i: nat): string
  {
    if i == 0 then SongInsertHead else SongInsertHead + JoinedGroups(i) + ","
  }

  /** The parameters after the songs of `tracks`: id, video and adder for each, in order. */
  function SongParams(playlistId: string, tracks: seq<Track>): (r: seq<string>)
    ensures |r| == 3 * |tracks|
    ensures forall k :: 0 <= k < |tracks| ==>
      r[3 * k] == playlistId && r[3 * k + 1] == tracks[k].videoId && r[3 * k + 2] == tracks[k].addedBy
  {
    if |tracks| == 0 then []
    else
      var n := |tracks| - 1;
      SongParams(playlistId, tracks[..n]) + [playlistId, tracks[n].videoId, tracks[n].addedBy]
  }

  /** One more turn of the loop adds the next tuple and a comma. */
  lemma QueryAfterStep(i: nat)
    ensures QueryAfter(i + 1) == QueryAfter(i) + PlaceholderGroup(i) + ","
  {
    if i > 0 {
      Regroup(SongInsertHead, JoinedGroups(i), PlaceholderGroup(i));
    }
  }

  /** Moving the separator between two tuples from one side to the other. */
  lemma Regroup(head: string, joined: string, group: string)
    ensures head + (joined + "," + group) + "," == (head + joined + ",") + group + ","
  {
  }

  /** One more song adds its three parameters. */
  lemma SongParamsStep(playlistId: string, tracks: seq<Track>, i: nat)
    requires i < |tracks|
    ensures SongParams(playlistId, tracks[..i + 1])
      == SongParams(playlistId, tracks[..i]) + [playlistId, tracks[i].videoId, tracks[i].addedBy]
  {
    assert tracks[..i + 1][..i] == tracks[..i];
  }

  /** One turn of the loop, on the tuple it builds from its counter `3i + 1`. */
  lemma SongInsertStep(playlistId: string, tracks: seq<Track>, i: nat, group: string)
    requires i < |tracks|
    requires group == "(" + Placeholder(3 * i + 1) + ", " + Placeholder(3 * i + 2) + ", " + Placeholder(3 * i + 3) + ")"
    ensures QueryAfter(i + 1) == QueryAfter(i) + group + ","
    ensures SongParams(playlistId, tracks[..i + 1])
      == SongParams(playlistId, tracks[..i]) + [playlistId, tracks[i].videoId, tracks[i].addedBy]
  {
    QueryAfterStep(i);
    SongParamsStep(playlistId, tracks, i);
  }

  /** Cutting the last comma off the loop's text and adding the semicolon gives the query. */
  lemma CutTrailingComma(n: nat)
    requires n >= 1
    ensures QueryAfter(n)[..|QueryAfter(n)| - 1] + ";" == SongInsertQuery(n)
  {
    assert QueryAfter(n)[..|QueryAfter(n)| - 1] == SongInsertHead + JoinedGroups(n);
  }

  /**
   * The loop of `savePlaylist` that builds the song insert: a counter `j` numbers
   * the placeholders, every tuple is followed by a comma, and the last comma is
   * cut off and replaced by the semicolon.
   */
  method BuildSongInsert(playlistId: string, tracks: seq<Track>) returns (query: string, params: seq<string>)
    ensures query == if |tracks| == 0 then EmptySongInsert else SongInsertQuery(|tracks|)
    ensures params == SongParams(playlistId, tracks)
  {
    query := SongInsertHead;
    params := [];
    var j := 1;
    var i := 0;
    while i < |tracks|
      invariant 0 <= i <= |tracks|
      invariant j == 3 * i + 1
      invariant query == QueryAfter(i)
      invariant params == SongParams(playlistId, tracks[..i])
    {
      var group := "(" + Placeholder(j) + ", " + Placeholder(j + 1) + ", " + Placeholder(j + 2) + ")";
      SongInsertStep(playlistId, tracks, i, group);
      query := query + group + ",";
      j := j + 3;
      params := params + [playlistId, tracks[i].videoId, tracks[i].addedBy];
      i := i + 1;
    }
    assert tracks[..i] == tracks;
    FinishSongInsert(|tracks|);
    query := query[..|query| - 1] + ";";
  }

  /** The last character of the loop's text replaced by the semicolon, with or without songs. */
  lemma FinishSongInsert(n: nat)
    ensures QueryAfter(n)[..|QueryAfter(n)| - 1] + ";"
      == if n == 0 then EmptySongInsert else SongInsertQuery(n)
  {
    if n == 0 {
      assert SongInsertHead[..|SongInsertHead| - 1] + ";" == EmptySongInsert;
    } else {
      CutTrailingComma(n);
    }
  }

  /** What `savePlaylist` reports, and for a save the two inserts it issues. */
  datatype SaveOutcome =
    | NothingToSave
    | BadNameLength
    | NameTaken
    | Saved(playlistParams: seq<string>, songQuery: string, songParams: seq<string>)

  // ---------------------------------------------------------------- the player

  class MusicPlayer {
    var playList: seq<Track>
    var currentSong: int
    var ready: bool
    var loadingQueue: seq<string>
    var dispatcherExists: bool
    var dispatcherPaused: bool
    var playlistEndTimer: Timer
    var emptyChannelTimer: Timer

    /**
     * What every method keeps: the index is -1 or above, only an existing
     * dispatcher can be paused, and no video is being loaded twice.
     */
    ghost predicate Valid()
      reads this
    {
      -1 <= currentSong && (dispatcherPaused ==> dispatcherExists) && NoDuplicates(loadingQueue)
    }

    /** The state `playSong(position)` leaves behind before it awaits the voice connection. */
    predicate AfterPlaySong(position: int)
      reads this
    {
      if 0 <= position < |playList| then currentSong == position && playlistEndTimer == Cleared
      else currentSong == -1 && playlistEndTimer == Armed(IdleDisconnectMs)
    }

    /**
     * The synchronous part of the constructor: an empty, idle, not yet ready
     * player. The one-millisecond no-op timers it creates are `Cleared` here.
     */
    constructor ()
      ensures Valid()
      ensures playList == [] && currentSong == -1 && !ready && loadingQueue == []
      ensures !dispatcherExists && !dispatcherPaused
      ensures playlistEndTimer == Cleared && emptyChannelTimer == Cleared
    {
      playList := [];
      currentSong := -1;
      ready := false;
      loadingQueue := [];
      dispatcherExists := false;
      dispatcherPaused := false;
      playlistEndTimer := Cleared;
      emptyChannelTimer := Cleared;
    }

    /** The constructor's continuation after its first `addSong`: ready once something was added. */
    method FinishCreation()
      modifies this`ready
      ensures ready == (old(ready) || |playList| != 0)
    {
      if |playList| != 0 {
        ready := true;
      }
    }

    /** `alreadyExists`: the linear scan for an entry holding the video. */
    method AlreadyExists(videoId: string) returns (found: bool)
      ensures found <==> ContainsVideo(playList, videoId)
    {
      var i := 0;
      while i < |playList|
        invariant 0 <= i <= |playList|
        invariant forall j :: 0 <= j < i ==> playList[j].videoId != videoId
      {
        if playList[i].videoId == videoId {
          return true;
        }
        i := i + 1;
      }
      return false;
    }

    /**
     * `addSong` up to its await: the checks, and the video pushed into the
     * loading queue. `videoId` is None when the link does not validate.
     * A `None` result means the resolver is now asked.
     */
    method BeginAddSong(videoId: Option<string>) returns (rejected: Option<AddOutcome>)
      requires Valid()
      modifies this`loadingQueue
      ensures Valid()
      ensures videoId.None? ==> rejected == Some(InvalidLink)
      ensures videoId.Some? && ContainsVideo(playList, videoId.value) ==> rejected == Some(AlreadyInPlaylist)
      ensures videoId.Some? && !ContainsVideo(playList, videoId.value) && videoId.value in old(loadingQueue) ==>
        rejected == Some(AlreadyLoading)
      ensures rejected.Some? ==> loadingQueue == old(loadingQueue)
      ensures rejected.None? <==>
        videoId.Some? && !ContainsVideo(playList, videoId.value) && videoId.value !in old(loadingQueue)
      ensures rejected.None? ==> loadingQueue == old(loadingQueue) + [videoId.value]
    {
      if videoId.None? {
        return Some(InvalidLink);
      }
      var present := AlreadyExists(videoId.value);
      if present {
        return Some(AlreadyInPlaylist);
      }
      if videoId.value in loadingQueue {
        return Some(AlreadyLoading);
      }
      PushKeepsNoDuplicates(loadingQueue, videoId.value);
      loadingQueue := loadingQueue + [videoId.value];
      return None;
    }

    /**
     * `addSong` after the resolver answered `res`: a playable video is appended,
     * and started when the player is idle; then one occurrence of the id leaves
     * the loading queue.
     */
    method CompleteAddSong(videoId: string, addedBy: string, res: Resolution, now: int) returns (outcome: AddOutcome)
      requires Valid()
      modifies this`playList, this`loadingQueue, this`currentSong, this`playlistEndTimer
      ensures Valid()
      ensures loadingQueue == SpliceIndexOf(old(loadingQueue), videoId)
      ensures res.Resolved? && res.info.playable ==>
        playList == old(playList) + [TrackFromInfo(res.info, addedBy, now)] && outcome == Added(|playList|)
      ensures res.Resolved? && !res.info.playable ==> outcome == NotPlayable
      ensures res.Failed? ==> outcome == ResolveFailed(res.reason)
      ensures !outcome.Added? ==> playList == old(playList)
      ensures outcome.Added? && old(currentSong) == -1 ==> AfterPlaySong(|playList| - 1)
      ensures !(outcome.Added? && old(currentSong) == -1) ==>
        currentSong == old(currentSong) && playlistEndTimer == old(playlistEndTimer)
    {
      match res {
        case Resolved(info) =>
          if info.playable {
            playList := playList + [TrackFromInfo(info, addedBy, now)];
            outcome := Added(|playList|);
            if currentSong == -1 {
              PlaySong(|playList| - 1);
            }
          } else {
            outcome := NotPlayable;
          }
        case Failed(reason) =>
          outcome := ResolveFailed(reason);
      }
      SpliceIndexOfKeepsNoDuplicates(loadingQueue, videoId);
      loadingQueue := SpliceIndexOf(loadingQueue, videoId);
    }

    /**
     * `addSong` when nothing else runs while the resolver is asked: the loading
     * queue ends as it started, and the playlist grows by the one entry exactly
     * when the link is valid, the video is new, not loading, and playable.
     */
    method AddSong(videoId: Option<string>, addedBy: string, res: Resolution, now: int) returns (outcome: AddOutcome)
      requires Valid()
      modifies this`playList, this`loadingQueue, this`currentSong, this`playlistEndTimer
      ensures Valid()
      ensures loadingQueue == old(loadingQueue)
      ensures outcome.Added? <==>
        videoId.Some? && !ContainsVideo(old(playList), videoId.value) && videoId.value !in old(loadingQueue)
        && res.Resolved? && res.info.playable
      ensures outcome.Added? ==>
        playList == old(playList) + [TrackFromInfo(res.info, addedBy, now)] && outcome.position == |playList|
      ensures outcome.Added? && old(currentSong) == -1 ==> AfterPlaySong(|playList| - 1)
      ensures !(outcome.Added? && old(currentSong) == -1) ==>
        currentSong == old(currentSong) && playlistEndTimer == old(playlistEndTimer)
      ensures !outcome.Added? ==> playList == old(playList)
      ensures videoId.Some? && ContainsVideo(old(playList), videoId.value) ==> outcome == AlreadyInPlaylist
    {
      var rejected := BeginAddSong(videoId);
      if rejected.Some? {
        return rejected.value;
      }
      SpliceAfterPush(old(loadingQueue), videoId.value);
      outcome := CompleteAddSong(videoId.value, addedBy, res, now);
    }

    /**
     * `playSong` up to its await: an existing position becomes current and the
     * playlist-end timer is cleared; any other position makes the player idle
     * and arms that timer.
     */
    method PlaySong(position: int)
      modifies this`currentSong, this`playlistEndTimer
      ensures AfterPlaySong(position)
    {
      if 0 <= position < |playList| {
        playlistEndTimer := Cleared;
        currentSong := position;
      } else {
        currentSong := -1;
        playlistEndTimer := Armed(IdleDisconnectMs);
      }
    }

    /** `playSong` when joining the voice channel failed: only a timeout is retried. */
    method OnVoiceJoinFailed(position: int, error: JoinError)
      modifies this`currentSong, this`playlistEndTimer
      ensures error == ConnectTimeout ==> AfterPlaySong(position)
      ensures error != ConnectTimeout ==>
        currentSong == old(currentSong) && playlistEndTimer == old(playlistEndTimer)
    {
      if error == ConnectTimeout {
        PlaySong(position);
      }
    }

    /**
     * `checkDownloadLinkValidity` when nothing runs while the video is
     * re-resolved, with `res` what the resolver answers if asked: a renewed
     * link overwrites both link fields; otherwise the entry stays as it is.
     */
    method CheckDownloadLinkValidity(now: int, res: Resolution) returns (check: LinkCheck)
      requires 0 <= currentSong < |playList|
      modifies this`playList
      ensures check == CheckLink(old(playList)[currentSong].linkExpiration, now, res)
      ensures check.NewLink? ==>
        playList == old(playList)[currentSong := WithLink(old(playList)[currentSong], check.url, check.expiration)]
      ensures !check.NewLink? ==> playList == old(playList)
    {
      var refresh := BeginLinkCheck(now);
      if !refresh {
        return KeepLink;
      }
      check := CompleteLinkCheck(res, now);
    }

    /** `checkDownloadLinkValidity` up to its await: whether the current entry's link must be resolved again. */
    method BeginLinkCheck(now: int) returns (refresh: bool)
      requires 0 <= currentSong < |playList|
      ensures refresh <==> NeedsRefresh(playList[currentSong].linkExpiration, now)
    {
      var expiration := playList[currentSong].linkExpiration;
      refresh := expiration.None? || expiration.value < now;
    }

    /**
     * `checkDownloadLinkValidity` after the resolver answered `res` at time
     * `renewedAt`: a playable answer is written into the entry at the index
     * as it is by then. When the index holds no entry any more, that write
     * throws inside the `try`, and the error is reported as a failure.
     */
    method CompleteLinkCheck(res: Resolution, renewedAt: int) returns (check: LinkCheck)
      modifies this`playList
      ensures res.Resolved? && res.info.playable && 0 <= currentSong < |old(playList)| ==>
        check == NewLink(res.info.audioUrl, LinkExpiration(res.info.expireParam, renewedAt))
        && playList == old(playList)[currentSong := WithLink(old(playList)[currentSong], check.url, check.expiration)]
      ensures res.Resolved? && res.info.playable && !(0 <= currentSong < |old(playList)|) ==>
        check == LinkFailed(OtherFailure) && playList == old(playList)
      ensures res.Resolved? && !res.info.playable ==> check == LinkFailed(Unavailable) && playList == old(playList)
      ensures res.Failed? ==> check == LinkFailed(res.reason) && playList == old(playList)
    {
      match res {
        case Resolved(info) =>
          if !info.playable {
            return LinkFailed(Unavailable);
          }
          if !(0 <= currentSong < |playList|) {
            return LinkFailed(OtherFailure);
          }
          check := NewLink(info.audioUrl, LinkExpiration(info.expireParam, renewedAt));
          playList := playList[currentSong := WithLink(playList[currentSong], check.url, check.expiration)];
        case Failed(reason) =>
          check := LinkFailed(reason);
      }
    }

    /**
     * `createStreamDispatcher`: with a usable link the current entry is streamed
     * by a new, unpaused dispatcher; with none the next song is played.
     */
    method CreateStreamDispatcher(now: int, res: Resolution) returns (start: StreamStart)
      requires Valid()
      modifies this`playList, this`currentSong, this`playlistEndTimer, this`dispatcherExists, this`dispatcherPaused
      ensures Valid()
      ensures !(0 <= old(currentSong) < |old(playList)|) ==>
        start == NoCurrentTrack && playList == old(playList) && currentSong == old(currentSong)
        && playlistEndTimer == old(playlistEndTimer)
        && dispatcherExists == old(dispatcherExists) && dispatcherPaused == old(dispatcherPaused)
      ensures 0 <= old(currentSong) < |old(playList)| ==>
        var check := CheckLink(old(playList)[old(currentSong)].linkExpiration, now, res);
        (check.LinkFailed? ==>
          start == SkippedUnplayable(check.reason) && playList == old(playList)
          && AfterPlaySong(old(currentSong) + 1)
          && dispatcherExists == old(dispatcherExists) && dispatcherPaused == old(dispatcherPaused))
        && (!check.LinkFailed? ==>
          start == Streaming && dispatcherExists && !dispatcherPaused
          && currentSong == old(currentSong) && playlistEndTimer == old(playlistEndTimer)
          && playList == (if check.NewLink? then old(playList)[old(currentSong) := WithLink(old(playList)[old(currentSong)], check.url, check.expiration)]
                          else old(playList)))
    {
      if !(0 <= currentSong < |playList|) {
        return NoCurrentTrack;
      }
      var check := CheckDownloadLinkValidity(now, res);
      start := StartStream(check);
    }

    /**
     * `createStreamDispatcher` after the link check answered `check`, on the
     * index as it is by then: a failed link plays the position after it; a
     * usable one is streamed by a new, unpaused dispatcher, unless the index
     * no longer holds an entry, where reading its link throws and nothing
     * changes.
     */
    method StartStream(check: LinkCheck) returns (start: StreamStart)
      requires Valid()
      modifies this`currentSong, this`playlistEndTimer, this`dispatcherExists, this`dispatcherPaused
      ensures Valid()
      ensures check.LinkFailed? ==>
        start == SkippedUnplayable(check.reason) && AfterPlaySong(old(currentSong) + 1)
        && dispatcherExists == old(dispatcherExists) && dispatcherPaused == old(dispatcherPaused)
      ensures !check.LinkFailed? && 0 <= old(currentSong) < |playList| ==>
        start == Streaming && dispatcherExists && !dispatcherPaused
        && currentSong == old(currentSong) && playlistEndTimer == old(playlistEndTimer)
      ensures !check.LinkFailed? && !(0 <= old(currentSong) < |playList|) ==>
        start == NoCurrentTrack && currentSong == old(currentSong) && playlistEndTimer == old(playlistEndTimer)
        && dispatcherExists == old(dispatcherExists) && dispatcherPaused == old(dispatcherPaused)
    {
      if check.LinkFailed? {
        start := SkippedUnplayable(check.reason);
        PlaySong(currentSong + 1);
      } else if 0 <= currentSong < |playList| {
        dispatcherExists := true;
        dispatcherPaused := false;
        start := Streaming;
      } else {
        start := NoCurrentTrack;
      }
    }

    /**
     * The dispatcher's `finish` handler: the link of the current entry, if
     * there is one, is dropped, and the next position is played.
     */
    method OnTrackFinish()
      requires Valid()
      modifies this`playList, this`currentSong, this`playlistEndTimer
      ensures Valid()
      ensures 0 <= old(currentSong) < |old(playList)| ==>
        playList == old(playList)[old(currentSong) := WithoutLink(old(playList)[old(currentSong)])]
      ensures !(0 <= old(currentSong) < |old(playList)|) ==> playList == old(playList)
      ensures AfterPlaySong(old(currentSong) + 1)
    {
      if 0 <= currentSong < |playList| {
        playList := playList[currentSong := WithoutLink(playList[currentSong])];
      }
      PlaySong(currentSong + 1);
    }

    /**
     * The dispatcher's `error` handler. It does not check the index: with no
     * entry there the source throws before changing anything (`handled` false).
     */
    method OnTrackError() returns (handled: bool)
      requires Valid()
      modifies this`playList, this`currentSong, this`playlistEndTimer
      ensures Valid()
      ensures handled <==> 0 <= old(currentSong) < |old(playList)|
      ensures handled ==>
        playList == old(playList)[old(currentSong) := WithoutLink(old(playList)[old(currentSong)])]
        && AfterPlaySong(old(currentSong) + 1)
      ensures !handled ==>
        playList == old(playList) && currentSong == old(currentSong) && playlistEndTimer == old(playlistEndTimer)
    {
      if !(0 <= currentSong < |playList|) {
        return false;
      }
      playList := playList[currentSong := WithoutLink(playList[currentSong])];
      PlaySong(currentSong + 1);
      return true;
    }

    /**
     * `removeSong`: an existing position is cut out and the others keep their
     * order; the index moves back only when the current entry itself was
     * removed. A `Removed` reply also ends the dispatcher, whose `finish`
     * handler then moves on.
     */
    method RemoveSong(position: Option<int>) returns (outcome: RemoveOutcome)
      requires Valid()
      modifies this`playList, this`currentSong
      ensures Valid()
      ensures position.Some? && 0 <= position.value < |old(playList)| ==>
        outcome == Removed(position.value)
        && playList == RemoveAt(old(playList), position.value)
        && currentSong == (if old(currentSong) == position.value then old(currentSong) - 1 else old(currentSong))
      ensures position.Some? && !(0 <= position.value < |old(playList)|) ==> outcome == NoSuchPosition(position.value)
      ensures position.None? ==> outcome == NotANumber
      ensures !outcome.Removed? ==> playList == old(playList) && currentSong == old(currentSong)
    {
      if position.Some? && 0 <= position.value < |playList| {
        var p := position.value;
        playList := RemoveAt(playList, p);
        if currentSong == p {
          currentSong := currentSong - 1;
        }
        return Removed(p);
      }
      if position.Some? {
        return NoSuchPosition(position.value);
      }
      return NotANumber;
    }

    /** `pause`: acts only on a playing dispatcher; afterwards there is nothing left to pause. */
    method Pause() returns (acted: bool)
      requires Valid()
      modifies this`dispatcherPaused
      ensures Valid()
      ensures acted <==> old(dispatcherExists && !dispatcherPaused)
      ensures acted ==> dispatcherPaused
      ensures !acted ==> dispatcherPaused == old(dispatcherPaused)
      ensures !(dispatcherExists && !dispatcherPaused)
    {
      acted := dispatcherExists && !dispatcherPaused;
      if acted {
        dispatcherPaused := true;
      }
    }

    /** `unpause`: acts only on a paused dispatcher; afterwards there is nothing left to resume. */
    method Unpause() returns (acted: bool)
      requires Valid()
      modifies this`dispatcherPaused
      ensures Valid()
      ensures acted <==> old(dispatcherExists && dispatcherPaused)
      ensures acted ==> !dispatcherPaused
      ensures !acted ==> dispatcherPaused == old(dispatcherPaused)
      ensures !(dispatcherExists && dispatcherPaused)
    {
      acted := dispatcherExists && dispatcherPaused;
      if acted {
        dispatcherPaused := false;
      }
    }

    /**
     * `skip`: asks the dispatcher to end (its `finish` handler moves on)
     * exactly when the player is not idle; it changes nothing itself.
     */
    method Skip() returns (endRequested: bool)
      ensures endRequested <==> currentSong != -1
    {
      endRequested := currentSong != -1;
    }

    /** `dispose`: not ready, empty and idle, both timers cleared. */
    method Dispose()
      requires Valid()
      modifies this`ready, this`playList, this`currentSong, this`playlistEndTimer, this`emptyChannelTimer
      ensures Valid()
      ensures !ready && playList == [] && currentSong == -1
      ensures playlistEndTimer == Cleared && emptyChannelTimer == Cleared
    {
      ready := false;
      playList := [];
      currentSong := -1;
      playlistEndTimer := Cleared;
      emptyChannelTimer := Cleared;
    }

    /** The voice connection's `disconnect` handler: disposes only a ready player. */
    method OnDisconnect()
      requires Valid()
      modifies this`ready, this`playList, this`currentSong, this`playlistEndTimer, this`emptyChannelTimer
      ensures Valid()
      ensures old(ready) ==>
        !ready && playList == [] && currentSong == -1 && playlistEndTimer == Cleared && emptyChannelTimer == Cleared
      ensures !old(ready) ==>
        !ready && playList == old(playList) && currentSong == old(currentSong)
        && playlistEndTimer == old(playlistEndTimer) && emptyChannelTimer == old(emptyChannelTimer)
    {
      if ready {
        Dispose();
      }
    }

    /** `checkOnCurrentVoiceChannelUsers`: no human left arms the empty-channel timer, one present clears it. */
    method CheckOnCurrentVoiceChannelUsers(humanPresent: bool)
      modifies this`emptyChannelTimer
      ensures emptyChannelTimer == if humanPresent then Cleared else Armed(IdleDisconnectMs)
    {
      if !humanPresent {
        emptyChannelTimer := Armed(IdleDisconnectMs);
      } else {
        emptyChannelTimer := Cleared;
      }
    }

    /** The empty-channel timer's callback: it disposes the player. */
    method OnEmptyChannelTimeout()
      requires Valid()
      modifies this`ready, this`playList, this`currentSong, this`playlistEndTimer, this`emptyChannelTimer
      ensures Valid()
      ensures !ready && playList == [] && currentSong == -1
      ensures playlistEndTimer == Cleared && emptyChannelTimer == Cleared
    {
      Dispose();
    }

    /**
     * `showPlaylistSongs`: one line per entry, the current one marked, and the
     * number of songs and their total duration in the footer; `None` is the
     * "empty playlist" reply.
     */
    method ShowPlaylistSongs() returns (view: Option<PlaylistView>)
      ensures view.None? <==> |playList| == 0
      ensures view.Some? ==>
        view.value.songCount == |playList| && view.value.totalDuration == TotalDuration(playList)
        && |view.value.lines| == |playList|
        && forall i :: 0 <= i < |playList| ==> view.value.lines[i] == LineFor(playList, currentSong, i)
    {
      if |playList| == 0 {
        return None;
      }
      var lines: seq<SongLine> := [];
      var total: nat := 0;
      var i := 0;
      while i < |playList|
        invariant 0 <= i <= |playList|
        invariant total == TotalDuration(playList[..i])
        invariant |lines| == i
        invariant forall k :: 0 <= k < i ==> lines[k] == LineFor(playList, currentSong, k)
      {
        assert playList[..i + 1][..i] == playList[..i];
        total := total + playList[i].duration;
        lines := lines + [LineFor(playList, currentSong, i)];
        i := i + 1;
      }
      assert playList[..i] == playList;
      return Some(PlaylistView(lines, |playList|, total));
    }

    /**
     * `savePlaylist` up to its first await: the playlist must not be empty and
     * the name must have an accepted length. A `None` result means the name
     * lookup is now sent.
     */
    method BeginSavePlaylist(name: string) returns (rejected: Option<SaveOutcome>)
      ensures |playList| == 0 ==> rejected == Some(NothingToSave)
      ensures |playList| > 0 && !ValidPlaylistName(name) ==> rejected == Some(BadNameLength)
      ensures rejected.None? <==> |playList| > 0 && ValidPlaylistName(name)
    {
      if |playList| == 0 {
        return Some(NothingToSave);
      }
      if !(3 <= Utf16Length(name) <= 50) {
        return Some(BadNameLength);
      }
      return None;
    }

    /**
     * `savePlaylist` after the name lookup answered `nameTaken` and the
     * playlist insert returned `newId`: the song insert is built from the
     * playlist as it is by then, which may have changed, or be empty, since
     * it was checked.
     */
    method CompleteSavePlaylist(name: string, creator: string, nameTaken: bool, newId: string) returns (outcome: SaveOutcome)
      ensures nameTaken ==> outcome == NameTaken
      ensures !nameTaken ==>
        outcome == Saved([name, creator],
                         if |playList| == 0 then EmptySongInsert else SongInsertQuery(|playList|),
                         SongParams(newId, playList))
    {
      if nameTaken {
        return NameTaken;
      }
      var query, params := BuildSongInsert(newId, playList);
      return Saved([name, creator], query, params);
    }

    /**
     * `savePlaylist` when nothing else runs during its awaits, with
     * `nameTaken` the answer of the case-insensitive name lookup and `newId`
     * the id the playlist insert returns. It changes nothing in the player; a
     * save issues the playlist row and the song insert.
     */
    method SavePlaylist(name: string, creator: string, nameTaken: bool, newId: string) returns (outcome: SaveOutcome)
      ensures |playList| == 0 ==> outcome == NothingToSave
      ensures |playList| > 0 && !ValidPlaylistName(name) ==> outcome == BadNameLength
      ensures |playList| > 0 && ValidPlaylistName(name) && nameTaken ==> outcome == NameTaken
      ensures outcome.Saved? <==> |playList| > 0 && ValidPlaylistName(name) && !nameTaken
      ensures outcome.Saved? ==>
        outcome.playlistParams == [name, creator]
        && outcome.songQuery == SongInsertQuery(|playList|)
        && outcome.songParams == SongParams(newId, playList)
    {
      var rejected := BeginSavePlaylist(name);
      if rejected.Some? {
        return rejected.value;
      }
      outcome := CompleteSavePlaylist(name, creator, nameTaken, newId);
    }

    /**
     * `loadSavedPlaylist` after its awaits: `rows` are the playlists the name
     * pattern matched, `songs` the saved songs of the one selected, `results`
     * their settled resolutions. Nothing changes unless some song loaded; then
     * the loaded entries replace the playlist and playback starts over.
     */
    method LoadSavedPlaylist(name: string, rows: seq<SavedPlaylist>, songs: seq<SavedSong>, results: seq<Resolution>, now: int)
      returns (outcome: LoadOutcome, endRequested: bool)
      requires Valid()
      requires |results| == |songs|
      modifies this`playList, this`currentSong, this`ready, this`playlistEndTimer
      ensures Valid()
      ensures |name| == 0 ==> outcome == EmptyName
      ensures |name| > 0 && |SearchSavedPlaylistsByName(rows, name)| == 0 ==> outcome == NotFound
      ensures |name| > 0 && |SearchSavedPlaylistsByName(rows, name)| > 1 ==>
        outcome == Ambiguous(PlaylistNames(SearchSavedPlaylistsByName(rows, name)))
      ensures |name| > 0 && |SearchSavedPlaylistsByName(rows, name)| == 1 ==>
        outcome == (if |LoadedTracks(songs, results, now)| == 0 then NothingLoaded
                    else Loaded(|LoadedTracks(songs, results, now)|, FailedPositions(results)))
      ensures !outcome.Loaded? ==>
        playList == old(playList) && currentSong == old(currentSong) && ready == old(ready)
        && playlistEndTimer == old(playlistEndTimer) && !endRequested
      ensures outcome.Loaded? ==> playList == LoadedTracks(songs, results, now) && ready
      ensures outcome.Loaded? && old(ready) ==>
        currentSong == -1 && endRequested && playlistEndTimer == old(playlistEndTimer)
      ensures outcome.Loaded? && !old(ready) ==> AfterPlaySong(0) && currentSong == 0 && !endRequested
    {
      endRequested := false;
      if |name| == 0 {
        return EmptyName, false;
      }
      var found := SearchSavedPlaylistsByName(rows, name);
      if |found| == 0 {
        return NotFound, false;
      }
      if |found| > 1 {
        return Ambiguous(PlaylistNames(found)), false;
      }
      var loaded, failed := PartitionSongs(songs, results, now);
      PartitionSizes(songs, results, now);
      if |failed| == |results| {
        return NothingLoaded, false;
      }
      playList := loaded;
      if ready {
        currentSong := -1;
        endRequested := true;
      } else {
        ready := true;
        PlaySong(0);
      }
      outcome := Loaded(|loaded|, failed);
    }
  }

  /**
   * Two adds that overlap while their videos resolve: a third request for the
   * first video is turned away while it loads, and the first add to finish
   * takes out its own id, not the one pushed last.
   */
  method OverlappingAdds(a: VideoInfo, b: VideoInfo, now: int)
    requires a.playable && b.playable && a.videoId != b.videoId
  {
    var player := new MusicPlayer();
    var first := player.BeginAddSong(Some(a.videoId));
    var second := player.BeginAddSong(Some(b.videoId));
    assert first.None? && second.None?;
    assert player.loadingQueue == [a.videoId, b.videoId];
    var again := player.BeginAddSong(Some(a.videoId));
    assert again == Some(AlreadyLoading);
    assert IndexOf([a.videoId, b.videoId], a.videoId) == 0;
    assert RemoveAt([a.videoId, b.videoId], 0) == [b.videoId];
    var doneA := player.CompleteAddSong(a.videoId, "user", Resolved(a), now);
    assert player.loadingQueue == [b.videoId];
    assert doneA == Added(1) && player.currentSong == 0;
  }

  /**
   * Removing an entry before the current one does not move the index back:
   * with three entries and the second playing, removing the first leaves the
   * index on the old third entry, and when the dispatcher's end request
   * finishes the track the player goes idle without playing it.
   */
  method RemovingAnEarlierEntrySkipsOne(t0: Track, t1: Track, t2: Track)
  {
    var player := new MusicPlayer();
    player.playList := [t0, t1, t2];
    player.PlaySong(1);
    var removed := player.RemoveSong(Some(0));
    assert removed == Removed(0);
    assert player.playList == [t1, t2] && player.currentSong == 1;
    player.OnTrackFinish();
    assert player.currentSong == -1 && player.playlistEndTimer == Armed(IdleDisconnectMs);
  }

  /**
   * Both halves of the link check read the index anew: when the playing entry
   * is removed while its video is re-resolved, the index has moved back one
   * place, the fresh link of the removed video is written into the entry
   * before it, and the new dispatcher streams that entry with it.
   */
  method RemovalDuringLinkCheck(t0: Track, t1: Track, info: VideoInfo, now: int)
    requires t1.linkExpiration.None? && info.playable
  {
    var player := new MusicPlayer();
    player.playList := [t0, t1];
    player.PlaySong(1);
    var refresh := player.BeginLinkCheck(now);
    assert refresh;
    var removed := player.RemoveSong(Some(1));
    assert removed == Removed(1) && player.currentSong == 0;
    var check := player.CompleteLinkCheck(Resolved(info), now);
    assert player.playList == [WithLink(t0, info.audioUrl, LinkExpiration(info.expireParam, now))];
    var start := player.StartStream(check);
    assert start == Streaming && player.currentSong == 0;
  }

  /**
   * A player disposed while a save waits for the database: the checks passed
   * on one song, but the song insert is built from the emptied playlist and is
   * the malformed statement with no values.
   */
  method SaveAfterDispose(t: Track)
  {
    var player := new MusicPlayer();
    player.playList := [t];
    var rejected := player.BeginSavePlaylist("mix");
    assert rejected == None;
    player.Dispose();
    var outcome := player.CompleteSavePlaylist("mix", "user", false, "7");
    assert outcome == Saved(["mix", "user"], EmptySongInsert, []);
  }
}
