/**
 * The earlier draft of the player, `MusicPlayer` in src/musicPlayerNew.ts.
 * It has the shape of the final class (module `Player`) with these
 * differences, which the model keeps: no loading queue (so two overlapping
 * adds of one video both pass the playlist scan), durations stored as
 * the resolver's decimal text, `playSong` leaves the playlist-end timer
 * alone, the disconnect handler disposes unconditionally, the constructor's
 * continuation always marks the player ready, and a missing player config is
 * reported as a generic failure.
 */
module PlayerDraft {
  import opened Optional
  import opened Playback
  import opened StreamLink
  import opened Util

  /** One playlist entry; the duration is kept as text. */
  datatype Track = Track(
    videoId: string,
    downloadLink: Option<string>,
    linkExpiration: Option<int>,
    title: string,
    duration: string,
    addedBy: string)

  /** The entry pushed for a resolved video; `lengthSeconds` is stored as its decimal text. */
  function TrackFromInfo(info: VideoInfo, addedBy: string, now: int): Track
  {
    Track(info.videoId, Some(info.audioUrl), Some(LinkExpiration(info.expireParam, now)),
          info.title, NatToString(info.lengthSeconds), addedBy)
  }

  /** Both link fields set to null. */
  function WithoutLink(t: Track): Track
  {
    t.(downloadLink := None, linkExpiration := None)
  }

  /** Both link fields overwritten with a freshly resolved link. */
  function WithLink(t: Track, url: string, expiration: int): Track
  {
    t.(downloadLink := Some(url), linkExpiration := Some(expiration))
  }

  /** `alreadyExists`: whether some entry holds the video. */
  function AlreadyExists(playList: seq<Track>, videoId: string): (r: bool)
    ensures r <==> exists i :: 0 <= i < |playList| && playList[i].videoId == videoId
  {
    if |playList| == 0 then false
    else playList[0].videoId == videoId || AlreadyExists(playList[1..], videoId)
  }

  /** The reply the draft's `addSong` sends. */
  datatype AddOutcome =
    | InvalidLink
    | AlreadyInPlaylist
    | NotPlayable
    | ResolveFailed(reason: FailureReason)
    | Added(position: nat)   // the 1-based position shown to the user

  /** The draft's `catch` knows only the private and the unavailable message; the rest is generic. */
  function ReportedReason(reason: FailureReason): (r: FailureReason)
    ensures r != MissingPlayerConfig
    ensures reason != MissingPlayerConfig ==> r == reason
  {
    if reason == MissingPlayerConfig then OtherFailure else reason
  }

  class MusicPlayer {
    var playList: seq<Track>
    var currentSong: int
    var ready: bool
    var dispatcherExists: bool
    var dispatcherPaused: bool
    var playlistEndTimer: Timer
    var emptyChannelTimer: Timer

    /** What every method keeps: the index is -1 or above, only an existing dispatcher can be paused. */
    ghost predicate Valid()
      reads this
    {
      -1 <= currentSong && (dispatcherPaused ==> dispatcherExists)
    }

    /** The index `playSong(position)` leaves behind before it awaits the voice connection. */
    predicate AfterPlaySong(position: int)
      reads this
    {
      if 0 <= position < |playList| then currentSong == position
      else currentSong == -1 && playlistEndTimer == Armed(IdleDisconnectMs)
    }

    /** The synchronous part of the constructor: an empty, idle, not yet ready player. */
    constructor ()
      ensures Valid()
      ensures playList == [] && currentSong == -1 && !ready
      ensures !dispatcherExists && !dispatcherPaused
      ensures playlistEndTimer == Cleared && emptyChannelTimer == Cleared
    {
      playList := [];
      currentSong := -1;
      ready := false;
      dispatcherExists := false;
      dispatcherPaused := false;
      playlistEndTimer := Cleared;
      emptyChannelTimer := Cleared;
    }

    /** The constructor's continuation after its first `addSong`: ready whatever the add did. */
    method FinishCreation()
      modifies this`ready
      ensures ready
    {
      ready := true;
    }

    /**
     * `playSong` up to its await: an existing position becomes current, the
     * playlist-end timer is left as it is; any other position makes the player
     * idle and arms that timer.
     */
    method PlaySong(position: int)
      modifies this`currentSong, this`playlistEndTimer
      ensures AfterPlaySong(position)
      ensures 0 <= position < |playList| ==> playlistEndTimer == old(playlistEndTimer)
    {
      if 0 <= position < |playList| {
        currentSong := position;
      } else {
        currentSong := -1;
        playlistEndTimer := Armed(IdleDisconnectMs);
      }
    }

    /**
     * `addSong` up to its await: the link is validated and the playlist is
     * scanned for the video. Nothing is changed and, the draft having no loading
     * queue, nothing records that the video is now being resolved. A `None`
     * result means the resolver is now asked.
     */
    method BeginAddSong(videoId: Option<string>) returns (rejected: Option<AddOutcome>)
      ensures videoId.None? ==> rejected == Some(InvalidLink)
      ensures videoId.Some? && AlreadyExists(playList, videoId.value) ==> rejected == Some(AlreadyInPlaylist)
      ensures rejected.None? <==> videoId.Some? && !AlreadyExists(playList, videoId.value)
    {
      if videoId.None? {
        return Some(InvalidLink);
      }
      if AlreadyExists(playList, videoId.value) {
        return Some(AlreadyInPlaylist);
      }
      return None;
    }

    /**
     * `addSong` after the resolver answered `res`: a playable video is pushed
     * onto the playlist as it is now, without scanning it again, and started
     * when the player is idle.
     */
    method CompleteAddSong(addedBy: string, res: Resolution, now: int) returns (outcome: AddOutcome)
      requires Valid()
      modifies this`playList, this`currentSong, this`playlistEndTimer
      ensures Valid()
      ensures res.Resolved? && res.info.playable ==>
        playList == old(playList) + [TrackFromInfo(res.info, addedBy, now)] && outcome == Added(|playList|)
      ensures res.Resolved? && !res.info.playable ==> outcome == NotPlayable
      ensures res.Failed? ==> outcome == ResolveFailed(ReportedReason(res.reason))
      ensures !outcome.Added? ==> playList == old(playList)
      ensures outcome.Added? && old(currentSong) == -1 ==> AfterPlaySong(|playList| - 1)
      ensures outcome.Added? && old(currentSong) == -1 ==> playlistEndTimer == old(playlistEndTimer)
      ensures !(outcome.Added? && old(currentSong) == -1) ==>
        currentSong == old(currentSong) && playlistEndTimer == old(playlistEndTimer)
    {
      match res {
        case Resolved(info) =>
          if info.playable {
            playList := playList + [TrackFromInfo(info, addedBy, now)];
            outcome := Added(|playList|);
            if currentSong == -1 {
              PlaySong(|playList| - 1);
            }
          } else {
            outcome := NotPlayable;
          }
        case Failed(reason) =>
          outcome := ResolveFailed(ReportedReason(reason));
      }
    }

    /**
     * `addSong` when nothing else runs while the resolver is asked: a valid
     * link to a new, playable video appends one entry, started when the player
     * is idle.
     */
    method AddSong(videoId: Option<string>, addedBy: string, res: Resolution, now: int) returns (outcome: AddOutcome)
      requires Valid()
      modifies this`playList, this`currentSong, this`playlistEndTimer
      ensures Valid()
      ensures videoId.None? ==> outcome == InvalidLink
      ensures videoId.Some? && AlreadyExists(old(playList), videoId.value) ==> outcome == AlreadyInPlaylist
      ensures outcome.Added? <==>
        videoId.Some? && !AlreadyExists(old(playList), videoId.value) && res.Resolved? && res.info.playable
      ensures outcome.Added? ==>
        playList == old(playList) + [TrackFromInfo(res.info, addedBy, now)] && outcome.position == |playList|
      ensures outcome.Added? && old(currentSong) == -1 ==> AfterPlaySong(|playList| - 1)
      ensures outcome.Added? && old(currentSong) == -1 ==> playlistEndTimer == old(playlistEndTimer)
      ensures !(outcome.Added? && old(currentSong) == -1) ==>
        currentSong == old(currentSong) && playlistEndTimer == old(playlistEndTimer)
      ensures !outcome.Added? ==> playList == old(playList)
      ensures videoId.Some? && !AlreadyExists(old(playList), videoId.value) && res.Resolved? && !res.info.playable ==>
        outcome == NotPlayable
      ensures videoId.Some? && !AlreadyExists(old(playList), videoId.value) && res.Failed? ==>
        outcome == ResolveFailed(ReportedReason(res.reason))
    {
      var rejected := BeginAddSong(videoId);
      if rejected.Some? {
        return rejected.value;
      }
      outcome := CompleteAddSong(addedBy, res, now);
    }

    /** `playSong` when joining the voice channel failed: only a timeout is retried. */
    method OnVoiceJoinFailed(position: int, error: JoinError)
      modifies this`currentSong, this`playlistEndTimer
      ensures error == ConnectTimeout ==> AfterPlaySong(position)
      ensures error != ConnectTimeout || 0 <= position < |playList| ==> playlistEndTimer == old(playlistEndTimer)
      ensures error != ConnectTimeout ==> currentSong == old(currentSong)
    {
      if error == ConnectTimeout {
        PlaySong(position);
      }
    }

    /** `checkDownloadLinkValidity` when nothing runs during the re-resolution, with `res` what the resolver answers if asked. */
    method CheckDownloadLinkValidity(now: int, res: Resolution) returns (check: LinkCheck)
      requires 0 <= currentSong < |playList|
      modifies this`playList
      ensures check == CheckLink(old(playList)[currentSong].linkExpiration, now, res)
      ensures check.NewLink? ==>
        playList == old(playList)[currentSong := WithLink(old(playList)[currentSong], check.url, check.expiration)]
      ensures !check.NewLink? ==> playList == old(playList)
    {
      var refresh := BeginLinkCheck(now);
      if !refresh {
        return KeepLink;
      }
      check := CompleteLinkCheck(res, now);
    }

    /** `checkDownloadLinkValidity` up to its await: whether the current entry's link must be resolved again. */
    method BeginLinkCheck(now: int) returns (refresh: bool)
      requires 0 <= currentSong < |playList|
      ensures refresh <==> NeedsRefresh(playList[currentSong].linkExpiration, now)
    {
      var expiration := playList[currentSong].linkExpiration;
      refresh := expiration.None? || expiration.value < now;
    }

    /**
     * `checkDownloadLinkValidity` after the resolver answered `res` at time
     * `renewedAt`: a playable answer is written into the entry at the index
     * as it is by then. When the index holds no entry any more, that write
     * throws inside the `try`, and the error is reported as a failure.
     */
    method CompleteLinkCheck(res: Resolution, renewedAt: int) returns (check: LinkCheck)
      modifies this`playList
      ensures res.Resolved? && res.info.playable && 0 <= currentSong < |old(playList)| ==>
        check == NewLink(res.info.audioUrl, LinkExpiration(res.info.expireParam, renewedAt))
        && playList == old(playList)[currentSong := WithLink(old(playList)[currentSong], check.url, check.expiration)]
      ensures res.Resolved? && res.info.playable && !(0 <= currentSong < |old(playList)|) ==>
        check == LinkFailed(OtherFailure) && playList == old(playList)
      ensures res.Resolved? && !res.info.playable ==> check == LinkFailed(Unavailable) && playList == old(playList)
      ensures res.Failed? ==> check == LinkFailed(res.reason) && playList == old(playList)
    {
      match res {
        case Resolved(info) =>
          if !info.playable {
            return LinkFailed(Unavailable);
          }
          if !(0 <= currentSong < |playList|) {
            return LinkFailed(OtherFailure);
          }
          check := NewLink(info.audioUrl, LinkExpiration(info.expireParam, renewedAt));
          playList := playList[currentSong := WithLink(playList[currentSong], check.url, check.expiration)];
        case Failed(reason) =>
          check := LinkFailed(reason);
      }
    }

    /** `createStreamDispatcher`: stream the current entry with a usable link, or play the next one. */
    method CreateStreamDispatcher(now: int, res: Resolution) returns (start: StreamStart)
      requires Valid()
      modifies this`playList, this`currentSong, this`playlistEndTimer, this`dispatcherExists, this`dispatcherPaused
      ensures Valid()
      ensures !(0 <= old(currentSong) < |old(playList)|) ==>
        start == NoCurrentTrack && playList == old(playList) && currentSong == old(currentSong)
        && playlistEndTimer == old(playlistEndTimer)
        && dispatcherExists == old(dispatcherExists) && dispatcherPaused == old(dispatcherPaused)
      ensures 0 <= old(currentSong) < |old(playList)| ==>
        var check := CheckLink(old(playList)[old(currentSong)].linkExpiration, now, res);
        (check.LinkFailed? ==>
          start == SkippedUnplayable(check.reason) && playList == old(playList)
          && AfterPlaySong(old(currentSong) + 1)
          && (old(currentSong) + 1 < |old(playList)| ==> playlistEndTimer == old(playlistEndTimer))
          && dispatcherExists == old(dispatcherExists) && dispatcherPaused == old(dispatcherPaused))
        && (!check.LinkFailed? ==>
          start == Streaming && dispatcherExists && !dispatcherPaused
          && currentSong == old(currentSong) && playlistEndTimer == old(playlistEndTimer)
          && playList == (if check.NewLink? then old(playList)[old(currentSong) := WithLink(old(playList)[old(currentSong)], check.url, check.expiration)]
                          else old(playList)))
    {
      if !(0 <= currentSong < |playList|) {
        return NoCurrentTrack;
      }
      var check := CheckDownloadLinkValidity(now, res);
      start := StartStream(check);
    }

    /**
     * `createStreamDispatcher` after the link check answered `check`, on the
     * index as it is by then: a failed link plays the position after it; a
     * usable one is streamed by a new, unpaused dispatcher, unless the index
     * no longer holds an entry, where reading its link throws and nothing
     * changes.
     */
    method StartStream(check: LinkCheck) returns (start: StreamStart)
      requires Valid()
      modifies this`currentSong, this`playlistEndTimer, this`dispatcherExists, this`dispatcherPaused
      ensures Valid()
      ensures check.LinkFailed? ==>
        start == SkippedUnplayable(check.reason) && AfterPlaySong(old(currentSong) + 1)
        && (0 <= old(currentSong) + 1 < |playList| ==> playlistEndTimer == old(playlistEndTimer))
        && dispatcherExists == old(dispatcherExists) && dispatcherPaused == old(dispatcherPaused)
      ensures !check.LinkFailed? && 0 <= old(currentSong) < |playList| ==>
        start == Streaming && dispatcherExists && !dispatcherPaused
        && currentSong == old(currentSong) && playlistEndTimer == old(playlistEndTimer)
      ensures !check.LinkFailed? && !(0 <= old(currentSong) < |playList|) ==>
        start == NoCurrentTrack && currentSong == old(currentSong) && playlistEndTimer == old(playlistEndTimer)
        && dispatcherExists == old(dispatcherExists) && dispatcherPaused == old(dispatcherPaused)
    {
      if check.LinkFailed? {
        start := SkippedUnplayable(check.reason);
        PlaySong(currentSong + 1);
      } else if 0 <= currentSong < |playList| {
        dispatcherExists := true;
        dispatcherPaused := false;
        start := Streaming;
      } else {
        start := NoCurrentTrack;
      }
    }

    /** The dispatcher's `finish` handler: drop the current entry's link, if any, and play the next position. */
    method OnTrackFinish()
      requires Valid()
      modifies this`playList, this`currentSong, this`playlistEndTimer
      ensures Valid()
      ensures 0 <= old(currentSong) < |old(playList)| ==>
        playList == old(playList)[old(currentSong) := WithoutLink(old(playList)[old(currentSong)])]
      ensures !(0 <= old(currentSong) < |old(playList)|) ==> playList == old(playList)
      ensures AfterPlaySong(old(currentSong) + 1)
      ensures 0 <= old(currentSong) + 1 < |playList| ==> playlistEndTimer == old(playlistEndTimer)
    {
      if 0 <= currentSong < |playList| {
        playList := playList[currentSong := WithoutLink(playList[currentSong])];
      }
      PlaySong(currentSong + 1);
    }

    /** The dispatcher's `error` handler; with no entry at the index the source throws first. */
    method OnTrackError() returns (handled: bool)
      requires Valid()
      modifies this`playList, this`currentSong, this`playlistEndTimer
      ensures Valid()
      ensures handled <==> 0 <= old(currentSong) < |old(playList)|
      ensures handled ==>
        playList == old(playList)[old(currentSong) := WithoutLink(old(playList)[old(currentSong)])]
        && AfterPlaySong(old(currentSong) + 1)
        && (old(currentSong) + 1 < |playList| ==> playlistEndTimer == old(playlistEndTimer))
      ensures !handled ==>
        playList == old(playList) && currentSong == old(currentSong) && playlistEndTimer == old(playlistEndTimer)
    {
      if !(0 <= currentSong < |playList|) {
        return false;
      }
      playList := playList[currentSong := WithoutLink(playList[currentSong])];
      PlaySong(currentSong + 1);
      return true;
    }

    /** `removeSong`: cut out an existing position; the index moves back only for the current entry. */
    method RemoveSong(position: Option<int>) returns (outcome: RemoveOutcome)
      requires Valid()
      modifies this`playList, this`currentSong
      ensures Valid()
      ensures position.Some? && 0 <= position.value < |old(playList)| ==>
        outcome == Removed(position.value)
        && |playList| == |old(playList)| - 1
        && (forall i :: 0 <= i < position.value ==> playList[i] == old(playList)[i])
        && (forall i :: position.value <= i < |playList| ==> playList[i] == old(playList)[i + 1])
        && currentSong == (if old(currentSong) == position.value then old(currentSong) - 1 else old(currentSong))
      ensures position.Some? && !(0 <= position.value < |old(playList)|) ==> outcome == NoSuchPosition(position.value)
      ensures position.None? ==> outcome == NotANumber
      ensures !outcome.Removed? ==> playList == old(playList) && currentSong == old(currentSong)
    {
      if position.Some? && 0 <= position.value < |playList| {
        var p := position.value;
        playList := playList[..p] + playList[p + 1..];
        if currentSong == p {
          currentSong := currentSong - 1;
        }
        return Removed(p);
      }
      if position.Some? {
        return NoSuchPosition(position.value);
      }
      return NotANumber;
    }

    /** `pause`: acts only on a playing dispatcher; afterwards there is nothing left to pause. */
    method Pause() returns (acted: bool)
      requires Valid()
      modifies this`dispatcherPaused
      ensures Valid()
      ensures acted <==> old(dispatcherExists && !dispatcherPaused)
      ensures acted ==> dispatcherPaused
      ensures !acted ==> dispatcherPaused == old(dispatcherPaused)
      ensures !(dispatcherExists && !dispatcherPaused)
    {
      acted := dispatcherExists && !dispatcherPaused;
      if acted {
        dispatcherPaused := true;
      }
    }

    /** `unpause`: acts only on a paused dispatcher; afterwards there is nothing left to resume. */
    method Unpause() returns (acted: bool)
      requires Valid()
      modifies this`dispatcherPaused
      ensures Valid()
      ensures acted <==> old(dispatcherExists && dispatcherPaused)
      ensures acted ==> !dispatcherPaused
      ensures !acted ==> dispatcherPaused == old(dispatcherPaused)
      ensures !(dispatcherExists && dispatcherPaused)
    {
      acted := dispatcherExists && dispatcherPaused;
      if acted {
        dispatcherPaused := false;
      }
    }

    /** `skip`: asks the dispatcher to end exactly when the player is not idle; it changes nothing itself. */
    method Skip() returns (endRequested: bool)
      ensures endRequested <==> currentSong != -1
    {
      endRequested := currentSong != -1;
    }

    /** `dispose`: not ready, empty and idle, both timers cleared. */
    method Dispose()
      requires Valid()
      modifies this`ready, this`playList, this`currentSong, this`playlistEndTimer, this`emptyChannelTimer
      ensures Valid()
      ensures !ready && playList == [] && currentSong == -1
      ensures playlistEndTimer == Cleared && emptyChannelTimer == Cleared
    {
      playList := [];
      currentSong := -1;
      ready := false;
      playlistEndTimer := Cleared;
      emptyChannelTimer := Cleared;
    }

    /** The voice connection's `disconnect` handler: the draft disposes whether or not it is ready. */
    method OnDisconnect()
      requires Valid()
      modifies this`ready, this`playList, this`currentSong, this`playlistEndTimer, this`emptyChannelTimer
      ensures Valid()
      ensures !ready && playList == [] && currentSong == -1
      ensures playlistEndTimer == Cleared && emptyChannelTimer == Cleared
    {
      Dispose();
    }
  }

  /**
   * The draft's playlist-end timer outlives playback: once the player went idle,
   * adding a song starts it while the five-minute disconnect stays armed.
   */
  method IdleTimerSurvivesNewSong(info: VideoInfo, now: int)
    requires info.playable
  {
    var player := new MusicPlayer();
    player.PlaySong(0);
    assert player.playlistEndTimer == Armed(IdleDisconnectMs);
    var outcome := player.AddSong(Some(info.videoId), "user", Resolved(info), now);
    assert outcome == Added(1);
    assert player.currentSong == 0;
    assert player.playlistEndTimer == Armed(IdleDisconnectMs);
  }

  /**
   * Two adds of the same video that overlap both pass the playlist scan, since
   * the first is still waiting for the resolver when the second looks, and
   * the draft then holds the video twice.
   */
  method OverlappingAddsDuplicate(info: VideoInfo, now: int)
    requires info.playable
  {
    var player := new MusicPlayer();
    var first := player.BeginAddSong(Some(info.videoId));
    var second := player.BeginAddSong(Some(info.videoId));
    assert first.None? && second.None?;
    var doneFirst := player.CompleteAddSong("user", Resolved(info), now);
    var doneSecond := player.CompleteAddSong("user", Resolved(info), now);
    assert doneFirst == Added(1) && doneSecond == Added(2);
    assert player.playList[0].videoId == player.playList[1].videoId == info.videoId;
  }
}
