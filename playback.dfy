/**
 * The vocabulary both player versions share: the disconnect timers, the
 * voice-join errors, and the replies of `createStreamDispatcher` and
 * `removeSong`.
 */
module Playback {
  import opened StreamLink

  /** A disconnect timer: none pending, or one set with this delay and not cleared since. */
  datatype Timer = Cleared | Armed(delayMs: nat)

  /** The playlist-end and empty-channel timers both wait five minutes. */
  const IdleDisconnectMs: nat := 300000

  /** The errors `playSong` tells apart when joining the voice channel fails. */
  datatype JoinError = NoPermission | ConnectTimeout | OtherJoinError

  /** How `createStreamDispatcher` ended. */
  datatype StreamStart =
    | NoCurrentTrack                           // the current index holds no entry: the source throws
    | Streaming                                // a dispatcher plays the current entry
    | SkippedUnplayable(reason: FailureReason) // the link could not be renewed: next song

  /** The reply `removeSong` sends; `NotANumber` is the NaN a non-number parses to. */
  datatype RemoveOutcome = Removed(position: nat) | NoSuchPosition(requested: int) | NotANumber
}
