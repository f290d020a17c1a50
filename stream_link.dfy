/**
 * The stream-link rules both player versions share: how long a resolved
 * audio link is trusted (`getBestQualityDownloadFormat`) and when it is
 * resolved again before playing (`checkDownloadLinkValidity`). Times are
 * UNIX timestamps in seconds; the current time is always a parameter.
 */
module StreamLink {
  import opened Optional

  /** The resolver errors the player tells apart by message, plus everything else. */
  datatype FailureReason = Private | Unavailable | MissingPlayerConfig | OtherFailure

  /**
   * What the video resolver reports for a video: whether it is playable
   * (`playabilityStatus.status === 'OK'`), its id, title and length, the URL
   * of the best audio-only format and that URL's `expire` query value, if any.
   */
  datatype VideoInfo = VideoInfo(
    playable: bool,
    videoId: string,
    title: string,
    lengthSeconds: nat,
    audioUrl: string,
    expireParam: Option<int>)

  /** One call of the resolver: its info, or the error it raised. */
  datatype Resolution = Resolved(info: VideoInfo) | Failed(reason: FailureReason)

  /** A link is dropped this many seconds before the expiry it declares. */
  const ExpirySafetyMargin: int := 40

  /** Lifetime assumed for a link that declares no expiry: about six hours, minus the margin. */
  const DefaultLinkLifetime: int := 21500

  /** The expiry `getBestQualityDownloadFormat` stores for a freshly resolved link. */
  function LinkExpiration(expireParam: Option<int>, now: int): (r: int)
    ensures expireParam.Some? ==> r + ExpirySafetyMargin == expireParam.value
    ensures expireParam.None? ==> r - now == DefaultLinkLifetime
  {
    match expireParam
    case Some(expire) => expire - ExpirySafetyMargin
    case None => now + DefaultLinkLifetime
  }

  /** The test in `checkDownloadLinkValidity`: no stored expiry, or one already passed. */
  predicate NeedsRefresh(expiration: Option<int>, now: int)
  {
    expiration.None? || expiration.value < now
  }

  /** What the validity check does with an entry's link. */
  datatype LinkCheck =
    | KeepLink                                  // still valid: the entry is left as it is
    | NewLink(url: string, expiration: int)     // re-resolved: both link fields are overwritten
    | LinkFailed(reason: FailureReason)         // re-resolving failed: the entry is left as it is

  /**
   * `checkDownloadLinkValidity` on the stored expiry of the current entry, with
   * `res` the answer the resolver would give if it is asked again.
   */
  function CheckLink(expiration: Option<int>, now: int, res: Resolution): (r: LinkCheck)
    ensures r.KeepLink? <==> !NeedsRefresh(expiration, now)
    ensures r.NewLink? <==> NeedsRefresh(expiration, now) && res.Resolved? && res.info.playable
    ensures r.NewLink? ==> r.url == res.info.audioUrl && r.expiration == LinkExpiration(res.info.expireParam, now)
    ensures r.LinkFailed? ==> r.reason == (if res.Resolved? then Unavailable else res.reason)
  {
    if !NeedsRefresh(expiration, now) then KeepLink
    else match res
      case Resolved(info) =>
        if info.playable then NewLink(info.audioUrl, LinkExpiration(info.expireParam, now))
        else LinkFailed(Unavailable)
      case Failed(reason) => LinkFailed(reason)
  }

  /**
   * A link whose URL declares an expiry is used only while at least the safety
   * margin is left before that expiry, and always while it is.
   */
  lemma DeclaredExpiryKeepsMargin(expire: int, resolvedAt: int, now: int)
    ensures !NeedsRefresh(Some(LinkExpiration(Some(expire), resolvedAt)), now)
        <==> now + ExpirySafetyMargin <= expire
  {
  }

  /** A link without a declared expiry is used for the default lifetime after it was resolved. */
  lemma DefaultExpiryLifetime(resolvedAt: int, now: int)
    ensures !NeedsRefresh(Some(LinkExpiration(None, resolvedAt)), now)
        <==> now <= resolvedAt + DefaultLinkLifetime
  {
  }

  /**
   * A link 30 seconds from its declared expiry is inside the margin: checking
   * it re-resolves the video instead of playing the old link.
   */
  lemma ThirtySecondsLeftIsStale(expire: int, resolvedAt: int, res: Resolution)
    ensures !CheckLink(Some(LinkExpiration(Some(expire), resolvedAt)), expire - 30, res).KeepLink?
  {
  }

  /** Checking a second time in the same second after a successful refresh keeps the new link, provided it is not stale on arrival. */
  lemma RefreshedLinkIsKept(expiration: Option<int>, now: int, res: Resolution, again: Resolution)
    requires CheckLink(expiration, now, res).NewLink?
    requires res.info.expireParam.None? || now + ExpirySafetyMargin <= res.info.expireParam.value
    ensures CheckLink(Some(CheckLink(expiration, now, res).expiration), now, again) == KeepLink
  {
  }
}
