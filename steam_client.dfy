/**
 * Shapes returned by the Steam Web API and the validation step of
 * `getPlayerAchievements` that runs after its HTTP request.
 */
module SteamClient {
  import opened Wrappers

  /** One entry of the owned-games list (`appid`, optional `name` and `playtime_forever`). */
  datatype OwnedGame = OwnedGame(appid: int, name: Option<string>, playtimeForever: Option<int>)

  /** `playtime_forever ?? 0`. */
  function Playtime(g: OwnedGame): int {
    match g.playtimeForever
    case Some(p) => p
    case None => 0
  }

  /** One achievement of one game: `achieved` is 1 when unlocked; `unlocktime` is in unix seconds. */
  datatype SteamAchievement = SteamAchievement(apiname: string, achieved: int, unlocktime: Option<int>)

  datatype PlayerStats = PlayerStats(
    steamID: Option<string>,
    gameName: Option<string>,
    achievements: Option<seq<SteamAchievement>>,
    error: Option<string>)

  /** The decoded JSON body; `playerstats` may be missing. */
  datatype AchievementsBody = AchievementsBody(playerstats: Option<PlayerStats>)

  /** The HTTP response as the client sees it; `body` is None when it is not a JSON object. */
  datatype HttpResponse = HttpResponse(ok: bool, status: int, statusText: string, body: Option<AchievementsBody>)

  /** The record `getPlayerAchievements` resolves to. */
  datatype PlayerAchievements = PlayerAchievements(
    steamID: Option<string>,
    gameName: Option<string>,
    achievements: seq<SteamAchievement>)

  /** Why a provider call was rejected. */
  datatype ProviderError =
    | TransportFailed
    | HttpFailed(status: int, statusText: string)
    | MalformedJson
    | MissingPlayerstats
    | SteamApiError(message: string)

  /** JavaScript truthiness of an optional string field. */
  predicate TruthyText(s: Option<string>) {
    s.Some? && s.value != ""
  }

  /**
   * The checks `getPlayerAchievements` applies to a response: a non-ok status,
   * an undecodable body, a missing `playerstats` or a non-empty `error` is an
   * error; otherwise missing `steamID`/`gameName` become null and missing
   * `achievements` an empty list.
   */
  function ParsePlayerAchievements(res: HttpResponse): (r: Result<PlayerAchievements, ProviderError>)
    ensures !res.ok ==> r == Err(HttpFailed(res.status, res.statusText))
    ensures res.ok && res.body.None? ==> r == Err(MalformedJson)
    ensures res.ok && res.body.Some? && res.body.value.playerstats.None? ==> r == Err(MissingPlayerstats)
    ensures r.Ok? <==>
      res.ok && res.body.Some? && res.body.value.playerstats.Some?
      && !TruthyText(res.body.value.playerstats.value.error)
    ensures r.Ok? ==>
      var ps := res.body.value.playerstats.value;
      && r.value.steamID == ps.steamID
      && r.value.gameName == ps.gameName
      && r.value.achievements == (if ps.achievements.Some? then ps.achievements.value else [])
    ensures r.Err? && res.ok && res.body.Some? && res.body.value.playerstats.Some? ==>
      r == Err(SteamApiError(res.body.value.playerstats.value.error.value))
  {
    if !res.ok then Err(HttpFailed(res.status, res.statusText))
    else if res.body.None? then Err(MalformedJson)
    else
      match res.body.value.playerstats
      case None => Err(MissingPlayerstats)
      case Some(ps) =>
        if TruthyText(ps.error) then Err(SteamApiError(ps.error.value))
        else
          Ok(PlayerAchievements(
            ps.steamID,
            ps.gameName,
            match ps.achievements case Some(list) => list case None => []))
  }

  /** A well-formed success response carrying `pa`. */
  function ResponseFor(pa: PlayerAchievements, status: int, statusText: string): HttpResponse {
    HttpResponse(true, status, statusText,
      Some(AchievementsBody(Some(PlayerStats(pa.steamID, pa.gameName, Some(pa.achievements), None)))))
  }

  /** Validation gives back exactly what a well-formed response carries. */
  lemma ParseResponseForRoundTrip(pa: PlayerAchievements, status: int, statusText: string)
    ensures ParsePlayerAchievements(ResponseFor(pa, status, statusText)) == Ok(pa)
  {
  }

  /** An empty `error` string is falsy and does not reject the response. */
  lemma EmptyErrorIsAccepted(ps: PlayerStats, status: int)
    requires ps.error == Some("")
    ensures ParsePlayerAchievements(HttpResponse(true, status, "OK", Some(AchievementsBody(Some(ps))))).Ok?
  {
  }
}
