/**
 * The REST handlers of worker/user-routes.ts over an in-memory copy of the two
 * tables. Each handler is one atomic step on the tables and answers with the
 * envelope of Types: `Ok(data)`, `Bad(msg)` (400) or `NotFound(msg)` (404).
 *
 * The sources of nondeterminism are parameters: `freshId` stands for
 * `crypto.randomUUID()` (an id no row of the table has yet), `now` for
 * `new Date()`, and `probeSucceeds` for whether the `SELECT 1` probe returns.
 */
module UserRoutes {
  import opened Types
  import opened Tables

  /** One field of a parsed JSON request body: a string, or anything else (an absent key included). */
  datatype JsonValue = JString(s: string) | NonString

  /** The fields a channel create or update reads from its body. */
  datatype ChannelBody = ChannelBody(title: JsonValue, description: JsonValue, coverArtUrl: JsonValue)

  /** The fields an episode create or update reads from its body. */
  datatype EpisodeBody = EpisodeBody(title: JsonValue, description: JsonValue, audioUrl: JsonValue)

  /** The worker's bindings: the `DATABASE_URL` secret, possibly unset. */
  datatype Env = Env(databaseUrl: Option<string>)

  /** The payload of the health check. */
  datatype HealthStatus = HealthStatus(databaseUrlConfigured: bool, databaseConnected: bool, timestamp: Timestamp)

  const ChannelNotFound := "channel not found"
  const EpisodeNotFound := "episode not found"
  const ChannelFieldsRequired := "title, description, and coverArtUrl are required"
  const EpisodeFieldsRequired := "title, description, and audioUrl are required"

  /** `DATABASE_URL` is truthy: set and not the empty string. */
  predicate UrlConfigured(env: Env)
  {
    env.databaseUrl.Some? && |env.databaseUrl.value| > 0
  }

  class CatalogService {
    var channels: seq<Channel>
    var episodes: seq<Episode>
    /**
     * What `isStr` accepts among string values. Its definition is not part of
     * this model; all that is used is that it holds of strings only.
     */
    const accepts: string -> bool
    const env: Env

    /** The schema's constraints hold between requests. */
    ghost predicate Valid()
      reads this
    {
      Consistent(channels, episodes)
    }

    predicate IsStr(v: JsonValue)
    {
      v.JString? && accepts(v.s)
    }

    predicate ChannelBodyValid(b: ChannelBody)
    {
      IsStr(b.title) && IsStr(b.description) && IsStr(b.coverArtUrl)
    }

    predicate EpisodeBodyValid(b: EpisodeBody)
    {
      IsStr(b.title) && IsStr(b.description) && IsStr(b.audioUrl)
    }

    constructor (channels: seq<Channel>, episodes: seq<Episode>, accepts: string -> bool, env: Env)
      requires Consistent(channels, episodes)
      ensures Valid()
      ensures this.channels == channels && this.episodes == episodes
      ensures this.accepts == accepts && this.env == env
    {
      this.channels := channels;
      this.episodes := episodes;
      this.accepts := accepts;
      this.env := env;
    }

    /** GET /api/channels: every channel. */
    method ListChannels() returns (r: ApiResponse<seq<Channel>>)
      ensures r.Ok? && r.data == channels
    {
      r := Ok(channels);
    }

    /** GET /api/channels/:id */
    method GetChannel(id: Id) returns (r: ApiResponse<Channel>)
      ensures !r.Bad?
      ensures r.NotFound? <==> id !in Keys(channels, ChannelKey)
      ensures r.NotFound? ==> r.error == ChannelNotFound
      ensures r.Ok? ==> r.data in channels && r.data.id == id
    {
      var channel := Find(channels, ChannelKey, id);
      if channel.None? {
        return NotFound(ChannelNotFound);
      }
      r := Ok(channel.value);
    }

    /** POST /api/channels: validate the body, then insert a channel under a fresh id. */
    method CreateChannel(body: ChannelBody, freshId: Id) returns (r: ApiResponse<Channel>)
      requires Valid()
      requires freshId !in Keys(channels, ChannelKey)
      modifies this
      ensures Valid()
      ensures episodes == old(episodes)
      ensures !ChannelBodyValid(body) ==> r == Bad(ChannelFieldsRequired) && channels == old(channels)
      ensures ChannelBodyValid(body) ==>
        && r == Ok(Channel(freshId, body.title.s, body.description.s, body.coverArtUrl.s))
        && channels == Insert(old(channels), r.data)
    {
      if !ChannelBodyValid(body) {
        return Bad(ChannelFieldsRequired);
      }
      var created := Channel(freshId, body.title.s, body.description.s, body.coverArtUrl.s);
      InsertKeepsDistinct(channels, ChannelKey, created);
      channels := Insert(channels, created);
      r := Ok(created);
    }

    /**
     * PUT /api/channels/:id: validate the body, then set title, description and
     * coverArtUrl of the row with that id; not-found when no row was updated.
     */
    method UpdateChannel(id: Id, body: ChannelBody) returns (r: ApiResponse<Channel>)
      requires Valid()
      modifies this
      ensures Valid()
      ensures episodes == old(episodes)
      ensures !ChannelBodyValid(body) ==> r == Bad(ChannelFieldsRequired) && channels == old(channels)
      ensures ChannelBodyValid(body) && id !in Keys(old(channels), ChannelKey) ==>
        r == NotFound(ChannelNotFound) && channels == old(channels)
      ensures ChannelBodyValid(body) && id in Keys(old(channels), ChannelKey) ==>
        var patched := Find(old(channels), ChannelKey, id).value.(
          title := body.title.s, description := body.description.s, coverArtUrl := body.coverArtUrl.s);
        && r == Ok(patched)
        && patched.id == id
        && |channels| == |old(channels)|
        && forall i :: 0 <= i < |channels| ==>
             channels[i] == if old(channels)[i].id == id then patched else old(channels)[i]
    {
      if !ChannelBodyValid(body) {
        return Bad(ChannelFieldsRequired);
      }
      var t, d, u := body.title.s, body.description.s, body.coverArtUrl.s;
      var change := (c: Channel) => c.(title := t, description := d, coverArtUrl := u);
      ghost var before := channels;
      UpdateKeepsKeys(channels, ChannelKey, id, change);
      FindAfterUpdate(channels, ChannelKey, id, change);
      if id in Keys(before, ChannelKey) {
        UpdateOneRow(before, ChannelKey, id, change);
      }
      channels := Update(channels, ChannelKey, id, change);
      var updated := Find(channels, ChannelKey, id);
      if updated.None? {
        return NotFound(ChannelNotFound);
      }
      r := Ok(updated.value);
    }

    /**
     * DELETE /api/channels/:id: first delete the channel's episodes, then the
     * channel; not-found when no channel row was deleted.
     */
    method DeleteChannel(id: Id) returns (r: ApiResponse<Deleted>)
      requires Valid()
      modifies this
      ensures Valid()
      ensures !r.Bad?
      ensures r.NotFound? <==> id !in Keys(old(channels), ChannelKey)
      ensures r.NotFound? ==> r.error == ChannelNotFound && channels == old(channels) && episodes == old(episodes)
      ensures r.Ok? ==> r.data == Deleted(id)
      ensures channels == Remove(old(channels), ChannelKey, id)
      ensures episodes == Remove(old(episodes), EpisodeChannel, id)
      ensures id !in Keys(channels, ChannelKey)
      ensures forall e :: e in episodes ==> e.channelId != id
    {
      RemoveKeepsDistinct(episodes, EpisodeKey, EpisodeChannel, id);
      RemoveKeepsDistinct(channels, ChannelKey, ChannelKey, id);
      if id !in Keys(channels, ChannelKey) {
        // no episode names an absent channel, so the cascade deletes nothing
        assert id !in Keys(episodes, EpisodeChannel);
      }
      episodes := Remove(episodes, EpisodeChannel, id);
      var deleted := Select(channels, ChannelKey, id);
      channels := Remove(channels, ChannelKey, id);
      if deleted == [] {
        return NotFound(ChannelNotFound);
      }
      assert deleted[0] in deleted;
      r := Ok(Deleted(deleted[0].id));
    }

    /** GET /api/channels/:channelId/episodes: not-found for an absent channel, else its episodes. */
    method ListEpisodes(channelId: Id) returns (r: ApiResponse<seq<Episode>>)
      ensures !r.Bad?
      ensures r.NotFound? <==> channelId !in Keys(channels, ChannelKey)
      ensures r.NotFound? ==> r.error == ChannelNotFound
      ensures r.Ok? ==> forall e :: e in r.data <==> e in episodes && e.channelId == channelId
      ensures r.Ok? ==> r.data == Select(episodes, EpisodeChannel, channelId)
      ensures r.Ok? && Distinct(episodes, EpisodeKey) ==> Distinct(r.data, EpisodeKey)
    {
      if Distinct(episodes, EpisodeKey) {
        SelectKeepsDistinct(episodes, EpisodeKey, EpisodeChannel, channelId);
      }
      var channel := Find(channels, ChannelKey, channelId);
      if channel.None? {
        return NotFound(ChannelNotFound);
      }
      r := Ok(Select(episodes, EpisodeChannel, channelId));
    }

    /** GET /api/episodes/:id */
    method GetEpisode(id: Id) returns (r: ApiResponse<Episode>)
      ensures !r.Bad?
      ensures r.NotFound? <==> id !in Keys(episodes, EpisodeKey)
      ensures r.NotFound? ==> r.error == EpisodeNotFound
      ensures r.Ok? ==> r.data in episodes && r.data.id == id
    {
      var episode := Find(episodes, EpisodeKey, id);
      if episode.None? {
        return NotFound(EpisodeNotFound);
      }
      r := Ok(episode.value);
    }

    /**
     * POST /api/channels/:channelId/episodes: the channel must exist (checked
     * before the body is read), then the body is validated, then an episode is
     * inserted under a fresh id, owned by the channel of the path and stamped `now`.
     */
    method CreateEpisode(channelId: Id, body: EpisodeBody, freshId: Id, now: Timestamp)
      returns (r: ApiResponse<Episode>)
      requires Valid()
      requires freshId !in Keys(episodes, EpisodeKey)
      modifies this
      ensures Valid()
      ensures channels == old(channels)
      ensures channelId !in Keys(channels, ChannelKey) ==> r == NotFound(ChannelNotFound) && episodes == old(episodes)
      ensures channelId in Keys(channels, ChannelKey) && !EpisodeBodyValid(body) ==>
        r == Bad(EpisodeFieldsRequired) && episodes == old(episodes)
      ensures channelId in Keys(channels, ChannelKey) && EpisodeBodyValid(body) ==>
        && r == Ok(Episode(freshId, channelId, body.title.s, body.description.s, body.audioUrl.s, now))
        && episodes == Insert(old(episodes), r.data)
    {
      var channel := Find(channels, ChannelKey, channelId);
      if channel.None? {
        return NotFound(ChannelNotFound);
      }
      if !EpisodeBodyValid(body) {
        return Bad(EpisodeFieldsRequired);
      }
      var created := Episode(freshId, channelId, body.title.s, body.description.s, body.audioUrl.s, now);
      InsertKeepsDistinct(episodes, EpisodeKey, created);
      episodes := Insert(episodes, created);
      r := Ok(created);
    }

    /**
     * PUT /api/episodes/:id: validate the body, then set title, description and
     * audioUrl of the row with that id; channelId and publishedAt stay as they were.
     */
    method UpdateEpisode(id: Id, body: EpisodeBody) returns (r: ApiResponse<Episode>)
      requires Valid()
      modifies this
      ensures Valid()
      ensures channels == old(channels)
      ensures !EpisodeBodyValid(body) ==> r == Bad(EpisodeFieldsRequired) && episodes == old(episodes)
      ensures EpisodeBodyValid(body) && id !in Keys(old(episodes), EpisodeKey) ==>
        r == NotFound(EpisodeNotFound) && episodes == old(episodes)
      ensures EpisodeBodyValid(body) && id in Keys(old(episodes), EpisodeKey) ==>
        var patched := Find(old(episodes), EpisodeKey, id).value.(
          title := body.title.s, description := body.description.s, audioUrl := body.audioUrl.s);
        && r == Ok(patched)
        && patched.id == id
        && patched.channelId == Find(old(episodes), EpisodeKey, id).value.channelId
        && patched.publishedAt == Find(old(episodes), EpisodeKey, id).value.publishedAt
        && |episodes| == |old(episodes)|
        && forall i :: 0 <= i < |episodes| ==>
             episodes[i] == if old(episodes)[i].id == id then patched else old(episodes)[i]
    {
      if !EpisodeBodyValid(body) {
        return Bad(EpisodeFieldsRequired);
      }
      var t, d, u := body.title.s, body.description.s, body.audioUrl.s;
      var change := (e: Episode) => e.(title := t, description := d, audioUrl := u);
      ghost var before := episodes;
      UpdateKeepsKeys(episodes, EpisodeKey, id, change);
      FindAfterUpdate(episodes, EpisodeKey, id, change);
      if id in Keys(before, EpisodeKey) {
        UpdateOneRow(before, EpisodeKey, id, change);
      }
      UpdateKeepsReferences(episodes, EpisodeKey, id, change, EpisodeChannel, channels, ChannelKey);
      episodes := Update(episodes, EpisodeKey, id, change);
      var updated := Find(episodes, EpisodeKey, id);
      if updated.None? {
        return NotFound(EpisodeNotFound);
      }
      r := Ok(updated.value);
    }

    /** DELETE /api/episodes/:id: delete that one row; not-found when there was none. */
    method DeleteEpisode(id: Id) returns (r: ApiResponse<Deleted>)
      requires Valid()
      modifies this
      ensures Valid()
      ensures channels == old(channels)
      ensures !r.Bad?
      ensures r.NotFound? <==> id !in Keys(old(episodes), EpisodeKey)
      ensures r.NotFound? ==> r.error == EpisodeNotFound && episodes == old(episodes)
      ensures r.Ok? ==> r.data == Deleted(id)
      ensures episodes == Remove(old(episodes), EpisodeKey, id)
    {
      RemoveKeepsDistinct(episodes, EpisodeKey, EpisodeKey, id);
      var deleted := Select(episodes, EpisodeKey, id);
      episodes := Remove(episodes, EpisodeKey, id);
      if deleted == [] {
        return NotFound(EpisodeNotFound);
      }
      assert deleted[0] in deleted;
      r := Ok(Deleted(deleted[0].id));
    }

    /**
     * GET /api/health-check: always a success. The URL flag reflects the
     * binding; the connection flag is set only when the probe answers, which
     * needs a database handle, and `getDb` throws (inside the handler's
     * try-block) when `DATABASE_URL` is not truthy.
     */
    method HealthCheck(probeSucceeds: bool, now: Timestamp) returns (r: ApiResponse<HealthStatus>)
      ensures r.Ok?
      ensures r.data.databaseUrlConfigured <==> UrlConfigured(env)
      ensures r.data.databaseConnected <==> UrlConfigured(env) && probeSucceeds
      ensures r.data.databaseConnected ==> r.data.databaseUrlConfigured
      ensures r.data.timestamp == now
    {
      var status := HealthStatus(false, false, now);
      if UrlConfigured(env) {
        status := status.(databaseUrlConfigured := true);
      }
      var handleObtained := UrlConfigured(env);
      if handleObtained && probeSucceeds {
        status := status.(databaseConnected := true);
        return Ok(status);
      }
      status := status.(databaseConnected := false);
      r := Ok(status);
    }
  }

  /**
   * A client of the service: create a channel, read it back, delete it, and
   * read it again.
   */
  method ChannelLifecycle(service: CatalogService, body: ChannelBody, freshId: Id)
    returns (created: ApiResponse<Channel>, fetched: ApiResponse<Channel>,
             deleted: ApiResponse<Deleted>, refetched: ApiResponse<Channel>)
    requires service.Valid()
    requires service.ChannelBodyValid(body)
    requires freshId !in Keys(service.channels, ChannelKey)
    modifies service
    ensures service.Valid()
    ensures created == Ok(Channel(freshId, body.title.s, body.description.s, body.coverArtUrl.s))
    ensures fetched == created
    ensures deleted == Ok(Deleted(freshId))
    ensures refetched == NotFound(ChannelNotFound)
  {
    created := service.CreateChannel(body, freshId);
    assert created.data in service.channels;
    fetched := service.GetChannel(freshId);
    SameKeySameRow(service.channels, ChannelKey, fetched.data, created.data);
    deleted := service.DeleteChannel(freshId);
    refetched := service.GetChannel(freshId);
  }

  /**
   * After a channel is deleted, listing its episodes is not-found and each of
   * its former episodes is not-found on its own.
   */
  method CascadeLeavesNoEpisode(service: CatalogService, e: Episode)
    returns (deleted: ApiResponse<Deleted>, listed: ApiResponse<seq<Episode>>, fetched: ApiResponse<Episode>)
    requires service.Valid()
    requires e in service.episodes
    modifies service
    ensures service.Valid()
    ensures deleted == Ok(Deleted(e.channelId))
    ensures listed == NotFound(ChannelNotFound)
    ensures fetched == NotFound(EpisodeNotFound)
  {
    ghost var before := service.episodes;
    deleted := service.DeleteChannel(e.channelId);
    listed := service.ListEpisodes(e.channelId);
    if e.id in Keys(service.episodes, EpisodeKey) {
      var r :| r in service.episodes && r.id == e.id;
      SameKeySameRow(before, EpisodeKey, r, e);
      assert false;
    }
    fetched := service.GetEpisode(e.id);
  }
}
