/**
 * The records shared by the API service and the player (shared/types.ts), with
 * the column shapes of the two tables (worker/db/schema.ts), and the uniform
 * response envelope every endpoint answers with.
 */
module Types {

  datatype Option<+T> = None | Some(value: T)

  /** Row identities are opaque strings (generated UUIDs). */
  type Id = string

  /** A point in time; its encoding (ISO 8601 on the wire) is not modelled. */
  type Timestamp = nat

  /** A row of the `channels` table. */
  datatype Channel = Channel(id: Id, title: string, description: string, coverArtUrl: string)

  /** A row of the `episodes` table; `channelId` refers to `channels.id`. */
  datatype Episode = Episode(
    id: Id,
    channelId: Id,
    title: string,
    description: string,
    audioUrl: string,
    publishedAt: Timestamp)

  /** Column accessors, used as the key of a table lookup or of a where-clause. */
  function ChannelKey(c: Channel): Id { c.id }
  function EpisodeKey(e: Episode): Id { e.id }
  function EpisodeChannel(e: Episode): Id { e.channelId }

  /**
   * The response envelope `{ success, data?, error? }`. A success carries data;
   * a failure carries an error message and is either a bad request (400) or a
   * not-found (404).
   */
  datatype ApiResponse<+T> = Ok(data: T) | Bad(error: string) | NotFound(error: string)

  /** The payload of a successful delete: `{ id }`. */
  datatype Deleted = Deleted(id: Id)
}
