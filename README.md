# Podcast catalog: playback store, player surface and CRUD service

This project models, in Dafny, the parts of a podcast-catalog web application
that hold state-transition or data-integrity logic, and proves properties of that model:

- **The playback store** (`src/stores/audioPlayerStore.ts`). It is a class with
  the store's two fields, `episode` and `isPlaying`. It has one method per command:
  `PlayEpisode`, `TogglePlayPause` and `Stop`. Each method keeps the invariant
  "playing implies an episode is loaded". Each is also proved to move the abstract
  three-state machine (`Idle`, `Playing(e)`, `Paused(e)`) exactly as that machine's
  transition function says. The rule that matters most is the tie-break in
  `playEpisode`: the same id toggles; a different id, or no episode, loads and plays.
- **The CRUD service** (`worker/user-routes.ts` over the tables of
  `worker/db/schema.ts`). It is a class holding the `channels` and `episodes`
  tables as row sequences. Each REST handler is a method that returns the
  envelope `Ok(data)`, `Bad(msg)` or `NotFound(msg)`. Its contract says which
  envelope comes back, in the handler's order of checks. It also says which rows
  change and that nothing else changes. Every mutating handler keeps the schema's
  constraints: both primary keys, and the foreign key "every episode names a live
  channel". So the channel delete's cascade really leaves no orphan. The generic
  row operations (find by key, select where, delete where, update where, insert)
  are in module `Tables`, with their own contracts.
- **The player surface** (`src/components/AudioPlayer.tsx`).
  - `FormatTime` is the `MM:SS` formatter. It is proved to read back as the time
    itself: minutes are `t div 60` in at least two digits, and seconds are
    `t mod 60`, always two digits.
  - `SyncEffect` is the component's effect, written as a function from
    (episode, isPlaying, current `src`) to the list of media commands it issues.
    `Surface.Sync` executes those commands on the element.
  - The progress, metadata, seek and end-of-media handlers are methods of `Surface`.

Sources of nondeterminism are parameters:
- `freshId` stands for `crypto.randomUUID()`: an id no row of the table has yet.
- `now` stands for `new Date()`.
- `probeSucceeds` says whether the health check's `SELECT 1` answers.
- `accepts` is what `isStr` (from `core-utils`, not part of this model) accepts
  among string values. The model uses only that `isStr` holds of strings alone.

The modules follow the source files:
- `Types`: `shared/types.ts`, with the table shapes.
- `Tables`: the constraints of `worker/db/schema.ts` and the query meanings.
- `UserRoutes`: `worker/user-routes.ts`.
- `AudioPlayerStore`: `src/stores/audioPlayerStore.ts`.
- `AudioPlayer`: `src/components/AudioPlayer.tsx`.

Tables are sequences of rows rather than maps. The list endpoints return arrays
of rows, and the drizzle queries (`findMany` with a where-clause, `delete ... where`,
`update ... where ... returning`) are filters and maps over rows. The primary key
is the invariant `Distinct`.

Facts about the code that the model follows:
- `handleProgressChange` does not clamp a seek; it copies the slider's value, and
  the slider's `max` is the duration. `Surface.HandleProgressChange` copies the value.
- The store has three commands (`playEpisode`, `togglePlayPause`, `stop`), and the
  model has three.
- When creating a channel, the server checks only `isStr` on each field and never
  URL syntax (`worker/user-routes.ts:26`). The URL rules exist only in the client forms.

## Model

| member | source | states |
|---|---|---|
| `AudioPlayerStore.Store.constructor` | src/stores/audioPlayerStore.ts:11-12 | the store starts with no episode and not playing, that is, Idle |
| `AudioPlayerStore.Store.PlayEpisode` | src/stores/audioPlayerStore.ts:13-21 | same id as the loaded episode: flag flipped, episode kept; otherwise (none loaded or other id): `episode := e`, playing, whatever the old flag; keeps the invariant; the abstract state moves by `PlayTransition` |
| `AudioPlayerStore.Store.TogglePlayPause` | src/stores/audioPlayerStore.ts:22-26 | no-op without an episode; with one, flag flipped and episode kept; keeps the invariant; abstract state moves by `ToggleTransition` |
| `AudioPlayerStore.Store.Stop` | src/stores/audioPlayerStore.ts:27-29 | from any state: no episode, not playing, Idle |
| `AudioPlayerStore.FieldsRoundTrip` | src/stores/audioPlayerStore.ts:4-5 | the store's valid field pairs (playing implies an episode) and the three machine states correspond one to one |
| `AudioPlayerStore.PlayThreeTimes` | src/stores/audioPlayerStore.ts:13-20 | on a fresh store, playing episode A three times gives Playing(A), Paused(A), Playing(A) |
| `AudioPlayerStore.PlayThenSwitch` | src/stores/audioPlayerStore.ts:17-19 | after A (playing or paused), playing B with another id gives Playing(B) |
| `AudioPlayerStore.ToggleIdleThenStop` | src/stores/audioPlayerStore.ts:22-29 | toggle in Idle stays Idle; stop after playing gives Idle |
| `AudioPlayerStore.SameIdNeverReloads` | src/stores/audioPlayerStore.ts:14-16 | playing the loaded id keeps the loaded episode, flips playing/paused, and equals a toggle |
| `AudioPlayerStore.OtherIdRestarts` | src/stores/audioPlayerStore.ts:17-19 | from Idle or with another id loaded, playing `e` always gives Playing(e) |
| `AudioPlayerStore.ToggleInvolution` | src/stores/audioPlayerStore.ts:22-25 | two toggles return to the starting state |
| `UserRoutes.CatalogService.constructor` | worker/db/schema.ts:3-18 | the service starts over tables that satisfy both primary keys and the foreign key |
| `UserRoutes.CatalogService.ListChannels` | worker/user-routes.ts:10-14 | always Ok with the channel rows |
| `UserRoutes.CatalogService.GetChannel` | worker/user-routes.ts:15-23 | NotFound("channel not found") iff no channel has the id; otherwise Ok with a row having that id; never Bad |
| `UserRoutes.CatalogService.CreateChannel` | worker/user-routes.ts:24-36 | a field failing `isStr`: Bad with the fixed message, tables unchanged; otherwise exactly one channel with the fresh id and the body's fields is appended and returned; episodes unchanged; constraints kept |
| `UserRoutes.CatalogService.UpdateChannel` | worker/user-routes.ts:37-48 | body checked first (Bad, nothing changed); then NotFound if the id is absent (nothing changed); otherwise only that row's title, description and coverArtUrl change, the returned row is that patched row with the same id, other rows and episodes unchanged |
| `UserRoutes.CatalogService.DeleteChannel` | worker/user-routes.ts:49-57 | removes every episode with that channelId, then the channel; NotFound iff the channel was absent, and then nothing changes; otherwise Ok({id}); afterwards no episode names the id and the foreign key still holds |
| `UserRoutes.CatalogService.ListEpisodes` | worker/user-routes.ts:59-68 | NotFound iff the channel is absent; otherwise Ok with exactly the episodes whose channelId is the path id, each once when the episode ids are distinct |
| `UserRoutes.CatalogService.GetEpisode` | worker/user-routes.ts:69-77 | NotFound("episode not found") iff no episode has the id; otherwise Ok with a row having that id |
| `UserRoutes.CatalogService.CreateEpisode` | worker/user-routes.ts:78-95 | missing channel yields NotFound even when the body is invalid; then an invalid body yields Bad; no insert on either failure; otherwise one episode is appended with the fresh id, the channelId of the path, the body's fields and `publishedAt = now`; the foreign key holds afterwards |
| `UserRoutes.CatalogService.UpdateEpisode` | worker/user-routes.ts:96-107 | body checked first (Bad), then NotFound for an absent id, with nothing changed in either case; otherwise only title, description and audioUrl of that row change; channelId, publishedAt, id and every other row are kept |
| `UserRoutes.CatalogService.DeleteEpisode` | worker/user-routes.ts:108-114 | removes only the row with that id; NotFound iff there was none (nothing changed); otherwise Ok({id}); channels unchanged |
| `UserRoutes.CatalogService.HealthCheck` | worker/user-routes.ts:116-137 | always Ok; `databaseUrlConfigured` iff DATABASE_URL is set and non-empty; `databaseConnected` iff it is configured and the probe succeeds (getDb throws inside the try otherwise), so connected implies configured |
| `UserRoutes.ChannelLifecycle` | worker/user-routes.ts:15-57 | POST a valid channel gives Ok with the fresh id and the body's fields; GET that id gives the same row; DELETE gives Ok({id}); a second GET gives NotFound |
| `UserRoutes.CascadeLeavesNoEpisode` | worker/user-routes.ts:49-77 | after deleting an episode's channel, listing that channel's episodes is NotFound and GET of the episode id is NotFound |
| `Tables.Find` | worker/user-routes.ts:18-20 | `findFirst` by key: a row is found iff the key occurs, and the row found has that key |
| `Tables.FindUnique` | worker/db/schema.ts:4 | under the primary key, the row found for a key is the only row with it |
| `Tables.SameKeySameRow` | worker/db/schema.ts:4 | under the primary key, two rows with one key are the same row |
| `Tables.Select` | worker/user-routes.ts:64-66 | `findMany` where column = v: exactly the rows with that column value, each as often as in the table and none with another value |
| `Tables.SelectKeepsDistinct` | worker/user-routes.ts:64-66 | under the primary key, the selected rows still have distinct keys, so no row is listed twice |
| `Tables.Remove` | worker/user-routes.ts:53-54 | `delete ... where` column = v: exactly the rows with another value remain; the column's value set loses v; no match leaves the table as it was |
| `Tables.RemoveKeepsDistinct` | worker/db/schema.ts:10 | deleting rows keeps a primary key |
| `Tables.Update` | worker/user-routes.ts:42-45 | `update ... where` key = id: same length; the rows with that key are changed, all others kept |
| `Tables.UpdateKeepsKeys` | worker/user-routes.ts:101-104 | an update that keeps the key keeps the key set and the primary key, and an absent key changes nothing |
| `Tables.UpdateOneRow` | worker/user-routes.ts:42-45 | under the primary key, an update by a present id changes exactly the one row with that id, into the changed row `Find` returned |
| `Tables.UpdateKeepsReferences` | worker/db/schema.ts:11-13 | an update that keeps the foreign-key column keeps the foreign key |
| `Tables.FindAfterUpdate` | worker/user-routes.ts:42-46 | `returning()` of the update is the changed old row, or nothing when the key was absent |
| `Tables.Insert` | worker/user-routes.ts:34 | insert appends exactly the new row |
| `Tables.InsertKeepsDistinct` | worker/db/schema.ts:10 | inserting a row with a fresh key keeps the primary key and adds that key |
| `AudioPlayer.Decimal` | src/components/AudioPlayer.tsx:52 | `toString()`: a non-empty digit string, a single digit iff below 10, at most two digits below 100, a leading zero only for 0 itself |
| `AudioPlayer.DecimalRoundTrip` | src/components/AudioPlayer.tsx:52 | the numeral denotes the number |
| `AudioPlayer.PadStart2` | src/components/AudioPlayer.tsx:52 | `padStart(2, '0')`: at least two characters, the input as suffix, zeros before it |
| `AudioPlayer.PadStart2Value` | src/components/AudioPlayer.tsx:52 | zero-padding keeps a numeral's value |
| `AudioPlayer.PaddedDecimal` | src/components/AudioPlayer.tsx:50-52 | a padded numeral of n has at least two digits (exactly two below 100), no zero before a numeral of three or more digits, and denotes n |
| `AudioPlayer.FormatTime` | src/components/AudioPlayer.tsx:48-53 | "00:00" for NaN or 0; always digits, a colon, and two digits |
| `AudioPlayer.FieldsReadBack` | src/components/AudioPlayer.tsx:52 | a label made of the numerals of t div 60 and t mod 60 joined by a colon reads back as t |
| `AudioPlayer.FormatTimeFields` | src/components/AudioPlayer.tsx:50-52 | the label for t seconds is exactly a minutes field, a colon and a seconds field: minutes is t div 60 in at least two digits, with a leading zero only when it has exactly two; seconds is t mod 60 < 60 in two digits; the label reads back as t |
| `AudioPlayer.SyncEffect` | src/components/AudioPlayer.tsx:16-30 | no episode: pause, then clear `src`; with one: set `src` and load first iff `src` differs from its audioUrl; last command is play iff isPlaying, pause otherwise |
| `AudioPlayer.SyncOutcome` | src/components/AudioPlayer.tsx:16-30 | after the effect the element's src is the episode's audio and it is paused iff not playing; a matching src gets no `load()`, a new src is loaded and rewound; with no episode it is paused with empty src; re-running on the settled element loads nothing |
| `AudioPlayer.Surface.constructor` | src/components/AudioPlayer.tsx:9-11 | a source-less element, progress 0, duration 0 |
| `AudioPlayer.Surface.Sync` | src/components/AudioPlayer.tsx:12-31 | the element afterwards is the old one run through `SyncEffect`'s commands; progress and duration unchanged |
| `AudioPlayer.Surface.HandleTimeUpdate` | src/components/AudioPlayer.tsx:32-36 | progress becomes the element's position |
| `AudioPlayer.Surface.HandleLoadedMetadata` | src/components/AudioPlayer.tsx:37-41 | duration becomes the element's reported duration |
| `AudioPlayer.Surface.HandleProgressChange` | src/components/AudioPlayer.tsx:42-47 | the element's position and the shown progress are both set to the requested value |
| `AudioPlayer.Surface.HandleEnded` | src/components/AudioPlayer.tsx:60 | end of media acts as a toggle: a playing episode becomes paused and stays loaded, with no advance |

## Left out

- AudioPlayer.SyncOutcome: the element's own playback clock is not modelled.
  `currentTime` does not advance while playing, there is no ended state, and
  `play()` after the end does not seek back to 0. So "a matching src keeps its
  position" means only that the effect issues no `load()`. After `onEnded` toggles
  the store to paused, pressing play again restarts the episode in a browser.
- Page components, the layout, dialogs, router and toasts: rendering and navigation only.
- The client-side form rules (URL syntax, minimum lengths): they rely on an external
  validation library. The server re-checks only `isStr`, as modelled.
- `isStr` itself: its definition is not part of this model. It is the `accepts`
  parameter, restricted to string values.
- A request body that is not JSON: `c.req.json()` throws and the framework answers
  500 outside the envelope. The handlers take an already parsed body.
- Database errors, which surface as 500 outside the envelope:
  - a missing `DATABASE_URL` in a CRUD handler (`getDb` throws);
  - a title over the `varchar(256)` limit rejected by the database;
  - a driver or network failure.
  The model assumes a working database.
- The database's own `ON DELETE CASCADE`: the handler deletes the episodes first,
  so the database cascade has nothing left to do. It is not modelled separately.
- Concurrency: each handler is one atomic step. The two-statement channel delete,
  seen by a concurrent reader between its statements, is not modelled. Neither is
  the ordering of parallel client requests.
- UserRoutes.CatalogService.ListChannels: returns the rows in table order. A SQL
  `findMany` without `orderBy` promises no order, so the order part is stronger
  than the database guarantees. `ListEpisodes` states membership as well as order.
- The wire format of timestamps (ISO 8601 strings): they are the abstract `Timestamp`.
- Floating-point media time: times are whole seconds or NaN. Fractions floor to
  the same label. Infinity (live streams) is not modelled.
- `audio.play()` rejections: they are only logged, and `Play` is modelled as always
  taking effect.
- The browser's handling of `src`:
  - The `src` getter returns a resolved absolute URL; the model compares the raw strings.
  - Assigning `src` starts a load by itself; the model loads only on the explicit `load()`.
- The `if (!audio) return` guard: the `<audio>` element is always rendered, so the
  ref is attached before effects run. The guard is not modelled.
- AudioPlayer.Surface.HandleProgressChange: takes the slider's single thumb value
  (`value[0]`). An empty array cannot come from the one-thumb slider and is not modelled.
- Progress and duration labels in the markup: they are `FormatTime` of the two
  state variables, and the markup itself is not modelled.
