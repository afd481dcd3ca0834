# Request-delivery relay: a Dafny model of its backend core

The system relays webhook calls in real time. A caller registers an endpoint id
and a bearer token. Senders authorised for that id may then send HTTP requests
to `/send/<id>`. A sender is authorised by an `X-Auth` header equal to the
stored token, or by any token when the id was registered without one
(public). Every WebSocket session connected on `/connect/<id>` receives each
authorised request as a text frame holding the request serialised as JSON, or
"ERROR" when serialisation fails. Any other request gets 401 or 404, and
nothing is delivered.

This project models the sequential logic of that backend and proves its
properties:

- the token store (`auth` table): registration with id padding, token
  selection from a request, and the authorization check;
- the subscriber registry, a map from endpoint id to the ordered list of
  session senders, with its three users:
  - the dispatcher (`handle`);
  - the subscribe step of a session;
  - the shutdown broadcast;
- the session's merge loop, as a step function over one event at a time, with
  the close codes of section 7.4 of RFC 6455 (1001 "going away", and 4001 from
  the private-use range 4000–4999);
- the expiry sweep: a secret-guarded route that evicts the sessions of expired
  tokens and deletes the expired rows;
- the two older token-store variants (`auth_service.rs`, `auth_db.rs`);
- the frontend's content-type classifier.

Files and modules:

| file | module | models |
|---|---|---|
| http.dfy | `Http` | HTTP statuses, `Result`, the request-guard `Outcome`, the opaque `RequestData` |
| ws.dfy | `Ws` | WebSocket messages, close codes, and the merge loop (`Relay` function, `RunSession` method) for any step function |
| auth.dfy | `Auth` | backend/src/auth.rs |
| auth_db.dfy | `AuthGuard` | backend/src/auth_db.rs |
| auth_service.dfy | `StrictAuth` | backend/src/auth_service.rs |
| registry.dfy | `Registry` | the `ThingMap` registry and its send loops, shared by both `main.rs` |
| server.dfy | `Server` | backend/server/src/main.rs |
| legacy.dfy | `Legacy` | backend/src/main.rs |
| cleanup.dfy | `Cleanup` | backend/server/src/cleanup.rs |
| format.dfy | `Format` | frontend/src/app/model/format.ts |

Modelling choices:

- Tables are maps keyed by id. The primary key is the map's key uniqueness.
  The UNIQUE token column of `auth_db.rs` is the predicate `TokensUnique`.
- A sender is an object with a `closed` flag (`is_closed`) and an `outbox`,
  the messages delivered into its channel in order.
- Whether a send succeeds comes from an oracle: the set `failing` of senders
  whose send fails. A send to a closed channel also fails.
- The registry is a generic class `Registry<M>` because both `main.rs` files
  share its code. Each of them instantiates it with its own `WsMessage`.
- Its invariant `Valid` says that every sender is registered exactly once,
  under exactly one id. Subscribing always creates a fresh sender, as each
  connection creates its own channel.
- Instants (`now`, the custom epoch) are nanoseconds on one clock. chrono's
  `num_seconds` truncates toward zero, as `Auth.NumSeconds` does.
- Random strings from `nanoid!` are parameters. The model requires only their
  length and their alphabet (letters, digits, `_`, `-`).
- Rust's `String::len` counts UTF-8 bytes, so id padding is modelled on the
  byte length (`Auth.Utf8Len`).
- A `token` query value that does not parse is treated as absent. The source
  uses only `Some(Ok(token))`.
- The media-type library that `format.ts` calls is a parameter, `MediaTypes`.
  Matching a list means matching some element of it.

Behaviour of the code that a reader might not expect, which the model follows:

- `TokenExpired` and `ServerShutdown` emit their close frame, but the loop
  does not `break`: the loop keeps yielding frames for later events
  (`Server.CloseNoticeKeepsRelaying`). Only `Shutdown` and an inbound close or
  read error break it.
- Registering an id that already exists fails with 401 Unauthorized, not with
  a conflict status (`Auth.RegisterTwice`).
- That refusal holds only for ids of at least 8 bytes. A shorter id is padded
  with fresh random characters on every registration. So registering the same
  short id again stores a second row under a different padded id and succeeds
  (`Auth.RegisterShortTwice`).
- `has_sent` is set before the send is attempted. So an entry whose open
  senders all fail keeps an empty list. The entry is removed only when no
  sender was open at the start of the dispatch.
- Ids are padded to 8 bytes, not 8 characters. An id with multi-byte
  characters can end up shorter than 8 characters (`Auth.MultiByteIdPaddedShort`).
  All-ASCII ids get exactly 8 (`Auth.AsciiIdPaddedToEight`).
- backend/server/src/main.rs declares `mod auth`, but that file is not part of
  this model. The model uses backend/src/auth.rs in its place (table with
  `ts`, empty-token public mode). The `auth.id()` accessor that
  backend/server/src/cleanup.rs:60 calls is taken to return the row's id.

## Model

| member | source | states |
|---|---|---|
| `Ws.Relay` | backend/server/src/main.rs:193-234 | the merge loop applied to events in arrival order. It yields at most one frame per event and looks at no event after the one that stops it |
| `Ws.FirstStop` | backend/server/src/main.rs:193-234 | the index of the first event that ends the loop: every earlier event lets the loop go on |
| `Ws.RelayStopsAtFirstStop` | backend/server/src/main.rs:193-234 | the session has ended exactly when some event stopped it. Its frames are the outputs of every event up to and including that one |
| `Ws.RelayIgnoresTail` | backend/server/src/main.rs:193-234 | once the loop has ended, later events change neither the frames nor the ending |
| `Ws.RunSession` | backend/server/src/main.rs:193-234 | the `for await` loop, event by event with `break`. It yields exactly `Relay`'s frames and ending |
| `Auth.GetToken` | backend/src/auth.rs:111-124 | the X-Auth header wins. The `token` query is used only with `ALLOW_QUERY` and no header. No token exactly when neither applies |
| `Auth.PresentedToken` | backend/src/auth.rs:88-107 | no DB connection forwards 500. Otherwise the guard succeeds, with the selected token or "" |
| `Auth.Check` | backend/src/auth.rs:126-141 | NotFound exactly for an unknown id. An empty stored token accepts anything. A non-empty one accepts exactly the equal token, else Unauthorized |
| `Auth.CheckBool` | backend/src/auth.rs:143-145 | true exactly when the id exists and its token is empty or equal to the presented one |
| `Auth.PaddedId` | backend/src/auth.rs:171-177 | the stored id keeps the original as a prefix and is at least 8 bytes. A short id becomes exactly 8 bytes, a long one is unchanged |
| `Auth.AsciiIdPaddedToEight` | backend/src/auth.rs:172-176 | an ASCII id shorter than 8 characters is padded to exactly 8 characters |
| `Auth.MultiByteIdPaddedShort` | backend/src/auth.rs:172-176 | padding counts bytes: "ééé" (6 bytes) gets two random characters and is stored as 8 bytes but only 5 characters |
| `Auth.NumSeconds` | backend/shared/src/lib.rs:63-68 | whole seconds truncated toward zero: the floor for non-negative durations, the ceiling for negative ones |
| `Auth.CustomTimestamp` | backend/src/auth.rs:15-19 | the negated seconds from now back to the epoch equal the truncated seconds from the epoch to now |
| `Auth.AuthDb.constructor` | backend/src/auth.rs:31-52 | the table starts empty (dropped and recreated at start-up) |
| `Auth.AuthDb.Save` | backend/src/auth.rs:171-189 | a taken (padded) id fails with Unauthorized and adds nothing. Otherwise exactly one row (padded id, token, timestamp) is added and the padded record is returned |
| `Auth.AuthDb.SaveRandom` | backend/src/auth.rs:61-68 | a random 21-character id is stored unpadded with its random token, or refused if taken |
| `Auth.TokenlessRegistrationIsPublic` | backend/src/auth.rs:57-58 | after registering without a token, `check` accepts any presented token for that id |
| `Auth.RegisterTwice` | backend/src/auth.rs:171-187 | registering the same id of at least 8 bytes twice: the first succeeds, the second gets 401, and the table keeps the first row |
| `Auth.RegisterShortTwice` | backend/src/auth.rs:171-187 | registering the same id of fewer than 8 bytes twice with two different paddings: both succeed, under two distinct stored ids, and the table gains both rows |
| `AuthGuard.Owner` | backend/src/auth_db.rs:87-91 | the token lookup finds the one id holding the token, or reports that no id holds it |
| `AuthGuard.FromRequest` | backend/src/auth_db.rs:75-97 | token from the header, else the query. Success exactly when a token is present, the DB is connected and some row holds the token; the result carries that row's id and token. Every failure forwards Unauthorized |
| `AuthGuard.GuardIdentifies` | backend/src/auth_db.rs:50-56 | after a successful guard, `id_matches` holds for exactly the id registered with the presented token, and `token()` is that token |
| `AuthGuard.AuthTable.constructor` | backend/src/auth_db.rs:26-31 | a newly created table is empty and so keeps tokens unique |
| `AuthGuard.AuthTable.Setup` | backend/src/auth_db.rs:25-41 | setup leaves the table empty and keeps tokens unique |
| `AuthGuard.AuthTable.NewAuthFromRequest` | backend/src/auth_db.rs:113-128 | with no DB connection it succeeds with a pair it never stored. A taken id or token forwards 500 and stores nothing. Otherwise exactly that pair is added |
| `StrictAuth.Check` | backend/src/auth_service.rs:75-91 | NotFound exactly for an unknown id. Otherwise Ok exactly on equality (an empty stored token matches only ""), else Unauthorized |
| `StrictAuth.CheckBool` | backend/src/auth_service.rs:93-95 | true exactly when the id is registered with precisely the presented token |
| `StrictAuth.StrictRefinesPublicMode` | backend/src/auth_service.rs:84-88 | over the same tokens, the strict check passes only where auth.rs's check passes. They disagree exactly on an empty stored token with a non-empty presented one |
| `Registry.Sender.constructor` | backend/server/src/main.rs:179 | a new channel is open and holds no message |
| `Registry.Sender.Send` | backend/server/src/main.rs:151 | a send succeeds exactly on an open channel that the oracle lets through, and then appends the message to the outbox. The closed flag is unchanged |
| `Registry.Sender.CloseChannel` | backend/server/src/main.rs:153 | closing marks the channel closed and delivers nothing |
| `Registry.OpenSenders` | backend/server/src/main.rs:158 | `retain` keeps exactly the open senders of the list, never more, and no duplicates if there were none |
| `Registry.OpenSendersAppend` | backend/server/src/main.rs:158 | compaction distributes over concatenation, so the kept senders stay in their original relative order |
| `Registry.OpenSendersAllOpen` | backend/server/src/main.rs:158 | a list with no closed sender is kept whole |
| `Registry.NotifyAll` | backend/server/src/main.rs:146-156 | each sender that was open receives the message once or has its send fail (closed when required); closed senders are skipped. The flag is true exactly when some sender was open at the start |
| `Registry.Registry.constructor` | backend/server/src/main.rs:256 | the registry starts empty |
| `Registry.Registry.Subscribe` | backend/server/src/main.rs:179-189 | a fresh open sender is appended at the end of the id's list, which is created if absent. Other entries are unchanged |
| `Registry.Registry.Dispatch` | backend/server/src/main.rs:143-163 | every sender of the id is notified once with failures closed. If some sender was open, the entry becomes the still-open senders in original order; otherwise it is removed. Nothing else changes |
| `Registry.Registry.Evict` | backend/server/src/cleanup.rs:60-72 | the whole entry is removed. Each sender in it that was open is notified once, and a failed send closes it |
| `Registry.Registry.Broadcast` | backend/server/src/main.rs:292-305 | every open sender of every entry gets the message once and closed ones get nothing. Failed sends close nothing, and no entry is removed |
| `Server.React` | backend/server/src/main.rs:194-231 | inbound events never yield; close or read error stops, anything else continues. Each bus message yields exactly one frame, and only `Shutdown` stops. Close frames carry "SERVER" with 1001 (defined) or 4001 (private use) |
| `Server.CloseNoticeKeepsRelaying` | backend/server/src/main.rs:218-229 | after a `ServerShutdown` or `TokenExpired` close frame the loop does not break. It keeps yielding frames for the events that follow, exactly as it would without the close frame |
| `Server.ShutdownIsFinal` | backend/server/src/main.rs:214-217 | `Shutdown` adds one bare close frame after the earlier outputs and ends the session, whatever follows |
| `Server.Handle` | backend/server/src/main.rs:134-165 | a failed check returns its 401/404 and changes nothing. A passing one returns 202 after dispatching `Request(input)` with the dispatch's effect on the registry |
| `Server.Connect` | backend/server/src/main.rs:182-189 | a passing check subscribes a fresh sender at the end of the id's list and yields nothing. A failing one yields one "Unauthorized" text frame and subscribes nothing |
| `Server.ShutdownHook` | backend/server/src/main.rs:290-308 | every open sender gets `ServerShutdown` once, closed ones nothing, and the map is unchanged |
| `Server.QueryTokenOnlyConnects` | backend/server/src/main.rs:175 | a token given only in the query opens a session (`AuthService<true>`), but `/send` (header only) rejects it for a protected id |
| `Legacy.React` | backend/src/main.rs:189-216 | inbound close or error stops and other frames are ignored. `Shutdown` yields a bare close frame and stops; `Request` yields its JSON or "ERROR" |
| `Legacy.SessionsAgree` | backend/src/main.rs:207-214 | on the messages both versions share, the earlier session produces the same frames and ending as the server's, over any run |
| `Legacy.Handle` | backend/src/main.rs:129-160 | a failed check returns its status and changes nothing. Otherwise 202 with the dispatch's effect |
| `Legacy.Connect` | backend/src/main.rs:177-184 | append a fresh sender on a passing check. On a failing one, a single "Unauthorized" frame and no change |
| `Legacy.ShutdownHook` | backend/src/main.rs:267-285 | every open sender gets `Shutdown` once and the map is unchanged |
| `Legacy.ShutdownEndsSession` | backend/src/main.rs:209-212 | a session receiving the hook's `Shutdown` ends with exactly one bare close frame |
| `Cleanup.ConfigurationAuth` | backend/server/src/cleanup.rs:32-42 | no header forwards Unauthorized, a wrong one Forbidden. Success exactly on the secret |
| `Cleanup.SweepTimestamp` | backend/server/src/cleanup.rs:51 | the sweep's clock reading is the same number auth.rs stamps on a row registered at that instant |
| `Cleanup.Cutoff` | backend/server/src/cleanup.rs:51 | the cutoff lies exactly `max_age` seconds below the timestamp auth.rs stamps at the sweep's instant |
| `Cleanup.LaterCutoffExpiresMore` | backend/server/src/cleanup.rs:51-56 | the expiry query is monotone in the cutoff: a later sweep or a smaller maximum age selects every id an earlier cutoff did, plus only ids stamped between the two cutoffs |
| `Cleanup.Purged` | backend/server/src/cleanup.rs:74-77 | exactly the rows at or after the cutoff remain, unchanged |
| `Cleanup.PurgeLeavesNothingExpired` | backend/server/src/cleanup.rs:74-81 | after the delete, a rerun with the same cutoff finds nothing and deletes nothing |
| `Cleanup.CutoffIsStrict` | backend/server/src/cleanup.rs:52 | a row stamped exactly at the cutoff is neither expired nor deleted |
| `Cleanup.SixtySecondExample` | backend/server/src/cleanup.rs:51-52 | with max age 60 s, a token issued 61 s before the sweep is expired. One issued 60 s before sits exactly at the cutoff and one issued 59 s before is past it, so neither is |
| `Cleanup.FreshTokenSurvives` | backend/server/src/cleanup.rs:51 | with a non-negative max age, a token registered at the sweep's instant is not expired |
| `Cleanup.CleanupTokens` | backend/server/src/cleanup.rs:45-88 | guard failure returns its status and a failed query returns 500, both changing nothing. Otherwise every expired id's entry is evicted and each of its open senders gets one `TokenExpired` (failures closed). Other entries are untouched, the expired rows are deleted if the delete succeeds, and the status is 202 |
| `Format.GetBodyType` | frontend/src/app/model/format.ts:61-82 | never Binary. Each body type holds exactly when its list matches and no earlier list does (Json first). A non-content-type is Unknown |
| `Format.CanShowCode` | frontend/src/app/model/format.ts:38-52 | a content type matching the plain, JSON, XML or code list. Every body classified Json or Xml can be shown as code |
| `Format.CanShowInteractive` | frontend/src/app/model/format.ts:45-59 | a content type matching the JSON or XML list. This holds for every body classified Json or Xml. Conversely it implies Json or Xml unless a form list matched first |
| `Format.InteractiveImpliesCode` | frontend/src/app/model/format.ts:38-59 | whatever can be shown interactively can be shown as code |
| `Format.PlainAndScriptAreUnknown` | frontend/src/app/model/format.ts:17-30 | with exact matching, `text/plain` and `text/javascript` can be shown as code but not interactively, and classify as Unknown |
| `Format.ListedTypesClassify` | frontend/src/app/model/format.ts:20-36 | with exact matching, each JSON, form, multipart and XML type gets its own body type |

## Left out

- Concurrency: DashMap sharding and locking, the unordered `merge` of the
  two session streams, and blocking on a full channel of capacity 8. Each
  operation runs to completion. A session is a sequence of events, and a send
  succeeds or fails at once by the oracle.
- Registry.Registry.Dispatch: states what each sender receives, not the order
  across senders. Each sender has its own outbox, so the interleaving of
  deliveries between two senders is not observable in the model. The loop
  does visit them in list order.
- What the WebSocket transport does with frames the loop yields after it has
  sent a close frame is not modelled. Section 5.5.1 of RFC 6455 forbids data
  frames after a Close, and the peer's answering Close ends the loop. The model
  states only what the loop yields.
- A session ending (its receiver dropped) is not linked to its sender's
  `closed` flag automatically. `Registry.Sender.CloseChannel` stands for it.
- Database failures other than the ones named in contracts are left out.
  Modelled: insert conflicts, the missing connection of the token guards, and
  the query and delete failures of the sweep. Not modelled: a lookup I/O error
  (which `check` reports as NotFound) and an insert I/O error (which `save`
  reports as 401). The sweep route's own `Connection<AuthDb>` guard is also
  left out.
- 64-bit overflow of timestamps and of `timestamp - max_age`: integers are
  unbounded. The source would need absurd clock values to overflow.
- Route wrappers for each HTTP method, catchers, static UI serving, `#[launch]`
  bootstrap, `ID::from_param`, configuration reading, `cleanup::init` (writing
  the secret file) and backend/cleanup/cleanup.py: plumbing and I/O.
- backend/src/request_data.rs is not part of this model. A captured request
  is opaque apart from its JSON serialisation, which may fail.
- The Angular components, services, guards and modules: UI code.
- The media-type library behind `format.ts` is a parameter. Its behaviour is
  pinned down only where a lemma assumes exact matching.
