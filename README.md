# SeminarHub seminar controller, modelled in Dafny

SeminarHub is a seminar-registration web application. Organizers create seminars, and
participants browse them, join them and leave them. Its one piece of behaviour is the
`SeminarController`. This project models that controller as a state machine over an
in-memory store:

- `seminars`: a map from seminar id to a `Seminar` record;
- `memberships`: the list of membership rows `(seminarId, participantId)`;
- `nextId`: the key the database would generate for the next seminar.

The caller's user id is an explicit string parameter. It is `""` when the request carries
no name-identifier claim. Every action answers with an `ActionResult`. The possible answers
are `BadRequest`, a redirect to the All or Joined list, or a view that carries a projection
of the store.

Files, one module each:

- `data_constants.dfy` (`DataConstants`): the length and range bounds.
- `data_annotations.dfy` (`DataAnnotations`): what `[Required]`, `[StringLength]`,
  `[MaxLength]` and `[Range]` accept. `[Required]` rejects empty and whitespace-only
  strings, using the character set of .NET's `char.IsWhiteSpace`.
- `seminar.dfy` (`SeminarEntity`): the `Seminar` record, its default construction and the
  entity-level limits `EntityValid`.
- `seminar_participant.dfy` (`SeminarParticipants`): the membership row and the list
  operations on it. These are removing one row (`List.Remove`) and removing all rows of
  one seminar (`RemoveRange`). The file also proves that both keep the rows unique.
- `seminar_edit_view_model.dfy` (`EditViewModel`): the edit form and its validity
  predicate `ValidForm`.
- `seminar_controller.dfy` (`Controllers`): the class `SeminarController`. It holds the
  store, the state-changing actions as methods and the projections as functions, next to
  the form/entity copies and the lemmas that connect them.

The store invariant `Valid()` says four things:

- every seminar is stored under its own id;
- every id is below `nextId`;
- there is at most one row per (seminar, participant) pair;
- every row refers to an existing seminar.

The constructor establishes it and every action preserves it. Uniqueness follows from the
check in `Join` alone. Referential integrity follows from `Join`'s existence check and
from the cascade in `DeleteConfirmed`.

Validation is a separate predicate. `Add` and `Edit` (POST) never consult it: they store
whatever the form holds, and the model does the same. `ValidFormFitsEntity` proves that a
valid form, copied into any seminar, meets the entity's limits exactly when that seminar's
owner id is non-blank. This covers both Add's new seminar and the stored seminar that Edit
(POST) overwrites. The form that Edit (GET) fills never sets the form's organizer id. So that form
never passes validation as filled (`ToForm`, `EditForm`). This has no effect, because the
POST never checks validity.

Behaviour of the code worth noting:

- Details for a missing id renders the view with no model (`DetailsView(None)`).
- Add and Edit (POST) do not validate the form.
- Neither Delete (GET) nor DeleteConfirmed checks ownership.
- DeleteConfirmed on a missing id is a silent no-op, while Delete (GET) answers
  `BadRequest`.

## Model

| member | source | states |
|---|---|---|
| `DataConstants.BoundsAreOrdered` | SeminarHub/Data/DataConstants.cs:5-20 | topic 5..100, lecturer 5..60, details 10..500, duration 30..180 and category name 3..50 are each non-empty ranges with a positive minimum |
| `SeminarEntity.EntityValid` | SeminarHub/Data/Seminar.cs:13-35 | the entity limits: topic, lecturer and details non-blank and at most 100, 60 and 500 characters, organizer id required, duration in [0, 180]; an entity-valid seminar has every text field at least one character long |
| `SeminarEntity.NewSeminar` | SeminarHub/Data/Seminar.cs:13-26 | a default-constructed seminar has empty topic, lecturer, details and organizer id, so it fails the entity's `[Required]` limits |
| `SeminarEntity.EntityBounds` | SeminarHub/Data/Seminar.cs:13-26 | `[Required]` on an entity-valid seminar: its topic, lecturer, details and organizer id are each neither empty nor whitespace only |
| `SeminarEntity.EntityAcceptsShortFields` | SeminarHub/Data/Seminar.cs:13-35 | the entity accepts one-character text fields and a zero duration: it has no lower length bound beyond "not blank" |
| `SeminarEntity.EntityDurationLimits` | SeminarHub/Data/Seminar.cs:34-35 | the entity duration range is [0, 180]: -1 and 181 are rejected, 0 and 180 accepted |
| `SeminarParticipants.RemoveFirst` | SeminarHub/Controllers/SeminarController.cs:101-109 | removing a row takes out exactly one occurrence of it (multiset minus that row); an absent row leaves the list unchanged; no row is added |
| `SeminarParticipants.WithoutSeminar` | SeminarHub/Controllers/SeminarController.cs:250-255 | the cascade keeps exactly the rows of other seminars, each with its multiplicity, and drops every row of the deleted seminar |
| `SeminarParticipants.UniqueCount` | SeminarHub/Controllers/SeminarController.cs:52-60 | under uniqueness a present (seminar, participant) row occurs exactly once |
| `SeminarParticipants.RemoveFirstKeepsUnique` | SeminarHub/Controllers/SeminarController.cs:101-109 | leaving keeps the rows unique and the removed pair is no longer present |
| `SeminarParticipants.WithoutSeminarKeepsUnique` | SeminarHub/Controllers/SeminarController.cs:250-258 | the cascade keeps the rows unique |
| `SeminarParticipants.JoinThenLeave` | SeminarHub/Controllers/SeminarController.cs:57-109 | leaving right after a join that added a row restores exactly the rows before the join |
| `SeminarParticipants.NothingToCascade` | SeminarHub/Controllers/SeminarController.cs:250-258 | when every row refers to a stored seminar, an id that is not stored has no rows, and the cascade for it changes nothing |
| `EditViewModel.ValidForm` | SeminarHub/Models/SeminarEditViewModel.cs:12-31 | the form's annotations: topic 5..100, lecturer 5..60 and details 10..500 characters and non-blank, organizer id required, duration in 30..180; schedule and category id are value types and always pass `[Required]` |
| `EditViewModel.TopicLength` | SeminarHub/Models/SeminarEditViewModel.cs:12-14 | in an otherwise valid form a non-blank topic is accepted exactly when it has 5..100 characters, both ends inclusive |
| `EditViewModel.TopicBoundary` | SeminarHub/Models/SeminarEditViewModel.cs:12-14 | a 4-character topic is rejected, a 5-character one accepted, and five spaces rejected by `[Required]` |
| `EditViewModel.LecturerAndDetailsLength` | SeminarHub/Models/SeminarEditViewModel.cs:16-22 | in an otherwise valid form a non-blank lecturer is accepted exactly at 5..60 characters and non-blank details exactly at 10..500, both ends inclusive |
| `EditViewModel.DurationRange` | SeminarHub/Models/SeminarEditViewModel.cs:30-31 | in an otherwise valid form the duration alone decides, 30..180 inclusive: 29 and 181 fail, 30 and 180 pass |
| `EditViewModel.OrganizerRequired` | SeminarHub/Models/SeminarEditViewModel.cs:24-25 | a valid form's organizer id is not whitespace only (that it is not empty is part of `ValidForm`'s own contract) |
| `Controllers.ValidFormFitsEntity` | SeminarHub/Models/SeminarEditViewModel.cs:12-31 | a valid form copied into any seminar by Edit POST's six assignments meets every entity limit (`MaxLength`, `Range(0,180)`, `Required`) exactly when that seminar's owner id is non-blank; Add's initializer is that copy into a default seminar owned by the caller |
| `Controllers.ToForm` | SeminarHub/Controllers/SeminarController.cs:168-177 | the form filled from a seminar leaves the organizer id empty, so as filled it never passes validation |
| `Controllers.ApplyForm` | SeminarHub/Controllers/SeminarController.cs:197-202 | overwriting the six form fields never changes the seminar's id or organizer |
| `Controllers.EditRoundTrip` | SeminarHub/Controllers/SeminarController.cs:168-202 | posting the Edit form back unchanged gives back the seminar; reading an edited seminar back gives the posted form, except the organizer id |
| `Controllers.FromForm` | SeminarHub/Controllers/SeminarController.cs:133-144 | the new seminar gets the given id and is owned by the caller, whatever organizer id the form holds; it is the default seminar with the six form fields applied |
| `Controllers.Summary` | SeminarHub/Controllers/SeminarController.cs:26-32 | one list line: the given id, the seminar's topic, lecturer and schedule, its category's name and its organizer's user name (the same shape the Joined query builds at lines 75-82) |
| `Controllers.AllLines` | SeminarHub/Controllers/SeminarController.cs:24-33 | the All query's lines: every stored seminar yields its line; when seminars are keyed by their own ids, every line is the line of the stored seminar with that id; an empty table gives no lines |
| `Controllers.JoinedRows` | SeminarHub/Controllers/SeminarController.cs:72-83 | every Joined line is a stored seminar the caller has a row for, under the row's seminar id; every such row yields a line; there are no more lines than rows |
| `Controllers.JoinedListsEachSeminarOnce` | SeminarHub/Controllers/SeminarController.cs:72-83 | with unique rows no seminar id appears on two lines of the Joined list |
| `Controllers.AllSummaryCount` | SeminarHub/Controllers/SeminarController.cs:24-33 | when every seminar is keyed by its own id, the All lines are exactly as many as the seminars |
| `Controllers.SeminarController.Valid` | SeminarHub/Data/SeminarParticipant.cs:8-11 | the store invariant: every seminar is stored under its own `[Key]` id (Seminar.cs:10-11) below the next key, so the next key is free; every row's `SeminarId` is the foreign key of a stored seminar; at most one row per (seminar, participant) pair, which `Join`'s check gives |
| `Controllers.SeminarController.constructor` | SeminarHub/Controllers/SeminarController.cs:15-18 | a controller over an empty store: no seminars, no rows, first key 1, invariant established |
| `Controllers.SeminarController.All` | SeminarHub/Controllers/SeminarController.cs:21-36 | every stored seminar appears on the All list, under its id with its topic, lecturer, category name, schedule and organizer name, and nothing else appears |
| `Controllers.SeminarController.AllListsEachSeminarOnce` | SeminarHub/Controllers/SeminarController.cs:24-33 | the All list has one line per stored seminar |
| `Controllers.SeminarController.Joined` | SeminarHub/Controllers/SeminarController.cs:68-86 | the Joined list holds exactly the seminars with a row `(s, caller)`, and it is empty when the caller has no rows |
| `Controllers.SeminarController.JoinedWithinAll` | SeminarHub/Controllers/SeminarController.cs:72-83 | every line on the caller's Joined list is also on the All list |
| `Controllers.SeminarController.Details` | SeminarHub/Controllers/SeminarController.cs:208-228 | a page exists exactly for a stored id; it shows that seminar's list line, details and duration; otherwise the view has no model |
| `Controllers.SeminarController.DetailsAgreeWithAll` | SeminarHub/Controllers/SeminarController.cs:210-225 | a stored seminar's Details page shows the same line the All list shows for it |
| `Controllers.SeminarController.AddForm` | SeminarHub/Controllers/SeminarController.cs:115-124 | the Add page starts from a blank form, which does not pass validation |
| `Controllers.SeminarController.EditForm` | SeminarHub/Controllers/SeminarController.cs:152-179 | the form is shown exactly when the seminar exists and the caller is its organizer, otherwise `BadRequest`; posting it back unchanged leaves the seminar as stored |
| `Controllers.SeminarController.Delete` | SeminarHub/Controllers/SeminarController.cs:230-243 | the confirmation page shows the stored seminar for an existing id, whoever asks, and `BadRequest` otherwise |
| `Controllers.SeminarController.Join` | SeminarHub/Controllers/SeminarController.cs:39-65 | unknown id: `BadRequest`, nothing changes; an existing row: redirect to Joined, nothing changes; otherwise exactly `(id, caller)` is appended; afterwards the pair has exactly one row; invariant kept |
| `Controllers.SeminarController.Leave` | SeminarHub/Controllers/SeminarController.cs:89-114 | unknown id or no row for the caller: `BadRequest`, nothing changes; otherwise that one row goes, every other row keeps its multiplicity, seminars unchanged, redirect to All |
| `Controllers.SeminarController.Add` | SeminarHub/Controllers/SeminarController.cs:126-150 | stores the form's six fields under a fresh key, owned by the caller, without validating; existing seminars and rows are unchanged; the new seminar has no members; a valid form with a non-blank caller gives an entity-valid row |
| `Controllers.SeminarController.Edit` | SeminarHub/Controllers/SeminarController.cs:181-206 | unknown id or a caller who is not the organizer: `BadRequest`, nothing changes; otherwise exactly the six fields are overwritten; ids, organizers and rows never change; a valid form posted by a non-blank organizer leaves an entity-valid row |
| `Controllers.SeminarController.DeleteConfirmed` | SeminarHub/Controllers/SeminarController.cs:245-265 | existing id: every row of the seminar goes, then the seminar, with no ownership check; missing id: no-op; always redirect to All; the invariant "every row refers to an existing seminar" is kept |
| `Controllers.GraphsSeminarScenario` | SeminarHub/Controllers/SeminarController.cs:39-264 | A adds "Intro to Graphs"; B joins twice and has one row; it is on B's Joined list; after A deletes it, B's list is empty and Details has no seminar |

## Left out

- Persistence: EF Core querying, `Include`, `AsNoTracking`, `FindAsync`, `SaveChangesAsync`, `async` and transactions. The model reads and updates the map and the row list directly, one request at a time.
- Concurrency between requests, and any database composite-key constraint on membership rows. Uniqueness is proved from `Join`'s check alone.
- Database enforcement at save time. A column too long or a duplicate key would make a real save fail, but the model stores what `Add` and `Edit` give it.
- MVC plumbing: views, `RedirectToAction`, routing, authorization attributes and model binding. An empty posted field that binding turns into `null` is not modelled, because strings here are never null.
- Identity: claims lookup becomes the caller parameter. Organizer user names and category names are lookup functions passed in as `Names`. That the referenced user and category exist is not modelled.
- Date formatting: the schedule is an opaque tick count, and the Details page carries it unformatted instead of the `dd/MM/yyyy HH:mm` string.
- `GetCategories` and the form's category list: drop-down data with no behaviour.
- The category entity: the file that declares it is not part of this model. Only its name-length constants are.
- Integer widths: seminar ids, durations and category ids are unbounded integers. The 32-bit range and identity-key overflow are not modelled. The validated ranges lie well inside 32 bits.
- String length: lengths count Unicode scalar values. .NET counts UTF-16 code units, so a character outside the Basic Multilingual Plane counts as one here and as two there.
- Controllers.SeminarController.All: returns a set of lines rather than a list, because the query has no ordering. Row order and repeated lines are therefore not captured.
