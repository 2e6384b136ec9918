# Portfolio repository and session gate, in Dafny

This project models the state-bearing core of a personal-portfolio page's
`script.js`. The page keeps two ordered collections, projects and work
experiences, in the browser's `localStorage` under the keys `"projects"` and
`"experiences"`. It offers add, edit and delete on them. Those three actions
are gated by a 30-minute `adminSession` entry in `sessionStorage`, and an
action router opens the matching overlay when the page loads with the right
query parameters.

Modules, one per component:

- `Wrappers` (wrappers.dfy): `Option`, used for absent keys, failed lookups and NaN.
- `Entities` (entities.dfy): records as `Entity<F>(id, fields)`.
  - `Project` is `Entity<ProjectFields>` and `Experience` is `Entity<ExperienceFields>`.
  - The mutable fields sit apart from the id, so an edit cannot change an id.
  - Also holds the first-run default collections.
- `JsNumber` (js_number.dfy): ECMAScript's global `parseInt(string)` without a radix.
  - Leading white space and line terminators are skipped, then an optional sign.
  - A `0x`/`0X` prefix selects radix 16; then the longest run of digits is read.
  - NaN is `None`. Every id argument goes through this function before it is compared.
- `Collection` (collection.dfy): `findIndex`, `find`, the field overwrite at the first match, and the `filter` that drops an id.
  - Written once, generic over the record kind.
- `Text` (text.dfy): `truncateText`.
- `Session` (session.dfy): the gate.
  - `SessionStore` is a class whose one field is the `adminSession` entry.
  - `CheckAuthentication` and `ClearSession` are its methods.
- `Router` (router.dfy): `handleURLParameters` and `clearSessionAndURL`.
  - The query is a map from parameter name to its first value.
  - The result is one `Action` value.
- `Store` (store.dfy): `LocalStore`, a class with the fields `projects` and `experiences` of type `Option<seq<…>>`.
  - `None` means the key is absent.
  - Its methods are the twelve repository operations and `initializeApp`, written as read, modify, write back.
- `Scenarios` (scenarios.dfy): whole flows in which an id travels as decimal text and is read back with `parseInt`.

The clock (`Date.now()`) is a parameter everywhere. `InitializeApp` takes one
reading per default record, because the source calls `Date.now()` once per
record.

Behaviours of the code a reader may not expect, which the model follows:

- `checkAuthentication` removes the session only when it has expired.
  - A present session with `loggedIn` false answers false and stays in place.
- An expired session is removed only when the query asks for some action.
  - Only then does the router call `checkAuthentication`.
- `deleteProject`/`deleteExperience` always write the key, even when no record matches.
  - An absent key thus becomes an empty collection, which first-run seeding then leaves alone.
- `addProject`/`addExperience` do not guarantee a fresh id: the id is the clock reading.
  - Uniqueness is proved only under the premise that the reading exceeds every stored id (`Collection.AppendKeepsUniqueIds`).

## Model

| member | source | states |
|---|---|---|
| `JsNumber.TrimStart` | script.js:178 | the text parseInt reads starts at the first character that is not white space or a line terminator; everything skipped is such a character |
| `JsNumber.LeadingDigits` | script.js:178 | parseInt reads the longest prefix made of digits of the radix: every character before it is a digit, the next one is not |
| `JsNumber.ParseIntDecimalText` | script.js:178 | parseInt reads the decimal text of any integer id back as that id, also after leading white space and before any trailing text that does not continue the number |
| `JsNumber.ParseInt` | script.js:178 | parseInt of an id argument gives a number only when, after leading white space, the text starts with a sign or a decimal digit, and a negative number only after '-'; `ParseIntDecimalText` and `NoDigitsIsNaN` state what it reads back |
| `JsNumber.DecimalText` | script.js:153 | a numeric id printed into an inline handler is a '-' exactly for a negative id, followed by decimal digits; `ParseIntDecimalText` proves parseInt reads it back as the same id |
| `JsNumber.NoDigitsIsNaN` | script.js:178 | an argument with no digit (and no sign) where the number must start parses to NaN, which matches no record |
| `Entities.DefaultProjects` | script.js:24-40 | the seeded projects are three records; their ids `t1+1`, `t2+2`, `t3+3` are pairwise distinct when the clock readings do not go backwards |
| `Entities.DefaultExperiences` | script.js:46-54 | the seeded experiences are one record with id `t+1` |
| `Collection.IndexOfFirst` | script.js:399 | `findIndex` by id gives the index of a record with the parsed id with no earlier such record, and gives nothing exactly when no record has that id |
| `Collection.IndexOfFirstIs` | script.js:811 | any index that matches with no earlier match is the one `findIndex` returns |
| `Collection.FindFirst` | script.js:176-179 | `find` by id gives nothing exactly when no record has the parsed id; otherwise a record of the collection with that id, preceded by no other such record |
| `Collection.UpdateFirst` | script.js:399-403 | overwriting at the first match keeps the length and every id; the matched record takes the new fields and every other record is unchanged; with no match the collection is unchanged |
| `Collection.RemoveId` | script.js:451 | the filter keeps no record with the id, keeps every record without it, adds nothing, and returns the collection unchanged exactly when no record had the id |
| `Collection.RemoveIdAppend` | script.js:865 | filtering a concatenation is the concatenation of the filtered parts, so relative order is kept |
| `Collection.RemoveIdIdempotent` | script.js:449-458 | deleting the same id twice is deleting it once |
| `Collection.RemoveIdKeepsUniqueIds` | script.js:863-872 | deleting keeps the ids of a collection pairwise distinct |
| `Collection.AppendKeepsUniqueIds` | script.js:321-334 | appending a record whose id exceeds every stored id keeps ids pairwise distinct |
| `Collection.UpdateKeepsUniqueIds` | script.js:809-823 | editing keeps the ids of a collection pairwise distinct |
| `Collection.FindAfterAppend` | script.js:715-730 | after an append, lookup finds an earlier record with the id if there is one, else the appended record if it has the id, else nothing |
| `Collection.FindAfterUpdate` | script.js:397-409 | after an edit, lookup by the same id finds the record it found before, carrying the new fields |
| `Collection.RemoveAppended` | script.js:449-458 | deleting the id of a record just appended to a collection that lacked that id restores the collection |
| `Text.TruncateText` | script.js:472-475 | a text of length at most `maxLength` is returned as it is; a longer one becomes its first `maxLength` characters followed by "...", of length `maxLength + 3` |
| `Text.TruncateTextIdempotent` | script.js:472-475 | truncating an already truncated text changes nothing |
| `Text.TruncateTextIsPrefixExtension` | script.js:472-475 | the result is the text itself or a prefix of the text followed by "..." |
| `Session.Authenticated` | script.js:213-228 | the gate is open exactly when a session exists, its `loggedIn` is true and at most 30 minutes have passed; exactly 30 minutes still counts |
| `Session.AfterCheck` | script.js:221-225 | after a check the entry is either unchanged or removed; it is removed exactly when it was absent or expired, so an entry within the 30-minute window is kept |
| `Session.CheckIsStable` | script.js:213-228 | a second check at the same instant answers as the first and leaves the entry as the first left it |
| `Session.SessionStore.CheckAuthentication` | script.js:213-228 | no session answers false; an expired one is removed and answers false; otherwise the session stays and its `loggedIn` is the answer |
| `Session.SessionStore.ClearSession` | script.js:263-266 | the session entry is removed |
| `Router.Requested` | script.js:231-259 | each action is chosen exactly when its own parameters are present and those of every earlier branch (add, edit, delete project, then add, edit, delete experience) are not; an edit or delete action carries the `id` parameter's value; nothing is requested exactly when no action parameter is present, or only edit/delete ones without `id` |
| `Router.ProjectActionsFirst` | script.js:234-259 | any project action in the query takes precedence over every experience action |
| `Router.HandleUrlParameters` | script.js:231-266 | the requested action is dispatched exactly when the gate is open, and nothing otherwise; a dispatch removes the session; with no action requested the session is untouched; a refused request removes an expired session and keeps any other |
| `Store.LocalStore.InitializeApp` | script.js:22-57 | each absent key receives its default collection; a present key, even an empty one, is left untouched |
| `Store.LocalStore.GetProjects` | script.js:165-168 | an absent key reads as no record; a present one reads as exactly the stored collection |
| `Store.LocalStore.SaveProjects` | script.js:171-173 | the key then holds exactly the given collection (so a read returns it) and the other key is untouched |
| `Store.LocalStore.GetProjectById` | script.js:176-179 | the result is `Collection.FindFirst` of the stored projects with the parsed id: nothing exactly when no stored project has that id, otherwise the first stored project with it |
| `Store.LocalStore.AddProject` | script.js:321-334 | the collection becomes the old one (empty if absent) with one project appended, whose id is the clock reading and whose fields are the given ones |
| `Store.LocalStore.UpdateProject` | script.js:397-409 | with a match, only the first matching project's title and description change; with none, the key is not written at all |
| `Store.LocalStore.DeleteProject` | script.js:449-458 | the key then holds exactly the stored projects whose id differs from the parsed id, in order |
| `Store.LocalStore.GetExperiences` | script.js:589-592 | an absent key reads as no record; a present one reads as exactly the stored collection |
| `Store.LocalStore.SaveExperiences` | script.js:595-597 | the key then holds exactly the given collection and the other key is untouched |
| `Store.LocalStore.GetExperienceById` | script.js:600-603 | the result is `Collection.FindFirst` of the stored experiences with the parsed id: nothing exactly when no stored experience has that id, otherwise the first stored experience with it |
| `Store.LocalStore.AddExperience` | script.js:715-730 | the collection becomes the old one with one experience appended, with id equal to the clock reading and the four given fields |
| `Store.LocalStore.UpdateExperience` | script.js:809-823 | with a match, only the first matching experience's four fields change; with none, the key is not written at all |
| `Store.LocalStore.DeleteExperience` | script.js:863-872 | the key then holds exactly the stored experiences whose id differs from the parsed id, in order |
| `Scenarios.FindAddedByText` | script.js:600-603 | a record just added with a new id is what a lookup by the decimal text of that id finds |
| `Scenarios.DeleteAddedByText` | script.js:863-872 | deleting by the decimal text of the id of a record just added with a new id restores the collection |
| `Scenarios.SaveThenGet` | script.js:589-597 | reading both collections back after saving them returns exactly what was saved |
| `Scenarios.AddThenDeleteExperience` | script.js:715-730 | from no experience, adding one and then deleting it by its id leaves the collection empty again |
| `Scenarios.EmptiedStaysEmpty` | script.js:22-57 | a collection emptied by delete is not reseeded by first-run initialisation |

## Left out

- Rendering is not modelled: `loadProjects`/`loadExperiences`, the card builders, the overlay builders and `closeModal`/`closeExperienceModal`, `setupEventListeners` and the contact-form stub.
  - They are HTML templates and event wiring with no state of their own.
  - The submit handlers' check that every trimmed field is non-empty belongs to them and is not modelled.
- `escapeHtml` is not modelled: it delegates to the browser's own serialiser, whose mapping is not visible here.
- `showNotification` and its injected animation styles are not modelled: they are timed cosmetic output.
- `JSON.parse`/`JSON.stringify` are not modelled: the store holds collections directly.
  - Malformed stored text, which the source does not guard against, is therefore not represented.
  - Stored fields are assumed to have their declared types (integer ids, text fields, a boolean `loggedIn`, an integer `timestamp`).
- Navigation is not modelled: `redirectToLogin`, the address rewrite in `clearSessionAndURL` and what the dispatched overlay then shows.
  - The router's result is the `Action` value.
- `handleExperienceURLParameters` is not modelled: it duplicates part of `handleURLParameters` and nothing calls it.
- Router.HandleUrlParameters: takes one clock reading for all its gate checks, where the source reads the clock afresh in each `checkAuthentication` call.
- JsNumber.ParseInt: takes text. The source also receives numbers printed into inline handlers; it converts them to their decimal text first, which `ParseIntDecimalText` covers.
- JsNumber.ParseInt: ids and parsed values are unbounded integers. The source's numbers are doubles, exact only up to 2^53; clock readings stay far below that.
- Text.TruncateText: counts characters as Unicode scalar values. The source counts UTF-16 code units and can cut a surrogate pair in half.
- Text.TruncateText: takes a non-negative `maxLength`; the source only ever passes 100.
- Store.LocalStore.AddProject and Store.LocalStore.AddExperience: no fresh id is promised, because the source takes the id from the clock. `Collection.AppendKeepsUniqueIds` states the premise under which ids stay distinct.
