# In-memory to-do store

A Dafny model of the to-do store behind a small demo HTTP service (`server.js`).
The service keeps one process-wide, ordered list of to-do items, each a
`{text, complete}` record. Items have no identifier and are addressed only by
their position. The list is seeded with two items at startup and is changed by
three request handlers:

- add (`/api/add`, and `addTodo` at startup) appends an item;
- remove (`/api/remove`) replaces the whole list by an empty one;
- toggle (`/api/toggle/:index`) rebuilds the list with `map`, inverting
  `complete` on the item whose position equals the index. When no position
  matches, nothing changes.

Files:

- `wrappers.dfy`, module `Wrappers`: the `Option` datatype.
- `server.dfy`, module `Server`: the `Todo` datatype and the seed items.
  It also holds the toggle map as pure functions (`ToggleFrom`, `ToggleAt`) with
  their lemmas, and the class `TodoStore`. The class's field `items` is the
  module-level `todos` array, and its methods are the in-place updates the
  handlers make. A few client methods at the end compose requests.

The toggle route parameter is a string, compared with a position by
JavaScript's loose equality `i == index`. The model takes it already coerced
to a number, as an `Index = Option<int>`. `Some(n)` stands for a string that
coerces to the integer `n` ("2" and "02" both give 2). `None` stands for one
that coerces to NaN or to a non-integer, and so equals no position.

## Model

| member | source | states |
|---|---|---|
| `Server.ToggleFrom` | server.js:16-18 | the list the toggle map builds has exactly as many items as the list it maps over |
| `Server.ToggleFromAt` | server.js:16-17 | the item at each position of the mapped list is the callback applied to the original item and its position: flipped when the position equals the index, untouched otherwise |
| `Server.ToggleAtSpec` | server.js:15-19 | toggling at a position `k` of the list inverts `complete` of item `k` only, keeping its text and every other item; toggling at a negative index, an index at or beyond the length, or a non-numeric index leaves the list exactly as it was |
| `Server.ToggleChangesIff` | server.js:17 | a toggle changes the list if and only if its index names a position of the list |
| `Server.ToggleInvolution` | server.js:17 | toggling twice at the same index, valid or not, restores the original list |
| `Server.ToggleCommutes` | server.js:15-19 | two toggle requests give the same list in either order |
| `Server.AddThenToggle` | server.js:40-48 | appending item `t` and toggling at the old length gives the old list followed by `t` with `complete` negated |
| `Server.TodoStore.constructor` | server.js:21-29 | at startup the list holds exactly ("Go and get some milk", false) then ("Write some demo code", true) |
| `Server.TodoStore.Add` | server.js:11-13 | the new list is the old one followed by the item: length grows by one, the last item is the added one, every earlier item is unchanged |
| `Server.TodoStore.Remove` | server.js:35-38 | the list is empty afterwards, whatever it held |
| `Server.TodoStore.Toggle` | server.js:45-48 | the list becomes the toggle of the old list at the index: same length, item `k` flipped when the index names position `k`, unchanged otherwise |
| `Server.RemoveTwice` | server.js:35-38 | remove is idempotent: two consecutive removes still leave the list empty |
| `Server.AddThenToggleNew` | server.js:40-48 | an add request followed by a toggle at the new item's position stores the item with its flag negated after the unchanged earlier items |
| `Server.EggsSession` | server.js:21-48 | from a fresh start, adding ("Buy eggs", false) gives three items with it last; toggling position 2 makes it complete; a remove and a second remove both give the empty list |

## Left out

- Express, cors and body-parser setup and the routing itself (server.js:1-7): framework plumbing over libraries that are not part of this model.
- The GET handler (server.js:31-33) and every `res.json` reply: they only serialise the list and change nothing.
- `app.listen` and its log line (server.js:50-52): I/O.
- Arbitrary JSON bodies accepted by `/api/add` (server.js:41): items are modelled as well-formed `(text, complete)` records, so JavaScript truthiness of a missing or non-boolean `complete` under `!` is not modelled.
- The exact JavaScript string-to-number coercion performed by `i == index` (server.js:17): the route parameter is taken already coerced, as an `Option<int>`.
- `Object.assign` mutating the stored item object in place (server.js:17): with value semantics the resulting list is the same, so aliasing of item objects is not modelled.
- Concurrency: there is none; each handler is a synchronous read-modify-write of the list.
