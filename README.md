# Blog post store of the masterblog API, in Dafny

This project models the core of the Flask back end in `backend/backend_app.py`. The core is an
in-memory store of blog posts: the process-wide list `POSTS`, which starts with two seeded
posts. A client can read the list and create posts. A create validates the JSON payload first.
A payload with a missing or blank `title` or `content` is rejected with "Invalid post data" and
the store is left alone. A valid payload gets the id `max(existing ids) + 1`, replacing any `id`
the client sent, and is appended to the list and returned.

Two modules, one per concern of the source file:

- `Validation` (`validation.dfy`) holds the JSON value and payload types. It also holds the
  whitespace set and `strip()` of Python strings, and `validate_post_data` as the pure function
  `ValidPostData`.
- `Posts` (`post_store.dfy`) holds stored posts (the payload dict with its `id` set), the id
  generator, the seed, and the store invariant with the lemmas that keep it. It also holds the
  class `PostStore`, whose field `posts` is `POSTS`, with the methods `Create` (the POST branch
  of `manage_books`) and `List` (`get_posts` and the GET branch).

The store invariant `StoreInvariant` has four parts. The list is non-empty. Every post has a
positive integer id. Every post passes `validate_post_data`. Ids strictly increase in list
order, so they are pairwise distinct. The seed satisfies it, and every create preserves it.

On an empty list, `max()` raises. No operation in this file removes a post, so the list cannot
become empty. The model states this as the non-emptiness part of `PostStore.Valid()`, which
`Create` requires. It does not invent an id for the empty case.

`validate_post_data` answers a missing field and a blank field alike with `False`, so
`ValidPostData` returns a single `bool`.

Two scenario methods, each starting from a fresh store, show `Create` at work. `BlankTitleRejected` sends a blank title,
which is rejected and leaves the seed in place. `ThirdPostGetsNextId` sends a payload carrying
its own `id` 99; the post is stored with id 3 and listed third.

## Model

| member | source | states |
|---|---|---|
| `Validation.TrimLeft` | backend/backend_app.py:44 | the result is the longest suffix of the input that does not start with whitespace, and everything it drops is whitespace |
| `Validation.TrimRight` | backend/backend_app.py:44 | the result is the longest prefix of the input that does not end with whitespace, and everything it drops is whitespace |
| `Validation.Strip` | backend/backend_app.py:44 | `strip()` yields "" exactly when the string is all whitespace (Python's `isspace` set), and otherwise starts and ends with a non-whitespace character |
| `Validation.StripKeepsInfix` | backend/backend_app.py:44 | `strip()` returns the infix of the string that starts where `lstrip()` stops; everything dropped before and after it is whitespace |
| `Validation.StripIdempotent` | backend/backend_app.py:44 | stripping a stripped string changes nothing |
| `Validation.ValidPostData` | backend/backend_app.py:41-46 | on every payload for which the source does not raise: false when `title` or `content` is missing, false when either is a blank string, and true exactly when both are present, both are strings and neither is all whitespace |
| `Validation.NonStringValuesRejectedEarly` | backend/backend_app.py:42-45 | `{"title": 5}` and `{"title": "  ", "content": 5}` are rejected without `.strip()` ever touching a non-string value |
| `Validation.OtherFieldsIgnored` | backend/backend_app.py:41-46 | keys other than `title` and `content`, such as a client `id`, do not affect validation |
| `Posts.MaxId` | backend/backend_app.py:29 | `max` over the ids of a non-empty list is at least every id and is the id of some post |
| `Posts.NextId` | backend/backend_app.py:29 | the generated id is strictly greater than every id in the store and is one more than an existing id |
| `Posts.Stamp` | backend/backend_app.py:30 | after `new_post['id'] = new_id` the record's id is the generated one, its keys are the payload's plus `id`, and every other payload value is kept |
| `Posts.NewPost` | backend/backend_app.py:29-30 | the record a create appends: the payload with `id` set to `NextId(posts)` (the largest stored id plus 1), so above every id in the store, with every other payload value kept |
| `Posts.StampKeepsValidity` | backend/backend_app.py:30 | setting the id does not change whether the payload passes validation |
| `Posts.StampedIsWellFormed` | backend/backend_app.py:25-30 | a validated payload with a positive generated id is a well-formed stored post |
| `Posts.CreateKeepsIdsDistinct` | backend/backend_app.py:29-33 | if ids are pairwise distinct before a create, they stay pairwise distinct after the new post is appended |
| `Posts.AppendKeepsIdsIncreasing` | backend/backend_app.py:33 | appending a post whose id exceeds every present id keeps ids strictly increasing in list order |
| `Posts.AppendKeepsWellFormed` | backend/backend_app.py:33 | appending a well-formed post keeps every post well formed |
| `Posts.CreatePreservesInvariant` | backend/backend_app.py:25-33 | a create on a valid payload preserves the store invariant: non-empty, well-formed posts, increasing and so unique ids |
| `Posts.NextIdFollowsLast` | backend/backend_app.py:29 | in a store whose ids increase, the generated id is the last post's id plus 1 |
| `Posts.MakePost` | backend/backend_app.py:8-9 | a seeded post has exactly the keys `id`, `title` and `content` with the given values |
| `Posts.Seed` | backend/backend_app.py:7-10 | `POSTS` starts with two posts |
| `Posts.SeedIds` | backend/backend_app.py:7-10 | the two seeded posts carry the ids 1 and 2, in that order |
| `Posts.MadePostWellFormed` | backend/backend_app.py:8-9 | a post with a positive id, and a title and a content that each start with a non-whitespace character, is well formed |
| `Posts.TwoPostsInvariant` | backend/backend_app.py:7-10 | two well-formed posts in increasing id order satisfy the store invariant |
| `Posts.SeedInvariant` | backend/backend_app.py:7-10 | the seeded `POSTS` (ids 1 and 2) satisfies the store invariant |
| `Posts.PostStore.constructor` | backend/backend_app.py:7-10 | the store starts as the seed and satisfies its invariant |
| `Posts.PostStore.Create` | backend/backend_app.py:20-36 | an invalid payload gives the "Invalid post data" outcome and leaves `POSTS` unchanged. A valid one gets the next id, is appended as the last element with all earlier posts unchanged and in order, and is returned. Its id is above every earlier id, and the invariant is kept |
| `Posts.PostStore.List` | backend/backend_app.py:14-15 | the list read, and equally the GET branch at lines 37-39, returns the posts as stored, in order: non-empty and with pairwise distinct ids |

## Left out

- Flask app construction, routing decorators, `request.get_json`, `jsonify`, HTTP status codes and `app.run` are framework I/O. Outcomes are modelled as the `Outcome` value: `Created` stands for status 201 and `Rejected` for status 400.
- CORS setup: middleware with no logic here.
- The two route registrations on `/api/posts` for GET: both handlers return `POSTS` unchanged, so `PostStore.List` stands for both.
- A request body that is not a JSON object is not modelled. A `None` body makes the `in` test at backend/backend_app.py:42 raise. A JSON array gets the 400 reply unless it holds both `"title"` and `"content"` as elements; then the indexing at backend/backend_app.py:44 raises. A JSON string is searched for the two key names as substrings: without both it gets the 400 reply, and with both the indexing at backend/backend_app.py:44 raises.
- `ValidPostData` and `PostStore.Create` require `Strippable`: a non-string value that `.strip()` would be called on is not modelled, since the source raises there (an error reply from the framework, with the store untouched). `Strippable` excludes only those payloads. A payload with a non-string title and no content, or a blank title and a non-string content, is inside it and is rejected as the source rejects it (`NonStringValuesRejectedEarly`).
- JSON values other than strings and integers (floats, booleans, null, arrays, nested objects) are not modelled. Payload values are `Str` or `Int`.
- Key order of the JSON dict and aliasing are not modelled. In the source, the returned dict is the same object as the one appended to `POSTS`. The model returns an equal value, because `Create` states that the outcome's post equals the last stored element.
- Concurrency: the source mutates an unguarded global list. Operations are modelled as sequential.
- Update, delete, search and sorting are not in this source file, so there is nothing to model.
